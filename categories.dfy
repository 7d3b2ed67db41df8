/** The category-list rules of `FirebaseService` (js/firebase-service.js): the default list,
    and the lists that adding, deleting and renaming a category produce. */
module Categories {
  import opened Common

  /** The list used when the database has no categories or cannot be read. */
  const DefaultCategories: seq<string> := ["All", "Electronics", "Accessories", "Sports", "Home"]

  /** `getCategories`: the stored list, or the default one when nothing is stored or the
      read fails. */
  function CategoriesOrDefault(stored: Option<seq<string>>, readFailed: bool): (r: seq<string>)
    ensures readFailed || stored.None? ==> r == DefaultCategories
    ensures !readFailed && stored.Some? ==> r == stored.value
  {
    if readFailed then DefaultCategories
    else match stored
      case None => DefaultCategories
      case Some(list) => list
  }

  /** `Array.prototype.indexOf`: the position of the first occurrence. */
  function IndexOf(cats: seq<string>, name: string): (r: Option<nat>)
    ensures r.Some? ==> r.value < |cats| && cats[r.value] == name
    ensures r.Some? ==> forall j :: 0 <= j < r.value ==> cats[j] != name
    ensures r.None? <==> name !in cats
  {
    if cats == [] then None
    else if cats[0] == name then Some(0)
    else match IndexOf(cats[1..], name)
      case None => None
      case Some(k) => Some(k + 1)
  }

  /** The list `addCategory` writes: the name is pushed only when it is not there yet. */
  function AddedCategory(cats: seq<string>, name: string): seq<string>
  {
    if name in cats then cats else cats + [name]
  }

  /** `categories.filter(cat => cat !== name && cat !== 'All')`. */
  function WithoutCategory(cats: seq<string>, name: string): (r: seq<string>)
    ensures forall c :: c in r <==> c in cats && c != name && c != "All"
    ensures forall c :: multiset(r)[c] == if c != name && c != "All" then multiset(cats)[c] else 0
    ensures IsSubsequence(r, cats)
  {
    if cats == [] then []
    else
      assert cats == [cats[0]] + cats[1..];
      if cats[0] != name && cats[0] != "All" then [cats[0]] + WithoutCategory(cats[1..], name)
      else WithoutCategory(cats[1..], name)
  }

  /** The list `deleteCategory` writes and returns: the filtered list with `'All'` put back
      in front when it is missing. */
  function DeletedCategory(cats: seq<string>, name: string): seq<string>
  {
    var filtered := WithoutCategory(cats, name);
    if "All" !in filtered then ["All"] + filtered else filtered
  }

  /** The list `updateCategory` writes: the first occurrence of the old name, if any,
      replaced by the new name. */
  function RenamedCategory(cats: seq<string>, oldName: string, newName: string): seq<string>
  {
    match IndexOf(cats, oldName)
    case None => cats
    case Some(i) => cats[i := newName]
  }

  // ---------------------------------------------------------------- properties

  /** Adding puts the name at the end only when it is absent, so no duplicate appears, and
      adding it a second time changes nothing. */
  lemma AddedCategoryEffect(cats: seq<string>, name: string)
    ensures name in AddedCategory(cats, name)
    ensures name in cats ==> AddedCategory(cats, name) == cats
    ensures name !in cats ==> AddedCategory(cats, name) == cats + [name]
    ensures NoDuplicates(cats) ==> NoDuplicates(AddedCategory(cats, name))
    ensures AddedCategory(AddedCategory(cats, name), name) == AddedCategory(cats, name)
  {
    var r := AddedCategory(cats, name);
    if NoDuplicates(cats) && name !in cats {
      forall i, j | 0 <= i < j < |r| ensures r[i] != r[j] {
        if j == |cats| {
          assert r[i] == cats[i];
        }
      }
    }
  }

  /** After a delete, `'All'` stands at the front exactly once; the deleted name is gone
      unless it was `'All'`; the rest are exactly the other categories, each as often as
      before, in their order. */
  lemma DeletedCategoryEffect(cats: seq<string>, name: string)
    ensures var r := DeletedCategory(cats, name);
      && |r| >= 1 && r[0] == "All" && "All" !in r[1..]
      && (name != "All" ==> name !in r)
      && (forall c :: c in r[1..] <==> c in cats && c != name && c != "All")
      && (forall c :: multiset(r[1..])[c] == if c != name && c != "All" then multiset(cats)[c] else 0)
      && IsSubsequence(r[1..], cats)
  {
    var filtered := WithoutCategory(cats, name);
    assert "All" !in filtered;
    assert (["All"] + filtered)[1..] == filtered;
  }

  /** A delete keeps a list without duplicates free of them. */
  lemma DeletedCategoryNoDuplicates(cats: seq<string>, name: string)
    requires NoDuplicates(cats)
    ensures NoDuplicates(DeletedCategory(cats, name))
  {
    WithoutCategoryNoDuplicates(cats, name);
    var filtered := WithoutCategory(cats, name);
    var r := ["All"] + filtered;
    forall i, j | 0 <= i < j < |r| ensures r[i] != r[j] {
      assert r[j] == filtered[j - 1];
      if i > 0 {
        assert r[i] == filtered[i - 1];
      } else {
        assert r[j] in filtered;
      }
    }
  }

  lemma {:induction false} WithoutCategoryNoDuplicates(cats: seq<string>, name: string)
    requires NoDuplicates(cats)
    ensures NoDuplicates(WithoutCategory(cats, name))
  {
    if cats != [] {
      assert NoDuplicates(cats[1..]);
      WithoutCategoryNoDuplicates(cats[1..], name);
      var rest := WithoutCategory(cats[1..], name);
      if cats[0] != name && cats[0] != "All" {
        var r := [cats[0]] + rest;
        forall i, j | 0 <= i < j < |r| ensures r[i] != r[j] {
          assert r[j] == rest[j - 1] && r[j] in cats[1..];
          if i > 0 {
            assert r[i] == rest[i - 1];
          }
        }
      }
    }
  }

  /** A rename replaces only the first occurrence of the old name, at the same index, and
      keeps the length; without the old name the list is unchanged. */
  lemma RenamedCategoryEffect(cats: seq<string>, oldName: string, newName: string)
    ensures |RenamedCategory(cats, oldName, newName)| == |cats|
    ensures oldName !in cats ==> RenamedCategory(cats, oldName, newName) == cats
    ensures oldName in cats ==>
      exists i ::
        && 0 <= i < |cats|
        && cats[i] == oldName
        && (forall j :: 0 <= j < i ==> cats[j] != oldName)
        && RenamedCategory(cats, oldName, newName)[i] == newName
        && (forall j :: 0 <= j < |cats| && j != i ==> RenamedCategory(cats, oldName, newName)[j] == cats[j])
  {
    if oldName in cats {
      var i := IndexOf(cats, oldName).value;
      assert cats[i] == oldName;
    }
  }
}
