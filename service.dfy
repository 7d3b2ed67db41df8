/** `FirebaseService` (js/firebase-service.js) over an in-memory copy of the realtime
    database: the `products`, `categories`, `categoryMetadata`, `orders` and `admin` nodes
    are fields, an absent key-to-record node is the empty map, and what reads, uploads,
    push keys and the server clock deliver comes in as parameters. */
module Service {
  import opened Common
  import opened Categories
  import opened Orders

  /** A product record under `products/<key>`. */
  datatype ProductRecord = ProductRecord(
    name: string,
    category: string,
    price: nat,
    description: string,
    image: string,
    inStock: bool)

  /** The credentials record under `admin`. */
  datatype AdminRecord = AdminRecord(username: string, password: string, email: string)

  /** Extra fields kept for a category under `categoryMetadata/<name>`. */
  type Metadata = map<string, string>

  /** The record `createDefaultAdmin` writes. */
  const DefaultAdmin := AdminRecord("admin", "admin123", "admin@beverlyshop.com")

  /** `list` lists node `m` completely: one element per key, carrying that key's record. */
  ghost predicate ListsMap<T>(list: seq<Listed<T>>, m: map<Key, T>)
  {
    && |list| == |m|
    && (forall i :: 0 <= i < |list| ==> list[i].id in m && list[i].data == m[list[i].id])
    && (forall i, j :: 0 <= i < j < |list| ==> list[i].id != list[j].id)
    && (forall k :: k in m ==> exists i :: 0 <= i < |list| && list[i].id == k)
  }

  /** `Object.keys(m).map(key => ({ id: key, ...m[key] }))`. The key order is the
      backend's, so it is left open here. */
  method ListEntries<T>(m: map<Key, T>) returns (list: seq<Listed<T>>)
    ensures ListsMap(list, m)
    ensures m == map[] ==> list == []
  {
    var keys := m.Keys;
    list := [];
    while keys != {}
      invariant keys <= m.Keys
      invariant |list| + |keys| == |m|
      invariant forall i :: 0 <= i < |list| ==> list[i].id in m && list[i].id !in keys && list[i].data == m[list[i].id]
      invariant forall i, j :: 0 <= i < j < |list| ==> list[i].id != list[j].id
      invariant forall k :: k in m && k !in keys ==> exists i :: 0 <= i < |list| && list[i].id == k
      decreases keys
    {
      var k :| k in keys;
      ghost var before := list;
      list := list + [Listed(k, m[k])];
      keys := keys - {k};
      forall key | key in m && key !in keys ensures exists i :: 0 <= i < |list| && list[i].id == key {
        if key == k {
          assert list[|before|].id == key;
        } else {
          var i :| 0 <= i < |before| && before[i].id == key;
          assert list[i].id == key;
        }
      }
    }
  }

  /** A product whose category was the old name carries the new one; others are untouched. */
  function Retagged(p: ProductRecord, oldName: string, newName: string): ProductRecord
  {
    if p.category == oldName then p.(category := newName) else p
  }

  /** Every product of the old category moved to the new one, and nothing else changed. */
  function RetagAll(m: map<Key, ProductRecord>, oldName: string, newName: string): (r: map<Key, ProductRecord>)
    ensures r.Keys == m.Keys
    ensures forall k :: k in m && m[k].category == oldName ==> r[k] == m[k].(category := newName)
    ensures forall k :: k in m && m[k].category != oldName ==> r[k] == m[k]
  {
    map k | k in m :: Retagged(m[k], oldName, newName)
  }

  /** The image `deleteProduct` asks storage to delete: that of an existing product, and only
      when its address points into the backend's storage. */
  function ImageToDelete(product: Option<ProductRecord>): (r: Option<string>)
    ensures r.Some? <==> product.Some? && exists i :: OccursAt(product.value.image, "firebase", i)
    ensures r.Some? ==> r.value == product.value.image
  {
    if product.Some? && product.value.image != "" && Includes(product.value.image, "firebase")
    then Some(product.value.image)
    else None
  }

  /** `verifyAdmin`'s answer for the admin node `stored`: a failed read refuses, no record
      accepts only the default credentials, and a record accepts exactly its own. */
  function AdminAccepts(stored: Option<AdminRecord>, readFailed: bool, username: string, password: string): (ok: bool)
    ensures readFailed ==> !ok
    ensures !readFailed && stored.None? ==> (ok <==> username == "admin" && password == "admin123")
    ensures !readFailed && stored.Some? ==>
              (ok <==> username == stored.value.username && password == stored.value.password)
  {
    if readFailed then false
    else match stored
      case None => username == "admin" && password == "admin123"
      case Some(a) => a.username == username && a.password == password
  }

  /** The default record written on the first check accepts exactly what the check
      accepted without it, so later checks answer as the first one did. */
  lemma DefaultAdminKeepsAnswer(username: string, password: string)
    ensures AdminAccepts(Some(DefaultAdmin), false, username, password)
         == AdminAccepts(None, false, username, password)
  {
  }

  class FirebaseService {
    var products: map<Key, ProductRecord>
    var categories: Option<seq<string>>
    var categoryMetadata: map<string, Metadata>
    var orders: map<Key, OrderRecord>
    var admin: Option<AdminRecord>

    /** A service connected to a database holding the given nodes. */
    constructor (products0: map<Key, ProductRecord>, categories0: Option<seq<string>>,
                 metadata0: map<string, Metadata>, orders0: map<Key, OrderRecord>,
                 admin0: Option<AdminRecord>)
      ensures products == products0 && categories == categories0
      ensures categoryMetadata == metadata0 && orders == orders0 && admin == admin0
    {
      products := products0;
      categories := categories0;
      categoryMetadata := metadata0;
      orders := orders0;
      admin := admin0;
    }

    /** Every product, each under the id that is its key. */
    method GetProducts() returns (list: seq<Listed<ProductRecord>>)
      ensures ListsMap(list, products)
      ensures products == map[] ==> list == []
    {
      list := ListEntries(products);
    }

    /** The stored category list, or the default list when none is stored or the read fails. */
    method GetCategories(readFailed: bool) returns (cats: seq<string>)
      ensures cats == CategoriesOrDefault(categories, readFailed)
    {
      cats := CategoriesOrDefault(categories, readFailed);
    }

    /** Appends the name, and writes the list back, only when it is not listed yet; saves
        the metadata when there is any. */
    method AddCategory(name: string, metadata: Metadata, readFailed: bool) returns (r: string)
      modifies this`categories, this`categoryMetadata
      ensures r == name
      ensures var read := CategoriesOrDefault(old(categories), readFailed);
        categories == if name in read then old(categories) else Some(AddedCategory(read, name))
      ensures categoryMetadata == if |metadata| > 0 then old(categoryMetadata)[name := metadata]
                                  else old(categoryMetadata)
    {
      var cats := GetCategories(readFailed);
      if name !in cats {
        cats := cats + [name];
        categories := Some(cats);
      }
      if |metadata| > 0 {
        categoryMetadata := categoryMetadata[name := metadata];
      }
      r := name;
    }

    /** Writes and returns the list without the name and with a single leading `'All'`,
        and drops the name's metadata. */
    method DeleteCategory(name: string, readFailed: bool) returns (filtered: seq<string>)
      modifies this`categories, this`categoryMetadata
      ensures filtered == DeletedCategory(CategoriesOrDefault(old(categories), readFailed), name)
      ensures categories == Some(filtered)
      ensures categoryMetadata == old(categoryMetadata) - {name}
    {
      var cats := GetCategories(readFailed);
      filtered := WithoutCategory(cats, name);
      if "All" !in filtered {
        filtered := ["All"] + filtered;
      }
      categories := Some(filtered);
      categoryMetadata := categoryMetadata - {name};
    }

    /** Renames the first occurrence of the old name (writing the list only if there was
        one), moves the metadata to the new name, and re-tags every product of the old
        category with the new one. */
    method UpdateCategory(oldName: string, newName: string, metadata: Metadata, readFailed: bool)
      returns (r: string)
      modifies this`categories, this`categoryMetadata, this`products
      ensures r == newName
      ensures var read := CategoriesOrDefault(old(categories), readFailed);
        categories == if oldName in read then Some(RenamedCategory(read, oldName, newName))
                      else old(categories)
      ensures categoryMetadata ==
                (if oldName != newName then old(categoryMetadata) - {oldName}
                 else old(categoryMetadata))[newName := metadata]
      ensures products == RetagAll(old(products), oldName, newName)
    {
      var cats := GetCategories(readFailed);
      var index := IndexOf(cats, oldName);
      if index.Some? {
        cats := cats[index.value := newName];
        categories := Some(cats);
      }
      if oldName != newName {
        categoryMetadata := categoryMetadata - {oldName};
      }
      categoryMetadata := categoryMetadata[newName := metadata];

      RetagProducts(oldName, newName);
      r := newName;
    }

    /** The loop of `updateCategory` over the listed products: each product of the old
        category is written back with the new one. */
    method RetagProducts(oldName: string, newName: string)
      modifies this`products
      ensures products == RetagAll(old(products), oldName, newName)
    {
      var list := GetProducts();
      ghost var before := products;
      ghost var done: set<Key> := {};
      var i := 0;
      while i < |list|
        invariant 0 <= i <= |list|
        invariant products.Keys == before.Keys
        invariant forall j :: 0 <= j < i ==> list[j].id in done
        invariant forall k :: k in products ==>
                    products[k] == if k in done then Retagged(before[k], oldName, newName) else before[k]
      {
        var product := list[i];
        if product.data.category == oldName {
          products := products[product.id := product.data.(category := newName)];
        }
        done := done + {product.id};
        i := i + 1;
      }
      forall k | k in products ensures k in done {
        var j :| 0 <= j < |list| && list[j].id == k;
      }
    }

    /** Deletes the product record after asking storage to delete its image, which happens
        only when the image lives in the backend's storage. */
    method DeleteProduct(productId: Key) returns (deletedImage: Option<string>, ok: bool)
      modifies this`products
      ensures deletedImage == ImageToDelete(if productId in old(products) then Some(old(products)[productId]) else None)
      ensures products == old(products) - {productId}
      ensures ok
    {
      var product := if productId in products then Some(products[productId]) else None;
      deletedImage := ImageToDelete(product);
      products := products - {productId};
      ok := true;
    }

    /** Writes the order under the fresh key `key` and returns it with that id; a missing
        or failed payment proof leaves the screenshot empty but the order is written. */
    method SaveOrder(input: OrderInput, upload: UploadOutcome, key: Key, now: int)
      returns (saved: Listed<OrderRecord>)
      modifies this`orders
      ensures saved == Listed(key, BuildOrder(key, input, upload, now))
      ensures orders == old(orders)[key := saved.data]
    {
      var order := BuildOrder(key, input, upload, now);
      orders := orders[key := order];
      saved := Listed(key, order);
    }

    /** Every order, each under the id that is its key, newest first (a missing creation
        time counts as 0). */
    method GetOrders() returns (list: seq<Listed<OrderRecord>>)
      ensures |list| == |orders|
      ensures forall i :: 0 <= i < |list| ==> list[i].id in orders && list[i].data == orders[list[i].id]
      ensures forall k :: k in orders ==> exists i :: 0 <= i < |list| && list[i].id == k
      ensures NewestFirst(list)
      ensures orders == map[] ==> list == []
    {
      var entries := ListEntries(orders);
      list := SortNewest(entries);
      assert |list| == |multiset(list)| == |multiset(entries)| == |entries|;
      forall i | 0 <= i < |list| ensures list[i].id in orders && list[i].data == orders[list[i].id] {
        assert list[i] in multiset(entries);
        var j :| 0 <= j < |entries| && entries[j] == list[i];
      }
      forall k | k in orders ensures exists i :: 0 <= i < |list| && list[i].id == k {
        var j :| 0 <= j < |entries| && entries[j].id == k;
        assert entries[j] in multiset(list);
        var i :| 0 <= i < |list| && list[i] == entries[j];
      }
    }

    /** Checks the credentials against the admin record; when there is none, the default
        record is written first and only the default credentials pass. */
    method VerifyAdmin(username: string, password: string, readFailed: bool) returns (ok: bool)
      modifies this`admin
      ensures ok == AdminAccepts(old(admin), readFailed, username, password)
      ensures admin == if !readFailed && old(admin).None? then Some(DefaultAdmin) else old(admin)
    {
      if readFailed {
        return false;
      }
      if admin.None? {
        admin := Some(DefaultAdmin);
        return username == "admin" && password == "admin123";
      }
      ok := admin.value.username == username && admin.value.password == password;
    }
  }
}
