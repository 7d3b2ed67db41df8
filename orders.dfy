/** Orders in `FirebaseService` (js/firebase-service.js): the record `saveOrder` writes and
    the newest-first order in which `getOrders` lists them. */
module Orders {
  import opened Common
  import opened CartModel

  datatype OrderStatus = Pending | Processing | Completed | Cancelled

  /** What checkout hands to `saveOrder`; `screenshot` names the payment proof file, if any. */
  datatype OrderInput = OrderInput(
    name: string,
    phone: string,
    address: string,
    cart: seq<CartLine>,
    total: int,
    screenshot: Option<string>)

  /** How the upload of a payment proof ended: its download URL, or a failure (an error
      or the upload timeout). */
  datatype UploadOutcome = Uploaded(url: string) | UploadFailed

  /** An order as stored; `createdAt` is absent on records written without a timestamp. */
  datatype OrderRecord = OrderRecord(
    orderId: Key,
    customerName: string,
    customerPhone: string,
    customerAddress: string,
    items: seq<CartLine>,
    totalAmount: int,
    paymentScreenshot: Option<string>,
    status: OrderStatus,
    createdAt: Option<int>)

  /** The record `saveOrder` writes under the fresh key `key`, with the server time `now`.
      The order is written whatever the upload did; only a successful upload of a given
      proof leaves a screenshot URL in it. */
  function BuildOrder(key: Key, input: OrderInput, upload: UploadOutcome, now: int): (r: OrderRecord)
    ensures r.orderId == key && r.status == Pending && r.createdAt == Some(now)
    ensures r.customerName == input.name && r.customerPhone == input.phone
    ensures r.customerAddress == input.address
    ensures r.items == input.cart && r.totalAmount == input.total
    ensures r.paymentScreenshot.None? <==> input.screenshot.None? || upload.UploadFailed?
    ensures r.paymentScreenshot.Some? ==> upload.Uploaded? && r.paymentScreenshot.value == upload.url
  {
    var screenshotUrl :=
      if input.screenshot.Some? then
        match upload
        case Uploaded(url) => Some(url)
        case UploadFailed => None
      else None;
    OrderRecord(key, input.name, input.phone, input.address, input.cart, input.total,
                screenshotUrl, Pending, Some(now))
  }

  /** `order.createdAt || 0`. */
  function CreatedAtOrZero(o: Listed<OrderRecord>): int
  {
    match o.data.createdAt
    case None => 0
    case Some(t) => t
  }

  /** Ordered by creation time, newest first. */
  ghost predicate NewestFirst(s: seq<Listed<OrderRecord>>)
  {
    forall i, j :: 0 <= i < j < |s| ==> CreatedAtOrZero(s[i]) >= CreatedAtOrZero(s[j])
  }

  /** Puts `x` in front of the first order that is not newer than it. */
  function InsertNewest(x: Listed<OrderRecord>, s: seq<Listed<OrderRecord>>): (r: seq<Listed<OrderRecord>>)
    ensures multiset(r) == multiset(s) + multiset{x}
  {
    if s == [] then [x]
    else if CreatedAtOrZero(x) >= CreatedAtOrZero(s[0]) then [x] + s
    else
      assert s == [s[0]] + s[1..];
      [s[0]] + InsertNewest(x, s[1..])
  }

  /** No order of `t` is newer than `bound`. */
  ghost predicate NoneNewerThan(t: seq<Listed<OrderRecord>>, bound: int)
  {
    forall j :: 0 <= j < |t| ==> CreatedAtOrZero(t[j]) <= bound
  }

  lemma {:induction false} InsertNewestBound(x: Listed<OrderRecord>, s: seq<Listed<OrderRecord>>, bound: int)
    requires NoneNewerThan(s, bound) && CreatedAtOrZero(x) <= bound
    ensures NoneNewerThan(InsertNewest(x, s), bound)
  {
    if s != [] && CreatedAtOrZero(x) < CreatedAtOrZero(s[0]) {
      InsertNewestBound(x, s[1..], bound);
      assert InsertNewest(x, s) == [s[0]] + InsertNewest(x, s[1..]);
    }
  }

  /** An order in front of a newest-first list none of whose orders is newer. */
  lemma NewestFirstCons(y: Listed<OrderRecord>, t: seq<Listed<OrderRecord>>)
    requires NewestFirst(t) && NoneNewerThan(t, CreatedAtOrZero(y))
    ensures NewestFirst([y] + t)
  {
    var r := [y] + t;
    forall i, j | 0 <= i < j < |r| ensures CreatedAtOrZero(r[i]) >= CreatedAtOrZero(r[j]) {
      assert r[j] == t[j - 1];
      if i > 0 {
        assert r[i] == t[i - 1];
      }
    }
  }

  /** Inserting into a newest-first list keeps it newest first. */
  lemma {:induction false} InsertNewestSorted(x: Listed<OrderRecord>, s: seq<Listed<OrderRecord>>)
    requires NewestFirst(s)
    ensures NewestFirst(InsertNewest(x, s))
  {
    if s == [] {
    } else if CreatedAtOrZero(x) >= CreatedAtOrZero(s[0]) {
      assert NoneNewerThan(s, CreatedAtOrZero(x));
      NewestFirstCons(x, s);
    } else {
      var tail := s[1..];
      assert NewestFirst(tail);
      assert NoneNewerThan(tail, CreatedAtOrZero(s[0])) by {
        forall j | 0 <= j < |tail| ensures CreatedAtOrZero(tail[j]) <= CreatedAtOrZero(s[0]) {
          assert tail[j] == s[j + 1];
        }
      }
      InsertNewestSorted(x, tail);
      InsertNewestBound(x, tail, CreatedAtOrZero(s[0]));
      NewestFirstCons(s[0], InsertNewest(x, tail));
    }
  }

  /** `.sort((a, b) => (b.createdAt || 0) - (a.createdAt || 0))`: the same orders, newest first. */
  function SortNewest(s: seq<Listed<OrderRecord>>): (r: seq<Listed<OrderRecord>>)
    ensures multiset(r) == multiset(s)
    ensures NewestFirst(r)
  {
    if s == [] then []
    else
      assert s == [s[0]] + s[1..];
      var sorted := SortNewest(s[1..]);
      InsertNewestSorted(s[0], sorted);
      InsertNewest(s[0], sorted)
  }
}
