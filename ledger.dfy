/** The document store the handlers share: the Facility, Booking and Payment
    collections, the lookups the handlers issue (`findById`, `findOne`,
    `find`), Mongo's string order, and the `skip`/`limit`/`countDocuments`
    paging of a result. */
module Ledger {
  import opened Base
  import opened BookingModel
  import opened PaymentModel
  import opened FacilityModel

  /** The three collections, in insertion order, and the next fresh id. */
  datatype Db = Db(facilities: seq<Facility>, bookings: seq<Booking>, payments: seq<Payment>, nextId: Id)

  /** What a write handler answers, with the store it leaves behind. */
  datatype Outcome<+T> = Outcome(reply: Reply<T>, db: Db)

  /** Every stored id was handed out before `nextId`, and ids are unique
      within each collection. */
  ghost predicate WellFormed(db: Db) {
    && (forall i :: 0 <= i < |db.facilities| ==> db.facilities[i].id < db.nextId)
    && (forall i :: 0 <= i < |db.bookings| ==> db.bookings[i].id < db.nextId)
    && (forall i :: 0 <= i < |db.payments| ==> db.payments[i].id < db.nextId)
    && (forall i, j :: 0 <= i < j < |db.facilities| ==> db.facilities[i].id != db.facilities[j].id)
    && (forall i, j :: 0 <= i < j < |db.bookings| ==> db.bookings[i].id != db.bookings[j].id)
    && (forall i, j :: 0 <= i < j < |db.payments| ==> db.payments[i].id != db.payments[j].id)
  }

  // ---------------------------------------------------------------------------
  // Lookups

  /** `findOne(query)`: the position of the first document, in store order,
      that satisfies `p`. */
  function FirstIndex<T>(s: seq<T>, p: T -> bool): (r: Option<nat>)
    ensures r.Some? ==> r.value < |s| && p(s[r.value])
    ensures r.Some? ==> forall j :: 0 <= j < r.value ==> !p(s[j])
    ensures r.None? ==> forall j :: 0 <= j < |s| ==> !p(s[j])
  {
    if s == [] then None
    else if p(s[0]) then Some(0)
    else match FirstIndex(s[1..], p)
      case None => None
      case Some(i) => Some(i + 1)
  }

  /** `Facility.findById(id)`, as a position in the collection. */
  function FacilityIndex(fs: seq<Facility>, id: Id): Option<nat> {
    FirstIndex(fs, (f: Facility) => f.id == id)
  }

  /** `Booking.findById(id)`, as a position in the collection. */
  function BookingIndex(bs: seq<Booking>, id: Id): Option<nat> {
    FirstIndex(bs, (b: Booking) => b.id == id)
  }

  /** `Payment.findOne({ paymentIntentId })`, as a position in the collection. */
  function PaymentIndexByIntent(ps: seq<Payment>, intentId: string): Option<nat> {
    FirstIndex(ps, (p: Payment) => p.paymentIntentId == Some(intentId))
  }

  /** The first match is found at `k` when `k` matches and nothing before it does. */
  lemma FirstIndexAt<T>(s: seq<T>, p: T -> bool, k: nat)
    requires k < |s| && p(s[k])
    requires forall j :: 0 <= j < k ==> !p(s[j])
    ensures FirstIndex(s, p) == Some(k)
  {
  }

  lemma FacilityIndexAt(fs: seq<Facility>, id: Id, k: nat)
    requires k < |fs| && fs[k].id == id
    requires forall j :: 0 <= j < k ==> fs[j].id != id
    ensures FacilityIndex(fs, id) == Some(k)
  {
    FirstIndexAt(fs, (f: Facility) => f.id == id, k);
  }

  lemma BookingIndexAt(bs: seq<Booking>, id: Id, k: nat)
    requires k < |bs| && bs[k].id == id
    requires forall j :: 0 <= j < k ==> bs[j].id != id
    ensures BookingIndex(bs, id) == Some(k)
  {
    FirstIndexAt(bs, (b: Booking) => b.id == id, k);
  }

  lemma PaymentIndexByIntentAt(ps: seq<Payment>, intentId: string, k: nat)
    requires k < |ps| && ps[k].paymentIntentId == Some(intentId)
    requires forall j :: 0 <= j < k ==> ps[j].paymentIntentId != Some(intentId)
    ensures PaymentIndexByIntent(ps, intentId) == Some(k)
  {
    FirstIndexAt(ps, (p: Payment) => p.paymentIntentId == Some(intentId), k);
  }

  /** `find(query)`: the documents that satisfy `p`, in store order. */
  function Filter<T(!new)>(s: seq<T>, p: T -> bool): (r: seq<T>)
    ensures |r| <= |s|
    ensures forall x :: x in r <==> x in s && p(x)
    ensures forall x :: multiset(r)[x] == if p(x) then multiset(s)[x] else 0
  {
    if s == [] then []
    else
      assert s == [s[0]] + s[1..];
      (if p(s[0]) then [s[0]] else []) + Filter(s[1..], p)
  }

  /** `find` keeps store order: filtering a concatenation filters each part
      and keeps the first part's matches ahead of the second's. */
  lemma {:induction false} FilterAppend<T(!new)>(a: seq<T>, b: seq<T>, p: T -> bool)
    ensures Filter(a + b, p) == Filter(a, p) + Filter(b, p)
  {
    if a == [] {
      EmptyAppend(b);
    } else {
      var head := if p(a[0]) then [a[0]] else [];
      TailAppend(a, b);
      FilterAppend(a[1..], b, p);
      AppendAssoc(head, Filter(a[1..], p), Filter(b, p));
    }
  }

  lemma EmptyAppend<T>(b: seq<T>)
    ensures [] + b == b
  {
  }

  lemma TailAppend<T>(a: seq<T>, b: seq<T>)
    requires a != []
    ensures a + b != [] && (a + b)[0] == a[0] && (a + b)[1..] == a[1..] + b
  {
  }

  lemma AppendAssoc<T>(x: seq<T>, y: seq<T>, z: seq<T>)
    ensures (x + y) + z == x + (y + z)
  {
  }

  /** Newest first: the order of `sort({ createdAt: -1 })` on a collection
      kept in insertion order. */
  function Reverse<T>(s: seq<T>): (r: seq<T>)
    ensures |r| == |s|
    ensures forall i :: 0 <= i < |s| ==> r[i] == s[|s| - 1 - i]
  {
    if s == [] then [] else Reverse(s[1..]) + [s[0]]
  }

  // ---------------------------------------------------------------------------
  // String order of the store

  /** `a < b` between two strings in a query: code point by code point, a
      proper prefix first. */
  predicate StrLess(a: string, b: string)
    decreases |a|
  {
    if a == [] then b != []
    else b != [] && (if a[0] == b[0] then StrLess(a[1..], b[1..]) else a[0] < b[0])
  }

  /** Strings that agree on their first `k` characters compare as their
      remainders do. */
  lemma {:induction false} StrLessSkip(a: string, b: string, k: nat)
    requires k <= |a| && k <= |b| && a[..k] == b[..k]
    ensures StrLess(a, b) == StrLess(a[k..], b[k..])
    decreases k
  {
    if k > 0 {
      assert a[0] == a[..k][0] == b[..k][0] == b[0];
      assert a[1..][..k - 1] == a[..k][1..] == b[..k][1..] == b[1..][..k - 1];
      StrLessSkip(a[1..], b[1..], k - 1);
      assert a[1..][k - 1..] == a[k..];
      assert b[1..][k - 1..] == b[k..];
    }
  }

  /** Strings that first differ at position `k` compare as their characters
      there do. */
  lemma StrLessAt(a: string, b: string, k: nat)
    requires k < |a| && k < |b| && a[..k] == b[..k] && a[k] != b[k]
    ensures StrLess(a, b) <==> a[k] < b[k]
  {
    StrLessSkip(a, b, k);
    assert a[k..][0] == a[k] && b[k..][0] == b[k];
  }

  /** No string sorts before itself. */
  lemma {:induction false} StrLessIrreflexive(a: string)
    ensures !StrLess(a, a)
    decreases |a|
  {
    if a != [] {
      StrLessIrreflexive(a[1..]);
    }
  }

  // ---------------------------------------------------------------------------
  // Paging

  /** One page of a listing: the documents, `totalPages` (`None` where
      `Math.ceil` gives Infinity or NaN, which JSON prints as null),
      `currentPage` and `total`. */
  datatype Page<T> = Page(items: seq<T>, totalPages: Option<int>, currentPage: int, total: nat)

  function Abs(n: int): nat {
    if n < 0 then -n else n
  }

  /** `.skip(skip).limit(limit)`: a limit of 0 means no limit and a negative
      limit returns that many documents. */
  function Window<T>(all: seq<T>, skip: nat, limit: int): (r: seq<T>)
    ensures limit != 0 ==> |r| <= Abs(limit)
    ensures skip <= |all| ==> r <= all[skip..]
    ensures skip <= |all| && (limit == 0 || skip + Abs(limit) >= |all|) ==> r == all[skip..]
    ensures limit != 0 && skip + Abs(limit) < |all| ==> r == all[skip..skip + Abs(limit)]
    ensures skip >= |all| ==> r == []
  {
    if skip >= |all| then []
    else if limit == 0 || skip + Abs(limit) >= |all| then all[skip..]
    else all[skip..skip + Abs(limit)]
  }

  /** `Math.ceil(total / limit)`. */
  function TotalPages(total: nat, limit: int): (r: Option<int>)
    ensures limit == 0 <==> r.None?
    ensures limit > 0 ==> r.Some? && 0 <= r.value && (r.value - 1) * limit < total <= r.value * limit
    ensures limit < 0 ==> r.Some? && r.value <= 0 && r.value * limit <= total < (r.value - 1) * limit
  {
    if limit == 0 then None
    else if limit > 0 then
      var k := (total + limit - 1) / limit;
      CeilBounds(total, limit, k);
      Some(k)
    else
      var q := total / -limit;
      assert q * -limit <= total < (q + 1) * -limit;
      Some(-q)
  }

  lemma CeilBounds(total: nat, limit: int, k: int)
    requires limit > 0 && k == (total + limit - 1) / limit
    ensures 0 <= k && (k - 1) * limit < total <= k * limit
  {
    var r := (total + limit - 1) % limit;
    assert total + limit - 1 == k * limit + r;
    assert (k - 1) * limit == k * limit - limit;
  }

  /** The paging both listing handlers apply: skip `(page - 1) * limit`
      documents (a negative skip is refused by the store, which the handler
      reports as a server error), return at most `limit` of them, and report
      `Math.ceil(total / limit)` pages. */
  function Paginate<T>(all: seq<T>, page: int, limit: int): (r: Reply<Page<T>>)
    ensures r.Fail? <==> (page - 1) * limit < 0
    ensures r.Fail? ==> r == Fail(500, "Server error")
    ensures r.Ok? ==> r.value.total == |all| && r.value.currentPage == page
    ensures r.Ok? ==> r.value.totalPages == TotalPages(|all|, limit)
    ensures r.Ok? ==> r.value.items == Window(all, (page - 1) * limit, limit)
  {
    var skip := (page - 1) * limit;
    if skip < 0 then Fail(500, "Server error")
    else Ok(Page(Window(all, skip, limit), TotalPages(|all|, limit), page, |all|))
  }

  /** With a positive limit, the document at position `i` of the listing is
      shown on page `i / limit + 1`, at position `i % limit`, and that page
      number is within `totalPages`. */
  lemma PageOfItem<T>(all: seq<T>, limit: int, i: nat)
    requires limit > 0 && i < |all|
    ensures var r := Paginate(all, i / limit + 1, limit);
      && r.Ok? && i % limit < |r.value.items| && r.value.items[i % limit] == all[i]
      && i / limit + 1 <= r.value.totalPages.value
  {
    var q, m := i / limit, i % limit;
    var skip := q * limit;
    assert skip + m == i && 0 <= m < limit;
    assert (q + 1 - 1) * limit == skip;
    WindowAt(all, skip, limit, m);
    PageNumberBound(|all|, limit, i);
  }

  lemma WindowAt<T>(all: seq<T>, skip: nat, limit: int, m: nat)
    requires limit > 0 && m < limit && skip + m < |all|
    ensures m < |Window(all, skip, limit)| && Window(all, skip, limit)[m] == all[skip + m]
  {
  }

  lemma PageNumberBound(n: nat, limit: int, i: nat)
    requires limit > 0 && i < n
    ensures i / limit + 1 <= (n + limit - 1) / limit
  {
    var q, k := i / limit, (n + limit - 1) / limit;
    CeilBounds(n, limit, k);
    assert q * limit <= i;
    MulCancel(q, k, limit);
  }

  lemma MulCancel(x: int, y: int, d: int)
    requires d > 0 && x * d < y * d
    ensures x < y
  {
    if x >= y {
      MulMonotone(y, x, d);
    }
  }

  lemma MulMonotone(x: int, y: int, d: int)
    requires x <= y && d > 0
    ensures x * d <= y * d
  {
    assert y * d - x * d == (y - x) * d;
  }

  // ---------------------------------------------------------------------------
  // The store as mutable state

  /** The database the handlers share. Each handler reads it and then writes
      whole collections back, as one sequential step. */
  class Store {
    var facilities: seq<Facility>
    var bookings: seq<Booking>
    var payments: seq<Payment>
    var nextId: Id

    /** The current contents as a value. */
    function Snapshot(): Db
      reads this
    {
      Db(facilities, bookings, payments, nextId)
    }

    ghost predicate Valid()
      reads this
    {
      WellFormed(Snapshot())
    }

    /** An empty database. */
    constructor ()
      ensures Snapshot() == Db([], [], [], 0)
      ensures Valid()
    {
      facilities, bookings, payments, nextId := [], [], [], 0;
    }

    /** A fresh document id (an ObjectId the driver generates). */
    method FreshId() returns (id: Id)
      modifies this`nextId
      ensures id == old(nextId) && nextId == id + 1
    {
      id := nextId;
      nextId := nextId + 1;
    }
  }
}
