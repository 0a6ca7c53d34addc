/**
 * The two row orders of the booking tables. The status and summary tabs put
 * bookings in status order (awaiting payment, awaiting verification, paid,
 * anything else), then by colour key, then by cooperative name; the payment
 * tab puts awaiting payment before awaiting verification, then orders by name.
 * `Array.prototype.sort` is modelled by a stable insertion sort.
 */
module Ordering {
  import opened Text
  import opened Bookings

  /** statusOrder with `|| 999` for a status it does not list. */
  function StatusRank(status: string): int
  {
    if status == Pending then 1
    else if status == Verifying then 2
    else if status == Paid then 3
    else 999
  }

  /** The payment tab's `order` map with `|| 99`. */
  function PaymentRank(status: string): int
  {
    if status == Pending then 1
    else if status == Verifying then 2
    else 99
  }

  /** The comparator of the status and summary tabs; negative when `a` goes first. */
  function StatusCompare(a: Booking, b: Booking): int
  {
    var ra, rb := StatusRank(a.paymentStatus), StatusRank(b.paymentStatus);
    if ra != rb then ra - rb
    else if Less(a.coopColor, b.coopColor) then -1
    else if Less(b.coopColor, a.coopColor) then 1
    else Compare(a.coopName, b.coopName)
  }

  /** The comparator of the payment tab. */
  function PaymentCompare(a: Booking, b: Booking): int
  {
    var ra, rb := PaymentRank(a.paymentStatus), PaymentRank(b.paymentStatus);
    if ra != rb then ra - rb else Compare(a.coopName, b.coopName)
  }

  datatype Order = ByStatus | ByPayment

  function Cmp(o: Order, a: Booking, b: Booking): int
  {
    match o
    case ByStatus => StatusCompare(a, b)
    case ByPayment => PaymentCompare(a, b)
  }

  /** `a` may precede `b`: the comparator does not ask for them to be swapped. */
  predicate Before(o: Order, a: Booking, b: Booking)
  {
    Cmp(o, a, b) <= 0
  }

  /** The comparators are antisymmetric in sign: swapping the arguments negates the answer. */
  lemma CmpFlips(o: Order, a: Booking, b: Booking)
    ensures Cmp(o, b, a) == -Cmp(o, a, b)
  {
    CompareProperties(a.coopName, b.coopName);
    LessAsymmetric(a.coopColor, b.coopColor);
  }

  /** Any two bookings are ordered one way or the other, and every booking may precede itself. */
  lemma BeforeTotal(o: Order, a: Booking, b: Booking)
    ensures Before(o, a, b) || Before(o, b, a)
    ensures Before(o, a, a)
  {
    CmpFlips(o, a, b);
    CmpFlips(o, a, a);
  }

  /** Status order: the rank decides; on a tie the colour key; then the name. */
  lemma StatusBeforeMeaning(a: Booking, b: Booking)
    ensures Before(ByStatus, a, b) <==>
      var ra, rb := StatusRank(a.paymentStatus), StatusRank(b.paymentStatus);
      ra < rb
      || (ra == rb && Less(a.coopColor, b.coopColor))
      || (ra == rb && a.coopColor == b.coopColor && !Less(b.coopName, a.coopName))
  {
    LessIrreflexive(a.coopColor);
    LessAsymmetric(a.coopColor, b.coopColor);
    LessTotal(a.coopColor, b.coopColor);
    LessAsymmetric(a.coopName, b.coopName);
    LessIrreflexive(a.coopName);
  }

  /** Payment order: the rank decides; on a tie the name. */
  lemma PaymentBeforeMeaning(a: Booking, b: Booking)
    ensures Before(ByPayment, a, b) <==>
      var ra, rb := PaymentRank(a.paymentStatus), PaymentRank(b.paymentStatus);
      ra < rb || (ra == rb && !Less(b.coopName, a.coopName))
  {
    LessAsymmetric(a.coopName, b.coopName);
    LessIrreflexive(a.coopName);
  }

  lemma NotLessTransitive(a: string, b: string, c: string)
    requires !Less(b, a) && !Less(c, b)
    ensures !Less(c, a)
  {
    LessTotal(a, b);
    LessTotal(b, c);
    if Less(c, a) {
      if a == b {
      } else {
        LessTransitive(c, a, b);
      }
    }
  }

  lemma BeforeTransitive(o: Order, a: Booking, b: Booking, c: Booking)
    requires Before(o, a, b) && Before(o, b, c)
    ensures Before(o, a, c)
  {
    match o
    case ByStatus =>
      StatusBeforeMeaning(a, b);
      StatusBeforeMeaning(b, c);
      StatusBeforeMeaning(a, c);
      if Less(a.coopColor, b.coopColor) && Less(b.coopColor, c.coopColor) {
        LessTransitive(a.coopColor, b.coopColor, c.coopColor);
      }
      if !Less(b.coopName, a.coopName) && !Less(c.coopName, b.coopName) {
        NotLessTransitive(a.coopName, b.coopName, c.coopName);
      }
    case ByPayment =>
      PaymentBeforeMeaning(a, b);
      PaymentBeforeMeaning(b, c);
      PaymentBeforeMeaning(a, c);
      if !Less(b.coopName, a.coopName) && !Less(c.coopName, b.coopName) {
        NotLessTransitive(a.coopName, b.coopName, c.coopName);
      }
  }

  // ----- Sorting -----------------------------------------------------------

  predicate SortedBy(o: Order, s: seq<Booking>)
  {
    forall i, j :: 0 <= i < j < |s| ==> Before(o, s[i], s[j])
  }

  /** Puts `x` in front of the first element it may precede. */
  function Insert(o: Order, x: Booking, s: seq<Booking>): seq<Booking>
  {
    if s == [] || Before(o, x, s[0]) then [x] + s else [s[0]] + Insert(o, x, s[1..])
  }

  /** Stable sort: each element goes in front of the sorted rest, ahead of its equals. */
  function SortBy(o: Order, s: seq<Booking>): seq<Booking>
  {
    if s == [] then [] else Insert(o, s[0], SortBy(o, s[1..]))
  }

  /** Inserting adds exactly the one element. */
  lemma {:induction false} InsertCount(o: Order, x: Booking, s: seq<Booking>)
    ensures multiset(Insert(o, x, s)) == multiset(s) + multiset{x}
  {
    if s != [] && !Before(o, x, s[0]) {
      InsertCount(o, x, s[1..]);
      assert s == [s[0]] + s[1..];
    }
  }

  /** Every element of the inserted list is `x` or an element of `s`. */
  lemma InsertMembers(o: Order, x: Booking, s: seq<Booking>, y: Booking)
    requires y in Insert(o, x, s)
    ensures y == x || y in s
  {
    InsertCount(o, x, s);
    assert y in multiset(Insert(o, x, s));
  }

  /** An element that may precede `x` and all of `s` may precede all of `Insert(o, x, s)`. */
  lemma InsertHead(o: Order, h: Booking, x: Booking, s: seq<Booking>)
    requires Before(o, h, x)
    requires forall k :: 0 <= k < |s| ==> Before(o, h, s[k])
    ensures forall k :: 0 <= k < |Insert(o, x, s)| ==> Before(o, h, Insert(o, x, s)[k])
  {
    var t := Insert(o, x, s);
    forall k | 0 <= k < |t| ensures Before(o, h, t[k]) {
      InsertMembers(o, x, s, t[k]);
      if t[k] != x {
        var j :| 0 <= j < |s| && s[j] == t[k];
      }
    }
  }

  /** Inserting into a sorted list keeps it sorted. */
  lemma {:induction false} InsertSorted(o: Order, x: Booking, s: seq<Booking>)
    requires SortedBy(o, s)
    ensures SortedBy(o, Insert(o, x, s))
  {
    if s == [] {
    } else if Before(o, x, s[0]) {
      var r := [x] + s;
      forall i, j | 0 <= i < j < |r| ensures Before(o, r[i], r[j]) {
        if i == 0 && j > 1 {
          BeforeTransitive(o, x, s[0], s[j - 1]);
        }
      }
    } else {
      BeforeTotal(o, x, s[0]);
      var t := Insert(o, x, s[1..]);
      InsertSorted(o, x, s[1..]);
      InsertHead(o, s[0], x, s[1..]);
      var r := [s[0]] + t;
      forall i, j | 0 <= i < j < |r| ensures Before(o, r[i], r[j]) {
        if i == 0 {
          assert r[j] == t[j - 1];
        } else {
          assert r[i] == t[i - 1] && r[j] == t[j - 1];
        }
      }
    }
  }

  lemma InsertCorrect(o: Order, x: Booking, s: seq<Booking>)
    requires SortedBy(o, s)
    ensures multiset(Insert(o, x, s)) == multiset(s) + multiset{x}
    ensures SortedBy(o, Insert(o, x, s))
  {
    InsertCount(o, x, s);
    InsertSorted(o, x, s);
  }

  /** The sorted rows are in order and are exactly the rows given, each as often as given. */
  lemma {:induction false} SortByCorrect(o: Order, s: seq<Booking>)
    ensures SortedBy(o, SortBy(o, s))
    ensures multiset(SortBy(o, s)) == multiset(s)
  {
    if s != [] {
      SortByCorrect(o, s[1..]);
      InsertCorrect(o, s[0], SortBy(o, s[1..]));
      assert s == [s[0]] + s[1..];
    }
  }

  /** Sorting rows that are already in order leaves them as they are. */
  lemma {:induction false} SortByIdempotent(o: Order, s: seq<Booking>)
    requires SortedBy(o, s)
    ensures SortBy(o, s) == s
  {
    if s != [] {
      SortByIdempotent(o, s[1..]);
      if |s| > 1 {
        assert Before(o, s[0], s[1]);
        assert s[1..][0] == s[1];
      }
      assert s == [s[0]] + s[1..];
    }
  }

  /** In status order the status ranks never go down along the rows. */
  lemma {:induction false} StatusRanksAscend(s: seq<Booking>)
    requires SortedBy(ByStatus, s)
    ensures forall i, j :: 0 <= i < j < |s| ==> StatusRank(s[i].paymentStatus) <= StatusRank(s[j].paymentStatus)
  {
    forall i, j | 0 <= i < j < |s|
      ensures StatusRank(s[i].paymentStatus) <= StatusRank(s[j].paymentStatus)
    {
      StatusBeforeMeaning(s[i], s[j]);
    }
  }

  /** In payment order no booking awaiting verification comes before one awaiting payment. */
  lemma {:induction false} PendingBeforeVerifying(s: seq<Booking>)
    requires SortedBy(ByPayment, s)
    ensures forall i, j :: 0 <= i < j < |s| && s[j].paymentStatus == Pending ==> s[i].paymentStatus != Verifying
  {
    forall i, j | 0 <= i < j < |s| && s[j].paymentStatus == Pending
      ensures s[i].paymentStatus != Verifying
    {
      PaymentBeforeMeaning(s[i], s[j]);
    }
  }

  /** Paid, awaiting payment, awaiting verification sort to awaiting payment, awaiting verification, paid. */
  lemma ThreeStatusesSort(p: Booking, a: Booking, v: Booking)
    requires p.paymentStatus == Paid && a.paymentStatus == Pending && v.paymentStatus == Verifying
    ensures SortBy(ByStatus, [p, a, v]) == [a, v, p]
  {
    assert [p, a, v][1..] == [a, v] && [a, v][1..] == [v] && [v][1..] == [];
    assert Insert(ByStatus, v, []) == [v];
    assert SortBy(ByStatus, [v]) == [v];
    assert Insert(ByStatus, a, [v]) == [a, v];
    assert SortBy(ByStatus, [a, v]) == [a, v];
    assert [a, v][1..] == [v];
    assert Insert(ByStatus, p, [v]) == [v, p];
    assert Insert(ByStatus, p, [a, v]) == [a, v, p];
  }
}
