/** Option and Result datatypes used across the model. */
module Wrappers {
  datatype Option<T> = None | Some(value: T)

  datatype Result<T, E> = Success(value: T) | Failure(error: E)
}

/**
 * The booking record as the view code sees it after the store has returned
 * it: every text field a string ("" when the field is missing) and every
 * quantity an integer (0 when missing, as the `|| 0` reads in js/app.js do).
 */
module Bookings {
  import opened Wrappers

  // ----- Payment and distribution statuses (display labels) ---------------

  /** Awaiting payment. */
  const Pending: string := "รอชำระ"
  /** Proof uploaded, awaiting verification. */
  const Verifying: string := "รอตรวจสอบ"
  /** Paid. */
  const Paid: string := "ชำระแล้ว"
  /** Goods handed over. */
  const Distributed: string := "แจกแล้ว"
  /** Goods not yet handed over. */
  const NotDistributed: string := "ยังไม่แจก"

  // ----- Garment size tiers ------------------------------------------------

  /** SS, S, M, L, XL, 2XL, 3XL, 4XL, 5XL, 6XL, 7XL. */
  const TierCount: nat := 11

  /** One count per size tier, in the order SS … 7XL. */
  type Tiers = s: seq<int> | |s| == TierCount witness [0, 0, 0, 0, 0, 0, 0, 0, 0, 0, 0]

  const NoShirts: Tiers := [0, 0, 0, 0, 0, 0, 0, 0, 0, 0, 0]

  function Sum(s: seq<int>): int
  {
    if s == [] then 0 else s[0] + Sum(s[1..])
  }

  /** Tier-by-tier addition: what one `+=` per tier does to a row of counters. */
  function AddTiers(a: Tiers, b: Tiers): (r: Tiers)
    ensures forall k :: 0 <= k < TierCount ==> r[k] == a[k] + b[k]
  {
    seq(TierCount, k requires 0 <= k < TierCount => a[k] + b[k])
  }

  lemma {:induction false} SumPointwise(a: seq<int>, b: seq<int>, r: seq<int>)
    requires |a| == |b| == |r|
    requires forall k :: 0 <= k < |r| ==> r[k] == a[k] + b[k]
    ensures Sum(r) == Sum(a) + Sum(b)
  {
    if r != [] {
      SumPointwise(a[1..], b[1..], r[1..]);
    }
  }

  lemma SumAddTiers(a: Tiers, b: Tiers)
    ensures Sum(AddTiers(a, b)) == Sum(a) + Sum(b)
  {
    SumPointwise(a, b, AddTiers(a, b));
  }

  lemma SumNoShirts()
    ensures Sum(NoShirts) == 0
  {
  }

  /** The eleven-term sum `shirt_ss + shirt_s + … + shirt_7xl` of js/app.js. */
  lemma SumOfTiers(t: Tiers)
    ensures Sum(t) == t[0] + t[1] + t[2] + t[3] + t[4] + t[5] + t[6] + t[7] + t[8] + t[9] + t[10]
  {
    forall k | 0 <= k < TierCount ensures Sum(t[k..]) == t[k] + Sum(t[k + 1..]) {
      assert t[k..][1..] == t[k + 1..];
    }
    assert t[0..] == t && t[TierCount..] == [];
  }

  // ----- Team colours ------------------------------------------------------

  datatype Color = Green | Blue | Purple | Pink

  /** The colour a stored `coop_color` key names, if it is one of the four. */
  function ColorOf(key: string): (r: Option<Color>)
    ensures r.Some? ==> key == ColorKey(r.value)
  {
    if key == "green" then Some(Green)
    else if key == "blue" then Some(Blue)
    else if key == "purple" then Some(Purple)
    else if key == "pink" then Some(Pink)
    else None
  }

  function ColorKey(c: Color): string
  {
    match c
    case Green => "green"
    case Blue => "blue"
    case Purple => "purple"
    case Pink => "pink"
  }

  lemma ColorKeyRoundTrip(c: Color)
    ensures ColorOf(ColorKey(c)) == Some(c)
  {
  }

  // ----- The booking record ------------------------------------------------

  datatype Booking = Booking(
    id: string,
    pin: string,
    coopName: string,
    coopColor: string,
    shirts: Tiers,
    flowerCount: int,
    tableCount: int,
    sponsorAmount: int,
    totalAmount: int,
    paymentStatus: string,
    proofUrl: string,
    distributionStatus: string)

  /** The number of shirts on one booking. */
  function ShirtCount(b: Booking): int
  {
    Sum(b.shirts)
  }

  predicate IsPaid(b: Booking)
  {
    b.paymentStatus == Paid
  }

  // ----- Order-keeping selection (`Array.prototype.filter`) ---------------

  /** `filter(keep)`: the elements that pass, in their order. */
  function Select<T>(xs: seq<T>, keep: T -> bool): (r: seq<T>)
    ensures |r| <= |xs|
  {
    if xs == [] then [] else (if keep(xs[0]) then [xs[0]] else []) + Select(xs[1..], keep)
  }

  /** `filter` keeps exactly the elements that pass, each as often as it occurs. */
  lemma {:induction false} SelectCounts<T>(xs: seq<T>, keep: T -> bool)
    ensures forall x :: multiset(Select(xs, keep))[x] == if keep(x) then multiset(xs)[x] else 0
  {
    if xs != [] {
      SelectCounts(xs[1..], keep);
      assert xs == [xs[0]] + xs[1..];
    }
  }

  /** An element is kept iff it is one of the input's and passes. */
  lemma {:induction false} SelectMembers<T>(xs: seq<T>, keep: T -> bool)
    ensures forall x :: x in Select(xs, keep) <==> x in xs && keep(x)
  {
    SelectCounts(xs, keep);
    forall x ensures x in Select(xs, keep) <==> x in xs && keep(x) {
      assert x in Select(xs, keep) <==> multiset(Select(xs, keep))[x] > 0;
      assert x in xs <==> multiset(xs)[x] > 0;
    }
  }

  /** When every element passes, `filter` returns its input unchanged, order included. */
  lemma {:induction false} SelectAll<T>(xs: seq<T>, keep: T -> bool)
    requires forall i :: 0 <= i < |xs| ==> keep(xs[i])
    ensures Select(xs, keep) == xs
  {
    if xs != [] {
      SelectAll(xs[1..], keep);
    }
  }

  /** `filter` keeps the order: filtering a concatenation filters each part in turn. */
  lemma {:induction false} SelectAppend<T>(a: seq<T>, b: seq<T>, keep: T -> bool)
    ensures Select(a + b, keep) == Select(a, keep) + Select(b, keep)
  {
    if a == [] {
      assert a + b == b;
    } else {
      assert (a + b)[0] == a[0] && (a + b)[1..] == a[1..] + b;
      SelectAppend(a[1..], b, keep);
      var h := if keep(a[0]) then [a[0]] else [];
      assert Select(a + b, keep) == h + Select(a[1..] + b, keep);
      assert Select(a, keep) == h + Select(a[1..], keep);
    }
  }
}
