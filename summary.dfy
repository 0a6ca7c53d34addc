/**
 * The summary tab's figures (updateSummaryTab): counted over paid bookings
 * only, the number of distinct cooperatives after name normalisation, the
 * shirt, flower, table, sponsorship and revenue totals, the count per size
 * tier, and the count per size tier for each team colour.
 */
module Summary {
  import opened Wrappers
  import opened Text
  import opened Bookings
  import opened Pricing

  // ----- Cooperative-name normalisation -------------------------------------

  /** The punctuation `[,.\-_()]` that normalisation removes. */
  predicate IsPunct(c: char)
  {
    c == ',' || c == '.' || c == '-' || c == '_' || c == '(' || c == ')'
  }

  /** A global `replace` of one character class by nothing. */
  function Strip(s: string, drop: char -> bool): (r: string)
    ensures |r| <= |s|
    ensures forall i :: 0 <= i < |r| ==> !drop(r[i])
    ensures (forall i :: 0 <= i < |s| ==> !drop(s[i])) ==> r == s
  {
    if s == [] then [] else (if drop(s[0]) then [] else [s[0]]) + Strip(s[1..], drop)
  }

  lemma {:induction false} StripAppend(a: string, b: string, drop: char -> bool)
    ensures Strip(a + b, drop) == Strip(a, drop) + Strip(b, drop)
  {
    if a != [] {
      assert (a + b)[0] == a[0] && (a + b)[1..] == a[1..] + b;
      StripAppend(a[1..], b, drop);
      var h := if drop(a[0]) then [] else [a[0]];
      assert Strip(a + b, drop) == h + (Strip(a[1..], drop) + Strip(b, drop));
    } else {
      assert a + b == b;
    }
  }

  /** Each character is kept exactly as often as it occurs, unless it is dropped; a dropped one is gone. */
  lemma {:induction false} StripCounts(s: string, drop: char -> bool)
    ensures forall c :: multiset(Strip(s, drop))[c] == if drop(c) then 0 else multiset(s)[c]
  {
    if s != [] {
      StripCounts(s[1..], drop);
      assert s == [s[0]] + s[1..];
    }
  }

  /** Whatever holds of every character of a string holds of every character kept. */
  lemma {:induction false} StripKeepsProperty(s: string, drop: char -> bool, p: char -> bool)
    requires forall i :: 0 <= i < |s| ==> p(s[i])
    ensures forall i :: 0 <= i < |Strip(s, drop)| ==> p(Strip(s, drop)[i])
  {
    if s != [] {
      StripKeepsProperty(s[1..], drop, p);
    }
  }

  /** A string none of whose characters are dropped is kept whole. */
  lemma {:induction false} StripKeepsClean(s: string, drop: char -> bool)
    requires forall i :: 0 <= i < |s| ==> !drop(s[i])
    ensures Strip(s, drop) == s
  {
    if s != [] {
      StripKeepsClean(s[1..], drop);
    }
  }

  /** What normalisation leaves in a name: no white space, none of the punctuation, no upper-case letter. */
  predicate IsNormal(s: string)
  {
    forall i :: 0 <= i < |s| ==> !IsJsSpace(s[i]) && !IsPunct(s[i]) && NotUpper(s[i])
  }

  /**
   * normalizeCoopName: lower-case, drop all white space, drop the punctuation,
   * trim. A missing or empty name is "".
   */
  function NormalizeCoopName(name: string): (r: string)
    ensures IsNormal(r)
    ensures |r| <= |name|
  {
    if name == [] then []
    else
      var s := Strip(Strip(Lower(name), IsJsSpace), IsPunct);
      NoSpaceLeft(name);
      Trim(s)
  }

  predicate NotUpperNorSpace(c: char)
  {
    NotUpper(c) && !IsJsSpace(c)
  }

  lemma LoweredNotUpper(name: string)
    ensures forall i :: 0 <= i < |Lower(name)| ==> NotUpper(Lower(name)[i])
  {
    LowerIsLowered(name);
  }

  lemma SpacesStripped(l: string)
    requires forall i :: 0 <= i < |l| ==> NotUpper(l[i])
    ensures forall i :: 0 <= i < |Strip(l, IsJsSpace)| ==> NotUpperNorSpace(Strip(l, IsJsSpace)[i])
  {
    StripKeepsProperty(l, IsJsSpace, NotUpper);
  }

  lemma PunctStripped(t: string)
    requires forall i :: 0 <= i < |t| ==> NotUpperNorSpace(t[i])
    ensures IsNormal(Strip(t, IsPunct))
  {
    StripKeepsProperty(t, IsPunct, NotUpperNorSpace);
  }

  lemma NoSpaceLeft(name: string)
    ensures var s := Strip(Strip(Lower(name), IsJsSpace), IsPunct);
      Trim(s) == s && IsNormal(s)
  {
    LoweredNotUpper(name);
    SpacesStripped(Lower(name));
    var s := Strip(Strip(Lower(name), IsJsSpace), IsPunct);
    PunctStripped(Strip(Lower(name), IsJsSpace));
    TrimNoSpace(s);
  }

  /** The normalisation without the trim, which has nothing left to remove. */
  lemma NormalizeUnfold(name: string)
    ensures NormalizeCoopName(name) == Squash(name)
  {
    NoSpaceLeft(name);
  }

  /** A name already in normal form is its own normal form: normalising removes nothing else. */
  lemma NormalFixed(s: string)
    requires IsNormal(s)
    ensures NormalizeCoopName(s) == s
  {
    NormalizeUnfold(s);
    assert IsLowered(s);
    LoweredFixed(s);
    StripKeepsClean(s, IsJsSpace);
    StripKeepsClean(s, IsPunct);
  }

  lemma NormalizeIdempotent(name: string)
    ensures NormalizeCoopName(NormalizeCoopName(name)) == NormalizeCoopName(name)
  {
    NormalFixed(NormalizeCoopName(name));
  }

  /** A character normalisation ignores: white space or the punctuation. */
  predicate Ignorable(c: char)
  {
    IsJsSpace(c) || IsPunct(c)
  }

  /** Lower-case, then drop white space and the punctuation. */
  function Squash(s: string): string
  {
    Strip(Strip(Lower(s), IsJsSpace), IsPunct)
  }

  lemma {:induction false} SquashAppend(a: string, b: string)
    ensures Squash(a + b) == Squash(a) + Squash(b)
  {
    LowerAppend(a, b);
    StripAppend(Lower(a), Lower(b), IsJsSpace);
    StripAppend(Strip(Lower(a), IsJsSpace), Strip(Lower(b), IsJsSpace), IsPunct);
  }

  lemma IgnorableVanishes(c: char)
    requires Ignorable(c)
    ensures Squash([c]) == []
  {
    assert LowerChar(c) == c;
    assert Lower([c]) == [c];
    if IsJsSpace(c) {
      assert Strip([c], IsJsSpace) == [];
    } else {
      assert Strip([c], IsJsSpace) == [c];
    }
  }

  lemma SquashIgnoresInsertion(a: string, c: char, b: string)
    requires Ignorable(c)
    ensures Squash(a + [c] + b) == Squash(a + b)
  {
    SquashAppend(a + [c], b);
    SquashAppend(a, [c]);
    SquashAppend(a, b);
    IgnorableVanishes(c);
  }

  /** Putting a space or one of the punctuation marks anywhere into a name does not change the cooperative it names. */
  lemma NormalizeIgnoresInsertion(a: string, c: char, b: string)
    requires Ignorable(c)
    ensures NormalizeCoopName(a + [c] + b) == NormalizeCoopName(a + b)
  {
    SquashIgnoresInsertion(a, c, b);
    NormalizeUnfold(a + [c] + b);
    NormalizeUnfold(a + b);
  }

  /** Upper and lower case name the same cooperative. */
  lemma NormalizeIgnoresCase(name: string)
    ensures NormalizeCoopName(Lower(name)) == NormalizeCoopName(name)
  {
    NormalizeUnfold(name);
    NormalizeUnfold(Lower(name));
    LowerIsLowered(name);
  }

  /** A run of ASCII letters only loses its capitals. */
  lemma SquashLetters(s: string)
    requires forall i :: 0 <= i < |s| ==> 'a' <= s[i] <= 'z' || 'A' <= s[i] <= 'Z'
    ensures Squash(s) == Lower(s)
  {
    var l := Lower(s);
    assert forall i :: 0 <= i < |l| ==> 'a' <= l[i] <= 'z';
    StripKeepsClean(l, IsJsSpace);
    StripKeepsClean(l, IsPunct);
  }

  lemma LowerCoopA()
    ensures Lower("CoopA") == "coopa"
  {
    var l := Lower("CoopA");
    assert l[0] == 'c' && l[1] == 'o' && l[2] == 'o' && l[3] == 'p' && l[4] == 'a';
  }

  /** Two separators inside a name of letters leave only its lowered letters. */
  lemma SquashTwoSeparators(a: string, c: char, b: string, e: char, d: string)
    requires Ignorable(c) && Ignorable(e)
    requires forall i :: 0 <= i < |a + b + d| ==> 'a' <= (a + b + d)[i] <= 'z' || 'A' <= (a + b + d)[i] <= 'Z'
    ensures Squash(a + [c] + b + [e] + d) == Lower(a + b + d)
  {
    assert a + [c] + b + [e] + d == a + [c] + (b + [e] + d);
    SquashIgnoresInsertion(a, c, b + [e] + d);
    SquashAppend(a, b + [e] + d);
    SquashIgnoresInsertion(b, e, d);
    SquashAppend(a, b + d);
    assert a + (b + d) == a + b + d;
    SquashLetters(a + b + d);
  }

  lemma SquashFirstSpelling()
    ensures Squash("Co-op A") == "coopa"
  {
    assert "Co-op A" == "Co" + ['-'] + "op" + [' '] + "A";
    assert "Co" + "op" + "A" == "CoopA";
    SquashTwoSeparators("Co", '-', "op", ' ', "A");
    LowerCoopA();
  }

  lemma SquashSecondSpelling()
    ensures Squash("co op-a") == "coopa"
  {
    assert "co op-a" == "co" + [' '] + "op" + ['-'] + "a";
    assert "co" + "op" + "a" == "coopa";
    SquashTwoSeparators("co", ' ', "op", '-', "a");
    assert Lower("coopa") == "coopa";
  }

  /** "Co-op A" and "co op-a" count as one cooperative, "coopa". */
  lemma SpellingsOfOneCoop()
    ensures NormalizeCoopName("Co-op A") == NormalizeCoopName("co op-a") == "coopa"
  {
    NormalizeUnfold("Co-op A");
    NormalizeUnfold("co op-a");
    SquashFirstSpelling();
    SquashSecondSpelling();
  }

  // ----- What is counted ----------------------------------------------------

  /** The bookings a row of figures counts: all paid ones, paid ones of one colour, or paid ones whose colour is none of the four. */
  datatype Scope = AllPaid | PaidOfColor(color: Color) | PaidOtherColor

  predicate InScope(b: Booking, sc: Scope)
  {
    IsPaid(b) &&
    match sc
    case AllPaid => true
    case PaidOfColor(c) => ColorOf(b.coopColor) == Some(c)
    case PaidOtherColor => ColorOf(b.coopColor).None?
  }

  datatype Measure = Shirts | Flowers | Tables | Sponsor | Revenue

  function Amount(b: Booking, m: Measure): int
  {
    match m
    case Shirts => ShirtCount(b)
    case Flowers => b.flowerCount
    case Tables => b.tableCount
    case Sponsor => b.sponsorAmount
    case Revenue => b.totalAmount
  }

  /** A figure summed over the bookings in scope, taken in storage order. */
  function Total(bs: seq<Booking>, sc: Scope, m: Measure): int
  {
    if bs == [] then 0
    else if InScope(bs[|bs| - 1], sc) then Total(bs[..|bs| - 1], sc, m) + Amount(bs[|bs| - 1], m)
    else Total(bs[..|bs| - 1], sc, m)
  }

  /** The shirt count per size tier over the bookings in scope. */
  function TierTotals(bs: seq<Booking>, sc: Scope): Tiers
  {
    if bs == [] then NoShirts
    else if InScope(bs[|bs| - 1], sc) then AddTiers(TierTotals(bs[..|bs| - 1], sc), bs[|bs| - 1].shirts)
    else TierTotals(bs[..|bs| - 1], sc)
  }

  /** The name a booking is counted under: its cooperative name, normalised. */
  function CoopKey(b: Booking): string
  {
    NormalizeCoopName(b.coopName)
  }

  /** The keys of the paid bookings. */
  function PaidKeys(bs: seq<Booking>, key: Booking -> string): set<string>
  {
    if bs == [] then {}
    else if IsPaid(bs[|bs| - 1]) then PaidKeys(bs[..|bs| - 1], key) + {key(bs[|bs| - 1])}
    else PaidKeys(bs[..|bs| - 1], key)
  }

  /** The normalised names of the paid bookings (uniqueCoops). */
  function PaidCoops(bs: seq<Booking>): set<string>
  {
    PaidKeys(bs, CoopKey)
  }

  // ----- The forEach loop ----------------------------------------------------

  /** The figures updateSummaryTab writes into the page. */
  datatype Figures = Figures(
    coops: set<string>,
    totalShirts: int,
    totalFlowers: int,
    totalTables: int,
    totalSponsor: int,
    totalRevenue: int,
    tiers: Tiers,
    byColor: map<Color, Tiers>)

  /** Taking one more booking into the prefix adds it to each figure whose scope it is in. */
  lemma StepTotals(bs: seq<Booking>, i: nat)
    requires i < |bs|
    ensures forall sc, m :: Total(bs[..i + 1], sc, m)
                            == if InScope(bs[i], sc) then Total(bs[..i], sc, m) + Amount(bs[i], m) else Total(bs[..i], sc, m)
    ensures forall sc :: TierTotals(bs[..i + 1], sc)
                         == if InScope(bs[i], sc) then AddTiers(TierTotals(bs[..i], sc), bs[i].shirts) else TierTotals(bs[..i], sc)
    ensures PaidCoops(bs[..i + 1])
            == if IsPaid(bs[i]) then PaidCoops(bs[..i]) + {CoopKey(bs[i])} else PaidCoops(bs[..i])
  {
    assert bs[..i + 1][..i] == bs[..i] && bs[..i + 1][i] == bs[i];
  }

  /** The colour rows hold all four colours. */
  predicate AllColorRows(byColor: map<Color, Tiers>)
  {
    forall c: Color :: c in byColor
  }

  /** The body of the forEach callback: one booking added to the running figures if it is paid. */
  method AddBooking(acc: Figures, b: Booking) returns (next: Figures)
    requires AllColorRows(acc.byColor)
    ensures AllColorRows(next.byColor)
    ensures next.coops == if IsPaid(b) then acc.coops + {CoopKey(b)} else acc.coops
    ensures next.totalShirts == if IsPaid(b) then acc.totalShirts + Amount(b, Shirts) else acc.totalShirts
    ensures next.totalFlowers == if IsPaid(b) then acc.totalFlowers + Amount(b, Flowers) else acc.totalFlowers
    ensures next.totalTables == if IsPaid(b) then acc.totalTables + Amount(b, Tables) else acc.totalTables
    ensures next.totalSponsor == if IsPaid(b) then acc.totalSponsor + Amount(b, Sponsor) else acc.totalSponsor
    ensures next.totalRevenue == if IsPaid(b) then acc.totalRevenue + Amount(b, Revenue) else acc.totalRevenue
    ensures next.tiers == if IsPaid(b) then AddTiers(acc.tiers, b.shirts) else acc.tiers
    ensures forall c: Color :: next.byColor[c]
                               == if InScope(b, PaidOfColor(c)) then AddTiers(acc.byColor[c], b.shirts) else acc.byColor[c]
  {
    next := acc;
    if b.paymentStatus == Paid {
      var t := b.shirts;
      SumOfTiers(t);
      var byColor := acc.byColor;
      var color := ColorOf(b.coopColor);
      if color.Some? {
        byColor := byColor[color.value := AddTiers(byColor[color.value], t)];
      }
      next := Figures(
        acc.coops + {NormalizeCoopName(b.coopName)},
        acc.totalShirts + (t[0] + t[1] + t[2] + t[3] + t[4] + t[5] + t[6] + t[7] + t[8] + t[9] + t[10]),
        acc.totalFlowers + b.flowerCount,
        acc.totalTables + b.tableCount,
        acc.totalSponsor + b.sponsorAmount,
        acc.totalRevenue + b.totalAmount,
        AddTiers(acc.tiers, t),
        byColor);
    }
  }

  /** The colour rows before any booking is counted (sizesByColor's initial value). */
  const EmptyColorRows: map<Color, Tiers> := map[Green := NoShirts, Blue := NoShirts, Purple := NoShirts, Pink := NoShirts]

  lemma EmptyColorRowsComplete()
    ensures AllColorRows(EmptyColorRows)
    ensures forall c: Color :: EmptyColorRows[c] == NoShirts
  {
    forall c: Color ensures c in EmptyColorRows {
      match c
      case Green =>
      case Blue =>
      case Purple =>
      case Pink =>
    }
  }

  /** The figures for no bookings at all: nothing counted, every colour row zero. */
  function NoFigures(): (f: Figures)
    ensures AllColorRows(f.byColor)
    ensures forall c: Color :: f.byColor[c] == NoShirts
  {
    EmptyColorRowsComplete();
    Figures({}, 0, 0, 0, 0, 0, NoShirts, EmptyColorRows)
  }

  /** The running figures agree with Total, TierTotals and PaidCoops over the bookings seen so far. */
  predicate Counted(f: Figures, bs: seq<Booking>)
  {
    && AllColorRows(f.byColor)
    && f.coops == PaidCoops(bs)
    && f.totalShirts == Total(bs, AllPaid, Shirts)
    && f.totalFlowers == Total(bs, AllPaid, Flowers)
    && f.totalTables == Total(bs, AllPaid, Tables)
    && f.totalSponsor == Total(bs, AllPaid, Sponsor)
    && f.totalRevenue == Total(bs, AllPaid, Revenue)
    && f.tiers == TierTotals(bs, AllPaid)
    && forall c: Color :: f.byColor[c] == TierTotals(bs, PaidOfColor(c))
  }

  /** One pass over the bookings, counting the paid ones. */
  method Summarize(bs: seq<Booking>) returns (f: Figures)
    ensures f.coops == PaidCoops(bs)
    ensures f.totalShirts == Total(bs, AllPaid, Shirts)
    ensures f.totalFlowers == Total(bs, AllPaid, Flowers)
    ensures f.totalTables == Total(bs, AllPaid, Tables)
    ensures f.totalSponsor == Total(bs, AllPaid, Sponsor)
    ensures f.totalRevenue == Total(bs, AllPaid, Revenue)
    ensures f.tiers == TierTotals(bs, AllPaid)
    ensures forall c: Color :: c in f.byColor && f.byColor[c] == TierTotals(bs, PaidOfColor(c))
  {
    f := NoFigures();
    assert bs[..0] == [];
    var i := 0;
    while i < |bs|
      invariant 0 <= i <= |bs|
      invariant Counted(f, bs[..i])
    {
      f := AddBooking(f, bs[i]);
      StepTotals(bs, i);
      i := i + 1;
    }
    assert bs[..i] == bs;
  }

  // ----- What the figures mean ----------------------------------------------

  /** The colour total shown beside each colour row is that colour's shirt count; for all paid bookings, the shirt total. */
  lemma {:induction false} TierRowAddsUp(bs: seq<Booking>, sc: Scope)
    ensures Sum(TierTotals(bs, sc)) == Total(bs, sc, Shirts)
  {
    if bs == [] {
      SumNoShirts();
    } else {
      var prefix := bs[..|bs| - 1];
      TierRowAddsUp(prefix, sc);
      if InScope(bs[|bs| - 1], sc) {
        SumAddTiers(TierTotals(prefix, sc), bs[|bs| - 1].shirts);
      }
    }
  }

  /**
   * Every paid booking falls in exactly one colour row or in none of the four
   * colours: per size tier, the tier count is the four colour rows plus the
   * count of paid bookings with another colour key.
   */
  lemma {:induction false} ColorRowsPartitionTiers(bs: seq<Booking>)
    ensures forall k :: 0 <= k < TierCount ==>
      TierTotals(bs, AllPaid)[k]
      == TierTotals(bs, PaidOfColor(Green))[k] + TierTotals(bs, PaidOfColor(Blue))[k]
         + TierTotals(bs, PaidOfColor(Purple))[k] + TierTotals(bs, PaidOfColor(Pink))[k]
         + TierTotals(bs, PaidOtherColor)[k]
  {
    if bs != [] {
      ColorRowsPartitionTiers(bs[..|bs| - 1]);
    }
  }

  /** The same partition for each of the five totals. */
  lemma {:induction false} ColorRowsPartitionTotals(bs: seq<Booking>, m: Measure)
    ensures Total(bs, AllPaid, m)
            == Total(bs, PaidOfColor(Green), m) + Total(bs, PaidOfColor(Blue), m)
               + Total(bs, PaidOfColor(Purple), m) + Total(bs, PaidOfColor(Pink), m)
               + Total(bs, PaidOtherColor, m)
  {
    if bs != [] {
      ColorRowsPartitionTotals(bs[..|bs| - 1], m);
    }
  }

  /** Every paid booking carries one of the four colour keys. */
  predicate KnownColors(bs: seq<Booking>)
  {
    forall i :: 0 <= i < |bs| && IsPaid(bs[i]) ==> ColorOf(bs[i].coopColor).Some?
  }

  lemma {:induction false} NoOtherColor(bs: seq<Booking>, m: Measure)
    requires KnownColors(bs)
    ensures TierTotals(bs, PaidOtherColor) == NoShirts
    ensures Total(bs, PaidOtherColor, m) == 0
  {
    if bs != [] {
      NoOtherColor(bs[..|bs| - 1], m);
    }
  }

  /** When every paid booking has one of the four colours, the four colour rows add up to the size-tier row. */
  lemma ColorRowsCoverTiers(bs: seq<Booking>, k: int)
    requires KnownColors(bs)
    requires 0 <= k < TierCount
    ensures TierTotals(bs, AllPaid)[k]
            == TierTotals(bs, PaidOfColor(Green))[k] + TierTotals(bs, PaidOfColor(Blue))[k]
               + TierTotals(bs, PaidOfColor(Purple))[k] + TierTotals(bs, PaidOfColor(Pink))[k]
  {
    ColorRowsPartitionTiers(bs);
    NoOtherColor(bs, Shirts);
  }

  /** When every paid booking has one of the four colours, the four colour totals add up to the shirt total. */
  lemma ColorTotalsCoverShirts(bs: seq<Booking>)
    requires KnownColors(bs)
    ensures Total(bs, PaidOfColor(Green), Shirts) + Total(bs, PaidOfColor(Blue), Shirts)
            + Total(bs, PaidOfColor(Purple), Shirts) + Total(bs, PaidOfColor(Pink), Shirts)
            == Total(bs, AllPaid, Shirts)
  {
    ColorRowsPartitionTotals(bs, Shirts);
    NoOtherColor(bs, Shirts);
  }

  /** No booking orders a negative number of shirts in any tier. */
  predicate NonNegativeShirts(bs: seq<Booking>)
  {
    forall i, k :: 0 <= i < |bs| && 0 <= k < TierCount ==> bs[i].shirts[k] >= 0
  }

  lemma {:induction false} TierTotalsNonNegative(bs: seq<Booking>, sc: Scope)
    requires NonNegativeShirts(bs)
    ensures forall k :: 0 <= k < TierCount ==> TierTotals(bs, sc)[k] >= 0
  {
    if bs != [] {
      TierTotalsNonNegative(bs[..|bs| - 1], sc);
    }
  }

  /** With no negative quantities, no colour row exceeds the size-tier row. */
  lemma ColorRowWithinTiers(bs: seq<Booking>, c: Color, k: int)
    requires NonNegativeShirts(bs)
    requires 0 <= k < TierCount
    ensures 0 <= TierTotals(bs, PaidOfColor(c))[k] <= TierTotals(bs, AllPaid)[k]
  {
    ColorRowsPartitionTiers(bs);
    TierTotalsNonNegative(bs, PaidOfColor(Green));
    TierTotalsNonNegative(bs, PaidOfColor(Blue));
    TierTotalsNonNegative(bs, PaidOfColor(Purple));
    TierTotalsNonNegative(bs, PaidOfColor(Pink));
    TierTotalsNonNegative(bs, PaidOtherColor);
  }

  lemma {:induction false} ShirtTotalNonNegative(bs: seq<Booking>, sc: Scope)
    requires NonNegativeShirts(bs)
    ensures Total(bs, sc, Shirts) >= 0
  {
    TierRowAddsUp(bs, sc);
    TierTotalsNonNegative(bs, sc);
    SumNonNegative(TierTotals(bs, sc));
  }

  lemma {:induction false} SumNonNegative(s: seq<int>)
    requires forall k :: 0 <= k < |s| ==> s[k] >= 0
    ensures Sum(s) >= 0
  {
    if s != [] {
      SumNonNegative(s[1..]);
    }
  }

  /** With no negative quantities, the four colour totals add up to at most the shirt total. */
  lemma ColorTotalsWithinShirts(bs: seq<Booking>)
    requires NonNegativeShirts(bs)
    ensures Total(bs, PaidOfColor(Green), Shirts) + Total(bs, PaidOfColor(Blue), Shirts)
            + Total(bs, PaidOfColor(Purple), Shirts) + Total(bs, PaidOfColor(Pink), Shirts)
            <= Total(bs, AllPaid, Shirts)
  {
    ColorRowsPartitionTotals(bs, Shirts);
    ShirtTotalNonNegative(bs, PaidOtherColor);
  }

  /** The form a booking was priced from. */
  function FormOf(b: Booking): OrderForm
  {
    OrderForm(b.shirts, b.flowerCount, b.tableCount, b.sponsorAmount)
  }

  /** Every paid booking's stored total is the price of what it orders. */
  predicate PricedAsOrdered(bs: seq<Booking>)
  {
    forall i :: 0 <= i < |bs| && IsPaid(bs[i]) ==> bs[i].totalAmount == LineItemPrice(FormOf(bs[i]))
  }

  /** While stored totals are the prices of the orders, the revenue is the price formula applied to the other totals. */
  lemma {:induction false} RevenueIsPriceOfTotals(bs: seq<Booking>, sc: Scope)
    requires PricedAsOrdered(bs)
    ensures Total(bs, sc, Revenue)
            == ShirtPrice * Total(bs, sc, Shirts) + FlowerPrice * Total(bs, sc, Flowers)
               + TablePrice * Total(bs, sc, Tables) + Total(bs, sc, Sponsor)
  {
    if bs != [] {
      var b := bs[|bs| - 1];
      RevenueIsPriceOfTotals(bs[..|bs| - 1], sc);
      if InScope(b, sc) {
        LineItemPriceIsLinear(FormOf(b));
      }
    }
  }

  /** Some paid booking has key `x`. */
  ghost predicate PaidWithKey(bs: seq<Booking>, key: Booking -> string, x: string)
  {
    exists i :: 0 <= i < |bs| && IsPaid(bs[i]) && key(bs[i]) == x
  }

  lemma PaidWithKeySnoc(bs: seq<Booking>, key: Booking -> string, x: string)
    requires bs != []
    ensures PaidWithKey(bs, key, x)
            <==> PaidWithKey(bs[..|bs| - 1], key, x) || (IsPaid(bs[|bs| - 1]) && key(bs[|bs| - 1]) == x)
  {
    var prefix := bs[..|bs| - 1];
    if PaidWithKey(prefix, key, x) {
      var i :| 0 <= i < |prefix| && IsPaid(prefix[i]) && key(prefix[i]) == x;
      assert bs[i] == prefix[i];
    }
    if PaidWithKey(bs, key, x) {
      var i :| 0 <= i < |bs| && IsPaid(bs[i]) && key(bs[i]) == x;
      if i < |prefix| {
        assert prefix[i] == bs[i];
      }
    }
  }

  lemma {:induction false} PaidKeysMembers(bs: seq<Booking>, key: Booking -> string, x: string)
    ensures x in PaidKeys(bs, key) <==> PaidWithKey(bs, key, x)
  {
    if bs != [] {
      PaidKeysMembers(bs[..|bs| - 1], key, x);
      PaidWithKeySnoc(bs, key, x);
    }
  }

  /** A name is counted exactly when some paid booking's normalised cooperative name is that name. */
  lemma PaidCoopsMembers(bs: seq<Booking>, x: string)
    ensures x in PaidCoops(bs) <==> exists i :: 0 <= i < |bs| && IsPaid(bs[i]) && CoopKey(bs[i]) == x
  {
    PaidKeysMembers(bs, CoopKey, x);
  }

  /** There are never more cooperatives than paid bookings. */
  lemma {:induction false} PaidKeysBound(bs: seq<Booking>, key: Booking -> string)
    ensures |PaidKeys(bs, key)| <= |Select(bs, IsPaid)|
  {
    if bs != [] {
      var prefix, b := bs[..|bs| - 1], bs[|bs| - 1];
      PaidKeysBound(prefix, key);
      assert prefix + [b] == bs;
      SelectSnoc(prefix, b);
      PaidKeysSnoc(prefix, b, key);
      assert |PaidKeys(prefix, key) + {key(b)}| <= |PaidKeys(prefix, key)| + 1;
    }
  }

  lemma PaidCoopsBound(bs: seq<Booking>)
    ensures |PaidCoops(bs)| <= |Select(bs, IsPaid)|
  {
    PaidKeysBound(bs, CoopKey);
  }

  /** Appending one booking to the paid selection. */
  lemma SelectSnoc(prefix: seq<Booking>, b: Booking)
    ensures Select(prefix + [b], IsPaid) == if IsPaid(b) then Select(prefix, IsPaid) + [b] else Select(prefix, IsPaid)
  {
    SelectAppend(prefix, [b], IsPaid);
    assert Select([b], IsPaid) == if IsPaid(b) then [b] else [];
    assert Select(prefix, IsPaid) + [] == Select(prefix, IsPaid);
  }

  lemma SnocParts(s: seq<Booking>, b: Booking)
    ensures (s + [b])[..|s + [b]| - 1] == s && (s + [b])[|s + [b]| - 1] == b
  {
  }

  /** One more booking at the end adds its amount to a total whose scope it is in. */
  lemma TotalSnoc(s: seq<Booking>, b: Booking, sc: Scope, m: Measure)
    ensures Total(s + [b], sc, m) == Total(s, sc, m) + (if InScope(b, sc) then Amount(b, m) else 0)
  {
    SnocParts(s, b);
  }

  /** One more booking at the end adds its shirts to the tiers whose scope it is in. */
  lemma TierTotalsSnoc(s: seq<Booking>, b: Booking, sc: Scope)
    ensures TierTotals(s + [b], sc) == if InScope(b, sc) then AddTiers(TierTotals(s, sc), b.shirts) else TierTotals(s, sc)
  {
    SnocParts(s, b);
  }

  /** Unpaid bookings change no total: the totals over all bookings are the totals over the paid ones. */
  lemma {:induction false} OnlyPaidCount(bs: seq<Booking>, sc: Scope, m: Measure)
    ensures Total(bs, sc, m) == Total(Select(bs, IsPaid), sc, m)
  {
    if bs != [] {
      var prefix, b := bs[..|bs| - 1], bs[|bs| - 1];
      OnlyPaidCount(prefix, sc, m);
      assert prefix + [b] == bs;
      SelectSnoc(prefix, b);
      TotalSnoc(prefix, b, sc, m);
      if IsPaid(b) {
        TotalSnoc(Select(prefix, IsPaid), b, sc, m);
      }
    }
  }

  /** Unpaid bookings change no size-tier count. */
  lemma {:induction false} OnlyPaidCountTiers(bs: seq<Booking>, sc: Scope)
    ensures TierTotals(bs, sc) == TierTotals(Select(bs, IsPaid), sc)
  {
    if bs != [] {
      var prefix, b := bs[..|bs| - 1], bs[|bs| - 1];
      OnlyPaidCountTiers(prefix, sc);
      assert prefix + [b] == bs;
      SelectSnoc(prefix, b);
      TierTotalsSnoc(prefix, b, sc);
      if IsPaid(b) {
        TierTotalsSnoc(Select(prefix, IsPaid), b, sc);
      }
    }
  }

  /** One more booking at the end adds its key when it is paid. */
  lemma PaidKeysSnoc(s: seq<Booking>, b: Booking, key: Booking -> string)
    ensures PaidKeys(s + [b], key) == if IsPaid(b) then PaidKeys(s, key) + {key(b)} else PaidKeys(s, key)
  {
    SnocParts(s, b);
  }

  lemma {:induction false} OnlyPaidKeys(bs: seq<Booking>, key: Booking -> string)
    ensures PaidKeys(bs, key) == PaidKeys(Select(bs, IsPaid), key)
  {
    if bs != [] {
      var prefix, b := bs[..|bs| - 1], bs[|bs| - 1];
      OnlyPaidKeys(prefix, key);
      assert prefix + [b] == bs;
      SelectSnoc(prefix, b);
      PaidKeysSnoc(prefix, b, key);
      if IsPaid(b) {
        PaidKeysSnoc(Select(prefix, IsPaid), b, key);
      }
    }
  }

  /** Unpaid bookings add no cooperative. */
  lemma OnlyPaidCountCoops(bs: seq<Booking>)
    ensures PaidCoops(bs) == PaidCoops(Select(bs, IsPaid))
  {
    OnlyPaidKeys(bs, CoopKey);
  }
}
