/**
 * The search box shared by the status, summary and payment tabs
 * (matchSearchQuery) and the filter the tabs apply with it.
 */
module Search {
  import opened Text
  import opened Bookings

  /** searchColorMap: the Thai word each team colour is found by; "" for any other key. */
  function ColorSearchTerm(key: string): string
  {
    match ColorOf(key)
    case Some(Green) => "เขียว"
    case Some(Blue) => "ฟ้า"
    case Some(Purple) => "ม่วง"
    case Some(Pink) => "ชมพู"
    case None => ""
  }

  /** The four texts a query is looked for in. */
  function SearchFields(b: Booking): seq<string>
  {
    [b.id, b.coopName, b.paymentStatus, ColorSearchTerm(b.coopColor)]
  }

  /** matchSearchQuery: an empty query matches; otherwise a case-blind `includes` on each field in turn. */
  predicate MatchSearchQuery(b: Booking, query: string)
  {
    if query == [] then true
    else
      var q := Lower(query);
      Contains(Lower(b.id), q)
      || Contains(Lower(b.coopName), q)
      || Contains(Lower(b.paymentStatus), q)
      || Contains(Lower(ColorSearchTerm(b.coopColor)), q)
  }

  /**
   * What a match means: the query is empty, or, both lowered, the query occurs
   * as a window of one of the four fields.
   */
  lemma MatchMeaning(b: Booking, query: string)
    ensures MatchSearchQuery(b, query)
            <==> query == [] || exists k, i :: 0 <= k < 4 && OccursAt(Lower(SearchFields(b)[k]), Lower(query), i)
  {
    var fields := SearchFields(b);
    var q := Lower(query);
    forall k | 0 <= k < 4 ensures Contains(Lower(fields[k]), q) <==> exists i :: OccursAt(Lower(fields[k]), q, i) {
      ContainsIffOccurs(Lower(fields[k]), q);
    }
    if query != [] {
      assert fields[0] == b.id && fields[1] == b.coopName && fields[2] == b.paymentStatus
        && fields[3] == ColorSearchTerm(b.coopColor);
      assert MatchSearchQuery(b, query) <==> exists k :: 0 <= k < 4 && Contains(Lower(fields[k]), q);
    }
  }

  /**
   * Lower-casing the query first does not change which bookings match: the
   * status and summary tabs store their query lowered, the payment tab as typed.
   */
  lemma MatchIgnoresQueryCase(b: Booking, query: string)
    ensures MatchSearchQuery(b, Lower(query)) == MatchSearchQuery(b, query)
  {
    LowerIsLowered(query);
  }

  /** Every booking passes the filter of the empty query. */
  lemma EmptyQueryMatches(b: Booking)
    ensures MatchSearchQuery(b, [])
  {
  }

  /** The `filter(b => matchSearchQuery(b, query))` step of each tab. */
  function FilterByQuery(bs: seq<Booking>, query: string): seq<Booking>
  {
    Select(bs, b => MatchSearchQuery(b, query))
  }

  /** The filter keeps exactly the matching bookings, as many times as they occur. */
  lemma FilterByQueryKeepsMatches(bs: seq<Booking>, query: string)
    ensures forall b :: multiset(FilterByQuery(bs, query))[b]
                        == if MatchSearchQuery(b, query) then multiset(bs)[b] else 0
    ensures forall b :: b in FilterByQuery(bs, query) <==> b in bs && MatchSearchQuery(b, query)
  {
    SelectCounts(bs, b => MatchSearchQuery(b, query));
    SelectMembers(bs, b => MatchSearchQuery(b, query));
  }

  /** Filtering by the empty query returns the collection unchanged, order included. */
  lemma FilterEmptyQuery(bs: seq<Booking>)
    ensures FilterByQuery(bs, []) == bs
  {
    SelectAll(bs, b => MatchSearchQuery(b, []));
  }
}
