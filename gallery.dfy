/**
 * The proof-of-payment gallery: the list of uploaded slip images
 * (currentProofUrls) parsed from a booking's comma-separated proof_url, and
 * the cursor over it (currentUrlIndex) moved by the next and previous
 * buttons, wrapping around at either end.
 */
module Gallery {
  import opened Text
  import opened Bookings

  /** `url.trim() !== ''`. */
  predicate NotBlank(u: string)
  {
    Trim(u) != []
  }

  /** The images a proof_url lists: its comma-separated pieces that are not blank, in their order. */
  function ProofUrls(urlStr: string): seq<string>
  {
    Select(Split(urlStr, ','), NotBlank)
  }

  /**
   * The images are exactly the non-blank pieces of the split proof_url; none
   * of them holds a comma.
   */
  lemma ProofUrlsArePieces(urlStr: string)
    ensures forall u :: u in ProofUrls(urlStr) <==> u in Split(urlStr, ',') && NotBlank(u)
    ensures forall k :: 0 <= k < |ProofUrls(urlStr)| ==>
      ProofUrls(urlStr)[k] in Split(urlStr, ',') && NotBlank(ProofUrls(urlStr)[k]) && Free(ProofUrls(urlStr)[k], ',')
  {
    SplitFree(urlStr, ',');
    SelectMembers(Split(urlStr, ','), NotBlank);
    forall k | 0 <= k < |ProofUrls(urlStr)|
      ensures ProofUrls(urlStr)[k] in Split(urlStr, ',') && NotBlank(ProofUrls(urlStr)[k])
    {
      assert ProofUrls(urlStr)[k] in ProofUrls(urlStr);
    }
  }

  /** When no piece is blank, joining the images back with commas gives the stored proof_url. */
  lemma ProofUrlsRoundTrip(urlStr: string)
    requires forall k :: 0 <= k < |Split(urlStr, ',')| ==> NotBlank(Split(urlStr, ',')[k])
    ensures |ProofUrls(urlStr)| >= 1
    ensures Join(ProofUrls(urlStr), ',') == urlStr
  {
    SelectAll(Split(urlStr, ','), NotBlank);
    SplitJoinInverse(urlStr, ',');
  }

  /** The cursor after "next" on `n` images: one on, back to the first after the last. */
  function NextIndex(i: int, n: int): (r: int)
    requires 0 <= i < n
    ensures 0 <= r < n
    ensures i < n - 1 ==> r == i + 1
    ensures i == n - 1 ==> r == 0
  {
    (i + 1) % n
  }

  /** The cursor after "previous": one back, round to the last from the first. */
  function PrevIndex(i: int, n: int): (r: int)
    requires 0 <= i < n
    ensures 0 <= r < n
    ensures i > 0 ==> r == i - 1
    ensures i == 0 ==> r == n - 1
  {
    (i - 1 + n) % n
  }

  /** "Previous" undoes "next" and "next" undoes "previous". */
  lemma NextPrevInverse(i: int, n: int)
    requires 0 <= i < n
    ensures PrevIndex(NextIndex(i, n), n) == i
    ensures NextIndex(PrevIndex(i, n), n) == i
  {
  }

  /** `k` presses of "next". */
  function Advance(i: int, n: int, k: nat): (r: int)
    requires 0 <= i < n
    ensures 0 <= r < n
  {
    if k == 0 then i else NextIndex(Advance(i, n, k - 1), n)
  }

  /** Below the last image, `k` presses of "next" move the cursor `k` images on. */
  lemma {:induction false} AdvanceWithin(i: int, n: int, k: nat)
    requires 0 <= i && i + k < n
    ensures Advance(i, n, k) == i + k
  {
    if k > 0 {
      AdvanceWithin(i, n, k - 1);
    }
  }

  /** `a` presses and then `b` presses are `a + b` presses. */
  lemma {:induction false} AdvanceCompose(i: int, n: int, a: nat, b: nat)
    requires 0 <= i < n
    ensures Advance(i, n, a + b) == Advance(Advance(i, n, a), n, b)
  {
    if b > 0 {
      AdvanceCompose(i, n, a, b - 1);
    }
  }

  /** Pressing "next" once per image brings the cursor back to where it started. */
  lemma FullCycle(i: int, n: int)
    requires 0 <= i < n
    ensures Advance(i, n, n) == i
  {
    AdvanceWithin(i, n, n - 1 - i);
    AdvanceCompose(i, n, n - 1 - i, i + 1);
    AdvanceCompose(n - 1, n, 1, i);
    assert Advance(n - 1, n, 1) == 0;
    AdvanceWithin(0, n, i);
  }

  /** The gallery's state: the images of the slip being looked at and the one shown. */
  class ProofGallery {
    var urls: seq<string>
    var index: int

    /** Every image is a non-blank piece, and the cursor points at one whenever there is one. */
    predicate Valid()
      reads this
    {
      && (forall k :: 0 <= k < |urls| ==> NotBlank(urls[k]))
      && (urls == [] || 0 <= index < |urls|)
    }

    constructor()
      ensures urls == [] && index == 0
      ensures Valid()
    {
      urls := [];
      index := 0;
    }

    /** The image on screen (`currentProofUrls[currentUrlIndex]`). */
    function Current(): (u: string)
      reads this
      requires Valid() && urls != []
      ensures u == urls[index]
      ensures u in urls && NotBlank(u)
    {
      urls[index]
    }

    /**
     * openGallery: an empty proof_url changes nothing; otherwise the images
     * are replaced by the non-blank pieces, and when there is at least one the
     * cursor goes to the first.
     */
    method Open(urlStr: string)
      requires Valid()
      modifies this
      ensures Valid()
      ensures urlStr == [] ==> urls == old(urls) && index == old(index)
      ensures urlStr != [] ==> urls == ProofUrls(urlStr)
      ensures urlStr != [] && urls != [] ==> index == 0
      ensures urlStr != [] && urls == [] ==> index == old(index)
    {
      if urlStr == [] {
        return;
      }
      urls := ProofUrls(urlStr);
      ProofUrlsArePieces(urlStr);
      if |urls| == 0 {
        return;
      }
      index := 0;
    }

    /** nextImage: with two or more images, move on one, wrapping round. */
    method Next()
      requires Valid()
      modifies this`index
      ensures Valid()
      ensures |urls| <= 1 ==> index == old(index)
      ensures |urls| > 1 ==> index == NextIndex(old(index), |urls|)
    {
      if |urls| <= 1 {
        return;
      }
      index := (index + 1) % |urls|;
    }

    /** prevImage: with two or more images, move back one, wrapping round. */
    method Prev()
      requires Valid()
      modifies this`index
      ensures Valid()
      ensures |urls| <= 1 ==> index == old(index)
      ensures |urls| > 1 ==> index == PrevIndex(old(index), |urls|)
    {
      if |urls| <= 1 {
        return;
      }
      index := (index - 1 + |urls|) % |urls|;
    }
  }
}
