/**
 * The small rules around one booking: the phone-number gate in front of
 * viewing, editing and cancelling it (checkBookingPin), when the edit and
 * cancel buttons are offered, and the admin toggle of its distribution
 * status (toggleDistributionStatus), which changes the in-memory copy only.
 */
module Access {
  import opened Wrappers
  import opened Text
  import opened Bookings
  import opened Pricing
  import opened Summary

  // ----- The phone-number gate ----------------------------------------------

  /** What the dialog was opened for (pinAction). */
  datatype PinAction = EditBooking | CancelBooking | ViewPayment | NoAction

  datatype PinOutcome = PinMissing | PinRejected | PinAccepted(action: PinAction)

  /**
   * checkBookingPin: nothing typed is refused before anything else, even for an
   * admin; otherwise the trimmed input must equal the stored number, or the
   * user must be an admin, and then the pending action goes ahead.
   */
  function CheckBookingPin(input: string, storedPin: string, isAdmin: bool, action: PinAction): (r: PinOutcome)
    ensures r == PinMissing <==> Trim(input) == []
    ensures r.PinAccepted? <==> Trim(input) != [] && (Trim(input) == storedPin || isAdmin)
    ensures r.PinAccepted? ==> r.action == action
  {
    var typed := Trim(input);
    if typed == [] then PinMissing
    else if typed == storedPin || isAdmin then PinAccepted(action)
    else PinRejected
  }

  /** The number a booking was made with, typed again with or without surrounding spaces, opens it. */
  lemma OwnPinAccepted(coopName: string, pin: string, color: string, form: OrderForm, editingId: string,
                       now: Clock, typed: string, action: PinAction)
    requires Trim(pin) != []
    requires Trim(typed) == Trim(pin)
    ensures CheckBookingPin(typed, ConfirmBooking(coopName, pin, color, form, editingId, now).pin, false, action)
            == PinAccepted(action)
  {
  }

  /** Without admin rights, any other number is refused. */
  lemma OtherPinRejected(b: Booking, typed: string, action: PinAction)
    requires Trim(typed) != [] && Trim(typed) != b.pin
    ensures CheckBookingPin(typed, b.pin, false, action) == PinRejected
  {
  }

  // ----- Edit and cancel ----------------------------------------------------

  /**
   * The edit and cancel buttons in the payment dialog as a non-admin sees it:
   * offered only while the booking awaits payment and no proof has been
   * uploaded.
   */
  predicate CanEditOrCancel(b: Booking)
  {
    b.paymentStatus == Pending && b.proofUrl == []
  }

  /** A booking just submitted can still be edited or cancelled by its owner. */
  lemma SubmittedIsEditable(coopName: string, pin: string, color: string, form: OrderForm,
                            editingId: string, now: Clock)
    ensures CanEditOrCancel(ConfirmBooking(coopName, pin, color, form, editingId, now))
  {
  }

  /** Once a proof is uploaded or the status moves on, the booking can no longer be edited or cancelled. */
  lemma LockedAfterProofOrPayment(b: Booking)
    requires b.proofUrl != [] || b.paymentStatus != Pending
    ensures !CanEditOrCancel(b)
  {
  }

  // ----- Looking a booking up by id ------------------------------------------

  /** `find(b => b.id === id)`: the position of the first booking with that id. */
  function FindById(bs: seq<Booking>, id: string): (r: Option<nat>)
    ensures r.Some? ==> r.value < |bs| && bs[r.value].id == id
    ensures r.Some? ==> forall j :: 0 <= j < r.value ==> bs[j].id != id
    ensures r.None? ==> forall j :: 0 <= j < |bs| ==> bs[j].id != id
  {
    if bs == [] then None
    else if bs[0].id == id then Some(0)
    else match FindById(bs[1..], id)
      case None => None
      case Some(k) => Some(k + 1)
  }

  // ----- The distribution toggle -------------------------------------------

  datatype ToggleOutcome = NotAdmin | RemoteFailed | Updated(status: string)

  /** The `distribution_status` the checkbox asks for. */
  function RequestedStatus(isChecked: bool): string
  {
    if isChecked then Distributed else NotDistributed
  }

  /** The bookings after the first one with `id` has been given a new distribution status. */
  function WithDistribution(bs: seq<Booking>, id: string, status: string): (r: seq<Booking>)
    ensures |r| == |bs|
    ensures forall j :: 0 <= j < |bs| && Some(j) != FindById(bs, id) ==> r[j] == bs[j]
    ensures FindById(bs, id).Some? ==>
      r[FindById(bs, id).value] == bs[FindById(bs, id).value].(distributionStatus := status)
  {
    match FindById(bs, id)
    case None => bs
    case Some(k) => bs[k := bs[k].(distributionStatus := status)]
  }

  /** The in-memory booking list and whether the user is an admin. */
  class BookingStore {
    var bookings: seq<Booking>
    var isAdmin: bool

    constructor(bookings: seq<Booking>, isAdmin: bool)
      ensures this.bookings == bookings && this.isAdmin == isAdmin
    {
      this.bookings := bookings;
      this.isAdmin := isAdmin;
    }

    /**
     * toggleDistributionStatus: refused to a non-admin; otherwise the new status
     * is sent to the store (`remoteOk` is its answer) and, if accepted, written
     * into the first booking with that id, if there is one.
     */
    method ToggleDistributionStatus(id: string, isChecked: bool, remoteOk: bool) returns (r: ToggleOutcome)
      modifies this`bookings
      ensures !isAdmin ==> r == NotAdmin && bookings == old(bookings)
      ensures isAdmin && !remoteOk ==> r == RemoteFailed && bookings == old(bookings)
      ensures isAdmin && remoteOk ==>
        r == Updated(RequestedStatus(isChecked))
        && bookings == WithDistribution(old(bookings), id, RequestedStatus(isChecked))
    {
      if !isAdmin {
        return NotAdmin;
      }
      var newStatus := if isChecked then Distributed else NotDistributed;
      if !remoteOk {
        return RemoteFailed;
      }
      var found := FindById(bookings, id);
      if found.Some? {
        var k := found.value;
        bookings := bookings[k := bookings[k].(distributionStatus := newStatus)];
      }
      r := Updated(newStatus);
    }
  }

  /** Changing distribution statuses leaves every summary figure as it was. */
  lemma {:induction false} DistributionLeavesFigures(bs: seq<Booking>, cs: seq<Booking>, sc: Scope, m: Measure)
    requires |cs| == |bs|
    requires forall j :: 0 <= j < |bs| ==> cs[j] == bs[j].(distributionStatus := cs[j].distributionStatus)
    ensures Total(cs, sc, m) == Total(bs, sc, m)
    ensures TierTotals(cs, sc) == TierTotals(bs, sc)
    ensures PaidKeys(cs, CoopKey) == PaidKeys(bs, CoopKey)
  {
    if bs != [] {
      DistributionLeavesFigures(bs[..|bs| - 1], cs[..|cs| - 1], sc, m);
    }
  }

  /** In particular the toggle changes none of the summary figures. */
  lemma ToggleLeavesFigures(bs: seq<Booking>, id: string, status: string, sc: Scope, m: Measure)
    ensures Total(WithDistribution(bs, id, status), sc, m) == Total(bs, sc, m)
    ensures TierTotals(WithDistribution(bs, id, status), sc) == TierTotals(bs, sc)
    ensures PaidCoops(WithDistribution(bs, id, status)) == PaidCoops(bs)
  {
    DistributionLeavesFigures(bs, WithDistribution(bs, id, status), sc, m);
  }
}
