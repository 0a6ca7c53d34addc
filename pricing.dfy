/**
 * The booking form: the price preview (previewBooking), the record that
 * confirmBooking sends to the store, and the booking id it builds from the
 * clock.
 */
module Pricing {
  import opened Wrappers
  import opened Text
  import opened Bookings

  const ShirtPrice: int := 300
  const FlowerPrice: int := 600
  const TablePrice: int := 3000

  /** The quantities typed into the form, already parsed (`parseInt(…) || 0`). */
  datatype OrderForm = OrderForm(shirts: Tiers, flowerCount: int, tableCount: int, sponsorAmount: int)

  /** The figures the preview dialog shows. */
  datatype Costs = Costs(totalShirts: int, shirtCost: int, flowerCost: int, tableCost: int, totalCost: int)

  /** Why the preview refuses the form, checked in this order. */
  datatype FormError = MissingCoopName | BadPhoneNumber | MissingColor

  /** The price as a list of line items: every shirt of every tier, every flower, every table, plus the sponsorship. */
  function LineItemPrice(form: OrderForm): int
  {
    Sum(seq(TierCount, k requires 0 <= k < TierCount => ShirtPrice * form.shirts[k]))
    + FlowerPrice * form.flowerCount + TablePrice * form.tableCount + form.sponsorAmount
  }

  /** The checks previewBooking makes before it prices anything. */
  function CheckForm(coopName: string, pin: string, color: string): (r: Option<FormError>)
    ensures r == None <==> Trim(coopName) != [] && |Trim(pin)| == 10 && color != []
    ensures r == Some(MissingCoopName) <==> Trim(coopName) == []
    ensures r == Some(BadPhoneNumber) <==> Trim(coopName) != [] && |Trim(pin)| != 10
  {
    var name := Trim(coopName);
    var phone := Trim(pin);
    if name == [] then Some(MissingCoopName)
    else if phone == [] || |phone| != 10 then Some(BadPhoneNumber)
    else if color == [] then Some(MissingColor)
    else None
  }

  /** previewBooking: validate the form, then price it. */
  function PreviewBooking(coopName: string, pin: string, color: string, form: OrderForm): (r: Result<Costs, FormError>)
    ensures r.Failure? <==> CheckForm(coopName, pin, color).Some?
    ensures r.Failure? ==> r.error == CheckForm(coopName, pin, color).value
    ensures r.Success? ==> r.value.totalShirts == Sum(form.shirts)
    ensures r.Success? ==> r.value.shirtCost == ShirtPrice * Sum(form.shirts)
    ensures r.Success? ==> r.value.flowerCost == FlowerPrice * form.flowerCount
    ensures r.Success? ==> r.value.tableCost == TablePrice * form.tableCount
    ensures r.Success? ==> r.value.totalCost == LineItemPrice(form)
  {
    match CheckForm(coopName, pin, color)
    case Some(e) => Failure(e)
    case None =>
      var s := form.shirts;
      var totalShirts := s[0] + s[1] + s[2] + s[3] + s[4] + s[5] + s[6] + s[7] + s[8] + s[9] + s[10];
      var shirtCost := totalShirts * ShirtPrice;
      var flowerCost := form.flowerCount * FlowerPrice;
      var tableCost := form.tableCount * TablePrice;
      SumOfTiers(s);
      LineItemPriceIsLinear(form);
      Success(Costs(totalShirts, shirtCost, flowerCost, tableCost,
                    shirtCost + flowerCost + tableCost + form.sponsorAmount))
  }

  lemma {:induction false} SumScaled(c: int, s: seq<int>, r: seq<int>)
    requires |r| == |s|
    requires forall k :: 0 <= k < |s| ==> r[k] == c * s[k]
    ensures Sum(r) == c * Sum(s)
  {
    if s != [] {
      SumScaled(c, s[1..], r[1..]);
    }
  }

  /** Pricing shirt by shirt is the same as 300 times the shirt count. */
  lemma LineItemPriceIsLinear(form: OrderForm)
    ensures LineItemPrice(form)
            == ShirtPrice * Sum(form.shirts) + FlowerPrice * form.flowerCount
               + TablePrice * form.tableCount + form.sponsorAmount
  {
    SumScaled(ShirtPrice, form.shirts,
              seq(TierCount, k requires 0 <= k < TierCount => ShirtPrice * form.shirts[k]));
  }

  // ----- The booking id --------------------------------------------------------

  /** The clock readings confirmBooking uses; `month` is `getMonth()`, counted from 0. */
  datatype Clock = Clock(date: nat, month: nat, fullYear: nat, hours: nat, minutes: nat)

  /** What a `Date` can return: a day of the month, a month index, an hour and a minute in range. */
  predicate ValidClock(c: Clock)
  {
    1 <= c.date <= 31 && c.month < 12 && c.hours < 24 && c.minutes < 60
  }

  /** `String(n).padStart(2, '0')`. */
  function TwoDigits(n: nat): string
  {
    PadZeros(Decimal(n), 2)
  }

  /** Day, month, Buddhist-era year (Gregorian + 543), hour and minute, run together. */
  function NewBookingId(c: Clock): string
  {
    TwoDigits(c.date) + TwoDigits(c.month + 1) + Decimal(c.fullYear + 543)
    + TwoDigits(c.hours) + TwoDigits(c.minutes)
  }

  lemma TwoDigitsValue(n: nat)
    requires n < 100
    ensures |TwoDigits(n)| == 2 && AllDigits(TwoDigits(n)) && DecimalValue(TwoDigits(n)) == n
  {
    var s := Decimal(n);
    var r := TwoDigits(n);
    DecimalLength(n);
    DecimalRoundTrip(n);
    var z := r[..|r| - |s|];
    assert r == z + s;
    LeadingZeroValue(z, s);
  }

  lemma AllDigitsConcat(a: string, b: string)
    requires AllDigits(a) && AllDigits(b)
    ensures AllDigits(a + b)
  {
    forall i | 0 <= i < |a + b| ensures IsDigit((a + b)[i]) {
      if i >= |a| { assert (a + b)[i] == b[i - |a|]; }
    }
  }

  /** The layout of an id made of four two-digit fields around a year of any length. */
  lemma IdParts(d: string, m: string, yr: string, h: string, mi: string)
    requires |d| == 2 && |m| == 2 && |h| == 2 && |mi| == 2
    requires AllDigits(d) && AllDigits(m) && AllDigits(yr) && AllDigits(h) && AllDigits(mi)
    ensures var id, y := d + m + yr + h + mi, |yr|;
      && |id| == 8 + y && AllDigits(id)
      && id[0..2] == d && id[2..4] == m && id[4..4 + y] == yr
      && id[4 + y..6 + y] == h && id[6 + y..8 + y] == mi
  {
    AllDigitsConcat(d, m);
    AllDigitsConcat(d + m, yr);
    AllDigitsConcat(d + m + yr, h);
    AllDigitsConcat(d + m + yr + h, mi);
  }

  /** The fields a twelve-digit booking id spells out, in the order they appear. */
  datatype Stamp = Stamp(day: nat, month: nat, buddhistYear: nat, hour: nat, minute: nat)

  /** Reads a twelve-digit booking id back into its fields. */
  function ReadBookingId(id: string): Option<Stamp>
  {
    if |id| == 12 && AllDigits(id) then
      Some(Stamp(DecimalValue(id[0..2]), DecimalValue(id[2..4]), DecimalValue(id[4..8]),
                 DecimalValue(id[8..10]), DecimalValue(id[10..12])))
    else None
  }

  /** The id is eight digits plus however many the Buddhist-era year has. */
  lemma BookingIdLength(c: Clock)
    requires ValidClock(c)
    ensures |NewBookingId(c)| == 8 + DigitCount(c.fullYear + 543)
    ensures AllDigits(NewBookingId(c))
  {
    TwoDigitsValue(c.date);
    TwoDigitsValue(c.month + 1);
    TwoDigitsValue(c.hours);
    TwoDigitsValue(c.minutes);
    DecimalLength(c.fullYear + 543);
    IdParts(TwoDigits(c.date), TwoDigits(c.month + 1), Decimal(c.fullYear + 543),
            TwoDigits(c.hours), TwoDigits(c.minutes));
  }

  /** An id laid out from four two-digit fields around a four-digit year reads back as those fields. */
  lemma ReadIdParts(d: string, m: string, yr: string, h: string, mi: string)
    requires |d| == 2 && |m| == 2 && |yr| == 4 && |h| == 2 && |mi| == 2
    requires AllDigits(d) && AllDigits(m) && AllDigits(yr) && AllDigits(h) && AllDigits(mi)
    ensures ReadBookingId(d + m + yr + h + mi)
            == Some(Stamp(DecimalValue(d), DecimalValue(m), DecimalValue(yr), DecimalValue(h), DecimalValue(mi)))
  {
    IdParts(d, m, yr, h, mi);
  }

  /**
   * While the Buddhist-era year has four digits the id is twelve digits long and
   * reads back as the day, the month (1 to 12), the year, the hour and the minute.
   */
  lemma BookingIdRoundTrip(c: Clock)
    requires ValidClock(c) && 1000 <= c.fullYear + 543 <= 9999
    ensures ReadBookingId(NewBookingId(c))
            == Some(Stamp(c.date, c.month + 1, c.fullYear + 543, c.hours, c.minutes))
  {
    TwoDigitsValue(c.date);
    TwoDigitsValue(c.month + 1);
    TwoDigitsValue(c.hours);
    TwoDigitsValue(c.minutes);
    DecimalLength(c.fullYear + 543);
    DecimalRoundTrip(c.fullYear + 543);
    ReadIdParts(TwoDigits(c.date), TwoDigits(c.month + 1), Decimal(c.fullYear + 543),
                TwoDigits(c.hours), TwoDigits(c.minutes));
  }

  // ----- The record confirmBooking sends -------------------------------------

  /**
   * confirmBooking: the record sent to the store. An edit keeps the id being
   * edited (`editingId`, "" when none); a new booking gets an id from the clock.
   * Either way the status goes back to awaiting payment.
   */
  function ConfirmBooking(coopName: string, pin: string, color: string, form: OrderForm,
                          editingId: string, now: Clock): (b: Booking)
    ensures editingId != [] ==> b.id == editingId
    ensures editingId == [] ==> b.id == NewBookingId(now)
    ensures b.coopName == Trim(coopName) && b.pin == Trim(pin) && b.coopColor == color
    ensures b.shirts == form.shirts && b.flowerCount == form.flowerCount
    ensures b.tableCount == form.tableCount && b.sponsorAmount == form.sponsorAmount
    ensures b.totalAmount == LineItemPrice(form)
    ensures b.paymentStatus == Pending
  {
    var s := form.shirts;
    var totalShirts := s[0] + s[1] + s[2] + s[3] + s[4] + s[5] + s[6] + s[7] + s[8] + s[9] + s[10];
    var totalAmount := totalShirts * ShirtPrice + form.flowerCount * FlowerPrice
                       + form.tableCount * TablePrice + form.sponsorAmount;
    var id := if editingId == [] then NewBookingId(now) else editingId;
    SumOfTiers(s);
    LineItemPriceIsLinear(form);
    assert totalAmount == LineItemPrice(form);
    Booking(id, Trim(pin), Trim(coopName), color, s, form.flowerCount, form.tableCount,
            form.sponsorAmount, totalAmount, Pending, "", "")
  }

  /** The total the preview shows is the total that is then submitted. */
  lemma PreviewMatchesSubmitted(coopName: string, pin: string, color: string, form: OrderForm,
                                editingId: string, now: Clock)
    requires PreviewBooking(coopName, pin, color, form).Success?
    ensures PreviewBooking(coopName, pin, color, form).value.totalCost
            == ConfirmBooking(coopName, pin, color, form, editingId, now).totalAmount
  {
  }
}
