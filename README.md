# Cooperative-day booking views, modelled in Dafny

This project models the in-browser logic of the cooperative-day booking page (`js/app.js`).
Cooperatives book sports shirts in eleven size tiers (SS to 7XL), flower stands, banquet tables and an optional sponsorship.
They pay by uploading slips.
An admin marks bookings paid and records whether the goods were handed over.

The model covers:
- the search box shared by the three tables (`matchSearchQuery`);
- the two row orders: the status order of the status and summary tabs, and the payment order of the payment tab;
- the page cursor each tab keeps, how it is clamped, the page slice and the pager;
- the price formula;
- the booking id built from the clock;
- `normalizeCoopName` and the `updateSummaryTab` loop over the paid bookings;
- the proof-of-payment gallery;
- the phone-number gate, the edit/cancel rule, and the admin's distribution toggle.

Modules, one per file:
- `Text` (`text.dfy`): string helpers. These are ASCII lowering, JavaScript white space and `trim`, `includes`, `split`/`join`, the `<` order on strings, and decimal digits.
- `Wrappers` and `Bookings` (`bookings.dfy`): the booking record, the status labels, the four team colours and the size tiers.
- `Pricing`: `previewBooking` and `confirmBooking`, including the booking id.
- `Search`.
- `Ordering`: the comparators and a stable insertion sort.
- `Pagination`: the page count and `Array.prototype.slice`.
- `Views`: each tab's row pipeline, plus the class `TabView` holding its cursor and query.
- `Summary`: name normalisation and the aggregation loop.
- `Gallery`: the class `ProofGallery`.
- `Access`: the PIN gate, the edit/cancel rule, and the class `BookingStore`.

Missing record fields are `""` for text and `0` for quantities, as the `|| 0` reads do. The exceptions, where the code compares a missing field as `undefined`, are listed under "## Left out".
Quantities are unbounded integers and may be negative.
The code never rejects negative quantities, so the lemmas that need non-negative quantities say so in their `requires`.

## Model

| member | source | states |
|---|---|---|
| Bookings.ColorOf | js/app.js:28 | A colour is recognised only from its own key (`green`, `blue`, `purple`, `pink`) |
| Bookings.ColorKeyRoundTrip | js/app.js:458-463 | Each of the four colour keys is recognised as its colour |
| Bookings.SumAddTiers | js/app.js:469-471 | The total of a sum of tier rows is the sum of their totals |
| Bookings.SumOfTiers | js/app.js:469 | The shirt total is the sum of the eleven tier counts SS…7XL |
| Bookings.Select | js/app.js:346 | `filter` never returns more elements than it is given; its contents are stated by SelectCounts and its order by SelectAppend |
| Bookings.SelectAppend | js/app.js:346 | `filter` keeps the order of what it keeps: filtering a concatenation is filtering each part and concatenating |
| Bookings.SelectCounts | js/app.js:346 | `filter` keeps each element that passes exactly as often as it occurs, and drops every other |
| Bookings.SelectMembers | js/app.js:346 | An element is in the filtered list iff it is in the list and passes |
| Bookings.SelectAll | js/app.js:346 | A list whose elements all pass is returned unchanged |
| Text.LowerIsLowered | js/app.js:426 | A lowered string has no upper-case letter |
| Text.ContainsIffOccurs | js/app.js:426 | `includes` holds iff the needle occurs at some position of the text |
| Text.TrimEmptyIff | js/app.js:331 | A trimmed string is empty iff the string is all white space |
| Text.TrimNoSpace | js/app.js:161-162 | A string without white space is its own trim |
| Text.SplitFree | js/app.js:396 | No piece produced by `split(sep)` contains the separator |
| Text.SplitJoinInverse | js/app.js:396 | Joining the pieces of `split(sep)` with `sep` gives back the input |
| Text.CompareProperties | js/app.js:348 | The name comparison is antisymmetric and is zero only for equal names |
| Text.LessTransitive | js/app.js:437 | The `<` order on strings is transitive |
| Text.LessTotal | js/app.js:437 | Of two different strings, one is `<` the other |
| Text.DecimalRoundTrip | js/app.js:251 | Reading back the decimal digits of `n` gives `n` |
| Text.DecimalLength | js/app.js:251 | `String(n)` has as many characters as `n` has digits |
| Pricing.CheckForm | js/app.js:161-165 | The form is accepted iff the trimmed name is non-empty, the trimmed phone number has 10 characters and a colour is chosen; otherwise the first failed check is reported |
| Pricing.PreviewBooking | js/app.js:160-186 | A rejected form gives the check's error; an accepted one shows the shirt total (the sum of the 11 tiers), shirts at 300, flowers at 600 and tables at 3000 each, and the price formula's total |
| Pricing.LineItemPriceIsLinear | js/app.js:182-186 | The price is 300 × (sum of the 11 tier counts) + 600 × flowers + 3000 × tables + sponsorship |
| Pricing.ConfirmBooking | js/app.js:223-258 | The saved booking keeps an edited booking's id, or else gets a fresh id from the clock. It stores the trimmed name and number, the form's quantities and the formula's total, with status awaiting payment |
| Pricing.PreviewMatchesSubmitted | js/app.js:186 | The total shown in the preview is the `total_amount` that is submitted |
| Pricing.TwoDigitsValue | js/app.js:251 | `padStart(2, '0')` of a number below 100 is two digits that read back as the number |
| Pricing.BookingIdLength | js/app.js:248-252 | A new booking id is all digits and 8 + (digits of year + 543) long |
| Pricing.BookingIdRoundTrip | js/app.js:248-252 | For a 4-digit Buddhist-era year, the id splits back into day, month, year + 543, hour and minute, so it has 12 digits |
| Search.MatchMeaning | js/app.js:426 | A booking matches iff the query is empty or the lowered query occurs in the lowered id, name, status or colour search term |
| Search.MatchIgnoresQueryCase | js/app.js:429 | Lowering the query before storing it changes no match |
| Search.EmptyQueryMatches | js/app.js:426 | The empty query matches every booking |
| Search.FilterByQueryKeepsMatches | js/app.js:436 | Also lines 347 and 526. The filtered list holds each matching booking as often as stored, and nothing else |
| Search.FilterEmptyQuery | js/app.js:436 | Also lines 347 and 526. Filtering by the empty query changes nothing |
| Ordering.CmpFlips | js/app.js:437 | Swapping the two bookings negates the comparator |
| Ordering.BeforeTotal | js/app.js:437 | Of any two bookings, one may precede the other |
| Ordering.StatusBeforeMeaning | js/app.js:435-437 | In status order, `a` precedes `b` iff it has a lower status rank (1, 2, 3, else 999); or the same rank and a lower colour key; or the same rank and colour and a name not after `b`'s |
| Ordering.PaymentBeforeMeaning | js/app.js:348 | In payment order, `a` precedes `b` iff it has a lower rank (awaiting payment 1, awaiting verification 2, else 99), or the same rank and a name not after `b`'s |
| Ordering.BeforeTransitive | js/app.js:437 | Both orders are transitive |
| Ordering.InsertCount | js/app.js:437 | Insertion adds exactly the inserted row |
| Ordering.InsertSorted | js/app.js:437 | Insertion into sorted rows keeps them sorted |
| Ordering.SortByCorrect | js/app.js:437 | The sorted rows are in order and are a permutation of the input |
| Ordering.SortByIdempotent | js/app.js:437 | Sorting rows already in order leaves them unchanged |
| Ordering.StatusRanksAscend | js/app.js:435-437 | After the status sort, status ranks never decrease down the table |
| Ordering.PendingBeforeVerifying | js/app.js:348 | After the payment sort, no booking awaiting verification is above one awaiting payment |
| Ordering.ThreeStatusesSort | js/app.js:435-437 | Paid, pending and verifying bookings come out pending, verifying, paid |
| Pagination.PageCount | js/app.js:349 | `Math.ceil(n / 10)`: the fewest pages of 10 that hold `n` rows |
| Pagination.LastPage | js/app.js:438 | `totalPages \|\| 1`: at least 1, and 1 for an empty list |
| Pagination.SlicePosition | js/app.js:351 | `slice` clamps an index into `[0, n]` and leaves one already there unchanged |
| Pagination.PageWindow | js/app.js:439 | Page `p` holds rows `10(p-1)` up to `10p`, cut at the end, so at most 10 rows |
| Pagination.PagesRebuildTable | js/app.js:439 | Pages 1 to `totalPages`, concatenated, are the whole list |
| Pagination.ClampedPageNotEmpty | js/app.js:438-439 | A cursor in `[1, totalPages \|\| 1]` shows a non-empty page of a non-empty list |
| Pagination.PagePastEndEmpty | js/app.js:439 | A page past the last shows no rows |
| Pagination.TwentyFiveRows | js/app.js:349-351 | 25 rows make 3 pages of 10, 10 and 5 |
| Views.TabRowsContents | js/app.js:434-437 | Also lines 346-348 and 526-528. A tab lists each matching booking as often as stored, and nothing else. The payment tab lists only those awaiting payment or verification. Rows are in the tab's order |
| Views.ClampPage | js/app.js:438 | The clamped cursor lies in `[1, totalPages \|\| 1]`. A cursor already there is kept, one past the end becomes the last page, one below 1 becomes 1 |
| Views.ClampPageIdempotent | js/app.js:529 | Clamping twice is clamping once |
| Views.TabView.Refresh | js/app.js:432-441 | Also updatePaymentTable (342-361) and updateSummaryTab (527-532). The redraw clamps the cursor and returns that page's rows, non-empty if the list is. The pager is shown iff the list has more than 10 rows. Its label and buttons are always written on the status and summary tabs, and on the payment tab only when shown. Prev is disabled iff the cursor is 1, next iff the cursor ≥ `totalPages` |
| Views.TabView.Search | js/app.js:429 | Also lines 364 and 447. A new query is stored lowered (status and summary tabs) or as typed (payment tab). The cursor goes back to 1 and the first page is shown |
| Views.TabView.ChangePage | js/app.js:430 | Also lines 365 and 448. The cursor moves by the direction and is then clamped, so it never lands on an empty page of a non-empty list |
| Views.StoredQueryListsSame | js/app.js:429 | Storing the query lowered lists the same bookings as storing it typed |
| Views.StepWithinRange | js/app.js:430 | "Next" and "previous" move one page inside the range and stay put at its ends |
| Summary.Strip | js/app.js:449 | `replace(/…/g, '')` leaves no matched character, never lengthens the string and leaves a string without matches unchanged; with StripCounts and StripAppend this fixes it as deleting the matched characters and keeping every other character in order |
| Summary.StripCounts | js/app.js:449 | Every matched character is removed and every other character is kept exactly as often as it occurs |
| Summary.StripAppend | js/app.js:449 | Removing characters from a concatenation removes them from each part |
| Summary.NormalizeCoopName | js/app.js:449 | A normalised name has no upper-case letter, no white space and none of `,.-_()`, and is no longer than the input |
| Summary.NormalFixed | js/app.js:449 | A name with no upper-case letter, no white space and none of `,.-_()` is its own normal form, so normalising removes nothing else |
| Summary.NormalizeIdempotent | js/app.js:449 | Normalising a normalised name changes nothing |
| Summary.NormalizeIgnoresInsertion | js/app.js:449 | Inserting white space or one of `,.-_()` anywhere in a name does not change its normal form |
| Summary.NormalizeIgnoresCase | js/app.js:449 | Names differing only in ASCII case have the same normal form |
| Summary.SpellingsOfOneCoop | js/app.js:449 | "Co-op A" and "co op-a" both normalise to "coopa" |
| Summary.AddBooking | js/app.js:466-491 | One step of the `forEach` adds a paid booking to every counter and the name set. It adds the booking's tiers to its colour's row when the colour is one of the four. An unpaid booking changes nothing |
| Summary.NoFigures | js/app.js:452-463 | The counters start at zero, with a zero tier row for each of the four colours |
| Summary.Summarize | js/app.js:451-492 | Each figure is the sum over the paid bookings, in scope, of its measure; the name set is the set of normalised paid names; each colour row counts that colour's paid bookings |
| Summary.TierRowAddsUp | js/app.js:469-471 | `totalShirts` equals the sum of the 11 size counters, for every scope |
| Summary.ColorRowsPartitionTiers | js/app.js:470-486 | Each size counter is the four colour rows' entries plus the paid bookings of any other colour |
| Summary.ColorRowsPartitionTotals | js/app.js:465-492 | Each total is the sum over the four colours plus the other colours |
| Summary.NoOtherColor | js/app.js:475 | When every paid booking has a known colour, nothing falls outside the four rows |
| Summary.ColorRowsCoverTiers | js/app.js:475-486 | When every paid booking has a known colour, each size counter is the sum of the four colour rows |
| Summary.ColorTotalsCoverShirts | js/app.js:508-520 | When every paid booking has a known colour, the four colour totals add up to `totalShirts` |
| Summary.TierTotalsNonNegative | js/app.js:470-471 | With non-negative shirt counts, every size counter is non-negative |
| Summary.ColorRowWithinTiers | js/app.js:475-486 | With non-negative shirt counts, each colour row's entry lies between 0 and the size counter |
| Summary.ColorTotalsWithinShirts | js/app.js:508-520 | With non-negative shirt counts, the four colour totals add up to at most `totalShirts` |
| Summary.RevenueIsPriceOfTotals | js/app.js:489 | When each booking's `total_amount` was priced by the formula, total revenue is the formula applied to the total shirts, flowers, tables and sponsorship |
| Summary.PaidCoopsMembers | js/app.js:467-468 | A name is counted in `totalCoops` iff it is the normal form of some paid booking's name |
| Summary.PaidCoopsBound | js/app.js:494 | `totalCoops` is at most the number of paid bookings |
| Summary.OnlyPaidCount | js/app.js:466 | The totals over all bookings equal the totals over the paid ones |
| Summary.OnlyPaidCountTiers | js/app.js:466 | The size counters over all bookings equal those over the paid ones |
| Summary.OnlyPaidCountCoops | js/app.js:466-468 | The distinct names over all bookings equal those over the paid ones |
| Gallery.ProofUrlsArePieces | js/app.js:396 | The gallery images are exactly the non-blank pieces of `proof_url` split at commas; none holds a comma |
| Gallery.ProofUrlsRoundTrip | js/app.js:396 | With no blank piece, the images joined by commas are `proof_url` itself |
| Gallery.NextIndex | js/app.js:399 | "Next" moves one image on, and from the last back to the first |
| Gallery.PrevIndex | js/app.js:400 | "Previous" moves one image back, and from the first to the last |
| Gallery.NextPrevInverse | js/app.js:399-400 | "Previous" undoes "next" and "next" undoes "previous" |
| Gallery.FullCycle | js/app.js:399 | Pressing "next" once per image returns to the starting image |
| Gallery.ProofGallery.Current | js/app.js:398 | The image shown is the one at the current index, which is one of the gallery's images and is not blank |
| Gallery.ProofGallery.Open | js/app.js:396 | An empty `proof_url` changes nothing. Otherwise the images become its non-blank pieces, and the cursor goes to the first when there is one |
| Gallery.ProofGallery.Next | js/app.js:399 | With two or more images the cursor wraps forward; with at most one nothing changes. The cursor stays in range |
| Gallery.ProofGallery.Prev | js/app.js:400 | With two or more images the cursor wraps backward; with at most one nothing changes. The cursor stays in range |
| Access.CheckBookingPin | js/app.js:330-339 | An empty trimmed input is refused first. The pending action goes ahead iff the trimmed input equals the stored number or the user is an admin; otherwise the number is rejected |
| Access.OwnPinAccepted | js/app.js:331-333 | The number a booking was made with, typed again with or without surrounding spaces, opens it |
| Access.OtherPinRejected | js/app.js:333-338 | For a non-admin, any other non-empty number is refused |
| Access.SubmittedIsEditable | js/app.js:392 | In the non-admin dialog, a booking just submitted offers edit and cancel |
| Access.LockedAfterProofOrPayment | js/app.js:392 | In the non-admin dialog, once a proof is uploaded or the status is no longer "awaiting payment", the edit and cancel buttons are hidden |
| Access.FindById | js/app.js:556 | `find` returns the first booking with that id, or none when no booking has it |
| Access.WithDistribution | js/app.js:556 | Only the first booking with the id changes, and only its distribution status |
| Access.BookingStore.ToggleDistributionStatus | js/app.js:553-556 | A non-admin and a failed remote call change nothing. Otherwise the requested status is written into the first booking with that id |
| Access.DistributionLeavesFigures | js/app.js:465-492 | Changing distribution statuses changes no summary figure |
| Access.ToggleLeavesFigures | js/app.js:555-556 | The toggle leaves every summary figure as it was |

## Left out

- DOM rendering (`innerHTML`, `classList`, modals, toasts), the network client `js/api-client.js`, `localStorage`, `FileReader` uploads, timers and the async ordering of `init`, `confirmBooking`, `savePaymentStatus` and `confirmCancelBooking`. These are browser or remote behaviour. Remote answers are parameters (`remoteOk`) or the given booking list.
- Admin login (`toggleAdmin`, `checkAdminPin`, `checkAdminState`): a remote check plus a `localStorage` flag. The model takes `isAdmin` as given.
- `updatePaymentStatus` (line 404) writes the chosen status straight into the booking object shared with the booking list, before it is saved. The next table or summary redraw sees that unsaved status. The model does not capture this in-place update or the aliasing it relies on.
- `savePaymentStatus`, `uploadSlip`, `confirmCancelBooking`, `proceedToEdit`, `startEditBooking`, `loadPaymentInfo`, `renderPaymentInfo`, `showSizeDetail`: remote calls or display only. The rules they enforce locally (the PIN gate, the edit/cancel rule, `find` by id) are modelled.
- Reading the clock and `parseInt` on form fields. The id builder takes day, month, year, hour and minute as given integers; quantities are already-parsed integers.
- `localeCompare` collation is modelled as lexicographic order on code points, and `toLowerCase` as ASCII-only lowering. Thai and other Unicode case and collation rules are library behaviour. Strings are sequences of characters rather than UTF-16 code units.
- `toLocaleString` formatting of amounts.
- Ordering.SortBy: models `Array.prototype.sort` by a stable insertion sort. Only sortedness and permutation are proved, not which order equal rows keep.
- Ordering.StatusCompare: a booking with no `coop_color` is compared as `undefined` (lines 437 and 528). `undefined < x` and `undefined > x` are both false, so JavaScript ties on colour and falls through to the name, and that comparator is not transitive. The model reads a missing colour as `""`, which sorts first and keeps the order transitive.
- `coop_name` missing on the payment tab: `a.coop_name.localeCompare` would throw on it. The model reads a missing name as `""`.
- `uniqueCoopsByColor` is filled in the summary loop but never displayed, so it is not modelled.
- Lookups in plain object literals by a stored string that names an inherited property (such as `constructor` or `__proto__`): the model treats every such key as absent. For `sizesByColor[color]` (js/app.js:475) the model counts only the four colour keys. Search.ColorSearchTerm gives `""` for `searchColorMap[booking.coop_color]` (js/app.js:426), where the source gets a non-string and `.toLowerCase()` throws a TypeError. Ordering.StatusRank and Ordering.PaymentRank give 999 and 99 for `statusOrder[…]` and `order[…]` (js/app.js:437, 528 and 348), where the source gets a non-number (a function, or Object.prototype for `__proto__`) and the comparator returns NaN, which leaves the sort order up to the engine.
- Only paid bookings are counted; the code keeps no all-bookings or pending-bookings figures.
- Gallery.ProofGallery.Next: requires the gallery's `Valid()` invariant (cursor within the images), which every gallery operation keeps. The source itself guards nothing. The same holds for Gallery.ProofGallery.Prev and Gallery.ProofGallery.Open.
- The gallery modal's visibility and the image element's source are display state and are not modelled.
- Access.LockedAfterProofOrPayment: states the non-admin rule only. The admin branch of the payment dialog (line 391) never touches the edit and cancel buttons, so for an admin they keep whatever the previous render left. The same holds for Access.SubmittedIsEditable.
