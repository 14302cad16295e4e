# Loyalty stamp card — a Dafny model

This project models the state machine of a browser loyalty "stamp card" widget (`stamp.js`). A visitor opens the page with a stamp id. The widget records the stamp, counts at most one stamp per day between resets, and issues a coupon each time the count reaches five. It then lists the coupons that are neither used nor expired. A button marks a listed coupon as used, and a confirmed reset clears the card.

The widget keeps five keys in browser storage: `userId`, `stampCount`, `lastStampDate`, `stamped` (a list of `{id, date}` records) and `coupons` (a list of `{code, issued, used, expiry}` records). The model has three modules:

- `Dates` (`dates.dfy`): `LexLess` is JavaScript's `<` on strings, which the widget uses to compare `YYYY-MM-DD` dates. It is proved to be a strict total order, and on well-formed date strings it is proved equal to calendar order (`LexLessIsCalendarOrder`).
- `CardState` (`card_state.dfy`): a `Profile` value holds the five keys. There is one pure function per widget step (`InitUser`, `Stamp`, `AddStamp`, `IssueCoupon`, `Load`, `MarkUsed`, `Reset`) and one for the coupon filter (`ActiveCoupons`). The contracts and the lemmas beside them state the card's properties:
  - the count stays below five;
  - outside a confirmed reset and the initialisation of a profile without a user id, both lists only grow at the end;
  - `used` only ever goes from false to true;
  - a non-empty user id, once stored, is never replaced (a stored empty id counts as no user, as in JavaScript);
  - the two duplicate guards behave exactly as chained in the load handler.
- `StampCard` (`stamp_card.dfy`): class `Store` has the five keys as fields. It has one method per widget step, each updating the fields in the order the widget writes its keys. Each method's postcondition equates the new `Snapshot()` with the `CardState` function applied to the old one. `ListedCoupons` is the `updateUI` loop over the coupons, proved equal to `ActiveCoupons`.

"Today", the coupon code, the coupon expiry date, the new user id and the answer to the reset dialog are parameters.

## Model

| member | source | states |
|---|---|---|
| `Dates.LexLess` | stamp.js:132 | JavaScript `<` on two strings, compared character by character, with a proper prefix first |
| `Dates.LexLessByFirstDifference` | stamp.js:132 | String `<` holds iff a is a proper prefix of b, or a has the smaller character at the first position where they differ |
| `Dates.LexLessIsCalendarOrder` | stamp.js:132 | For two `YYYY-MM-DD` strings, string `<` holds exactly when the first date is earlier by year, then month, then day |
| `Dates.LexLessTrichotomy` | stamp.js:132 | String `<` is total and asymmetric: exactly one of a < b, a == b, b < a holds |
| `Dates.LexLessTransitive` | stamp.js:132 | String `<` is transitive |
| `Dates.LexLessIrreflexive` | stamp.js:132 | No string is `<` itself, so a coupon expiring today is not "expired" |
| `CardState.EvolvesTransitive` | stamp.js:44-105 | The append-only / used-only-becomes-true discipline composes across successive steps |
| `CardState.HasUser` | stamp.js:11 | The negation of the `!getItem('userId')` test: a user id is stored and is not empty |
| `CardState.InitUser` | stamp.js:10-18 | Result always has a user id. A profile with a non-empty id is untouched. Without one (absent or empty) it becomes the new id, count 0, last date "", empty lists. The result has a non-empty id iff the old one did or the new id is non-empty |
| `CardState.InitUserIdempotent` | stamp.js:11 | Once a non-empty id is stored, initialising again is the identity, whatever id the second call would generate |
| `CardState.EmptyUserIdIsReinitialised` | stamp.js:11-17 | A stored empty user id is falsy, so initialisation overwrites the whole profile |
| `CardState.StampedToday` | stamp.js:49 | The duplicate test finds a record exactly when {id, today} is among the stored records |
| `CardState.Stamp` | stamp.js:44-59 | Accepted iff {id, today} is not yet stored; on refusal nothing changes; on acceptance exactly that record is appended after all earlier ones; only `stamped` changes; afterwards the record is always present |
| `CardState.IssueCoupon` | stamp.js:89-105 | Exactly one coupon {code, today, unused, expiry} is appended; earlier coupons and all other keys are unchanged |
| `CardState.AddStamp` | stamp.js:62-86 | On a day equal to `lastStampDate` nothing changes. Otherwise the last date becomes today; the count becomes old+1 below five, else 0 with exactly one new unused coupon appended; below five the coupons are untouched; the count bound and the append-only discipline are kept |
| `CardState.IsActive` | stamp.js:131-132 | A coupon passes both early returns iff it is unused and its expiry is today or string-greater than today |
| `CardState.ActiveCoupons` | stamp.js:130-132 | A coupon is listed iff it is stored, not used, and its expiry is not string-less than today; the listing is no longer than the store |
| `CardState.ActiveCouponsAppend` | stamp.js:130 | The listing of a concatenation is the concatenation of the listings, so stored order is kept |
| `CardState.ExpiringTodayIsListed` | stamp.js:132 | An unused coupon whose expiry is today is listed |
| `CardState.ExpiredStaysUnlisted` | stamp.js:132 | A coupon expired on one day is unlisted on every day that is not earlier |
| `CardState.ListedByCalendar` | stamp.js:131-132 | On well-formed dates a coupon is listed iff unused and its expiry is not before today in the calendar |
| `CardState.IssuedCouponListing` | stamp.js:96-101 | After issuance the listing is the old listing followed by the new coupon exactly when that coupon is listable on the display day |
| `CardState.MarkUsed` | stamp.js:139-141 | Only the chosen coupon changes, and only its `used` flag, to true; list length and all other keys unchanged |
| `CardState.MarkUsedIdempotent` | stamp.js:140 | Marking the same coupon again leaves the state identical |
| `CardState.MarkUsedDelists` | stamp.js:131-141 | Marking a listed coupon removes exactly that entry from the listing; the listing shrinks by one and keeps the others in order |
| `CardState.Reset` | stamp.js:164-173 | Without confirmation nothing changes; with it the count, last date, records and coupons are cleared and the user id is kept |
| `CardState.ResetKeepsProfile` | stamp.js:165-169 | Because a non-empty user id survives a reset, a later initialisation changes nothing |
| `CardState.StampRequested` | stamp.js:158 | `if (stampId)`: a stamp is attempted only for a present, non-empty id |
| `CardState.Load` | stamp.js:153-162 | A non-empty user id is kept, otherwise the new id is stored. With no or empty stamp id only initialisation happens. With a stamp id the record {id, today} is present afterwards. A refused stamp changes nothing past initialisation, and an accepted one leaves today as the last date. Count bound kept |
| `CardState.RestampSameDayIsNoop` | stamp.js:158-161 | Once a non-empty user id is stored, loading again with the same stamp id on the same day leaves the state identical |
| `CardState.NewSourceOnCountedDay` | stamp.js:158-161 | A new stamp id on a day already counted is appended to `stamped`, but the count, last date, coupons and user id do not move |
| `CardState.TwoSourcesOneDay` | stamp.js:62-161 | Of two different stamp ids on one day, the first leaves today as the last date. It counts (old+1, or 0 at the threshold) unless that day was already counted, in which case the count stays. The second leaves the count and coupons where the first left them and is still recorded |
| `CardState.NewDayCounts` | stamp.js:72-83 | A new stamp id on a new day counts one stamp, and at the threshold it issues one coupon and resets the count |
| `CardState.ResetThenStamp` | stamp.js:166-169 | After a confirmed reset the absent last date never equals today, so the next stamp counts as the first |
| `CardState.FirstTwoDays` | stamp.js:153-162 | From empty storage: the first load with source A gives exactly one record and count 1. The same load repeated that day changes nothing. Source B on the next day gives count 2 with both records and no coupon |
| `CardState.NextTwoDays` | stamp.js:153-162 | From where `FirstTwoDays` ends, sources C and D on two further days give counts 3 and 4. The records grow by one each day and no coupon is issued |
| `CardState.FifthDayEarnsACoupon` | stamp.js:72-83 | From where `NextTwoDays` ends, source E on a fifth day puts the count back to 0 and issues exactly one unused coupon dated that day. Five records are stored and the user id is kept |
| `StampCard.Store.constructor` | stamp.js:10-11 | A new store holds none of the keys |
| `StampCard.Store.InitUser` | stamp.js:10-18 | Re-initialises when the stored id is absent or empty; the fields become `CardState.InitUser` of the old fields; count bound kept |
| `StampCard.Store.Stamp` | stamp.js:44-59 | Returns and stores exactly what `CardState.Stamp` gives |
| `StampCard.Store.AddStamp` | stamp.js:62-86 | The fields become `CardState.AddStamp` of the old fields (with an in-place call of `IssueCoupon`); count bound kept |
| `StampCard.Store.IssueCoupon` | stamp.js:89-105 | The fields become `CardState.IssueCoupon` of the old fields |
| `StampCard.Store.OnLoad` | stamp.js:153-162 | Calling `InitUser`, `Stamp` and, only on acceptance, `AddStamp` yields `CardState.Load` of the old fields |
| `StampCard.Store.MarkUsed` | stamp.js:139-141 | The fields become `CardState.MarkUsed` of the old fields |
| `StampCard.Store.ResetClicked` | stamp.js:164-173 | The fields become `CardState.Reset` of the old fields |
| `StampCard.Store.ListedCoupons` | stamp.js:130-147 | The loop returns exactly the unused, unexpired coupons in stored order, i.e. `CardState.ActiveCoupons` |

## Left out

- Rendering: `updateStampUI` (stamp.js:108-117), the DOM building in `updateUI` and all `alert` calls are not modelled. The reset dialog's answer is the `confirmed` parameter.
- Storage and serialisation: `localStorage`, `JSON.stringify`/`JSON.parse` and `parseInt` are not modelled; the keys are typed fields. An absent `stampCount`, `stamped` or `coupons` is read as 0 or the empty list, as every reader in the source does. So a reset stores 0 and empty lists, where the source removes the keys. An absent `userId` or `lastStampDate` is `None`.
- Malformed stored data is not modelled. Unparsable JSON makes `JSON.parse` throw. A non-numeric `stampCount` does not throw: `parseInt` gives `NaN` (stamp.js:72), which is stored back, and since `NaN >= 5` is never true the card then stops issuing coupons.
- Clock and randomness: `getToday`, `Date.now()`, the one-month expiry computation and `generateUUID` are not modelled. Today, the coupon code, the expiry string and the user id are inputs. No claim is made about expiry dates at month ends or about coupon codes being unique; the source guarantees neither.
- `stamp` (stamp.js:45), `addStamp` (stamp.js:63) and `issueCoupon` (stamp.js:91) each read the clock separately. The model gives all three the same `today`, so a load that straddles midnight is not modelled.
- `generateUUID` always yields a 36-character id (stamp.js:3). The model takes the new id as an input that may be empty; the lemmas about repeated loads and resets require a non-empty stored id or a non-empty new id, which every generated id is.
- `getStampId` (reading the URL) is not modelled; the stamp id is an `Option<string>` argument. A missing id and an empty id are both treated as "no stamp", as JavaScript truthiness does.
- `LexLess` compares characters by code point, while JavaScript compares UTF-16 code units. The two orders differ only for characters outside the Basic Multilingual Plane, which a `YYYY-MM-DD` string never contains.
- `StampCard.Store.MarkUsed`: the source's button is a closure over the coupon object from the last rendering, and it exists only for listed coupons. The model marks the coupon at a position of the current list, and accepts any position, including a coupon that is already used or expired. Within one page a stale closure cannot write back an old copy of the list, because every change re-renders.
- The model chains a per-source, per-day check in `stamp` and a global one-per-day check in `addStamp`, as the code does. So a new source on an already counted day is still recorded in `stamped`.
- Pages of the same site open at the same time share the stored keys, and the widget does not listen for storage changes made by another page. That interleaving is not modelled. There, a "use" click writes back the coupon list as it was read when the page rendered (stamp.js:125, stamp.js:139-141), so it can drop a coupon that another page issued in the meantime.
- The coupon list is not de-duplicated by code, and marking is by position, not by code, as in the source.
