/** The stamp card's stored state and its transitions, as values.

    The widget keeps five keys in the browser's storage: `userId`,
    `stampCount`, `lastStampDate`, `stamped` (a list of {id, date} records)
    and `coupons` (a list of {code, issued, used, expiry} records).  A Profile
    is one snapshot of those keys; each function below is one of the
    widget's read-modify-write steps, with "today", the coupon code, the
    expiry date and the fresh user id passed in instead of read from the
    clock or the random generator.  The class in StampCard performs the same
    steps in place and is specified by these functions. */
module CardState {
  import opened Dates

  /** Stamps needed for a coupon. */
  const Threshold: nat := 5

  datatype Option<T> = None | Some(value: T)

  datatype StampRecord = StampRecord(id: string, date: string)

  datatype Coupon = Coupon(code: string, issued: string, used: bool, expiry: string)

  /** One snapshot of the stored keys.  An absent `userId` or `lastStampDate`
      is None; an absent `stampCount`, `stamped` or `coupons` reads as 0 or
      the empty list, which is how every reader of those keys treats it. */
  datatype Profile = Profile(
    userId: Option<string>,
    stampCount: nat,
    lastStampDate: Option<string>,
    stamped: seq<StampRecord>,
    coupons: seq<Coupon>)

  /** Storage of a browser profile that has never run the widget. */
  const Empty: Profile := Profile(None, 0, None, [], [])

  /** The bound every reachable count keeps: below the coupon threshold. */
  predicate CountInRange(p: Profile)
  {
    p.stampCount < Threshold
  }

  /** A coupon may only ever change by having its `used` flag set. */
  predicate CouponAdvanced(before: Coupon, after: Coupon)
  {
    after == before || after == before.(used := true)
  }

  /** The discipline every step except initialisation of an absent profile
      and a confirmed reset keeps: the user id stays, both lists only grow at
      the end, and existing coupons change at most by becoming used. */
  predicate Evolves(p: Profile, r: Profile)
  {
    (p.userId.Some? ==> r.userId == p.userId)
    && p.stamped <= r.stamped
    && |p.coupons| <= |r.coupons|
    && forall i :: 0 <= i < |p.coupons| ==> CouponAdvanced(p.coupons[i], r.coupons[i])
  }

  lemma EvolvesTransitive(p: Profile, q: Profile, r: Profile)
    requires Evolves(p, q) && Evolves(q, r)
    ensures Evolves(p, r)
  {
  }

  // ---------------------------------------------------------------- initUser

  /** `!localStorage.getItem('userId')` is false: a user id is stored and it
      is not the empty string, which JavaScript treats as false. */
  predicate HasUser(p: Profile)
  {
    p.userId.Some? && p.userId.value != ""
  }

  /** `initUser`: writes a fresh profile unless a non-empty user id is
      stored; a stored empty id is overwritten like an absent one. */
  function InitUser(p: Profile, newId: string): (r: Profile)
    ensures r.userId.Some?
    ensures HasUser(p) ==> r == p
    ensures !HasUser(p) ==> r == Profile(Some(newId), 0, Some(""), [], [])
    ensures HasUser(r) <==> HasUser(p) || newId != ""
    ensures CountInRange(r) <==> CountInRange(p) || !HasUser(p)
  {
    if !HasUser(p) then Profile(Some(newId), 0, Some(""), [], []) else p
  }

  /** A second initialisation changes nothing, as long as the profile now
      holds a non-empty id (every id `generateUUID` produces is 36
      characters long). */
  lemma InitUserIdempotent(p: Profile, firstId: string, laterId: string)
    requires HasUser(p) || firstId != ""
    ensures InitUser(InitUser(p, firstId), laterId) == InitUser(p, firstId)
  {
  }

  /** A stored empty id is no user: initialising replaces the whole profile. */
  lemma EmptyUserIdIsReinitialised(p: Profile, newId: string)
    requires p.userId == Some("")
    ensures InitUser(p, newId) == Profile(Some(newId), 0, Some(""), [], [])
  {
  }

  // ------------------------------------------------------------------- stamp

  /** The `stamped.some(...)` test: is there a record of this id on this day? */
  function StampedToday(stamped: seq<StampRecord>, id: string, today: string): (found: bool)
    ensures found <==> StampRecord(id, today) in stamped
  {
    if stamped == [] then false
    else (stamped[0].id == id && stamped[0].date == today)
         || StampedToday(stamped[1..], id, today)
  }

  /** `stamp(stampId)`: refuses an id already recorded today; otherwise
      records {id, today} at the end of `stamped`.  Nothing else is touched. */
  function Stamp(p: Profile, id: string, today: string): (r: (bool, Profile))
    ensures r.0 <==> StampRecord(id, today) !in p.stamped
    ensures !r.0 ==> r.1 == p
    ensures r.0 ==> |r.1.stamped| == |p.stamped| + 1
                    && r.1.stamped[..|p.stamped|] == p.stamped
                    && r.1.stamped[|p.stamped|] == StampRecord(id, today)
    ensures r.1 == p.(stamped := r.1.stamped)
    ensures StampRecord(id, today) in r.1.stamped
    ensures Evolves(p, r.1)
  {
    if StampedToday(p.stamped, id, today) then (false, p)
    else (true, p.(stamped := p.stamped + [StampRecord(id, today)]))
  }

  // ------------------------------------------------------------- issueCoupon

  /** The coupon `issueCoupon` stores: issued today and not yet used. */
  function NewCoupon(code: string, today: string, expiry: string): Coupon
  {
    Coupon(code, today, false, expiry)
  }

  /** `issueCoupon`: appends one unused coupon issued today; earlier coupons
      and every other key are left as they were. */
  function IssueCoupon(p: Profile, today: string, code: string, expiry: string): (r: Profile)
    ensures |r.coupons| == |p.coupons| + 1
    ensures r.coupons[..|p.coupons|] == p.coupons
    ensures r.coupons[|p.coupons|] == NewCoupon(code, today, expiry)
    ensures r == p.(coupons := r.coupons)
    ensures Evolves(p, r)
  {
    p.(coupons := p.coupons + [NewCoupon(code, today, expiry)])
  }

  // ---------------------------------------------------------------- addStamp

  /** `addStamp`: at most one counted stamp per day.  On an accepted day the
      count goes up by one and the day is remembered; reaching the threshold
      issues a coupon and puts the count back to 0. */
  function AddStamp(p: Profile, today: string, code: string, expiry: string): (r: Profile)
    ensures p.lastStampDate == Some(today) ==> r == p
    ensures p.lastStampDate != Some(today) ==>
              r.lastStampDate == Some(today)
              && r.userId == p.userId
              && r.stamped == p.stamped
              && (p.stampCount + 1 < Threshold ==>
                    r.stampCount == p.stampCount + 1 && r.coupons == p.coupons)
              && (p.stampCount + 1 >= Threshold ==>
                    r.stampCount == 0
                    && r.coupons == p.coupons + [NewCoupon(code, today, expiry)])
    ensures CountInRange(p) ==> CountInRange(r)
    ensures p.lastStampDate != Some(today) ==> CountInRange(r)
    ensures Evolves(p, r)
  {
    if p.lastStampDate == Some(today) then p
    else
      var count := p.stampCount + 1;
      var counted := p.(stampCount := count, lastStampDate := Some(today));
      if count >= Threshold then IssueCoupon(counted, today, code, expiry).(stampCount := 0)
      else counted
  }

  // ------------------------------------------------------- coupon listing

  /** The filter in `updateUI`: a coupon is listed when it is not used and
      its expiry is not before today in string order. */
  function IsActive(c: Coupon, today: string): (listed: bool)
    ensures listed <==> !c.used && (c.expiry == today || LexLess(today, c.expiry))
  {
    LexLessTrichotomy(c.expiry, today);
    !c.used && !LexLess(c.expiry, today)
  }

  /** The coupons `updateUI` lists, in stored order. */
  function ActiveCoupons(cs: seq<Coupon>, today: string): (listed: seq<Coupon>)
    ensures |listed| <= |cs|
    ensures forall c :: c in listed <==> c in cs && IsActive(c, today)
  {
    if cs == [] then []
    else (if IsActive(cs[0], today) then [cs[0]] else []) + ActiveCoupons(cs[1..], today)
  }

  /** Listing distributes over concatenation: the listed coupons keep their
      stored order. */
  lemma {:induction false} ActiveCouponsAppend(a: seq<Coupon>, b: seq<Coupon>, today: string)
    ensures ActiveCoupons(a + b, today) == ActiveCoupons(a, today) + ActiveCoupons(b, today)
  {
    if a == [] {
      assert a + b == b;
    } else {
      assert (a + b)[0] == a[0];
      assert (a + b)[1..] == a[1..] + b;
      ActiveCouponsAppend(a[1..], b, today);
    }
  }

  /** A coupon that expires today is still listed today. */
  lemma ExpiringTodayIsListed(c: Coupon, today: string)
    requires !c.used && c.expiry == today
    ensures IsActive(c, today)
    ensures ActiveCoupons([c], today) == [c]
  {
  }

  /** Once expired, a coupon stays unlisted on every later day. */
  lemma ExpiredStaysUnlisted(c: Coupon, day: string, later: string)
    requires LexLess(c.expiry, day) && !LexLess(later, day)
    ensures !IsActive(c, later)
  {
    LexLessTrichotomy(day, later);
    if day != later {
      LexLessTransitive(c.expiry, day, later);
    }
  }

  /** On well-formed dates the listing test is the calendar test. */
  lemma ListedByCalendar(c: Coupon, today: string)
    requires IsDateString(c.expiry) && IsDateString(today)
    ensures IsActive(c, today) <==> !c.used && !CalendarBefore(c.expiry, today)
  {
    LexLessIsCalendarOrder(c.expiry, today);
  }

  /** An issued coupon joins the end of the listing exactly when it is
      listable on the day of display. */
  lemma IssuedCouponListing(p: Profile, today: string, code: string, expiry: string, now: string)
    ensures ActiveCoupons(IssueCoupon(p, today, code, expiry).coupons, now)
         == ActiveCoupons(p.coupons, now)
            + (if IsActive(NewCoupon(code, today, expiry), now) then [NewCoupon(code, today, expiry)] else [])
  {
    ActiveCouponsAppend(p.coupons, [NewCoupon(code, today, expiry)], now);
  }

  // --------------------------------------------------------------- mark used

  /** The "mark used" button: sets `used` on the coupon at position i. */
  function MarkUsed(p: Profile, i: nat): (r: Profile)
    requires i < |p.coupons|
    ensures |r.coupons| == |p.coupons|
    ensures r.coupons[i] == p.coupons[i].(used := true)
    ensures forall j :: 0 <= j < |p.coupons| && j != i ==> r.coupons[j] == p.coupons[j]
    ensures r == p.(coupons := r.coupons)
    ensures Evolves(p, r)
  {
    p.(coupons := p.coupons[i := p.coupons[i].(used := true)])
  }

  lemma MarkUsedIdempotent(p: Profile, i: nat)
    requires i < |p.coupons|
    ensures MarkUsed(MarkUsed(p, i), i) == MarkUsed(p, i)
  {
  }

  /** Marking a listed coupon removes exactly that entry from the listing;
      every other listed coupon stays, in the same order. */
  lemma MarkUsedDelists(p: Profile, i: nat, now: string)
    requires i < |p.coupons| && IsActive(p.coupons[i], now)
    ensures ActiveCoupons(p.coupons, now)
         == ActiveCoupons(p.coupons[..i], now) + [p.coupons[i]] + ActiveCoupons(p.coupons[i+1..], now)
    ensures ActiveCoupons(MarkUsed(p, i).coupons, now)
         == ActiveCoupons(p.coupons[..i], now) + ActiveCoupons(p.coupons[i+1..], now)
    ensures |ActiveCoupons(MarkUsed(p, i).coupons, now)| + 1 == |ActiveCoupons(p.coupons, now)|
  {
    var cs, marked := p.coupons, MarkUsed(p, i).coupons;
    ActiveCouponsAt(cs, i, now);
    ActiveCouponsAt(marked, i, now);
    assert marked[..i] == cs[..i] && marked[i+1..] == cs[i+1..];
  }

  /** The listing of a list split at position i: the listing of the part
      before, then the coupon at i if it is listable, then the listing of
      the part after. */
  lemma ActiveCouponsAt(cs: seq<Coupon>, i: nat, now: string)
    requires i < |cs|
    ensures ActiveCoupons(cs, now)
         == ActiveCoupons(cs[..i], now) + (if IsActive(cs[i], now) then [cs[i]] else []) + ActiveCoupons(cs[i+1..], now)
  {
    assert cs == cs[..i] + [cs[i]] + cs[i+1..];
    ActiveCouponsAppend(cs[..i] + [cs[i]], cs[i+1..], now);
    ActiveCouponsAppend(cs[..i], [cs[i]], now);
    assert ActiveCoupons([cs[i]], now) == (if IsActive(cs[i], now) then [cs[i]] else []) by {
      assert [cs[i]][1..] == [];
    }
  }

  // ------------------------------------------------------------------- reset

  /** The reset button: without confirmation nothing happens; with it the
      count, last date, stamp records and coupons are removed and the user id
      is kept. */
  function Reset(p: Profile, confirmed: bool): (r: Profile)
    ensures !confirmed ==> r == p
    ensures confirmed ==> r.userId == p.userId && r.stampCount == 0
                          && r.lastStampDate.None? && r.stamped == [] && r.coupons == []
  {
    if confirmed then Profile(p.userId, 0, None, [], []) else p
  }

  /** The user id survives a reset, so initialising afterwards changes nothing. */
  lemma ResetKeepsProfile(p: Profile, confirmed: bool, newId: string)
    requires HasUser(p)
    ensures InitUser(Reset(p, confirmed), newId) == Reset(p, confirmed)
    ensures InitUser(Reset(p, confirmed), newId).userId == p.userId
  {
  }

  // ---------------------------------------------------------------- on load

  /** `if (stampId)`: a missing or empty parameter requests no stamp. */
  predicate StampRequested(stampId: Option<string>)
  {
    stampId.Some? && stampId.value != ""
  }

  /** The load-time flow: initialise, then stamp, and count the stamp only
      when `stamp` accepted it. */
  function Load(p: Profile, newId: string, stampId: Option<string>,
                today: string, code: string, expiry: string): (r: Profile)
    ensures r.userId == (if HasUser(p) then p.userId else Some(newId))
    ensures !StampRequested(stampId) ==> r == InitUser(p, newId)
    ensures StampRequested(stampId) ==> StampRecord(stampId.value, today) in r.stamped
    ensures StampRequested(stampId) ==>
              (StampRecord(stampId.value, today) in InitUser(p, newId).stamped ==> r == InitUser(p, newId))
    ensures StampRequested(stampId) ==>
              (StampRecord(stampId.value, today) !in InitUser(p, newId).stamped ==> r.lastStampDate == Some(today))
    ensures CountInRange(p) ==> CountInRange(r)
    ensures HasUser(p) ==> Evolves(p, r)
  {
    var initialised := InitUser(p, newId);
    if StampRequested(stampId) then
      var (accepted, stamped) := Stamp(initialised, stampId.value, today);
      if accepted then AddStamp(stamped, today, code, expiry) else stamped
    else initialised
  }

  /** Loading twice with the same stamp id on the same day: the second load
      changes nothing. */
  lemma RestampSameDayIsNoop(p: Profile, firstId: string, laterId: string, stampId: Option<string>,
                             today: string, code: string, expiry: string,
                             laterCode: string, laterExpiry: string)
    requires HasUser(p) || firstId != ""
    ensures var once := Load(p, firstId, stampId, today, code, expiry);
            Load(once, laterId, stampId, today, laterCode, laterExpiry) == once
  {
  }

  /** A stamp from a new source on a day that already counted a stamp is
      recorded, but the count, the day and the coupons do not move. */
  lemma NewSourceOnCountedDay(q: Profile, newId: string, stampId: Option<string>,
                              today: string, code: string, expiry: string)
    requires HasUser(q) && q.lastStampDate == Some(today)
    requires StampRequested(stampId) && StampRecord(stampId.value, today) !in q.stamped
    ensures var r := Load(q, newId, stampId, today, code, expiry);
            r.stamped == q.stamped + [StampRecord(stampId.value, today)]
            && r.stampCount == q.stampCount
            && r.lastStampDate == q.lastStampDate
            && r.coupons == q.coupons
            && r.userId == q.userId
  {
  }

  /** Two different sources on one day: the first one counts unless the day
      was already counted, and the second one never does. */
  lemma TwoSourcesOneDay(p: Profile, newId: string, first: string, second: string,
                         today: string, code: string, expiry: string,
                         laterCode: string, laterExpiry: string)
    requires first != "" && second != "" && first != second
    requires HasUser(p) || newId != ""
    requires StampRecord(first, today) !in InitUser(p, newId).stamped
    ensures var init := InitUser(p, newId);
            var q := Load(p, newId, Some(first), today, code, expiry);
            q.lastStampDate == Some(today)
            && (init.lastStampDate != Some(today) ==>
                  q.stampCount == (if init.stampCount + 1 < Threshold then init.stampCount + 1 else 0))
            && (init.lastStampDate == Some(today) ==> q.stampCount == init.stampCount)
    ensures var q := Load(p, newId, Some(first), today, code, expiry);
            var r := Load(q, newId, Some(second), today, laterCode, laterExpiry);
            r.stampCount == q.stampCount && r.coupons == q.coupons
            && StampRecord(second, today) in r.stamped
  {
    var q := Load(p, newId, Some(first), today, code, expiry);
    assert q.lastStampDate == Some(today);
    if StampRecord(second, today) !in q.stamped {
      NewSourceOnCountedDay(q, newId, Some(second), today, laterCode, laterExpiry);
    }
  }

  /** A new day with a new source counts one stamp; at the threshold it
      issues one coupon and restarts the count. */
  lemma NewDayCounts(p: Profile, newId: string, stampId: Option<string>,
                     today: string, code: string, expiry: string)
    requires HasUser(p) && p.lastStampDate != Some(today)
    requires StampRequested(stampId) && StampRecord(stampId.value, today) !in p.stamped
    ensures var r := Load(p, newId, stampId, today, code, expiry);
            r.lastStampDate == Some(today)
            && r.stamped == p.stamped + [StampRecord(stampId.value, today)]
            && r.userId == p.userId
            && (p.stampCount + 1 < Threshold ==> r.stampCount == p.stampCount + 1 && r.coupons == p.coupons)
            && (p.stampCount + 1 >= Threshold ==>
                  r.stampCount == 0 && r.coupons == p.coupons + [NewCoupon(code, today, expiry)])
  {
  }

  /** After a confirmed reset the stored day is gone, so the next requested
      stamp counts as the first one on any day. */
  lemma ResetThenStamp(p: Profile, newId: string, id: string,
                       today: string, code: string, expiry: string)
    requires HasUser(p) && id != ""
    ensures var r := Load(Reset(p, true), newId, Some(id), today, code, expiry);
            r.stampCount == 1 && r.lastStampDate == Some(today)
            && r.stamped == [StampRecord(id, today)] && r.coupons == [] && r.userId == p.userId
  {
  }

  /** The first two days of a fresh profile, with a repeat of the first
      source on the first day: one stamp, the repeat changes nothing, then a
      second stamp.  The first day is non-empty, as every `YYYY-MM-DD` is, so
      it differs from the empty last date that initialisation stores. */
  lemma FirstTwoDays(id: string, t1: string, t2: string, code: string, expiry: string,
                     d1: Profile, again: Profile, d2: Profile)
    requires id != "" && t1 != "" && t1 != t2
    requires d1 == Load(Empty, id, Some("A"), t1, code, expiry)
    requires again == Load(d1, id, Some("A"), t1, code, expiry)
    requires d2 == Load(again, id, Some("B"), t2, code, expiry)
    ensures d1 == Profile(Some(id), 1, Some(t1), [StampRecord("A", t1)], [])
    ensures again == d1
    ensures d2 == Profile(Some(id), 2, Some(t2), [StampRecord("A", t1), StampRecord("B", t2)], [])
  {
    assert d1 == Profile(Some(id), 1, Some(t1), [StampRecord("A", t1)], []);
    RestampSameDayIsNoop(Empty, id, id, Some("A"), t1, code, expiry, code, expiry);
    NewDayCounts(d1, id, Some("B"), t2, code, expiry);
  }

  /** Continuing from the end of FirstTwoDays: two more sources on two more
      days count 3 and 4 without issuing a coupon. */
  lemma NextTwoDays(id: string, t1: string, t2: string, t3: string, t4: string,
                    code: string, expiry: string, d3: Profile, d4: Profile)
    requires id != "" && t2 != t3 && t3 != t4
    requires d3 == Load(Profile(Some(id), 2, Some(t2), [StampRecord("A", t1), StampRecord("B", t2)], []),
                        id, Some("C"), t3, code, expiry)
    requires d4 == Load(d3, id, Some("D"), t4, code, expiry)
    ensures d3 == Profile(Some(id), 3, Some(t3), [StampRecord("A", t1), StampRecord("B", t2),
                                                  StampRecord("C", t3)], [])
    ensures d4 == Profile(Some(id), 4, Some(t4), [StampRecord("A", t1), StampRecord("B", t2),
                                                  StampRecord("C", t3), StampRecord("D", t4)], [])
  {
    var a, b, c, d := StampRecord("A", t1), StampRecord("B", t2), StampRecord("C", t3), StampRecord("D", t4);
    NewDayCounts(Profile(Some(id), 2, Some(t2), [a, b], []), id, Some("C"), t3, code, expiry);
    assert d3 == Profile(Some(id), 3, Some(t3), [a, b, c], []);
    NewDayCounts(d3, id, Some("D"), t4, code, expiry);
  }

  /** Continuing from the end of NextTwoDays: the fifth counted day issues
      exactly one coupon and puts the count back to 0. */
  lemma FifthDayEarnsACoupon(id: string, t1: string, t2: string, t3: string, t4: string, t5: string,
                             code: string, expiry: string, d5: Profile)
    requires id != "" && t4 != t5
    requires d5 == Load(Profile(Some(id), 4, Some(t4), [StampRecord("A", t1), StampRecord("B", t2),
                                                        StampRecord("C", t3), StampRecord("D", t4)], []),
                        id, Some("E"), t5, code, expiry)
    ensures d5.stampCount == 0 && d5.lastStampDate == Some(t5)
    ensures d5.coupons == [NewCoupon(code, t5, expiry)]
    ensures d5.userId == Some(id) && |d5.stamped| == 5
  {
    NewDayCounts(Profile(Some(id), 4, Some(t4), [StampRecord("A", t1), StampRecord("B", t2),
                                                 StampRecord("C", t3), StampRecord("D", t4)], []),
                 id, Some("E"), t5, code, expiry);
  }
}
