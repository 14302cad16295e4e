/** The stamp card as the widget runs it: one object whose fields are the
    five stored keys, and one method per step of the widget, each updating
    those fields in the order the widget writes its keys.  Every method is
    specified by the matching transition of CardState, whose properties are
    proved there. */
module StampCard {
  import opened Dates
  import opened CardState

  class Store {
    var userId: Option<string>
    var stampCount: nat
    var lastStampDate: Option<string>
    var stamped: seq<StampRecord>
    var coupons: seq<Coupon>

    /** The stored keys as one value. */
    function Snapshot(): Profile
      reads this
    {
      Profile(userId, stampCount, lastStampDate, stamped, coupons)
    }

    /** The count bound the widget keeps on every reachable state. */
    predicate CountBounded()
      reads this
    {
      CountInRange(Snapshot())
    }

    /** A browser profile whose storage holds none of the keys. */
    constructor ()
      ensures Snapshot() == Empty
      ensures CountBounded()
    {
      userId := None;
      stampCount := 0;
      lastStampDate := None;
      stamped := [];
      coupons := [];
    }

    method InitUser(newId: string)
      modifies this
      ensures Snapshot() == CardState.InitUser(old(Snapshot()), newId)
      ensures old(CountBounded()) ==> CountBounded()
    {
      if userId.None? || userId.value == "" {
        userId := Some(newId);
        stampCount := 0;
        lastStampDate := Some("");
        coupons := [];
        stamped := [];
      }
    }

    method Stamp(stampId: string, today: string) returns (accepted: bool)
      modifies this
      ensures (accepted, Snapshot()) == CardState.Stamp(old(Snapshot()), stampId, today)
      ensures old(CountBounded()) ==> CountBounded()
    {
      if StampedToday(stamped, stampId, today) {
        return false;
      }
      stamped := stamped + [StampRecord(stampId, today)];
      return true;
    }

    method AddStamp(today: string, code: string, expiry: string)
      modifies this
      ensures Snapshot() == CardState.AddStamp(old(Snapshot()), today, code, expiry)
      ensures old(CountBounded()) ==> CountBounded()
    {
      if lastStampDate == Some(today) {
        return;
      }
      var count := stampCount + 1;
      stampCount := count;
      lastStampDate := Some(today);
      if count >= Threshold {
        IssueCoupon(today, code, expiry);
        stampCount := 0;
      }
    }

    method IssueCoupon(today: string, code: string, expiry: string)
      modifies this
      ensures Snapshot() == CardState.IssueCoupon(old(Snapshot()), today, code, expiry)
      ensures old(CountBounded()) ==> CountBounded()
    {
      coupons := coupons + [NewCoupon(code, today, expiry)];
    }

    /** The load handler: initialise, then stamp when a stamp id came with
        the request, and count it only when `stamp` accepted it. */
    method OnLoad(newId: string, stampId: Option<string>, today: string, code: string, expiry: string)
      modifies this
      ensures Snapshot() == CardState.Load(old(Snapshot()), newId, stampId, today, code, expiry)
      ensures old(CountBounded()) ==> CountBounded()
    {
      InitUser(newId);
      if stampId.Some? && stampId.value != "" {
        var accepted := Stamp(stampId.value, today);
        if accepted {
          AddStamp(today, code, expiry);
        }
      }
    }

    /** The "mark used" button of the coupon listed at position i. */
    method MarkUsed(i: nat)
      requires i < |coupons|
      modifies this
      ensures Snapshot() == CardState.MarkUsed(old(Snapshot()), i)
      ensures old(CountBounded()) ==> CountBounded()
    {
      coupons := coupons[i := coupons[i].(used := true)];
    }

    /** The reset button, with the answer to its confirmation dialog. */
    method ResetClicked(confirmed: bool)
      modifies this
      ensures Snapshot() == CardState.Reset(old(Snapshot()), confirmed)
      ensures old(CountBounded()) ==> CountBounded()
    {
      if confirmed {
        stampCount := 0;
        lastStampDate := None;
        stamped := [];
        coupons := [];
      }
    }

    /** The coupon loop of `updateUI`: walks the stored coupons in order and
        keeps each one that is neither used nor expired. */
    method ListedCoupons(today: string) returns (listed: seq<Coupon>)
      ensures listed == ActiveCoupons(coupons, today)
      ensures forall c :: c in listed <==> c in coupons && !c.used && !LexLess(c.expiry, today)
    {
      listed := [];
      var i := 0;
      while i < |coupons|
        invariant 0 <= i <= |coupons|
        invariant listed == ActiveCoupons(coupons[..i], today)
      {
        var coupon := coupons[i];
        assert coupons[..i + 1] == coupons[..i] + [coupon];
        ActiveCouponsAppend(coupons[..i], [coupon], today);
        assert [coupon][1..] == [];
        if !coupon.used && !LexLess(coupon.expiry, today) {
          listed := listed + [coupon];
        }
        i := i + 1;
      }
      assert coupons[..i] == coupons;
    }
  }
}
