/** Properties of the ambulance state machine, stated on the functions that specify `Ambulance`. */
module MortuaryProperties {
  import opened Zones
  import opened Agent
  import opened Mortuary

  /**
   * One update never moves an ambulance back and advances it by at most one
   * state; it leaves `going` exactly on reaching the corpse and `collecting`
   * exactly on the update that brings the timer to the duration.
   */
  lemma SteppedForward(v: AmbulanceView, route: Route, advance: Advance)
    ensures var w := Stepped(v, route, advance);
      && Rank(v.state) <= Rank(w.state) <= Rank(v.state) + 1
      && (v.state == Going ==> (w.state != Going <==> Arrived(v.x, v.y, route.targetX, route.targetY)))
      && (v.state == Collecting ==> (w.state != Collecting <==> v.collectionTime + CollectionTick >= CollectionDuration))
      && (v.state == Returning ==> w.state == Returning)
  {
  }

  /** Over any number of updates the state only moves forward. */
  lemma {:induction false} RepeatForward(v: AmbulanceView, route: Route, advance: Advance, n: nat)
    ensures Rank(v.state) <= Rank(Repeat(v, route, advance, n).state)
  {
    if n > 0 {
      RepeatForward(v, route, advance, n - 1);
      SteppedForward(Repeat(v, route, advance, n - 1), route, advance);
    }
  }

  /** A new ambulance is consistent, and every update keeps it so. */
  lemma SteppedConsistent(v: AmbulanceView, route: Route, advance: Advance)
    requires Consistent(v)
    ensures Consistent(Stepped(v, route, advance))
  {
    if v.state == Collecting {
      assert (v.collectionTime + CollectionTick) % CollectionTick == v.collectionTime % CollectionTick;
    }
  }

  lemma {:induction false} RepeatConsistent(v: AmbulanceView, route: Route, advance: Advance, n: nat)
    requires Consistent(v)
    ensures Consistent(Repeat(v, route, advance, n))
  {
    if n > 0 {
      RepeatConsistent(v, route, advance, n - 1);
      SteppedConsistent(Repeat(v, route, advance, n - 1), route, advance);
    }
  }

  /**
   * From the update that reaches the corpse, the ambulance stays where it is
   * and collects for 124 more updates; the 125th adds the last 16 ms,
   * reaching 2000, and turns it back.
   */
  lemma {:induction false} CollectingFor(v: AmbulanceView, route: Route, advance: Advance, n: nat)
    requires v.state == Collecting && v.collectionTime == 0 && n <= 125
    ensures var w := Repeat(v, route, advance, n);
      && w.state == (if n < 125 then Collecting else Returning)
      && w.collectionTime == CollectionTick * n
      && w.x == v.x && w.y == v.y && w.isDone == v.isDone && w.hasBuried == v.hasBuried
  {
    if n > 0 {
      CollectingFor(v, route, advance, n - 1);
    }
  }

  /** A launched ambulance is consistent and has not buried; the state it reaches first is `collecting` with a zero timer. */
  lemma LaunchedStarts(x: real, y: real, route: Route, advance: Advance)
    ensures Consistent(Launched(x, y)) && !Launched(x, y).hasBuried
    ensures var w := Stepped(Launched(x, y), route, advance);
      w.state == Going || (w.state == Collecting && w.collectionTime == 0)
  {
  }

  /** Once buried, an ambulance stays buried and never buries again. */
  lemma {:induction false} BuriedStays(v: AmbulanceView, route: Route, advance: Advance, n: nat)
    requires v.hasBuried
    ensures Repeat(v, route, advance, n).hasBuried
    ensures Burials(v, route, advance, n) == 0
  {
    if n > 0 {
      BuriedStays(v, route, advance, n - 1);
    }
  }

  /**
   * `onBuried` fires at most once per ambulance, whatever the number of
   * updates, and only if it had not buried before; after it fired the
   * ambulance has buried.
   */
  lemma {:induction false} BurialsAtMostOnce(v: AmbulanceView, route: Route, advance: Advance, n: nat)
    ensures Burials(v, route, advance, n) <= (if v.hasBuried then 0 else 1)
    ensures Burials(v, route, advance, n) == 1 ==> Repeat(v, route, advance, n).hasBuried
  {
    if v.hasBuried {
      BuriedStays(v, route, advance, n);
    } else if n > 0 {
      BurialsAtMostOnce(v, route, advance, n - 1);
      var w := Repeat(v, route, advance, n - 1);
      if Burials(v, route, advance, n - 1) == 1 {
        assert w.hasBuried && !Buries(w, route);
        assert Stepped(w, route, advance).hasBuried;
      }
    }
  }

  /**
   * The update that buries is the one that finds a returning ambulance at the
   * morgue without a burial: it marks the ambulance done and buried.
   */
  lemma BuriesMarksDone(v: AmbulanceView, route: Route, advance: Advance)
    ensures Buries(v, route) ==> Stepped(v, route, advance) == v.(isDone := true, hasBuried := true)
    ensures Buries(v, route) <==> !v.hasBuried && Stepped(v, route, advance).hasBuried
  {
  }

  /**
   * Reaching the corpse is the only way its flag gets set: while an ambulance
   * is still on its way the corpse stays eligible, so the next dispatch may
   * send a second ambulance to it.
   */
  lemma ClaimOnlyOnArrival(f: Fleet, targets: seq<Person>, routes: seq<Route>, advance: Advance, n: nat, k: nat)
    requires Fits(f, targets, routes) && n <= |targets| && k < |targets|
    requires !f.flags[k]
    requires forall j :: 0 <= j < n && targets[j] == targets[k] ==> !Claims(f.views[j], routes[j])
    ensures !UpdatedAll(f, targets, routes, advance, n).flags[k]
  {
    UpdatedAllFlags(f, targets, routes, advance, n, k);
  }
}
