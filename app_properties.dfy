/**
 * What the counters, the turn loop, the population setup and the frame
 * clock of the application component guarantee, stated on the functions
 * that specify the `Simulation` methods.
 */
module AppProperties {
  import opened Config
  import opened Zones
  import opened Agent
  import opened AgentProperties
  import opened App

  /**
   * `updateStats` counts every bucket exactly: each counter is the number of
   * persons in it, and the deceased counter is the prior one plus the number
   * of deceased persons still in the array.
   */
  lemma {:induction false} TallyCounts(ss: seq<PersonState>, deceased: int)
    ensures var t := Tally(ss, deceased);
      && t.healthy == Count(ss, OfStatus(Healthy))
      && t.infected == Count(ss, OfStatus(Infected))
      && t.recovered == Count(ss, OfStatus(Recovered))
      && t.deceased == deceased + Count(ss, OfStatus(Deceased))
      && t.inPharmacy == Count(ss, InPharmacy)
      && t.inQuarantine == Count(ss, InQuarantine)
      && t.contagious == Count(ss, IsContagious)
  {
    if ss != [] {
      TallyCounts(ss[..|ss| - 1], deceased);
    }
  }

  /** Every person has exactly one of the four statuses. */
  lemma {:induction false} StatusesPartition(ss: seq<PersonState>)
    ensures Count(ss, OfStatus(Healthy)) + Count(ss, OfStatus(Infected))
          + Count(ss, OfStatus(Recovered)) + Count(ss, OfStatus(Deceased)) == |ss|
  {
    if ss != [] {
      StatusesPartition(ss[..|ss| - 1]);
    }
  }

  /** Only infected persons are contagious. */
  lemma {:induction false} ContagiousAreInfected(ss: seq<PersonState>)
    ensures Count(ss, IsContagious) <= Count(ss, OfStatus(Infected))
  {
    if ss != [] {
      ContagiousAreInfected(ss[..|ss| - 1]);
    }
  }

  /**
   * The counters together: the four status counters add up to the
   * population plus the prior deceased counter, the contagious are among the
   * infected, and the zone counters never exceed the population.
   */
  lemma TallyTotals(ss: seq<PersonState>, deceased: int)
    ensures var t := Tally(ss, deceased);
      && t.healthy + t.infected + t.recovered + t.deceased == deceased + |ss|
      && t.contagious <= t.infected
      && t.inPharmacy <= |ss| && t.inQuarantine <= |ss|
  {
    TallyCounts(ss, deceased);
    StatusesPartition(ss);
    ContagiousAreInfected(ss);
  }

  /** Replacing one state changes a count by at most the old and the new state's membership. */
  lemma {:induction false} CountUpdate(ss: seq<PersonState>, k: nat, v: PersonState, b: Bucket)
    requires k < |ss|
    ensures Count(ss[k := v], b) + (if InBucket(ss[k], b) then 1 else 0)
         == Count(ss, b) + (if InBucket(v, b) then 1 else 0)
  {
    var n := |ss| - 1;
    if k == n {
      assert ss[k := v][..n] == ss[..n];
    } else {
      assert ss[k := v][..n] == ss[..n][k := v];
      CountUpdate(ss[..n], k, v, b);
    }
  }

  /** Two populations whose persons agree on a bucket, index by index, have the same count for it. */
  lemma {:induction false} CountAgrees(a: seq<PersonState>, c: seq<PersonState>, b: Bucket)
    requires |a| == |c|
    requires forall k :: 0 <= k < |a| ==> (InBucket(a[k], b) <==> InBucket(c[k], b))
    ensures Count(a, b) == Count(c, b)
  {
    if a != [] {
      CountAgrees(a[..|a| - 1], c[..|c| - 1], b);
    }
  }

  /**
   * One person's turn adds exactly one deceased person when the death
   * callback fires and none otherwise: a person only dies in its own `move`,
   * and `tryInfectOthers` never touches the deceased nor makes anyone
   * deceased.
   */
  lemma TurnDeaths(ss: seq<PersonState>, k: nat, pharmacies: seq<Zone>, quarantines: seq<Zone>, p: Params,
                   deltaTime: real, d: TurnDraws)
    requires k < |ss| && AllWellFormed(ss) && 0.0 <= p.recoveryTime && ValidTurn(d, |ss|)
    ensures var r := AfterTurn(ss, k, pharmacies, quarantines, p, deltaTime, d);
      DeathsAccounted(ss, r.0, if r.1 then 1 else 0)
  {
    var o := AfterMove(ss[k], pharmacies, quarantines, p, deltaTime, d.move);
    MoveKeepsWellFormed(ss[k], pharmacies, quarantines, p, deltaTime, d.move);
    var moved := ss[k := o.next];
    CountUpdate(ss, k, o.next, OfStatus(Deceased));
    if o.next.status == Infected {
      InfectAllRule(o.next, moved, quarantines, p, d.infect, d.variation);
      var r := InfectAll(o.next, moved, quarantines, p, d.infect, d.variation);
      CountAgrees(r, moved, OfStatus(Deceased));
    }
  }

  /** `after` has exactly `deaths` more deceased persons than `before`. */
  predicate DeathsAccounted(before: seq<PersonState>, after: seq<PersonState>, deaths: int) {
    Count(after, OfStatus(Deceased)) == Count(before, OfStatus(Deceased)) + deaths
  }

  lemma DeathsAdd(a: seq<PersonState>, b: seq<PersonState>, c: seq<PersonState>, x: int, y: int, z: int)
    requires DeathsAccounted(a, b, x) && DeathsAccounted(b, c, y) && z == x + y
    ensures DeathsAccounted(a, c, z)
  {
  }

  /** The deaths reported during the turns are exactly the persons who became deceased during them. */
  lemma {:induction false} TurnsDeaths(ss: seq<PersonState>, n: nat, pharmacies: seq<Zone>, quarantines: seq<Zone>,
                                       p: Params, deltaTime: real, draws: seq<TurnDraws>)
    requires n <= |ss| && AllWellFormed(ss) && 0.0 <= p.recoveryTime && ValidTurns(draws, |ss|)
    ensures DeathsAccounted(ss, AfterTurns(ss, n, pharmacies, quarantines, p, deltaTime, draws).0,
                            AfterTurns(ss, n, pharmacies, quarantines, p, deltaTime, draws).1)
  {
    if n > 0 {
      TurnsDeaths(ss, n - 1, pharmacies, quarantines, p, deltaTime, draws);
      NextTurnDeaths(ss, n, pharmacies, quarantines, p, deltaTime, draws);
      var prev := AfterTurns(ss, n - 1, pharmacies, quarantines, p, deltaTime, draws);
      var next := AfterTurns(ss, n, pharmacies, quarantines, p, deltaTime, draws);
      DeathsAdd(ss, prev.0, next.0, prev.1, next.1 - prev.1, next.1);
    }
  }

  /** Turn `n - 1` adds to the deceased exactly the deaths it adds to the report. */
  lemma NextTurnDeaths(ss: seq<PersonState>, n: nat, pharmacies: seq<Zone>, quarantines: seq<Zone>,
                       p: Params, deltaTime: real, draws: seq<TurnDraws>)
    requires 0 < n <= |ss| && AllWellFormed(ss) && 0.0 <= p.recoveryTime && ValidTurns(draws, |ss|)
    ensures DeathsAccounted(AfterTurns(ss, n - 1, pharmacies, quarantines, p, deltaTime, draws).0,
                            AfterTurns(ss, n, pharmacies, quarantines, p, deltaTime, draws).0,
                            AfterTurns(ss, n, pharmacies, quarantines, p, deltaTime, draws).1
                              - AfterTurns(ss, n - 1, pharmacies, quarantines, p, deltaTime, draws).1)
  {
    var prev := AfterTurns(ss, n - 1, pharmacies, quarantines, p, deltaTime, draws);
    TurnDeaths(prev.0, n - 1, pharmacies, quarantines, p, deltaTime, draws[n - 1]);
  }

  /** `after` has the ids and the collection flags of `before`, and the deceased of `before` as they were. */
  predicate Kept(before: seq<PersonState>, after: seq<PersonState>) {
    && |after| == |before|
    && forall j :: 0 <= j < |before| ==>
         && after[j].id == before[j].id && after[j].isBeingCollected == before[j].isBeingCollected
         && (before[j].status == Deceased ==> after[j] == before[j])
  }

  lemma KeptTransitive(a: seq<PersonState>, b: seq<PersonState>, c: seq<PersonState>)
    requires Kept(a, b) && Kept(b, c)
    ensures Kept(a, c)
  {
  }

  /** A turn leaves the deceased as they are and changes no id and no collection flag. */
  lemma TurnKeeps(ss: seq<PersonState>, k: nat, pharmacies: seq<Zone>, quarantines: seq<Zone>, p: Params,
                  deltaTime: real, d: TurnDraws)
    requires k < |ss| && AllWellFormed(ss) && 0.0 <= p.recoveryTime && ValidTurn(d, |ss|)
    ensures Kept(ss, AfterTurn(ss, k, pharmacies, quarantines, p, deltaTime, d).0)
  {
    var o := AfterMove(ss[k], pharmacies, quarantines, p, deltaTime, d.move);
    MoveKeepsWellFormed(ss[k], pharmacies, quarantines, p, deltaTime, d.move);
    if ss[k].status == Deceased {
      MoveFrozen(ss[k], pharmacies, quarantines, p, deltaTime, d.move);
    }
    var moved := ss[k := o.next];
    if o.next.status == Infected {
      InfectAllRule(o.next, moved, quarantines, p, d.infect, d.variation);
    }
  }

  /** Over the turns of a tick the deceased stay as they are, and no id and no collection flag changes. */
  lemma {:induction false} TurnsKeep(ss: seq<PersonState>, n: nat, pharmacies: seq<Zone>, quarantines: seq<Zone>,
                                     p: Params, deltaTime: real, draws: seq<TurnDraws>)
    requires n <= |ss| && AllWellFormed(ss) && 0.0 <= p.recoveryTime && ValidTurns(draws, |ss|)
    ensures Kept(ss, AfterTurns(ss, n, pharmacies, quarantines, p, deltaTime, draws).0)
  {
    if n > 0 {
      TurnsKeep(ss, n - 1, pharmacies, quarantines, p, deltaTime, draws);
      NextTurnKeeps(ss, n, pharmacies, quarantines, p, deltaTime, draws);
      KeptTransitive(ss, AfterTurns(ss, n - 1, pharmacies, quarantines, p, deltaTime, draws).0,
                     AfterTurns(ss, n, pharmacies, quarantines, p, deltaTime, draws).0);
    }
  }

  /** Turn `n - 1` keeps what the turns before it kept. */
  lemma NextTurnKeeps(ss: seq<PersonState>, n: nat, pharmacies: seq<Zone>, quarantines: seq<Zone>,
                      p: Params, deltaTime: real, draws: seq<TurnDraws>)
    requires 0 < n <= |ss| && AllWellFormed(ss) && 0.0 <= p.recoveryTime && ValidTurns(draws, |ss|)
    ensures Kept(AfterTurns(ss, n - 1, pharmacies, quarantines, p, deltaTime, draws).0,
                 AfterTurns(ss, n, pharmacies, quarantines, p, deltaTime, draws).0)
  {
    var prev := AfterTurns(ss, n - 1, pharmacies, quarantines, p, deltaTime, draws);
    var turn := AfterTurn(prev.0, n - 1, pharmacies, quarantines, p, deltaTime, draws[n - 1]);
    assert AfterTurns(ss, n, pharmacies, quarantines, p, deltaTime, draws).0 == turn.0;
    TurnKeeps(prev.0, n - 1, pharmacies, quarantines, p, deltaTime, draws[n - 1]);
  }

  /**
   * The population `initSimulation` builds: the first `initialInfected`
   * persons (all of them if there are fewer) are infected, the rest healthy,
   * and person `k` has id `k`.
   */
  lemma {:induction false} BuiltCounts(p: Params, setups: seq<PersonSetup>, ss: seq<PersonState>)
    requires |ss| == |setups| && forall k :: 0 <= k < |ss| ==> ss[k] == Built(k, p, setups[k])
    ensures Count(ss, OfStatus(Infected)) == if p.initialInfected < 0 then 0 else if p.initialInfected < |ss| then p.initialInfected else |ss|
    ensures Count(ss, OfStatus(Healthy)) + Count(ss, OfStatus(Infected)) == |ss|
    ensures forall k :: 0 <= k < |ss| ==> ss[k].id == k
  {
    if ss != [] {
      var n := |ss| - 1;
      BuiltCounts(p, setups[..n], ss[..n]);
    }
  }

  /** The first frame after a start, when the last time is zero, advances the simulation by nothing. */
  lemma FirstFrameStill(timestamp: real, simulationSpeed: real)
    ensures ScaledDelta(0.0, timestamp, simulationSpeed) == 0.0
  {
  }

  /** The scaled time the frames at `timestamps` advance the simulation by, the frame clock starting at `last`. */
  function Clocked(last: real, timestamps: seq<real>, simulationSpeed: real): real
    decreases |timestamps|
  {
    if timestamps == [] then 0.0
    else ScaledDelta(last, timestamps[0], simulationSpeed) + Clocked(timestamps[0], timestamps[1..], simulationSpeed)
  }

  /**
   * After its first frame, a run of frames with non-zero timestamps advances
   * the simulation by the wall-clock span between them scaled by
   * `simulationSpeed / 60`: no time is lost or counted twice.
   */
  lemma {:induction false} ClockTelescopes(last: real, timestamps: seq<real>, simulationSpeed: real)
    requires timestamps != []
    requires forall k :: 0 <= k < |timestamps| ==> timestamps[k] != 0.0
    decreases |timestamps|
    ensures Clocked(last, timestamps, simulationSpeed)
         == ScaledDelta(last, timestamps[0], simulationSpeed)
          + (timestamps[|timestamps| - 1] - timestamps[0]) * (simulationSpeed / 60.0)
  {
    var rest := timestamps[1..];
    if rest != [] {
      ClockTelescopes(timestamps[0], rest, simulationSpeed);
      var c := simulationSpeed / 60.0;
      assert (rest[0] - timestamps[0]) * c + (rest[|rest| - 1] - rest[0]) * c
          == (rest[|rest| - 1] - timestamps[0]) * c;
    }
  }

  /** Started from a stopped clock, the frames advance the simulation by exactly the span from the first frame to the last. */
  lemma StartedClock(timestamps: seq<real>, simulationSpeed: real)
    requires timestamps != []
    requires forall k :: 0 <= k < |timestamps| ==> timestamps[k] != 0.0
    ensures Clocked(0.0, timestamps, simulationSpeed)
         == (timestamps[|timestamps| - 1] - timestamps[0]) * (simulationSpeed / 60.0)
  {
    ClockTelescopes(0.0, timestamps, simulationSpeed);
  }
}
