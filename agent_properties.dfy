/** Properties of the agent's state machine, stated on the functions that specify `Person`. */
module AgentProperties {
  import opened Config
  import opened Zones
  import opened Agent

  /** A product grows with either factor when the other is not negative. */
  lemma MulLeftMonotone(a: real, b: real, c: real)
    requires 0.0 <= a && b <= c
    ensures a * b <= a * c && b * a <= c * a
  {
    var ab, ac := a * b, a * c;
    assert ac - ab == a * (c - b);
  }

  /**
   * With a positive base time and 0 < min <= max variation, the personal
   * recovery time is positive and lies between base·min·2·0.8 and base·max·2·1.5.
   */
  lemma PersonalRecoveryTimeBounds(p: Params, hasComorbidities: bool, inPharmacy: bool, r: real)
    requires IsDraw(r) && 0.0 < p.recoveryTime
    requires 0.0 < p.minRecoveryVariation <= p.maxRecoveryVariation
    ensures 0.0 < p.recoveryTime * p.minRecoveryVariation * 1.6
    ensures p.recoveryTime * p.minRecoveryVariation * 1.6 <= PersonalRecoveryTime(p, hasComorbidities, inPharmacy, r)
    ensures PersonalRecoveryTime(p, hasComorbidities, inPharmacy, r) <= p.recoveryTime * p.maxRecoveryVariation * 3.0
  {
    var lo, hi, rt := p.minRecoveryVariation, p.maxRecoveryVariation, p.recoveryTime;
    var variation := lo + r * (hi - lo);
    VariationBetween(lo, hi, r);
    ScaledBetween(rt, lo, variation, hi);
  }

  /** The drawn variation lies between the minimum and the maximum. */
  lemma VariationBetween(lo: real, hi: real, r: real)
    requires IsDraw(r) && lo <= hi
    ensures lo <= lo + r * (hi - lo) <= hi
  {
    var w := hi - lo;
    NonNegativeProduct(r, w);
    NonNegativeProduct(1.0 - r, w);
    assert (1.0 - r) * w == w - r * w;
  }

  /** The bounds of the personal time, with the product by the base time kept whole. */
  lemma ScaledBetween(rt: real, lo: real, v: real, hi: real)
    requires 0.0 < rt && 0.0 < lo <= v <= hi
    ensures 0.0 < rt * lo * 1.6 <= rt * v * 1.6
    ensures rt * v * 3.0 <= rt * hi * 3.0
  {
    MulLeftMonotone(rt, lo, v);
    MulLeftMonotone(rt, v, hi);
    PositiveProduct(rt, lo);
  }

  /** A person built from valid draws is well formed and moves with components in [-1, 1). */
  lemma CreatedWellFormed(id: int, x: real, y: real, status: Status, p: Params, d: PersonDraws)
    requires ValidDraws(d)
    ensures WellFormed(Created(id, x, y, status, p, d))
    ensures -1.0 <= Created(id, x, y, status, p, d).dx < 1.0
    ensures -1.0 <= Created(id, x, y, status, p, d).dy < 1.0
    ensures Created(id, x, y, status, p, d).status == status
  {
  }

  /** The worked example: recovery time 100 with ratios 0.3 and 0.5. */
  lemma StageExample(p: Params)
    requires p.incubationPeriodRatio == 0.3 && p.progressionPeriodRatio == 0.5
    ensures StageAt(29.0, 100.0, p) == Incubation
    ensures StageAt(31.0, 100.0, p) == Progression
    ensures StageAt(81.0, 100.0, p) == Recovery
  {
  }

  /**
   * One `processInfection` step of an infected person with positive elapsed
   * time: the stage is chosen from the timer before the increment; the outcome
   * is resolved exactly when the advanced timer reaches the personal recovery
   * time; otherwise the timer strictly increases.
   */
  lemma InfectionStep(s: PersonState, p: Params, deltaTime: real, draw: real)
    requires WellFormed(s) && s.status == Infected && 0.0 < deltaTime
    ensures var o := InfectionProcessed(s, p, deltaTime, draw);
      var advanced := s.infectedSince.value + deltaTime * SeverityFactor(s.immunity, s.hasComorbidities, s.inPharmacy);
      && (o.next.status == Infected <==> advanced < s.personalRecoveryTime)
      && (o.next.status == Infected ==>
            && o.next.infectedSince.value > s.infectedSince.value
            && o.next.infectionStage == Some(StageAt(s.infectedSince.value, s.personalRecoveryTime, p)))
      && (o.died ==> o.next.status == Deceased)
      && WellFormed(o.next)
  {
    var f := SeverityFactor(s.immunity, s.hasComorbidities, s.inPharmacy);
    assert f >= 0.49;
    var step := deltaTime * f;
    assert step > 0.0 by {
      MulLeftMonotone(deltaTime, 0.49, f);
      assert deltaTime * 0.49 > 0.0;
    }
  }

  /**
   * `finishTreatment`: death exactly when the draw is below the death chance,
   * recovery with immunity min(1, immunity + 0.3) otherwise; the timer and the
   * stage are cleared either way and nothing else changes.
   */
  lemma TreatmentOutcome(s: PersonState, p: Params, draw: real)
    requires WellFormed(s)
    ensures var o := TreatmentFinished(s, p, draw);
      && (o.died <==> draw < DeathChance(s, p))
      && o.next.status == (if o.died then Deceased else Recovered)
      && o.next.infectedSince == None && o.next.infectionStage == None
      && o.next.immunity == (if o.died then s.immunity else Min(1.0, s.immunity + 0.3))
      && o.next.(status := s.status, infectedSince := s.infectedSince,
                 infectionStage := s.infectionStage, immunity := s.immunity) == s
      && WellFormed(o.next)
  {
  }

  /** `move` changes nothing, and reports no death, for a deceased person or one being collected. */
  lemma MoveFrozen(s: PersonState, pharmacies: seq<Zone>, quarantines: seq<Zone>, p: Params, deltaTime: real, draw: real)
    requires WellFormed(s) && (s.status == Deceased || s.isBeingCollected)
    ensures AfterMove(s, pharmacies, quarantines, p, deltaTime, draw) == Outcome(s, false)
  {
  }

  /** With no elapsed time `processMovement` leaves the position where it was. */
  lemma StandStill(s: PersonState)
    ensures Displaced(s, 0.0) == s
  {
  }

  /** `dists[i]` is the Euclidean distance from (x, y) to the centre of `zones[i]`. */
  predicate DistancesTo(zones: seq<Zone>, x: real, y: real, dists: seq<real>) {
    && |dists| == |zones|
    && forall i :: 0 <= i < |zones| ==>
         0.0 <= dists[i] && dists[i] * dists[i] == (zones[i].x - x) * (zones[i].x - x) + (zones[i].y - y) * (zones[i].y - y)
  }

  /** The zone test with true distances: some distance is strictly below the radius. */
  lemma ZoneTest(zones: seq<Zone>, x: real, y: real, r: real, dists: seq<real>)
    requires DistancesTo(zones, x, y, dists)
    ensures AnyContains(zones, x, y, r) <==> exists i :: 0 <= i < |dists| && dists[i] < r
  {
    forall i | 0 <= i < |zones|
      ensures dists[i] < r <==> WithinRadius(zones[i].x - x, zones[i].y - y, r)
    {
      WithinRadiusIsDistanceTest(zones[i].x - x, zones[i].y - y, r, dists[i]);
    }
  }

  /**
   * `checkZones` with true distances: each flag is set exactly when some zone
   * centre is strictly closer than its radius; nothing else changes.
   */
  lemma ZonesCheckedByDistance(s: PersonState, pharmacies: seq<Zone>, quarantines: seq<Zone>, p: Params,
                               pharmacyDists: seq<real>, quarantineDists: seq<real>)
    requires DistancesTo(pharmacies, s.x, s.y, pharmacyDists)
    requires DistancesTo(quarantines, s.x, s.y, quarantineDists)
    ensures var z := ZonesChecked(s, pharmacies, quarantines, p);
      && (z.inPharmacy <==> exists i :: 0 <= i < |pharmacyDists| && pharmacyDists[i] < p.pharmacyRadius)
      && (z.inQuarantine <==> exists i :: 0 <= i < |quarantineDists| && quarantineDists[i] < p.quarantineRadius)
      && z.(inPharmacy := s.inPharmacy, inQuarantine := s.inQuarantine) == s
  {
    ZoneTest(pharmacies, s.x, s.y, p.pharmacyRadius, pharmacyDists);
    ZoneTest(quarantines, s.x, s.y, p.quarantineRadius, quarantineDists);
  }

  /** After `checkBoundaries` the person is inside the arena, whatever its position before. */
  lemma BoundariesKeepInArena(s: PersonState, p: Params)
    requires 0.0 <= p.width && 0.0 <= p.height
    ensures var b := BoundariesChecked(s, p);
      && 0.0 <= b.x <= p.width && 0.0 <= b.y <= p.height
      && (b.dx == -s.dx <==> (s.x < 0.0 || s.x > p.width) || s.dx == 0.0)
      && (b.dy == -s.dy <==> (s.y < 0.0 || s.y > p.height) || s.dy == 0.0)
      && (0.0 <= s.x <= p.width ==> b.x == s.x)
      && (0.0 <= s.y <= p.height ==> b.y == s.y)
  {
  }

  /** A person that moves ends the frame inside the arena; a frozen one stays where it was. */
  lemma MoveKeepsInArena(s: PersonState, pharmacies: seq<Zone>, quarantines: seq<Zone>, p: Params, deltaTime: real, draw: real)
    requires WellFormed(s) && 0.0 <= p.width && 0.0 <= p.height
    ensures var n := AfterMove(s, pharmacies, quarantines, p, deltaTime, draw).next;
      && (s.status != Deceased && !s.isBeingCollected ==> 0.0 <= n.x <= p.width && 0.0 <= n.y <= p.height)
      && (0.0 <= s.x <= p.width && 0.0 <= s.y <= p.height ==> 0.0 <= n.x <= p.width && 0.0 <= n.y <= p.height)
  {
    if s.status != Deceased && !s.isBeingCollected {
      var zoned := ZonesChecked(s, pharmacies, quarantines, p);
      var treated := if zoned.status == Infected then InfectionProcessed(zoned, p, deltaTime, draw) else Outcome(zoned, false);
      BoundariesKeepInArena(Displaced(treated.next, deltaTime), p);
    }
  }

  /**
   * `move` keeps a person well formed, never touches identity, traits or the
   * collection flag, and reports a death only for a person that was infected
   * and is now deceased.
   */
  lemma MoveKeepsWellFormed(s: PersonState, pharmacies: seq<Zone>, quarantines: seq<Zone>, p: Params, deltaTime: real, draw: real)
    requires WellFormed(s)
    ensures var o := AfterMove(s, pharmacies, quarantines, p, deltaTime, draw);
      && WellFormed(o.next)
      && o.next.id == s.id && o.next.isBeingCollected == s.isBeingCollected
      && o.next.hasComorbidities == s.hasComorbidities && o.next.isSuperSpreader == s.isSuperSpreader
      && o.next.personalRecoveryTime == s.personalRecoveryTime
      && (o.died ==> s.status == Infected && o.next.status == Deceased)
      && (o.next.status == Deceased <==> s.status == Deceased || o.died)
      && (s.status == Healthy ==> o.next.status == Healthy)
  {
    if s.status != Deceased && !s.isBeingCollected {
      var zoned := ZonesChecked(s, pharmacies, quarantines, p);
      var treated := if zoned.status == Infected then InfectionProcessed(zoned, p, deltaTime, draw) else Outcome(zoned, false);
      MovementOnlyMoves(treated.next, p, deltaTime);
      if zoned.status == Infected {
        InfectionStepKeeps(zoned, p, deltaTime, draw);
      }
    }
  }

  /**
   * One `processInfection` step keeps the person well formed, changes only the
   * disease fields, never makes the person healthy again, and reports a death
   * only together with the deceased status.
   */
  lemma InfectionStepKeeps(z: PersonState, p: Params, deltaTime: real, draw: real)
    requires WellFormed(z) && z.status == Infected
    ensures var o := InfectionProcessed(z, p, deltaTime, draw);
      && WellFormed(o.next)
      && o.next.(status := z.status, infectedSince := z.infectedSince,
                 infectionStage := z.infectionStage, immunity := z.immunity) == z
      && o.next.status != Healthy
      && (o.died <==> o.next.status == Deceased)
  {
    var since := z.infectedSince.value;
    var advanced := since + deltaTime * SeverityFactor(z.immunity, z.hasComorbidities, z.inPharmacy);
    StagedKeeps(z, StageAt(since, z.personalRecoveryTime, p), advanced, p, draw);
  }

  /** The same for any recorded stage and any advanced timer. */
  lemma StagedKeeps(z: PersonState, stage: Stage, advanced: real, p: Params, draw: real)
    requires WellFormed(z) && z.status == Infected
    ensures var staged := z.(infectionStage := Some(stage), infectedSince := Some(advanced));
      var o := if advanced >= z.personalRecoveryTime then TreatmentFinished(staged, p, draw) else Outcome(staged, false);
      && WellFormed(o.next)
      && o.next.(status := z.status, infectedSince := z.infectedSince,
                 infectionStage := z.infectionStage, immunity := z.immunity) == z
      && o.next.status != Healthy
      && (o.died <==> o.next.status == Deceased)
  {
    var staged := z.(infectionStage := Some(stage), infectedSince := Some(advanced));
    if advanced >= z.personalRecoveryTime {
      TreatmentOutcome(staged, p, draw);
    }
  }

  /** Displacement and the boundary check change the position and the velocity only. */
  lemma MovementOnlyMoves(t: PersonState, p: Params, deltaTime: real)
    ensures var b := BoundariesChecked(Displaced(t, deltaTime), p);
      b.(x := t.x, y := t.y, dx := t.dx, dy := t.dy) == t
  {
  }

  /**
   * One iteration of `tryInfectOthers`: a healthy or recovered target that is
   * not being collected is infected exactly when it is within the infection
   * distance and the draw is below the probability; it then restarts the
   * disease at timer 0 in incubation with its immunity unchanged. Every other
   * target is left as it was.
   */
  lemma TransmissionRule(source: PersonState, target: PersonState, quarantines: seq<Zone>, p: Params, draw: real, variationDraw: real)
    requires WellFormed(target) && 0.0 <= p.recoveryTime && IsDraw(draw)
    ensures var t := Transmitted(source, target, quarantines, p, draw, variationDraw);
      var infects := (target.status == Healthy || target.status == Recovered) && !target.isBeingCollected
        && WithinRadius(source.x - target.x, source.y - target.y, p.infectionDistance)
        && draw < InfectionProbability(source, target, quarantines, p);
      && (infects ==>
            && t.status == Infected && t.infectedSince == Some(0.0) && t.infectionStage == Some(Incubation)
            && t.immunity == target.immunity && t.x == target.x && t.y == target.y
            && t == NewlyInfected(target, p, variationDraw))
      && (!infects ==> t == target)
      && WellFormed(t)
  {
    if target.status == Infected {
      assert InfectionProbability(source, target, quarantines, p) == 0.0;
    }
  }

  /** The probability for a recovered target stays within [0, 0.05], before the multipliers. */
  lemma RecoveredProbabilityCapped(target: PersonState, p: Params)
    requires WellFormed(target) && target.status == Recovered
    requires 0.0 <= p.recoveryTime && 0.0 <= p.reinfectionRate
    ensures 0.0 <= BaseProbability(target, p) <= 0.05
  {
    var growth := 1.0 + p.recoveryTime * 0.2 / 1000.0;
    var immunityFactor := target.immunity * growth;
    MulLeftMonotone(target.immunity, 1.0, growth);
    assert 0.0 < immunityFactor;
    var numerator := p.reinfectionRate * 0.1;
    assert 0.0 <= numerator / immunityFactor;
  }

  /** An infected source never re-infects itself: it meets itself as an infected target. */
  lemma SelfUnaffected(source: PersonState, quarantines: seq<Zone>, p: Params, draw: real, variationDraw: real)
    requires WellFormed(source) && source.status == Infected && 0.0 <= p.recoveryTime && IsDraw(draw)
    ensures Transmitted(source, source, quarantines, p, draw, variationDraw) == source
  {
    TransmissionRule(source, source, quarantines, p, draw, variationDraw);
  }

  /**
   * `tryInfectOthers` over the population: nothing happens unless the source is
   * in progression; every target stays well formed, keeps its identity and its
   * collection flag, and the deceased and the already infected are untouched.
   */
  lemma InfectAllRule(source: PersonState, ss: seq<PersonState>, quarantines: seq<Zone>, p: Params, draws: seq<real>, variations: seq<real>)
    requires |draws| == |ss| && |variations| == |ss|
    requires AllWellFormed(ss) && 0.0 <= p.recoveryTime
    requires forall k :: 0 <= k < |draws| ==> IsDraw(draws[k])
    ensures var r := InfectAll(source, ss, quarantines, p, draws, variations);
      && |r| == |ss|
      && (source.infectionStage != Some(Progression) ==> r == ss)
      && AllWellFormed(r)
      && forall k :: 0 <= k < |ss| ==>
           && r[k].id == ss[k].id && r[k].isBeingCollected == ss[k].isBeingCollected
           && (ss[k].status == Deceased || ss[k].status == Infected ==> r[k] == ss[k])
           && (r[k] != ss[k] ==> r[k].status == Infected)
  {
    if source.infectionStage == Some(Progression) {
      forall k | 0 <= k < |ss|
        ensures var t := Transmitted(source, ss[k], quarantines, p, draws[k], variations[k]);
          && WellFormed(t) && t.id == ss[k].id && t.isBeingCollected == ss[k].isBeingCollected
          && (ss[k].status == Deceased || ss[k].status == Infected ==> t == ss[k])
          && (t != ss[k] ==> t.status == Infected)
      {
        TransmissionRule(source, ss[k], quarantines, p, draws[k], variations[k]);
      }
    }
  }

  /** Something that happens to one person in a tick: its own `move`, or an infection attempt on it. */
  datatype Event =
    | Step(pharmacies: seq<Zone>, quarantines: seq<Zone>, p: Params, deltaTime: real, draw: real)
    | Exposure(source: PersonState, quarantines: seq<Zone>, p: Params, draw: real, variationDraw: real)

  predicate ValidEvent(e: Event) {
    e.Exposure? ==> 0.0 <= e.p.recoveryTime && IsDraw(e.draw)
  }

  /** A person's history: the final state and how many times the death callback was called. */
  function Replay(s: PersonState, events: seq<Event>): (r: (PersonState, nat))
    requires WellFormed(s)
    requires forall k :: 0 <= k < |events| ==> ValidEvent(events[k])
    decreases |events|
  {
    if events == [] then (s, 0)
    else
      var e := events[0];
      assert ValidEvent(e);
      match e
      case Step(pharmacies, quarantines, p, deltaTime, draw) =>
        var o := AfterMove(s, pharmacies, quarantines, p, deltaTime, draw);
        MoveKeepsWellFormed(s, pharmacies, quarantines, p, deltaTime, draw);
        var rest := Replay(o.next, events[1..]);
        (rest.0, rest.1 + if o.died then 1 else 0)
      case Exposure(source, quarantines, p, draw, variationDraw) =>
        TransmissionRule(source, s, quarantines, p, draw, variationDraw);
        Replay(Transmitted(source, s, quarantines, p, draw, variationDraw), events[1..])
  }

  /** A deceased person stays deceased and never reports a death again. */
  lemma {:induction false} DeceasedIsTerminal(s: PersonState, events: seq<Event>)
    requires WellFormed(s) && s.status == Deceased
    requires forall k :: 0 <= k < |events| ==> ValidEvent(events[k])
    ensures Replay(s, events) == (s, 0)
    decreases |events|
  {
    if events != [] {
      match events[0]
      case Step(pharmacies, quarantines, p, deltaTime, draw) =>
        MoveFrozen(s, pharmacies, quarantines, p, deltaTime, draw);
        DeceasedIsTerminal(s, events[1..]);
      case Exposure(source, quarantines, p, draw, variationDraw) =>
        DeceasedIsTerminal(s, events[1..]);
    }
  }

  /**
   * Over any history of moves and infection attempts the death callback is
   * called at most once, and only for a person that ends deceased.
   */
  lemma {:induction false} DeathReportedAtMostOnce(s: PersonState, events: seq<Event>)
    requires WellFormed(s)
    requires forall k :: 0 <= k < |events| ==> ValidEvent(events[k])
    ensures Replay(s, events).1 <= 1
    ensures Replay(s, events).1 == 1 ==> Replay(s, events).0.status == Deceased
    decreases |events|
  {
    if events != [] {
      match events[0]
      case Step(pharmacies, quarantines, p, deltaTime, draw) =>
        var o := AfterMove(s, pharmacies, quarantines, p, deltaTime, draw);
        MoveKeepsWellFormed(s, pharmacies, quarantines, p, deltaTime, draw);
        if o.died {
          DeceasedIsTerminal(o.next, events[1..]);
        } else {
          DeathReportedAtMostOnce(o.next, events[1..]);
        }
      case Exposure(source, quarantines, p, draw, variationDraw) =>
        assert ValidEvent(events[0]);
        TransmissionRule(source, s, quarantines, p, draw, variationDraw);
        DeathReportedAtMostOnce(Transmitted(source, s, quarantines, p, draw, variationDraw), events[1..]);
    }
  }
}
