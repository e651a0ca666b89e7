/**
 * The agent of the simulation, `Person`: position and velocity, health status,
 * disease stage and timer, zone flags, and the transmission it attempts on the
 * others. Each method of the class is specified by a function on
 * `PersonState`, a snapshot of the fields; the properties of those functions
 * are proved in module AgentProperties.
 */
module Agent {
  import opened Config
  import opened Zones

  datatype Status = Healthy | Infected | Recovered | Deceased

  datatype Stage = Incubation | Progression | Recovery

  /** The fields of a `Person` that some decision reads or writes. */
  datatype PersonState = PersonState(
    id: int,
    x: real,
    y: real,
    dx: real,
    dy: real,
    status: Status,
    infectedSince: Option<real>,
    infectionStage: Option<Stage>,
    inPharmacy: bool,
    inQuarantine: bool,
    isBeingCollected: bool,
    immunity: real,
    hasComorbidities: bool,
    isSuperSpreader: bool,
    personalRecoveryTime: real)

  /**
   * What the health fields of every person satisfy: the disease timer is set
   * exactly while infected, a stage is only recorded while infected, and the
   * immunity stays in [0.5, 1].
   */
  predicate WellFormed(s: PersonState) {
    && (s.status == Infected <==> s.infectedSince.Some?)
    && (s.infectionStage.Some? ==> s.status == Infected)
    && 0.5 <= s.immunity <= 1.0
  }

  predicate AllWellFormed(ss: seq<PersonState>) {
    forall k :: 0 <= k < |ss| ==> WellFormed(ss[k])
  }

  /** The new state after an operation, and whether it called the death callback. */
  datatype Outcome = Outcome(next: PersonState, died: bool)

  /** The `Math.random()` results the constructor consumes, in the order it consumes them. */
  datatype PersonDraws = PersonDraws(
    dx: real, dy: real, immunity: real, comorbidity: real, superSpreader: real, variation: real)

  predicate ValidDraws(d: PersonDraws) {
    IsDraw(d.dx) && IsDraw(d.dy) && IsDraw(d.immunity) && IsDraw(d.comorbidity)
    && IsDraw(d.superSpreader) && IsDraw(d.variation)
  }

  /** `calculatePersonalRecoveryTime` with its random draw `r`. */
  function PersonalRecoveryTime(p: Params, hasComorbidities: bool, inPharmacy: bool, r: real): real {
    var variation := p.minRecoveryVariation + r * (p.maxRecoveryVariation - p.minRecoveryVariation);
    var personalTime := p.recoveryTime * variation * 2.0;
    var withComorbidities := if hasComorbidities then personalTime * 1.5 else personalTime;
    if inPharmacy then withComorbidities * 0.8 else withComorbidities
  }

  /** The state the constructor builds. */
  function Created(id: int, x: real, y: real, status: Status, p: Params, d: PersonDraws): PersonState {
    var hasComorbidities := d.comorbidity < 0.2;
    PersonState(
      id, x, y, (d.dx - 0.5) * 2.0, (d.dy - 0.5) * 2.0, status,
      if status == Infected then Some(0.0) else None,
      if status == Infected then Some(Incubation) else None,
      false, false, false,
      d.immunity * 0.5 + 0.5, hasComorbidities, d.superSpreader < 0.1,
      PersonalRecoveryTime(p, hasComorbidities, false, d.variation))
  }

  /** `checkZones`: recompute both zone flags from the current position. */
  function ZonesChecked(s: PersonState, pharmacies: seq<Zone>, quarantines: seq<Zone>, p: Params): PersonState {
    s.(inPharmacy := AnyContains(pharmacies, s.x, s.y, p.pharmacyRadius),
       inQuarantine := AnyContains(quarantines, s.x, s.y, p.quarantineRadius))
  }

  /** The stage `processInfection` records for the timer value `since`. */
  function StageAt(since: real, personalRecoveryTime: real, p: Params): Stage {
    var incubationPeriod := personalRecoveryTime * p.incubationPeriodRatio;
    var progressionPeriod := personalRecoveryTime * p.progressionPeriodRatio;
    if since < incubationPeriod then Incubation
    else if since < incubationPeriod + progressionPeriod then Progression
    else Recovery
  }

  /** How fast the disease timer runs; it never drops below 0.49 while the immunity is at most 1. */
  function SeverityFactor(immunity: real, hasComorbidities: bool, inPharmacy: bool): (f: real)
    ensures immunity <= 1.0 ==> f >= 0.49
  {
    var base := 1.7 - immunity;
    var withComorbidities := if hasComorbidities then base * 1.2 else base;
    if inPharmacy then withComorbidities * 0.7 else withComorbidities
  }

  /** The probability of death `finishTreatment` compares its draw against. */
  function DeathChance(s: PersonState, p: Params): real {
    var chance := p.mortalityRate * (2.0 - s.immunity);
    var withComorbidities := if s.hasComorbidities then chance * 2.0 else chance;
    var withPharmacy := if s.inPharmacy then withComorbidities * 0.3 else withComorbidities;
    if s.inQuarantine then withPharmacy * 0.8 else withPharmacy
  }

  /** `finishTreatment` with its random draw. */
  function TreatmentFinished(s: PersonState, p: Params, draw: real): Outcome {
    var cleared := s.(infectedSince := None, infectionStage := None);
    if draw < DeathChance(s, p) then Outcome(cleared.(status := Deceased), true)
    else Outcome(cleared.(status := Recovered, immunity := Min(1.0, s.immunity + 0.3)), false)
  }

  /** `processInfection` (without the contagiousness curve), with the draw `finishTreatment` may use. */
  function InfectionProcessed(s: PersonState, p: Params, deltaTime: real, draw: real): Outcome
    requires s.infectedSince.Some?
  {
    var since := s.infectedSince.value;
    var advanced := since + deltaTime * SeverityFactor(s.immunity, s.hasComorbidities, s.inPharmacy);
    var staged := s.(infectionStage := Some(StageAt(since, s.personalRecoveryTime, p)),
                     infectedSince := Some(advanced));
    if advanced >= s.personalRecoveryTime then TreatmentFinished(staged, p, draw)
    else Outcome(staged, false)
  }

  /** The speed multiplier of `processMovement`. */
  function SpeedFactor(s: PersonState): (f: real)
    ensures 0.35 <= f <= 1.0
  {
    var factor := if s.inQuarantine then 0.5 else 1.0;
    if s.status == Infected && s.infectionStage == Some(Progression) then factor * 0.7 else factor
  }

  /** `processMovement`: one step along the velocity, scaled to a 16 ms frame. */
  function Displaced(s: PersonState, deltaTime: real): PersonState {
    var frameSpeed := deltaTime / 16.0 * SpeedFactor(s);
    s.(x := s.x + s.dx * frameSpeed, y := s.y + s.dy * frameSpeed)
  }

  /**
   * One axis of `checkBoundaries`: outside [0, limit] the velocity component
   * is reversed and the coordinate clamped; inside, both are kept.
   */
  function Reflected(pos: real, vel: real, limit: real): (r: (real, real))
    ensures 0.0 <= limit ==> 0.0 <= r.0 <= limit
    ensures 0.0 <= pos <= limit ==> r == (pos, vel)
    ensures r.1 == vel || r.1 == -vel
    ensures (pos < 0.0 || pos > limit) ==> r.1 == -vel
  {
    if pos < 0.0 || pos > limit then (Max(0.0, Min(limit, pos)), -vel) else (pos, vel)
  }

  /** `checkBoundaries`. */
  function BoundariesChecked(s: PersonState, p: Params): PersonState {
    var (x, dx) := Reflected(s.x, s.dx, p.width);
    var (y, dy) := Reflected(s.y, s.dy, p.height);
    s.(x := x, dx := dx, y := y, dy := dy)
  }

  /** `move`: frozen when deceased or being collected; otherwise zones, disease, movement, boundaries. */
  function AfterMove(s: PersonState, pharmacies: seq<Zone>, quarantines: seq<Zone>, p: Params, deltaTime: real, draw: real): Outcome
    requires WellFormed(s)
  {
    if s.status == Deceased || s.isBeingCollected then Outcome(s, false)
    else
      var zoned := ZonesChecked(s, pharmacies, quarantines, p);
      var treated := if zoned.status == Infected then InfectionProcessed(zoned, p, deltaTime, draw) else Outcome(zoned, false);
      Outcome(BoundariesChecked(Displaced(treated.next, deltaTime), p), treated.died)
  }

  /** The base infection probability `tryInfectOthers` gives a target, by the target's status. */
  function BaseProbability(target: PersonState, p: Params): real
    requires WellFormed(target) && 0.0 <= p.recoveryTime
  {
    match target.status
    case Healthy => p.infectionRate
    case Recovered =>
      var timeSinceRecovery := p.recoveryTime * 0.2;
      var growth := 1.0 + timeSinceRecovery / 1000.0;
      var immunityFactor := target.immunity * growth;
      assert immunityFactor >= 0.5 by { assert immunityFactor >= 0.5 * growth; }
      Min(p.reinfectionRate * 0.1 / immunityFactor, 0.05)
    case _ => 0.0
  }

  /** The probability after the super-spreader and target-in-quarantine multipliers. */
  function InfectionProbability(source: PersonState, target: PersonState, quarantines: seq<Zone>, p: Params): real
    requires WellFormed(target) && 0.0 <= p.recoveryTime
  {
    var base := BaseProbability(target, p);
    var boosted := if source.isSuperSpreader then base * 3.0 else base;
    if AnyContains(quarantines, target.x, target.y, p.quarantineRadius) then boosted * p.quarantineInfectionReduction
    else boosted
  }

  /** A new infection: status, timer and stage are reset and the recovery time recomputed. */
  function NewlyInfected(s: PersonState, p: Params, variationDraw: real): PersonState {
    s.(status := Infected, infectedSince := Some(0.0), infectionStage := Some(Incubation),
       personalRecoveryTime := PersonalRecoveryTime(p, s.hasComorbidities, s.inPharmacy, variationDraw))
  }

  /** What one iteration of `tryInfectOthers` does to `target`, given the infection and variation draws. */
  function Transmitted(source: PersonState, target: PersonState, quarantines: seq<Zone>, p: Params, draw: real, variationDraw: real): PersonState
    requires WellFormed(target) && 0.0 <= p.recoveryTime
  {
    if target.status == Deceased || target.isBeingCollected then target
    else if WithinRadius(source.x - target.x, source.y - target.y, p.infectionDistance)
         && draw < InfectionProbability(source, target, quarantines, p)
    then NewlyInfected(target, p, variationDraw)
    else target
  }

  /** `tryInfectOthers` on the whole population: nothing unless the source is in progression. */
  function InfectAll(source: PersonState, ss: seq<PersonState>, quarantines: seq<Zone>, p: Params, draws: seq<real>, variations: seq<real>): seq<PersonState>
    requires |draws| == |ss| && |variations| == |ss|
    requires AllWellFormed(ss) && 0.0 <= p.recoveryTime
  {
    if source.infectionStage != Some(Progression) then ss
    else seq(|ss|, k requires 0 <= k < |ss| => Transmitted(source, ss[k], quarantines, p, draws[k], variations[k]))
  }

  class Person {
    const id: int
    var x: real
    var y: real
    var dx: real
    var dy: real
    var status: Status
    var infectedSince: Option<real>
    var infectionStage: Option<Stage>
    var inPharmacy: bool
    var inQuarantine: bool
    var isBeingCollected: bool
    var immunity: real
    const hasComorbidities: bool
    const isSuperSpreader: bool
    var personalRecoveryTime: real

    function State(): PersonState
      reads this
    {
      PersonState(id, x, y, dx, dy, status, infectedSince, infectionStage, inPharmacy, inQuarantine,
                  isBeingCollected, immunity, hasComorbidities, isSuperSpreader, personalRecoveryTime)
    }

    /** The state without the collection flag, which only the ambulances set; it reads every other field. */
    function Unflagged(): (s: PersonState)
      reads this`x, this`y, this`dx, this`dy, this`status, this`infectedSince, this`infectionStage
      reads this`inPharmacy, this`inQuarantine, this`immunity, this`personalRecoveryTime
      ensures s == State().(isBeingCollected := false)
    {
      PersonState(id, x, y, dx, dy, status, infectedSince, infectionStage, inPharmacy, inQuarantine,
                  false, immunity, hasComorbidities, isSuperSpreader, personalRecoveryTime)
    }

    constructor (id: int, x: real, y: real, status: Status, p: Params, d: PersonDraws)
      ensures State() == Created(id, x, y, status, p, d)
    {
      this.id := id;
      this.x := x;
      this.y := y;
      this.status := status;
      dx := (d.dx - 0.5) * 2.0;
      dy := (d.dy - 0.5) * 2.0;
      infectedSince := if status == Infected then Some(0.0) else None;
      infectionStage := if status == Infected then Some(Incubation) else None;
      inPharmacy := false;
      inQuarantine := false;
      isBeingCollected := false;
      immunity := d.immunity * 0.5 + 0.5;
      hasComorbidities := d.comorbidity < 0.2;
      isSuperSpreader := d.superSpreader < 0.1;
      personalRecoveryTime := PersonalRecoveryTime(p, d.comorbidity < 0.2, false, d.variation);
    }

    method CheckZones(pharmacies: seq<Zone>, quarantines: seq<Zone>, p: Params)
      modifies this`inPharmacy, this`inQuarantine
      ensures State() == ZonesChecked(old(State()), pharmacies, quarantines, p)
    {
      inPharmacy := AnyContains(pharmacies, x, y, p.pharmacyRadius);
      inQuarantine := AnyContains(quarantines, x, y, p.quarantineRadius);
    }

    method ProcessMovement(deltaTime: real)
      modifies this`x, this`y
      ensures State() == Displaced(old(State()), deltaTime)
    {
      var speedFactor := 1.0;
      if inQuarantine { speedFactor := 0.5; }
      if status == Infected && infectionStage == Some(Progression) { speedFactor := speedFactor * 0.7; }
      var frameSpeed := deltaTime / 16.0 * speedFactor;
      x := x + dx * frameSpeed;
      y := y + dy * frameSpeed;
    }

    method CheckBoundaries(p: Params)
      modifies this`x, this`y, this`dx, this`dy
      ensures State() == BoundariesChecked(old(State()), p)
    {
      if x < 0.0 || x > p.width {
        dx := -dx;
        x := Max(0.0, Min(p.width, x));
      }
      if y < 0.0 || y > p.height {
        dy := -dy;
        y := Max(0.0, Min(p.height, y));
      }
    }

    /** Returns whether the death callback was called. */
    method FinishTreatment(p: Params, draw: real) returns (died: bool)
      modifies this`status, this`immunity, this`infectedSince, this`infectionStage
      ensures Outcome(State(), died) == TreatmentFinished(old(State()), p, draw)
    {
      var deathChance := DeathChance(State(), p);
      if draw < deathChance {
        status := Deceased;
        died := true;
      } else {
        status := Recovered;
        immunity := Min(1.0, immunity + 0.3);
        died := false;
      }
      infectedSince := None;
      infectionStage := None;
    }

    method ProcessInfection(p: Params, deltaTime: real, draw: real) returns (died: bool)
      requires infectedSince.Some?
      modifies this`status, this`immunity, this`infectedSince, this`infectionStage
      ensures Outcome(State(), died) == InfectionProcessed(old(State()), p, deltaTime, draw)
    {
      infectionStage := Some(StageAt(infectedSince.value, personalRecoveryTime, p));
      var severityFactor := SeverityFactor(immunity, hasComorbidities, inPharmacy);
      infectedSince := Some(infectedSince.value + deltaTime * severityFactor);
      died := false;
      if infectedSince.value >= personalRecoveryTime {
        died := FinishTreatment(p, draw);
      }
    }

    /** Returns whether the death callback was called during this move. */
    method Move(pharmacies: seq<Zone>, quarantines: seq<Zone>, p: Params, deltaTime: real, draw: real) returns (died: bool)
      requires WellFormed(State())
      modifies this
      ensures Outcome(State(), died) == AfterMove(old(State()), pharmacies, quarantines, p, deltaTime, draw)
    {
      died := false;
      if status == Deceased || isBeingCollected {
        return;
      }
      CheckZones(pharmacies, quarantines, p);
      if status == Infected {
        died := ProcessInfection(p, deltaTime, draw);
      }
      ProcessMovement(deltaTime);
      CheckBoundaries(p);
    }

    /**
     * The infection attempts of this person on everyone in `people` (itself
     * included), with one infection draw and one recovery-time draw per target.
     */
    method TryInfectOthers(people: seq<Person>, quarantines: seq<Zone>, p: Params, draws: seq<real>, variations: seq<real>)
      requires Distinct(people)
      requires |draws| == |people| && |variations| == |people|
      requires forall k :: 0 <= k < |draws| ==> IsDraw(draws[k])
      requires AllWellFormed(States(people))
      requires 0.0 <= p.recoveryTime
      modifies people
      ensures States(people) == InfectAll(old(State()), old(States(people)), quarantines, p, draws, variations)
      ensures State() == old(State())
    {
      var source := State();
      DistinctPairs(people);
      if infectionStage != Some(Progression) {
        return;
      }
      var i := 0;
      while i < |people|
        invariant 0 <= i <= |people|
        invariant forall k :: 0 <= k < i ==>
          people[k].State() == Transmitted(source, old(people[k].State()), quarantines, p, draws[k], variations[k])
        invariant forall k :: i <= k < |people| ==> people[k].State() == old(people[k].State())
        invariant State() == source
      {
        var other := people[i];
        ghost var before := other.State();
        if other.status != Deceased && !other.isBeingCollected {
          var probability := InfectionProbability(source, other.State(), quarantines, p);
          assert other == this ==> probability == 0.0;
          if WithinRadius(x - other.x, y - other.y, p.infectionDistance) && draws[i] < probability {
            other.BecomeInfected(p, variations[i]);
          }
        }
        assert other.State() == Transmitted(source, before, quarantines, p, draws[i], variations[i]);
        i := i + 1;
      }
    }

    /** The assignments of a successful transmission in `tryInfectOthers`. */
    method BecomeInfected(p: Params, variationDraw: real)
      modifies this`status, this`infectedSince, this`infectionStage, this`personalRecoveryTime
      ensures State() == NewlyInfected(old(State()), p, variationDraw)
    {
      status := Infected;
      infectedSince := Some(0.0);
      infectionStage := Some(Incubation);
      personalRecoveryTime := PersonalRecoveryTime(p, hasComorbidities, inPharmacy, variationDraw);
    }
  }

  /** The states of a list of persons, in order. */
  function States(people: seq<Person>): (ss: seq<PersonState>)
    reads people
    ensures |ss| == |people|
    ensures forall k :: 0 <= k < |people| ==> ss[k] == people[k].State()
  {
    seq(|people|, k reads people requires 0 <= k < |people| => people[k].State())
  }

  /** The states of a list of persons without their collection flags. */
  function Unflaggeds(people: seq<Person>): (us: seq<PersonState>)
    reads people`x, people`y, people`dx, people`dy, people`status, people`infectedSince, people`infectionStage
    reads people`inPharmacy, people`inQuarantine, people`immunity, people`personalRecoveryTime
    ensures |us| == |people|
    ensures forall k {:trigger us[k]} :: 0 <= k < |people| ==> us[k] == people[k].Unflagged()
  {
    if people == [] then [] else [people[0].Unflagged()] + Unflaggeds(people[1..])
  }
}
