/**
 * The per-tick driver of the application component: building the population,
 * the scaled frame delta, the order of the per-person `move` and
 * `tryInfectOthers` calls followed by the morgue updates, and the status
 * counters. React state and refs are plain fields of a `Simulation` object,
 * and each method is specified by a function on the persons' states.
 */
module App {
  import opened Config
  import opened Zones
  import opened Agent
  import opened AgentProperties
  import opened Population
  import opened Mortuary

  /** The counters `updateStats` publishes. */
  datatype Stats = Stats(
    healthy: nat,
    infected: nat,
    recovered: nat,
    deceased: int,
    inPharmacy: nat,
    inQuarantine: nat,
    contagious: nat)

  /** A person in the contagious stage: infected and in progression. */
  predicate Contagious(s: PersonState) {
    s.status == Infected && s.infectionStage == Some(Progression)
  }

  /** What one counter of `updateStats` counts. */
  datatype Bucket = OfStatus(st: Status) | InPharmacy | InQuarantine | IsContagious

  predicate InBucket(s: PersonState, b: Bucket) {
    match b
    case OfStatus(st) => s.status == st
    case InPharmacy => s.inPharmacy
    case InQuarantine => s.inQuarantine
    case IsContagious => Contagious(s)
  }

  /** How many of the states fall in the bucket. */
  function Count(ss: seq<PersonState>, b: Bucket): (c: nat)
    ensures c <= |ss|
  {
    if ss == [] then 0
    else Count(ss[..|ss| - 1], b) + (if InBucket(ss[|ss| - 1], b) then 1 else 0)
  }

  /** The counters after one iteration of the counting `forEach`. */
  function Counted(t: Stats, s: PersonState): Stats {
    var byStatus :=
      match s.status
      case Healthy => t.(healthy := t.healthy + 1)
      case Infected => t.(infected := t.infected + 1)
      case Recovered => t.(recovered := t.recovered + 1)
      case Deceased => t.(deceased := t.deceased + 1);
    var withPharmacy := if s.inPharmacy then byStatus.(inPharmacy := byStatus.inPharmacy + 1) else byStatus;
    var withQuarantine := if s.inQuarantine then withPharmacy.(inQuarantine := withPharmacy.inQuarantine + 1) else withPharmacy;
    if Contagious(s) then withQuarantine.(contagious := withQuarantine.contagious + 1) else withQuarantine
  }

  /** The counters `updateStats` computes over `ss`, starting `deceased` from the prior counter. */
  function Tally(ss: seq<PersonState>, deceased: int): Stats {
    if ss == [] then Stats(0, 0, 0, deceased, 0, 0, 0)
    else Counted(Tally(ss[..|ss| - 1], deceased), ss[|ss| - 1])
  }

  /** The `Math.random()` results one person's turn of the tick consumes. */
  datatype TurnDraws = TurnDraws(move: real, infect: seq<real>, variation: seq<real>)

  /** Draws for a turn in a population of `n`: one transmission draw and one recovery-time draw per target. */
  predicate ValidTurn(d: TurnDraws, n: nat) {
    && IsDraw(d.move)
    && |d.infect| == n && |d.variation| == n
    && forall j :: 0 <= j < n ==> IsDraw(d.infect[j]) && IsDraw(d.variation[j])
  }

  predicate ValidTurns(draws: seq<TurnDraws>, n: nat) {
    |draws| == n && forall k :: 0 <= k < n ==> ValidTurn(draws[k], n)
  }

  /**
   * The turn of person `k`: its `move`, then, if it is infected afterwards, its
   * `tryInfectOthers` on the whole population. Returns the new states and
   * whether the death callback fired.
   */
  function AfterTurn(ss: seq<PersonState>, k: nat, pharmacies: seq<Zone>, quarantines: seq<Zone>, p: Params,
                     deltaTime: real, d: TurnDraws): (r: (seq<PersonState>, bool))
    requires k < |ss| && AllWellFormed(ss) && 0.0 <= p.recoveryTime && ValidTurn(d, |ss|)
    ensures |r.0| == |ss| && AllWellFormed(r.0)
  {
    var o := AfterMove(ss[k], pharmacies, quarantines, p, deltaTime, d.move);
    MoveKeepsWellFormed(ss[k], pharmacies, quarantines, p, deltaTime, d.move);
    var moved := ss[k := o.next];
    if o.next.status == Infected then
      InfectAllRule(o.next, moved, quarantines, p, d.infect, d.variation);
      (InfectAll(o.next, moved, quarantines, p, d.infect, d.variation), o.died)
    else (moved, o.died)
  }

  /** The first `n` turns of a tick, in array order; returns the states and the number of deaths reported. */
  function AfterTurns(ss: seq<PersonState>, n: nat, pharmacies: seq<Zone>, quarantines: seq<Zone>, p: Params,
                      deltaTime: real, draws: seq<TurnDraws>): (r: (seq<PersonState>, nat))
    requires n <= |ss| && AllWellFormed(ss) && 0.0 <= p.recoveryTime && ValidTurns(draws, |ss|)
    ensures |r.0| == |ss| && AllWellFormed(r.0)
  {
    if n == 0 then (ss, 0)
    else
      var prev := AfterTurns(ss, n - 1, pharmacies, quarantines, p, deltaTime, draws);
      var t := AfterTurn(prev.0, n - 1, pharmacies, quarantines, p, deltaTime, draws[n - 1]);
      (t.0, prev.1 + if t.1 then 1 else 0)
  }

  /** One more turn extends the turns taken so far. */
  lemma AfterTurnsStep(ss: seq<PersonState>, n: nat, pharmacies: seq<Zone>, quarantines: seq<Zone>, p: Params,
                       deltaTime: real, draws: seq<TurnDraws>)
    requires n < |ss| && AllWellFormed(ss) && 0.0 <= p.recoveryTime && ValidTurns(draws, |ss|)
    ensures var done := AfterTurns(ss, n, pharmacies, quarantines, p, deltaTime, draws);
      var turn := AfterTurn(done.0, n, pharmacies, quarantines, p, deltaTime, draws[n]);
      AfterTurns(ss, n + 1, pharmacies, quarantines, p, deltaTime, draws) == (turn.0, done.1 + if turn.1 then 1 else 0)
  {
  }

  /**
   * The `deltaTime` of `gameLoop`, already scaled: the time since the last
   * frame, where a zero (falsy) last time means the first frame, times
   * `simulationSpeed / 60`.
   */
  function ScaledDelta(last: real, timestamp: real, simulationSpeed: real): real {
    var previous := if last == 0.0 then timestamp else last;
    (timestamp - previous) * (simulationSpeed / 60.0)
  }

  /** The ambulance lists of the morgues, as values. */
  function Fleets(morgues: seq<Morgue>): (fs: seq<seq<Ambulance>>)
    reads morgues
    ensures |fs| == |morgues|
    ensures forall k {:trigger fs[k]} :: 0 <= k < |morgues| ==> fs[k] == morgues[k].ambulances
  {
    seq(|morgues|, k reads morgues requires 0 <= k < |morgues| => morgues[k].ambulances)
  }

  /** The ambulances of all the morgues. */
  function AllAmbulances(fs: seq<seq<Ambulance>>): set<Ambulance> {
    set k, a | 0 <= k < |fs| && a in fs[k] :: a
  }

  /** The corpses the ambulances of all the morgues are sent to. */
  function AllTargets(fs: seq<seq<Ambulance>>): set<Person> {
    set k, a | 0 <= k < |fs| && a in fs[k] :: a.target
  }

  /** The ambulances of one morgue, and their corpses, are among those of all the morgues. */
  lemma InFleets(fs: seq<seq<Ambulance>>, j: nat)
    requires j < |fs|
    ensures forall a :: a in fs[j] ==> a in AllAmbulances(fs)
    ensures forall q :: q in Targets(fs[j]) ==> q in AllTargets(fs)
  {
    forall q | q in Targets(fs[j])
      ensures q in AllTargets(fs)
    {
      var i :| 0 <= i < |fs[j]| && Targets(fs[j])[i] == q;
      assert fs[j][i] in fs[j];
    }
  }

  /** A sub-multiset of a list without repetitions has no repetitions. */
  lemma DistinctWithin<T>(a: seq<T>, b: seq<T>)
    requires multiset(a) <= multiset(b) && Distinct(b)
    ensures Distinct(a)
  {
    forall i, j | 0 <= i < j < |a|
      ensures a[i] != a[j]
    {
      if a[i] == a[j] {
        assert multiset{a[i], a[j]} <= multiset(a) by {
          assert a == a[..i] + [a[i]] + a[i + 1..j] + [a[j]] + a[j + 1..];
        }
        OnceInDistinct(b, a[i]);
      }
    }
    PairwiseDistinct(a);
  }

  /** An element of a list without repetitions occurs once in it. */
  lemma {:induction false} OnceInDistinct<T>(s: seq<T>, t: T)
    requires Distinct(s)
    ensures multiset(s)[t] <= 1
  {
    if s != [] {
      assert s == [s[0]] + s[1..];
      DistinctPairs(s);
      PairwiseDistinct(s[1..]);
      OnceInDistinct(s[1..], t);
      if s[0] == t {
        assert t !in s[1..];
      }
    }
  }

  /** One entry per person: the draws for the constructor and the two position draws. */
  datatype PersonSetup = PersonSetup(x: real, y: real, draws: PersonDraws)

  predicate ValidSetup(s: PersonSetup) {
    IsDraw(s.x) && IsDraw(s.y) && ValidDraws(s.draws)
  }

  /** The person `initSimulation` builds at index `i`. */
  function Built(i: nat, p: Params, s: PersonSetup): PersonState {
    Created(i, s.x * p.width, s.y * p.height, if i < p.initialInfected then Infected else Healthy, p, s.draws)
  }

  /** `Array.from({ length: population }, ...)` in `initSimulation`: one new person per setup, with id its index. */
  method Populate(p: Params, setups: seq<PersonSetup>) returns (items: seq<Person>)
    requires forall k :: 0 <= k < |setups| ==> ValidSetup(setups[k])
    ensures |items| == |setups| && Distinct(items)
    ensures forall k :: 0 <= k < |setups| ==> fresh(items[k]) && items[k].State() == Built(k, p, setups[k])
  {
    items := [];
    var i := 0;
    while i != |setups|
      invariant 0 <= i <= |setups| && |items| == i && Distinct(items)
      invariant forall k :: 0 <= k < i ==> fresh(items[k]) && items[k].State() == Built(k, p, setups[k])
    {
      var status := if i < p.initialInfected then Infected else Healthy;
      var person := new Person(i, setups[i].x * p.width, setups[i].y * p.height, status, p, setups[i].draws);
      DistinctSnoc(items, person);
      items := items + [person];
      i := i + 1;
    }
  }

  /** The persons `initSimulation` builds are well formed. */
  lemma BuiltWellFormed(p: Params, setups: seq<PersonSetup>, ss: seq<PersonState>)
    requires forall k :: 0 <= k < |setups| ==> ValidSetup(setups[k])
    requires |ss| == |setups| && forall k :: 0 <= k < |ss| ==> ss[k] == Built(k, p, setups[k])
    ensures AllWellFormed(ss)
  {
    forall k | 0 <= k < |ss|
      ensures WellFormed(ss[k])
    {
      var status := if k < p.initialInfected then Infected else Healthy;
      CreatedWellFormed(k, setups[k].x * p.width, setups[k].y * p.height, status, p, setups[k].draws);
    }
  }

  /** The two `Math.random()` draws that place a pharmacy, a quarantine or a morgue. */
  datatype Site = Site(x: real, y: real)

  predicate ValidSites(sites: seq<Site>) {
    forall k :: 0 <= k < |sites| ==> IsDraw(sites[k].x) && IsDraw(sites[k].y)
  }

  /** The zones `Array.from({ length: count }, ...)` places, one per site, scaled to the arena. */
  function PlacedZones(p: Params, sites: seq<Site>): (zones: seq<Zone>)
    ensures |zones| == |sites|
    ensures forall k :: 0 <= k < |sites| ==> zones[k] == Zone(sites[k].x * p.width, sites[k].y * p.height)
  {
    seq(|sites|, k requires 0 <= k < |sites| => Zone(sites[k].x * p.width, sites[k].y * p.height))
  }

  /** The morgue `new Morgue(i, ...)` builds at index `i` from its site: no ambulance, never dispatched. */
  ghost predicate IsPlacedMorgue(m: Morgue, i: nat, p: Params, s: Site)
    reads m
  {
    && m.id == i && m.x == s.x * p.width && m.y == s.y * p.height
    && m.ambulances == [] && m.lastAmbulanceTime == 0.0 && m.ambulanceCooldown == p.morgueCollectionInterval
    && m.Valid()
  }

  /** The morgue part of `initObjects`: one new morgue per site, with id its index. */
  method PlaceMorgues(p: Params, sites: seq<Site>) returns (morgues: seq<Morgue>)
    ensures |morgues| == |sites| && Distinct(morgues)
    ensures forall k :: 0 <= k < |sites| ==> fresh(morgues[k]) && IsPlacedMorgue(morgues[k], k, p, sites[k])
  {
    morgues := [];
    var i := 0;
    while i != |sites|
      invariant 0 <= i <= |sites| && |morgues| == i && Distinct(morgues)
      invariant forall k :: 0 <= k < i ==> fresh(morgues[k]) && IsPlacedMorgue(morgues[k], k, p, sites[k])
    {
      var morgue := new Morgue(i, sites[i].x * p.width, sites[i].y * p.height, p);
      DistinctSnoc(morgues, morgue);
      morgues := morgues + [morgue];
      i := i + 1;
    }
  }

  /** The application state: the population, the zones, the morgues, the counters and the frame clock. */
  class Simulation {
    /** `peopleRef`: its `items` are the array in `peopleRef.current`. */
    const people: PersonList
    var pharmacies: seq<Zone>
    var quarantines: seq<Zone>
    var morgues: seq<Morgue>
    var stats: Stats
    var lastUpdateTime: real
    var running: bool

    /**
     * The population holds distinct, well-formed persons; every morgue holds
     * distinct ambulances, and no ambulance belongs to two morgues.
     */
    predicate Valid()
      reads this`morgues, people, people.items, morgues
    {
      && Distinct(people.items) && AllWellFormed(States(people.items))
      && Distinct(morgues) && Separate(Fleets(morgues)) && forall k :: 0 <= k < |morgues| ==> morgues[k].Valid()
    }

    /** The refs as the component first renders: no zone, no morgue, no person, counters zero. */
    constructor ()
      ensures Valid()
      ensures pharmacies == [] && quarantines == [] && morgues == []
      ensures fresh(people) && people.items == []
      ensures stats == Stats(0, 0, 0, 0, 0, 0, 0) && lastUpdateTime == 0.0 && !running
    {
      pharmacies := [];
      quarantines := [];
      morgues := [];
      people := new PersonList([]);
      stats := Stats(0, 0, 0, 0, 0, 0, 0);
      lastUpdateTime := 0.0;
      running := false;
    }

    /** `startSimulation`: running, with the frame clock reset. */
    method Start()
      modifies this`running, this`lastUpdateTime
      ensures old(running) ==> running && lastUpdateTime == old(lastUpdateTime)
      ensures !old(running) ==> running && lastUpdateTime == 0.0
    {
      if !running {
        running := true;
        lastUpdateTime := 0.0;
      }
    }

    /** `stopSimulation`. */
    method Stop()
      modifies this`running
      ensures !running
    {
      running := false;
    }

    /**
     * `initObjects`: `pharmacyCount` pharmacies, `quarantineCount`
     * quarantines and `morgueCount` new morgues, each placed by two draws
     * scaled to the arena; the morgues of before are dropped.
     */
    method InitObjects(p: Params, pharmacySites: seq<Site>, quarantineSites: seq<Site>, morgueSites: seq<Site>)
      requires |pharmacySites| == ArrayLength(p.pharmacyCount) && ValidSites(pharmacySites)
      requires |quarantineSites| == ArrayLength(p.quarantineCount) && ValidSites(quarantineSites)
      requires |morgueSites| == ArrayLength(p.morgueCount) && ValidSites(morgueSites)
      modifies this`pharmacies, this`quarantines, this`morgues
      ensures pharmacies == PlacedZones(p, pharmacySites) && quarantines == PlacedZones(p, quarantineSites)
      ensures |morgues| == |morgueSites| && Distinct(morgues)
      ensures forall k :: 0 <= k < |morgues| ==> fresh(morgues[k]) && IsPlacedMorgue(morgues[k], k, p, morgueSites[k])
    {
      pharmacies := PlacedZones(p, pharmacySites);
      quarantines := PlacedZones(p, quarantineSites);
      morgues := PlaceMorgues(p, morgueSites);
    }

    /**
     * `initSimulation`: `initObjects`, then `population` new persons, the
     * first `initialInfected` infected and the others healthy, placed by two
     * draws scaled to the arena; then `updateStats`.
     */
    method InitSimulation(p: Params, pharmacySites: seq<Site>, quarantineSites: seq<Site>, morgueSites: seq<Site>,
                          setups: seq<PersonSetup>)
      requires |pharmacySites| == ArrayLength(p.pharmacyCount) && ValidSites(pharmacySites)
      requires |quarantineSites| == ArrayLength(p.quarantineCount) && ValidSites(quarantineSites)
      requires |morgueSites| == ArrayLength(p.morgueCount) && ValidSites(morgueSites)
      requires |setups| == ArrayLength(p.population)
      requires forall k :: 0 <= k < |setups| ==> ValidSetup(setups[k])
      modifies this`pharmacies, this`quarantines, this`morgues, people`items, this`stats
      ensures Valid()
      ensures pharmacies == PlacedZones(p, pharmacySites) && quarantines == PlacedZones(p, quarantineSites)
      ensures |morgues| == |morgueSites|
      ensures forall k :: 0 <= k < |morgues| ==> fresh(morgues[k]) && IsPlacedMorgue(morgues[k], k, p, morgueSites[k])
      ensures |people.items| == |setups|
      ensures forall k :: 0 <= k < |setups| ==> fresh(people.items[k]) && people.items[k].State() == Built(k, p, setups[k])
      ensures stats == Tally(States(people.items), old(stats.deceased))
    {
      InitObjects(p, pharmacySites, quarantineSites, morgueSites);
      var items := Populate(p, setups);
      BuiltWellFormed(p, setups, States(items));
      people.items := items;
      UpdateStats(stats.deceased);
    }

    /**
     * `updateStats`: one pass over the population, each person counted once
     * per counter it belongs to; `deceased` is the deceased counter the
     * callbacks left, which the pass starts from. It writes nothing but the
     * counters.
     */
    method UpdateStats(deceased: int)
      requires Valid()
      modifies this`stats
      ensures Valid()
      ensures stats == Tally(States(people.items), deceased)
      ensures people.items == old(people.items) && States(people.items) == old(States(people.items))
      ensures Lasts(morgues) == old(Lasts(morgues)) && Fleets(morgues) == old(Fleets(morgues))
      ensures unchanged(morgues, AllAmbulances(Fleets(morgues)), AllTargets(Fleets(morgues)))
    {
      ghost var ss := States(people.items);
      var items := people.items;
      var t := Stats(0, 0, 0, deceased, 0, 0, 0);
      var i := 0;
      while i != |items|
        invariant 0 <= i <= |items|
        invariant t == Tally(ss[..i], deceased)
      {
        assert ss[..i + 1][..i] == ss[..i];
        t := CountPerson(t, items[i]);
        i := i + 1;
      }
      assert ss[..i] == ss;
      stats := t;
    }

    /** One iteration of the counting `forEach` in `updateStats`. */
    static method CountPerson(t: Stats, person: Person) returns (u: Stats)
      ensures u == Counted(t, person.State())
    {
      u := t;
      match person.status {
        case Healthy => u := u.(healthy := u.healthy + 1);
        case Infected => u := u.(infected := u.infected + 1);
        case Recovered => u := u.(recovered := u.recovered + 1);
        case Deceased => u := u.(deceased := u.deceased + 1);
      }
      if person.inPharmacy {
        u := u.(inPharmacy := u.inPharmacy + 1);
      }
      if person.inQuarantine {
        u := u.(inQuarantine := u.inQuarantine + 1);
      }
      if person.status == Infected && person.infectionStage == Some(Progression) {
        u := u.(contagious := u.contagious + 1);
      }
    }

    /**
     * `updateSimulation(deltaTime, currentTime)`: every person's turn, then
     * every morgue's update, then `updateStats`. Returns the deaths and the
     * burials the callbacks reported. The ghost parameters name the state on
     * entry: the population `before`, its states `ss`, the deceased counter,
     * the morgues `ms` and what they hold, `hs`.
     */
    method UpdateSimulation(deltaTime: real, currentTime: real, p: Params, draws: seq<TurnDraws>, picks: seq<real>, advance: Advance,
                            ghost before: seq<Person>, ghost ss: seq<PersonState>, ghost deceased: int,
                            ghost ms: seq<Morgue>, ghost hs: seq<Holding>)
      returns (deaths: nat, burials: nat, ghost counter: int, ghost rounds: seq<Round>)
      requires Valid() && 0.0 <= p.recoveryTime && ValidTurns(draws, |people.items|)
      requires ms == morgues && hs == Holdings(ms) && before == people.items && ss == States(before) && deceased == stats.deceased
      requires |picks| == |ms| && forall k :: 0 <= k < |picks| ==> IsDraw(picks[k])
      modifies people.items, this`stats, ms, AllAmbulances(Fleets(ms)), AllTargets(Fleets(ms))`isBeingCollected, people`items
      ensures Valid()
      ensures deaths == AfterTurns(ss, |ss|, pharmacies, quarantines, p, deltaTime, draws).1
      ensures MorgueLoop(before, AfterTurns(ss, |ss|, pharmacies, quarantines, p, deltaTime, draws).0,
                         people.items, States(people.items), rounds, burials)
      ensures Updates(ms, hs, before, AfterTurns(ss, |ss|, pharmacies, quarantines, p, deltaTime, draws).0,
                      rounds, currentTime, picks, p.morgueCollectionSpeed, advance)
      ensures Ended(ms, hs, rounds)
      ensures |ms| == 0 ==> (burials == 0 &&
        States(people.items) == AfterTurns(ss, |ss|, pharmacies, quarantines, p, deltaTime, draws).0)
      ensures multiset(people.items) <= multiset(before)
      ensures |before| <= |people.items| + burials
      ensures counter == deceased + deaths - burials
      ensures stats == Tally(States(people.items), counter)
    {
      var prior := stats.deceased;
      deaths, burials, rounds := Tick(deltaTime, currentTime, p, draws, picks, advance, before, ss, ms, hs);
      var net := prior + deaths - burials;
      counter := net;
      UpdateStats(net);
    }

    /**
     * The two loops of `updateSimulation` before `updateStats`: every
     * person's turn, then every morgue's update. The deceased counter goes
     * up once per death callback and down once per `onBuried` call.
     * `ms` names the morgues and `hs` what they hold.
     */
    method Tick(deltaTime: real, currentTime: real, p: Params, draws: seq<TurnDraws>, picks: seq<real>, advance: Advance,
                ghost before: seq<Person>, ghost ss: seq<PersonState>, ghost ms: seq<Morgue>, ghost hs: seq<Holding>)
      returns (deaths: nat, burials: nat, ghost rounds: seq<Round>)
      requires Valid() && 0.0 <= p.recoveryTime && ValidTurns(draws, |people.items|)
      requires ms == morgues && hs == Holdings(ms) && before == people.items && ss == States(before)
      requires |picks| == |ms| && forall k :: 0 <= k < |picks| ==> IsDraw(picks[k])
      modifies people.items, ms, AllAmbulances(Fleets(ms)), AllTargets(Fleets(ms))`isBeingCollected, people`items
      ensures Valid()
      ensures deaths == AfterTurns(ss, |ss|, pharmacies, quarantines, p, deltaTime, draws).1
      ensures MorgueLoop(before, AfterTurns(ss, |ss|, pharmacies, quarantines, p, deltaTime, draws).0,
                         people.items, States(people.items), rounds, burials)
      ensures Updates(ms, hs, before, AfterTurns(ss, |ss|, pharmacies, quarantines, p, deltaTime, draws).0,
                      rounds, currentTime, picks, p.morgueCollectionSpeed, advance)
      ensures Ended(ms, hs, rounds)
      ensures |ms| == 0 ==> (burials == 0 &&
        States(people.items) == AfterTurns(ss, |ss|, pharmacies, quarantines, p, deltaTime, draws).0)
      ensures multiset(people.items) <= multiset(before)
      ensures |before| <= |people.items| + burials
      ensures morgues == ms
    {
      deaths := MovePeople(p, deltaTime, draws);
      assert Holdings(ms) == hs;
      burials, rounds := UpdateMorgues(currentTime, p, picks, advance);
    }

    /**
     * One frame of `gameLoop` at `timestamp`: nothing while stopped;
     * otherwise `Frame`.
     */
    method GameLoop(timestamp: real, p: Params, draws: seq<TurnDraws>, picks: seq<real>, advance: Advance,
                    ghost before: seq<Person>, ghost ss: seq<PersonState>, ghost deceased: int,
                    ghost ms: seq<Morgue>, ghost hs: seq<Holding>)
      returns (deltaTime: real, ghost deaths: nat, ghost burials: nat, ghost counter: int, ghost rounds: seq<Round>)
      requires Valid() && 0.0 <= p.recoveryTime && ValidTurns(draws, |people.items|)
      requires ms == morgues && hs == Holdings(ms) && before == people.items && ss == States(before) && deceased == stats.deceased
      requires |picks| == |ms| && forall k :: 0 <= k < |picks| ==> IsDraw(picks[k])
      modifies people.items, this`stats, this`lastUpdateTime, ms, AllAmbulances(Fleets(ms)), AllTargets(Fleets(ms))`isBeingCollected, people`items
      ensures Valid()
      ensures !old(running) ==> lastUpdateTime == old(lastUpdateTime) && stats == old(stats) && people.items == before
      ensures !old(running) ==> States(people.items) == ss && Holdings(ms) == hs
      ensures !old(running) ==> Fleets(ms) == old(Fleets(ms)) && Lasts(ms) == old(Lasts(ms))
      ensures old(running) ==> lastUpdateTime == timestamp && deltaTime == ScaledDelta(old(lastUpdateTime), timestamp, p.simulationSpeed)
      ensures old(running) ==> deaths == AfterTurns(ss, |ss|, pharmacies, quarantines, p, deltaTime, draws).1
      ensures old(running) ==> MorgueLoop(before, AfterTurns(ss, |ss|, pharmacies, quarantines, p, deltaTime, draws).0,
                                          people.items, States(people.items), rounds, burials)
      ensures old(running) ==> Updates(ms, hs, before, AfterTurns(ss, |ss|, pharmacies, quarantines, p, deltaTime, draws).0,
                                       rounds, timestamp, picks, p.morgueCollectionSpeed, advance)
      ensures old(running) ==> Ended(ms, hs, rounds)
      ensures old(running) ==> counter == deceased + deaths - burials && stats == Tally(States(people.items), counter)
      ensures old(running) ==> multiset(people.items) <= multiset(before)
    {
      if !running {
        return 0.0, 0, 0, stats.deceased, [];
      }
      deltaTime, deaths, burials, counter, rounds := Frame(timestamp, p, draws, picks, advance, before, ss, deceased, ms, hs);
    }

    /**
     * A frame while running: the frame clock advances to `timestamp` and the
     * simulation runs for the scaled delta, which it returns. The ghost
     * parameters name the state on entry, as for `UpdateSimulation`.
     */
    method Frame(timestamp: real, p: Params, draws: seq<TurnDraws>, picks: seq<real>, advance: Advance,
                 ghost before: seq<Person>, ghost ss: seq<PersonState>, ghost deceased: int,
                 ghost ms: seq<Morgue>, ghost hs: seq<Holding>)
      returns (deltaTime: real, ghost deaths: nat, ghost burials: nat, ghost counter: int, ghost rounds: seq<Round>)
      requires Valid() && 0.0 <= p.recoveryTime && ValidTurns(draws, |people.items|)
      requires ms == morgues && hs == Holdings(ms) && before == people.items && ss == States(before) && deceased == stats.deceased
      requires |picks| == |ms| && forall k :: 0 <= k < |picks| ==> IsDraw(picks[k])
      modifies people.items, this`stats, this`lastUpdateTime, ms, AllAmbulances(Fleets(ms)), AllTargets(Fleets(ms))`isBeingCollected, people`items
      ensures Valid()
      ensures lastUpdateTime == timestamp && deltaTime == ScaledDelta(old(lastUpdateTime), timestamp, p.simulationSpeed)
      ensures deaths == AfterTurns(ss, |ss|, pharmacies, quarantines, p, deltaTime, draws).1
      ensures MorgueLoop(before, AfterTurns(ss, |ss|, pharmacies, quarantines, p, deltaTime, draws).0,
                         people.items, States(people.items), rounds, burials)
      ensures Updates(ms, hs, before, AfterTurns(ss, |ss|, pharmacies, quarantines, p, deltaTime, draws).0,
                      rounds, timestamp, picks, p.morgueCollectionSpeed, advance)
      ensures Ended(ms, hs, rounds)
      ensures counter == deceased + deaths - burials && stats == Tally(States(people.items), counter)
      ensures multiset(people.items) <= multiset(before)
    {
      deltaTime := StepClock(timestamp, p);
      deaths, burials, counter, rounds := UpdateSimulation(deltaTime, timestamp, p, draws, picks, advance, before, ss, deceased, ms, hs);
    }

    /**
     * The frame clock of `gameLoop`: on the first frame it starts at
     * `timestamp`; the elapsed time since the previous frame, scaled by the
     * simulation speed over 60, is the delta the simulation runs for.
     */
    method StepClock(timestamp: real, p: Params) returns (deltaTime: real)
      modifies this`lastUpdateTime
      ensures lastUpdateTime == timestamp
      ensures deltaTime == ScaledDelta(old(lastUpdateTime), timestamp, p.simulationSpeed)
    {
      if lastUpdateTime == 0.0 {
        lastUpdateTime := timestamp;
      }
      var elapsed := timestamp - lastUpdateTime;
      lastUpdateTime := timestamp;
      deltaTime := elapsed * (p.simulationSpeed / 60.0);
    }

    /**
     * The person loop of `updateSimulation`. Returns the number of death
     * callbacks, each of which adds one to the deceased counter.
     */
    method MovePeople(p: Params, deltaTime: real, draws: seq<TurnDraws>) returns (deaths: nat)
      requires Valid() && 0.0 <= p.recoveryTime && ValidTurns(draws, |people.items|)
      modifies people.items
      ensures Valid()
      ensures States(people.items) == AfterTurns(old(States(people.items)), |people.items|, pharmacies, quarantines, p, deltaTime, draws).0
      ensures deaths == AfterTurns(old(States(people.items)), |people.items|, pharmacies, quarantines, p, deltaTime, draws).1
    {
      deaths := RunTurns(people.items, pharmacies, quarantines, p, deltaTime, draws);
    }

    /**
     * The morgue loop of `updateSimulation`. Returns the number of
     * `onBuried` calls, each of which subtracts one from the deceased
     * counter, and, as a ghost value, the round of each morgue.
     */
    method UpdateMorgues(time: real, p: Params, picks: seq<real>, advance: Advance) returns (burials: nat, ghost rounds: seq<Round>)
      requires Valid() && |picks| == |morgues| && forall k :: 0 <= k < |picks| ==> IsDraw(picks[k])
      modifies morgues, AllAmbulances(Fleets(morgues)), AllTargets(Fleets(morgues))`isBeingCollected
      modifies people.items`isBeingCollected, people`items
      ensures Valid()
      ensures MorgueLoop(old(people.items), old(States(people.items)), people.items, States(people.items), rounds, burials)
      ensures Updates(morgues, old(Holdings(morgues)), old(people.items), old(States(people.items)),
                      rounds, time, picks, p.morgueCollectionSpeed, advance)
      ensures Ended(morgues, old(Holdings(morgues)), rounds)
      ensures |morgues| == 0 ==> burials == 0 && States(people.items) == old(States(people.items))
      ensures multiset(people.items) <= multiset(old(people.items))
      ensures |old(people.items)| <= |people.items| + burials
    {
      burials, rounds := RunMorgues(morgues, people, time, p.morgueCollectionSpeed, picks, advance);
    }
  }

  /**
   * The turn of the person at index `i` in `updateSimulation`: its `move`,
   * then its `tryInfectOthers` on the whole population if it is infected
   * after moving. Returns whether the death callback fired.
   */
  method TakeTurn(people: seq<Person>, i: nat, pharmacies: seq<Zone>, quarantines: seq<Zone>, p: Params,
                  deltaTime: real, d: TurnDraws) returns (died: bool)
    requires Distinct(people) && AllWellFormed(States(people))
    requires i < |people| && 0.0 <= p.recoveryTime && ValidTurn(d, |people|)
    modifies people
    ensures States(people) == AfterTurn(old(States(people)), i, pharmacies, quarantines, p, deltaTime, d).0
    ensures died == AfterTurn(old(States(people)), i, pharmacies, quarantines, p, deltaTime, d).1
  {
    ghost var ss := States(people);
    DistinctPairs(people);
    var person := people[i];
    died := person.Move(pharmacies, quarantines, p, deltaTime, d.move);
    MoveKeepsWellFormed(ss[i], pharmacies, quarantines, p, deltaTime, d.move);
    assert States(people) == ss[i := person.State()];
    if person.status == Infected {
      person.TryInfectOthers(people, quarantines, p, d.infect, d.variation);
    }
  }

  /** `peopleRef.current.forEach(...)` in `updateSimulation`: every person's turn, in array order. */
  method RunTurns(people: seq<Person>, pharmacies: seq<Zone>, quarantines: seq<Zone>, p: Params,
                  deltaTime: real, draws: seq<TurnDraws>) returns (deaths: nat)
    requires Distinct(people) && AllWellFormed(States(people))
    requires 0.0 <= p.recoveryTime && ValidTurns(draws, |people|)
    modifies people
    ensures States(people) == AfterTurns(old(States(people)), |people|, pharmacies, quarantines, p, deltaTime, draws).0
    ensures deaths == AfterTurns(old(States(people)), |people|, pharmacies, quarantines, p, deltaTime, draws).1
  {
    ghost var ss := States(people);
    deaths := 0;
    var i := 0;
    while i != |people|
      invariant 0 <= i <= |people|
      invariant States(people) == AfterTurns(ss, i, pharmacies, quarantines, p, deltaTime, draws).0
      invariant deaths == AfterTurns(ss, i, pharmacies, quarantines, p, deltaTime, draws).1
    {
      deaths := NextTurn(people, i, pharmacies, quarantines, p, deltaTime, draws, ss, deaths);
      i := i + 1;
    }
  }

  /** One iteration of that `forEach`: the turn of the person at index `i` extends the turns before it. */
  method NextTurn(people: seq<Person>, i: nat, pharmacies: seq<Zone>, quarantines: seq<Zone>, p: Params,
                  deltaTime: real, draws: seq<TurnDraws>, ghost ss: seq<PersonState>, deaths: nat) returns (deaths': nat)
    requires Distinct(people) && i < |people| == |ss| && AllWellFormed(ss)
    requires 0.0 <= p.recoveryTime && ValidTurns(draws, |people|)
    requires States(people) == AfterTurns(ss, i, pharmacies, quarantines, p, deltaTime, draws).0
    requires deaths == AfterTurns(ss, i, pharmacies, quarantines, p, deltaTime, draws).1
    modifies people
    ensures States(people) == AfterTurns(ss, i + 1, pharmacies, quarantines, p, deltaTime, draws).0
    ensures deaths' == AfterTurns(ss, i + 1, pharmacies, quarantines, p, deltaTime, draws).1
  {
    ghost var done := AfterTurns(ss, i, pharmacies, quarantines, p, deltaTime, draws);
    var died := TakeTurn(people, i, pharmacies, quarantines, p, deltaTime, draws[i]);
    ghost var turn := AfterTurn(done.0, i, pharmacies, quarantines, p, deltaTime, draws[i]);
    assert States(people) == turn.0 && died == turn.1;
    AfterTurnsStep(ss, i, pharmacies, quarantines, p, deltaTime, draws);
    deaths' := if died then deaths + 1 else deaths;
  }

  /**
   * One morgue's update as the driver sees it: the fleet its ambulance round
   * starts from, the ambulances' routes, how many times `onBuried` was called
   * and the population afterwards.
   */
  datatype Round = Round(targets: seq<Person>, before: Fleet, routes: seq<Route>, count: nat, after: seq<Person>,
                         last: real, kept: seq<AmbulanceView>, corpses: seq<Person>, last': real, views: seq<AmbulanceView>)

  /**
   * A morgue's round whose ambulances go to `r.targets`: `onBuried` is
   * called once per ambulance whose update buries, and the population loses
   * the corpses of those ambulances, spliced out in ambulance order.
   */
  ghost predicate RoundOf(r: Round) {
    && Fits(r.before, r.targets, r.routes) && r.before.burials == 0
    && r.count == |BuriedTargets(r.targets, r.before.views, r.routes, |r.targets|)|
    && r.after == SplicedAll(r.before.people, BuriedTargets(r.targets, r.before.views, r.routes, |r.targets|))
  }

  /** A round that is one `update` of its ambulances is a round of burials, which only takes persons out. */
  lemma UpdatedRound(r: Round, advance: Advance)
    requires Fits(r.before, r.targets, r.routes) && r.before.burials == 0
    requires r.count == UpdatedAll(r.before, r.targets, r.routes, advance, |r.targets|).burials
    requires r.after == UpdatedAll(r.before, r.targets, r.routes, advance, |r.targets|).people
    ensures RoundOf(r) && multiset(r.after) <= multiset(r.before.people)
  {
    UpdatedAllBuries(r.before, r.targets, r.routes, advance, |r.targets|);
    SplicedAllShrinks(r.before.people, BuriedTargets(r.targets, r.before.views, r.routes, |r.targets|));
  }

  /**
   * `r` is the update at `time`, with the draw `pick` and the collection
   * speed `speed`, of a morgue at (`x`, `y`) with cooldown `cooldown` whose
   * last dispatch was at `r.last`, which kept the ambulances whose views were
   * `r.kept` and found the corpses `r.corpses`. It dispatches exactly when
   * there is a corpse and more than the cooldown has passed; a dispatch
   * records `time` and sends a new ambulance, after the kept ones, from the
   * morgue to the corpse the draw picks. The round starts from the kept views
   * and a new one at the morgue, and leaves each ambulance in the view one
   * update gives it.
   */
  ghost predicate UpdateOf(r: Round, x: real, y: real, cooldown: real, time: real, pick: real, speed: real, advance: Advance) {
    var dispatched := |r.corpses| > 0 && time - r.last > cooldown;
    && Fits(r.before, r.targets, r.routes) && IsDraw(pick)
    && r.last' == (if dispatched then time else r.last)
    && |r.targets| == |r.kept| + (if dispatched then 1 else 0)
    && StartsFrom(r.before, r.kept, x, y)
    && (dispatched ==>
          && r.targets[|r.kept|] == r.corpses[PickIndex(pick, |r.corpses|)]
          && r.routes[|r.kept|].startX == x && r.routes[|r.kept|].startY == y && r.routes[|r.kept|].speed == speed)
    && r.views == UpdatedAll(r.before, r.targets, r.routes, advance, |r.targets|).views
  }

  /**
   * The views a morgue's round starts from: those of the ambulances it kept,
   * then, when it dispatched one, a new ambulance at the morgue.
   */
  ghost predicate StartsFrom(f: Fleet, kept: seq<AmbulanceView>, x: real, y: real) {
    && |kept| <= |f.views| <= |kept| + 1
    && (forall k :: 0 <= k < |kept| ==> f.views[k] == kept[k])
    && (|f.views| > |kept| ==> f.views[|kept|] == Launched(x, y))
  }

  /** The corpses the ambulances of a round reach, which marks them as being collected. */
  ghost function Reached(r: Round): set<Person> {
    ReachedBy(r.targets, r.before.views, r.routes)
  }

  /** The corpses the ambulances of all the rounds reach. */
  ghost function ReachedAll(rounds: seq<Round>): set<Person> {
    if rounds == [] then {} else ReachedAll(rounds[..|rounds| - 1]) + Reached(rounds[|rounds| - 1])
  }

  /**
   * What a morgue holds when the morgue loop comes to it: the time of its
   * last dispatch, its ambulances that are not done, and their views.
   */
  datatype Holding = Holding(last: real, kept: seq<Ambulance>, views: seq<AmbulanceView>)

  ghost function HoldingOf(m: Morgue): Holding
    reads m, m.ambulances
  {
    Holding(m.lastAmbulanceTime, Undone(m.ambulances), Views(Undone(m.ambulances)))
  }

  /** What each morgue holds. */
  ghost function Holdings(ms: seq<Morgue>): (hs: seq<Holding>)
    reads ms, AllAmbulances(Fleets(ms))
    ensures |hs| == |ms| && forall k {:trigger hs[k]} :: 0 <= k < |ms| ==> hs[k] == HoldingOf(ms[k])
  {
    seq(|ms|, k reads ms, AllAmbulances(Fleets(ms)) requires 0 <= k < |ms| => (InFleets(Fleets(ms), k); HoldingOf(ms[k])))
  }

  /** The times of the morgues' last dispatches. */
  function Lasts(morgues: seq<Morgue>): (ts: seq<real>)
    reads morgues
    ensures |ts| == |morgues|
    ensures forall k {:trigger ts[k]} :: 0 <= k < |morgues| ==> ts[k] == morgues[k].lastAmbulanceTime
  {
    seq(|morgues|, k reads morgues requires 0 <= k < |morgues| => morgues[k].lastAmbulanceTime)
  }

  /** Each round starts from the population the previous one left, the first from `population`. */
  ghost predicate Chained(population: seq<Person>, rounds: seq<Round>, after: seq<Person>)
    decreases |rounds|
  {
    if rounds == [] then after == population
    else Chained(population, rounds[..|rounds| - 1], rounds[|rounds| - 1].before.people) && rounds[|rounds| - 1].after == after
  }

  /** The `onBuried` calls of all the rounds. */
  function BuriedCount(rounds: seq<Round>): nat {
    if rounds == [] then 0 else BuriedCount(rounds[..|rounds| - 1]) + rounds[|rounds| - 1].count
  }

  /**
   * Over the morgue loop the population only loses persons, and at most one
   * per `onBuried` call: a second ambulance that buries an already spliced
   * corpse calls `onBuried` without removing anyone.
   */
  lemma {:induction false} ChainedShrinks(population: seq<Person>, rounds: seq<Round>, after: seq<Person>)
    requires Chained(population, rounds, after) && forall j :: 0 <= j < |rounds| ==> RoundOf(rounds[j])
    ensures multiset(after) <= multiset(population)
    ensures |population| <= |after| + BuriedCount(rounds)
    decreases |rounds|
  {
    if rounds != [] {
      var n := |rounds| - 1;
      var r := rounds[n];
      ChainedShrinks(population, rounds[..n], r.before.people);
      SplicedAllShrinks(r.before.people, BuriedTargets(r.targets, r.before.views, r.routes, |r.targets|));
    }
  }

  /**
   * Every person of `after`, whose states are `now`, is a person of `before`
   * in the state `ss` gives at its old index, except that its collection
   * flag is set as well when the person is in `reached`.
   */
  ghost predicate Survivors(after: seq<Person>, now: seq<PersonState>, before: seq<Person>, ss: seq<PersonState>, reached: set<Person>)
    requires |now| == |after| && |ss| == |before|
  {
    forall k :: 0 <= k < |after| ==>
      && after[k] in before
      && var s := ss[IndexOf(before, after[k])];
      now[k] == s.(isBeingCollected := s.isBeingCollected || after[k] in reached)
  }

  /** Two stretches in a row: the flags the two set are set. */
  lemma SurvivorsChain(after: seq<Person>, now: seq<PersonState>, mid: seq<Person>, between: seq<PersonState>,
                       before: seq<Person>, ss: seq<PersonState>, first: set<Person>, second: set<Person>)
    requires |now| == |after| && |between| == |mid| && |ss| == |before|
    requires Survivors(mid, between, before, ss, first) && Survivors(after, now, mid, between, second)
    ensures Survivors(after, now, before, ss, first + second)
  {
    forall k | 0 <= k < |after|
      ensures after[k] in before
      ensures var s := ss[IndexOf(before, after[k])];
        now[k] == s.(isBeingCollected := s.isBeingCollected || after[k] in first + second)
    {
      assert mid[IndexOf(mid, after[k])] == after[k];
    }
  }

  /** When nobody left and no corpse was reached, every person has exactly the state `ss` gives it. */
  lemma SurvivorsUnchanged(people: seq<Person>, now: seq<PersonState>, ss: seq<PersonState>)
    requires Distinct(people) && |now| == |people| && |ss| == |people| && Survivors(people, now, people, ss, {})
    ensures now == ss
  {
    DistinctPairs(people);
    forall k | 0 <= k < |people|
      ensures now[k] == ss[k]
    {
      assert IndexOf(people, people[k]) == k;
    }
  }

  /** The persons left of a list without repetitions of well-formed persons are distinct and well formed. */
  lemma SurvivorsWellFormed(after: seq<Person>, now: seq<PersonState>, before: seq<Person>, ss: seq<PersonState>, reached: set<Person>)
    requires |now| == |after| && |ss| == |before| && AllWellFormed(ss) && Distinct(before)
    requires Survivors(after, now, before, ss, reached) && multiset(after) <= multiset(before)
    ensures AllWellFormed(now) && Distinct(after)
  {
    DistinctWithin(after, before);
    forall k | 0 <= k < |after|
      ensures WellFormed(now[k])
    {
      assert WellFormed(ss[IndexOf(before, after[k])]);
    }
  }

  /**
   * The persons of `people` that were corpses nobody was collecting in
   * `before` (states `ss`) and that no ambulance has reached since, in order.
   */
  ghost function Unclaimed(people: seq<Person>, before: seq<Person>, ss: seq<PersonState>, reached: set<Person>): seq<Person>
    requires |ss| == |before|
  {
    if people == [] then []
    else
      var q := people[0];
      (if q in before && Eligible(ss[IndexOf(before, q)]) && q !in reached then [q] else []) + Unclaimed(people[1..], before, ss, reached)
  }

  /** The corpses a morgue finds in the population are the unclaimed ones. */
  lemma {:induction false} CorpsesUnclaimed(people: seq<Person>, before: seq<Person>, ss: seq<PersonState>, reached: set<Person>)
    requires |ss| == |before| && Survivors(people, States(people), before, ss, reached)
    ensures Corpses(people) == Unclaimed(people, before, ss, reached)
  {
    if people != [] {
      assert Survivors(people[1..], States(people[1..]), before, ss, reached) by {
        forall k | 0 <= k < |people| - 1
          ensures people[1..][k] == people[k + 1]
        {
        }
      }
      CorpsesUnclaimed(people[1..], before, ss, reached);
    }
  }

  /**
   * The morgue loop ran `rounds`, chained from the population `before`
   * (states `ss`) to `after` (states `now`), with `burials` calls to
   * `onBuried` in all; every person left is one of before, in its state from
   * before except that a corpse some ambulance reached is being collected.
   */
  ghost predicate MorgueLoop(before: seq<Person>, ss: seq<PersonState>, after: seq<Person>, now: seq<PersonState>,
                             rounds: seq<Round>, burials: nat)
    requires |ss| == |before| && |now| == |after|
  {
    && burials == BuriedCount(rounds)
    && Chained(before, rounds, after)
    && (forall j :: 0 <= j < |rounds| ==> RoundOf(rounds[j]))
    && Survivors(after, now, before, ss, ReachedAll(rounds))
  }

  /**
   * Each round is the update of the morgue at its index, at `time` with the
   * draw at its index: from what the morgue held when the loop began, and
   * with the corpses of the population the round starts from that were
   * corpses nobody was collecting in `population` (states `ss`) and that no
   * earlier round reached.
   */
  ghost predicate Updates(ms: seq<Morgue>, holdings: seq<Holding>, population: seq<Person>, ss: seq<PersonState>,
                          rounds: seq<Round>, time: real, picks: seq<real>, speed: real, advance: Advance)
  {
    && |rounds| <= |ms| && |rounds| <= |holdings| && |rounds| <= |picks| && |ss| == |population|
    && forall k :: 0 <= k < |rounds| ==> UpdateAt(ms, holdings, population, ss, rounds, time, picks, speed, advance, k)
  }

  /** Round `k` is the update of morgue `k`, as `Updates` says. */
  ghost predicate UpdateAt(ms: seq<Morgue>, holdings: seq<Holding>, population: seq<Person>, ss: seq<PersonState>,
                           rounds: seq<Round>, time: real, picks: seq<real>, speed: real, advance: Advance, k: int)
  {
    && 0 <= k < |rounds| && k < |ms| && k < |holdings| && k < |picks| && |ss| == |population|
    && UpdateOf(rounds[k], ms[k].x, ms[k].y, ms[k].ambulanceCooldown, time, picks[k], speed, advance)
    && rounds[k].last == holdings[k].last && rounds[k].kept == holdings[k].views
    && rounds[k].corpses == Unclaimed(rounds[k].before.people, population, ss, ReachedAll(rounds[..k]))
  }

  /** One more morgue's update. */
  lemma UpdatesSnoc(ms: seq<Morgue>, holdings: seq<Holding>, population: seq<Person>, ss: seq<PersonState>,
                    rounds: seq<Round>, round: Round, time: real, picks: seq<real>, speed: real, advance: Advance)
    requires Updates(ms, holdings, population, ss, rounds, time, picks, speed, advance)
    requires |rounds| < |ms| && |rounds| < |holdings| && |rounds| < |picks|
    requires UpdateOf(round, ms[|rounds|].x, ms[|rounds|].y, ms[|rounds|].ambulanceCooldown, time, picks[|rounds|], speed, advance)
    requires round.last == holdings[|rounds|].last && round.kept == holdings[|rounds|].views
    requires round.corpses == Unclaimed(round.before.people, population, ss, ReachedAll(rounds))
    ensures Updates(ms, holdings, population, ss, rounds + [round], time, picks, speed, advance)
  {
    var rs := rounds + [round];
    forall k | 0 <= k < |rs|
      ensures UpdateAt(ms, holdings, population, ss, rs, time, picks, speed, advance, k)
    {
      if k < |rounds| {
        assert UpdateAt(ms, holdings, population, ss, rounds, time, picks, speed, advance, k);
        assert rs[..k] == rounds[..k];
      } else {
        assert rs[..k] == rounds;
      }
    }
  }

  /**
   * What the morgue loop sees of a morgue: its ambulances, the time of its
   * last dispatch, and the ambulances' views and routes.
   */
  datatype Standing = Standing(fleet: seq<Ambulance>, last: real, views: seq<AmbulanceView>, routes: seq<Route>)

  ghost function StandingOf(m: Morgue): Standing
    reads m, m.ambulances, Targets(m.ambulances)`x, Targets(m.ambulances)`y
  {
    Standing(m.ambulances, m.lastAmbulanceTime, Views(m.ambulances), Routes(m.ambulances))
  }

  /** The ambulances of `fleet` whose views in `views` are not done. */
  function Kept(fleet: seq<Ambulance>, views: seq<AmbulanceView>): seq<Ambulance> {
    if fleet == [] || views == [] then []
    else (if views[0].isDone then [] else [fleet[0]]) + Kept(fleet[1..], views[1..])
  }

  /** The views of `views` that are not done. */
  function KeptViews(views: seq<AmbulanceView>): seq<AmbulanceView> {
    if views == [] then [] else (if views[0].isDone then [] else [views[0]]) + KeptViews(views[1..])
  }

  /** What a morgue standing as `s` holds. */
  function Held(s: Standing): Holding {
    Holding(s.last, Kept(s.fleet, s.views), KeptViews(s.views))
  }

  /** What a morgue holds is what its standing says it holds. */
  lemma HeldStanding(m: Morgue)
    ensures HoldingOf(m) == Held(StandingOf(m))
  {
    KeptUndone(m.ambulances);
  }

  /** The ambulances that are not done, and their views, as read off the views. */
  lemma {:induction false} KeptUndone(fleet: seq<Ambulance>)
    ensures Undone(fleet) == Kept(fleet, Views(fleet)) && Views(Undone(fleet)) == KeptViews(Views(fleet))
  {
    if fleet != [] {
      assert Views(fleet)[1..] == Views(fleet[1..]);
      KeptUndone(fleet[1..]);
    }
  }

  /** `st` is what the loop sees of each morgue. */
  ghost predicate Stands(ms: seq<Morgue>, st: seq<Standing>)
    reads ms, AllAmbulances(Fleets(ms)), AllTargets(Fleets(ms))`x, AllTargets(Fleets(ms))`y
  {
    |st| == |ms| && forall k :: 0 <= k < |ms| ==> (InFleets(Fleets(ms), k); StandingOf(ms[k]) == st[k])
  }

  /** The ambulance lists of the standings. */
  function FleetsOf(st: seq<Standing>): (fs: seq<seq<Ambulance>>)
    ensures |fs| == |st| && forall k :: 0 <= k < |st| ==> fs[k] == st[k].fleet
  {
    seq(|st|, k requires 0 <= k < |st| => st[k].fleet)
  }

  /** What the standings hold. */
  function HeldOf(st: seq<Standing>): (hs: seq<Holding>)
    ensures |hs| == |st| && forall k :: 0 <= k < |st| ==> hs[k] == Held(st[k])
  {
    seq(|st|, k requires 0 <= k < |st| => Held(st[k]))
  }

  /**
   * A morgue standing as its round `r` left it: its ambulances are the kept
   * ones of `h` and then the one dispatched, with the round's targets,
   * views and routes, and its last dispatch is the round's.
   */
  ghost predicate FinishedAt(r: Round, s: Standing, h: Holding) {
    && RoundOf(r) && r.last' == s.last
    && |h.kept| <= |s.fleet| && s.fleet[..|h.kept|] == h.kept
    && r.targets == Targets(s.fleet) && r.views == s.views && r.routes == s.routes
  }

  /** The morgue `m` is as its round `r` left it. */
  ghost predicate Finished(r: Round, m: Morgue, h: Holding)
    reads m, m.ambulances, Targets(m.ambulances)`x, Targets(m.ambulances)`y
  {
    FinishedAt(r, StandingOf(m), h)
  }

  /** No ambulance belongs to two morgues: each morgue creates its own. */
  predicate Separate(fs: seq<seq<Ambulance>>) {
    forall i, k, a :: 0 <= i < |fs| && 0 <= k < |fs| && i != k && a in fs[i] ==> a !in fs[k]
  }

  /** After the morgue loop: no ambulance belongs to two morgues, and each morgue is as its round left it. */
  ghost predicate Ended(ms: seq<Morgue>, holdings: seq<Holding>, rounds: seq<Round>)
    reads ms, AllAmbulances(Fleets(ms)), AllTargets(Fleets(ms))`x, AllTargets(Fleets(ms))`y
  {
    && |rounds| == |ms| && |holdings| == |ms| && Separate(Fleets(ms))
    && forall k :: 0 <= k < |ms| ==> (InFleets(Fleets(ms), k); Finished(rounds[k], ms[k], holdings[k]))
  }

  /**
   * `morguesRef.current.forEach(morgue => morgue.update(...))`: each morgue's
   * `update` once, in order, with the raw timestamp. Returns how many times
   * `onBuried` was called, and as a ghost value the round of each morgue.
   */
  method RunMorgues(morgues: seq<Morgue>, people: PersonList, time: real, speed: real, picks: seq<real>, advance: Advance)
    returns (burials: nat, ghost rounds: seq<Round>)
    requires Distinct(morgues) && Separate(Fleets(morgues)) && forall k :: 0 <= k < |morgues| ==> morgues[k].Valid()
    requires |picks| == |morgues| && forall k :: 0 <= k < |picks| ==> IsDraw(picks[k])
    requires Distinct(people.items) && AllWellFormed(States(people.items))
    modifies morgues, AllAmbulances(Fleets(morgues)), AllTargets(Fleets(morgues))`isBeingCollected
    modifies people.items`isBeingCollected, people`items
    ensures forall k :: 0 <= k < |morgues| ==> morgues[k].Valid()
    ensures Distinct(people.items) && AllWellFormed(States(people.items))
    ensures MorgueLoop(old(people.items), old(States(people.items)), people.items, States(people.items), rounds, burials)
    ensures Updates(morgues, old(Holdings(morgues)), old(people.items), old(States(people.items)), rounds, time, picks, speed, advance)
    ensures Ended(morgues, old(Holdings(morgues)), rounds)
    ensures |morgues| == 0 ==> burials == 0 && States(people.items) == old(States(people.items))
    ensures multiset(people.items) <= multiset(old(people.items))
    ensures |old(people.items)| <= |people.items| + burials
  {
    ghost var start := StandingsOf(morgues);
    LoopStarts(morgues, start);
    ghost var population, ss := people.items, States(people.items);
    RemainsStart(population, ss);
    ghost var st := start;
    burials := 0;
    rounds := [];
    var j := 0;
    while j != |morgues|
      invariant j <= |morgues| && Stands(morgues, st)
      invariant MorguesAt(morgues, st, start, j, population, ss, rounds, burials, time, picks, speed, advance)
      invariant PeopleAt(people, population, ss, rounds)
    {
      burials, rounds, st := NextRound(morgues, j, st, start, people, time, speed, picks, advance, population, ss, burials, rounds);
      j := j + 1;
    }
    LoopEnded(morgues, st, start, people, population, ss, rounds, burials, time, picks, speed, advance);
  }

  /** How each morgue stands. */
  ghost function StandingsOf(ms: seq<Morgue>): (st: seq<Standing>)
    reads ms, AllAmbulances(Fleets(ms)), AllTargets(Fleets(ms))
    ensures Stands(ms, st)
  {
    seq(|ms|, k reads ms, AllAmbulances(Fleets(ms)), AllTargets(Fleets(ms)) requires 0 <= k < |ms| => (InFleets(Fleets(ms), k); StandingOf(ms[k])))
  }

  /** The morgue loop begins with the morgues as they stand, each with its own ambulances, none updated. */
  lemma LoopStarts(ms: seq<Morgue>, start: seq<Standing>)
    requires Stands(ms, start) && Separate(Fleets(ms)) && forall k :: 0 <= k < |ms| ==> ms[k].Valid()
    ensures HeldOf(start) == Holdings(ms) && FleetsOf(start) == Fleets(ms)
    ensures forall k :: 0 <= k < |start| ==> Distinct(start[k].fleet)
    ensures forall k, a :: 0 <= k < |ms| && a in start[k].fleet ==> a in AllAmbulances(Fleets(ms))
    ensures forall k, q :: 0 <= k < |ms| && q in Targets(start[k].fleet) ==> q in AllTargets(Fleets(ms))
  {
    forall k | 0 <= k < |ms|
      ensures forall a :: a in start[k].fleet ==> a in AllAmbulances(Fleets(ms))
      ensures forall q :: q in Targets(start[k].fleet) ==> q in AllTargets(Fleets(ms))
      ensures HeldOf(start)[k] == Holdings(ms)[k]
    {
      InFleets(Fleets(ms), k);
      HeldStanding(ms[k]);
    }
  }

  /** At the end of the morgue loop every morgue has had its update. */
  lemma LoopEnded(morgues: seq<Morgue>, st: seq<Standing>, start: seq<Standing>, people: PersonList,
                  population: seq<Person>, ss: seq<PersonState>, rounds: seq<Round>, burials: nat,
                  time: real, picks: seq<real>, speed: real, advance: Advance)
    requires Stands(morgues, st) && MorguesAt(morgues, st, start, |morgues|, population, ss, rounds, burials, time, picks, speed, advance)
    requires PeopleAt(people, population, ss, rounds) && Distinct(population) && AllWellFormed(ss)
    ensures forall k :: 0 <= k < |morgues| ==> morgues[k].Valid()
    ensures Distinct(people.items) && AllWellFormed(States(people.items))
    ensures MorgueLoop(population, ss, people.items, States(people.items), rounds, burials)
    ensures Ended(morgues, HeldOf(start), rounds)
    ensures Updates(morgues, HeldOf(start), population, ss, rounds, time, picks, speed, advance)
    ensures |morgues| == 0 ==> burials == 0 && States(people.items) == ss
    ensures multiset(people.items) <= multiset(population)
    ensures |population| <= |people.items| + burials
  {
    assert Fleets(morgues) == FleetsOf(st);
    ChainedShrinks(population, rounds, people.items);
    SurvivorsWellFormed(people.items, States(people.items), population, ss, ReachedAll(rounds));
    if |morgues| == 0 {
      SurvivorsUnchanged(people.items, States(people.items), ss);
    }
  }

  /**
   * The morgues, as the loop sees them (`st`), after `j` updates of the
   * morgue loop: each holds each of its ambulances once and no ambulance
   * belongs to two morgues; the morgues from `j` on stand as they stood when
   * the loop began (`start`); the first `j` are as their rounds left them,
   * and those rounds are their updates, counted in `burials`.
   */
  ghost predicate MorguesAt(morgues: seq<Morgue>, st: seq<Standing>, start: seq<Standing>, j: nat,
                            population: seq<Person>, ss: seq<PersonState>, rounds: seq<Round>, burials: nat,
                            time: real, picks: seq<real>, speed: real, advance: Advance)
  {
    && j <= |morgues| == |st| == |start| == |picks| && |rounds| == j
    && (forall k :: 0 <= k < |st| ==> Distinct(st[k].fleet))
    && Separate(FleetsOf(st))
    && (forall k :: j <= k < |st| ==> st[k] == start[k])
    && burials == BuriedCount(rounds)
    && (forall k :: 0 <= k < j ==> FinishedAt(rounds[k], st[k], Held(start[k])))
    && Updates(morgues, HeldOf(start), population, ss, rounds, time, picks, speed, advance)
  }

  /**
   * The update of morgue `j` moves the loop on: the morgue now stands as its
   * round left it, with its kept ambulances and perhaps a new one that no
   * other morgue has.
   */
  lemma MorguesStep(morgues: seq<Morgue>, st: seq<Standing>, start: seq<Standing>, j: nat,
                    population: seq<Person>, ss: seq<PersonState>, rounds: seq<Round>, burials: nat,
                    time: real, picks: seq<real>, speed: real, advance: Advance, round: Round, s: Standing,
                    corpses: seq<Person>)
    requires j < |morgues| && MorguesAt(morgues, st, start, j, population, ss, rounds, burials, time, picks, speed, advance)
    requires Turn(round, s, Held(st[j]), corpses, morgues[j], time, picks[j], speed, advance)
    requires corpses == Unclaimed(round.before.people, population, ss, ReachedAll(rounds))
    requires forall a :: a in s.fleet ==> a in st[j].fleet || forall k :: 0 <= k < |st| && k != j ==> a !in st[k].fleet
    ensures MorguesAt(morgues, st[j := s], start, j + 1, population, ss, rounds + [round], burials + round.count,
                      time, picks, speed, advance)
  {
    var st', rounds' := st[j := s], rounds + [round];
    UpdatesSnoc(morgues, HeldOf(start), population, ss, rounds, round, time, picks, speed, advance);
    assert rounds'[..j] == rounds;
    assert FleetsOf(st') == FleetsOf(st)[j := s.fleet];
    SeparateStep(FleetsOf(st), j, s.fleet);
  }

  /** Giving morgue `j` a fleet whose new ambulances no other morgue has keeps the fleets separate. */
  lemma SeparateStep(fs: seq<seq<Ambulance>>, j: nat, fleet: seq<Ambulance>)
    requires j < |fs| && Separate(fs)
    requires forall a :: a in fleet ==> a in fs[j] || forall k :: 0 <= k < |fs| && k != j ==> a !in fs[k]
    ensures Separate(fs[j := fleet])
  {
    var fs' := fs[j := fleet];
    forall i, k, a | 0 <= i < |fs'| && 0 <= k < |fs'| && i != k && a in fs'[i]
      ensures a !in fs'[k]
    {
      if i == j {
        assert a in fs[j] || a !in fs[k];
      } else {
        assert a in fs[i];
      }
    }
  }

  /**
   * The population after the rounds `rounds` of the morgue loop: the rounds
   * are chained from `population` (states `ss`), and every person left is
   * one of it, in its state from then except that a corpse the rounds
   * reached is being collected.
   */
  ghost predicate PeopleAt(people: PersonList, population: seq<Person>, ss: seq<PersonState>, rounds: seq<Round>)
    reads people, people.items
  {
    Remains(people.items, States(people.items), population, ss, rounds)
  }

  /** `PeopleAt` on the persons `items` and their states `now`. */
  ghost predicate Remains(items: seq<Person>, now: seq<PersonState>, population: seq<Person>, ss: seq<PersonState>,
                          rounds: seq<Round>)
  {
    && |ss| == |population| && |now| == |items|
    && Chained(population, rounds, items)
    && Survivors(items, now, population, ss, ReachedAll(rounds))
  }

  /** Before any round, the population is all there, as it was. */
  lemma RemainsStart(population: seq<Person>, ss: seq<PersonState>)
    requires Distinct(population) && |ss| == |population|
    ensures Remains(population, ss, population, ss, [])
  {
    DistinctPairs(population);
    forall k | 0 <= k < |population|
      ensures IndexOf(population, population[k]) == k
    {
    }
  }

  /** One more round, from the persons the rounds before it left, keeps the population accounted for. */
  lemma RemainsStep(mid: seq<Person>, between: seq<PersonState>, population: seq<Person>, ss: seq<PersonState>,
                    rounds: seq<Round>, round: Round, now: seq<PersonState>)
    requires Remains(mid, between, population, ss, rounds) && round.before.people == mid
    requires |now| == |round.after| && Survivors(round.after, now, mid, between, Reached(round))
    ensures Remains(round.after, now, population, ss, rounds + [round])
  {
    var rounds' := rounds + [round];
    assert rounds'[..|rounds|] == rounds;
    SurvivorsChain(round.after, now, mid, between, population, ss, ReachedAll(rounds), Reached(round));
  }

  /** One iteration of the morgue loop: the update of the morgue at index `j` with its draw. */
  method NextRound(morgues: seq<Morgue>, j: nat, ghost st: seq<Standing>, ghost start: seq<Standing>, people: PersonList,
                   time: real, speed: real, picks: seq<real>, advance: Advance, ghost population: seq<Person>,
                   ghost ss: seq<PersonState>, burials: nat, ghost rounds: seq<Round>)
    returns (burials': nat, ghost rounds': seq<Round>, ghost st': seq<Standing>)
    requires j < |morgues| && Distinct(morgues) && forall k :: 0 <= k < |picks| ==> IsDraw(picks[k])
    requires Stands(morgues, st) && MorguesAt(morgues, st, start, j, population, ss, rounds, burials, time, picks, speed, advance)
    requires PeopleAt(people, population, ss, rounds)
    modifies morgues[j], st[j].fleet, Targets(st[j].fleet)`isBeingCollected
    modifies people.items`isBeingCollected, people`items
    ensures Stands(morgues, st') && MorguesAt(morgues, st', start, j + 1, population, ss, rounds', burials', time, picks, speed, advance)
    ensures PeopleAt(people, population, ss, rounds')
  {
    ghost var mid, now := people.items, States(people.items);
    ghost var corpses := Corpses(people.items);
    CorpsesUnclaimed(mid, population, ss, ReachedAll(rounds));
    var buried;
    ghost var round, now';
    buried, round, st', now' := NextUpdate(morgues, j, st, people, time, speed, picks[j], advance, corpses, now);
    MorguesStep(morgues, st, start, j, population, ss, rounds, burials, time, picks, speed, advance, round, st'[j], corpses);
    rounds' := rounds + [round];
    burials' := burials + buried;
    RemainsStep(mid, now, population, ss, rounds, round, now');
  }

  /**
   * The same update, seen from the morgues of the loop: the morgue at `j`
   * stands as its round left it, and every other morgue as it stood.
   */
  method NextUpdate(morgues: seq<Morgue>, j: nat, ghost st: seq<Standing>, people: PersonList,
                    time: real, speed: real, pick: real, advance: Advance, ghost corpses: seq<Person>, ghost now: seq<PersonState>)
    returns (buried: nat, ghost round: Round, ghost st': seq<Standing>, ghost now': seq<PersonState>)
    requires j < |morgues| && Distinct(morgues) && IsDraw(pick)
    requires Stands(morgues, st) && Separate(FleetsOf(st)) && Distinct(st[j].fleet)
    requires corpses == Corpses(people.items) && now == States(people.items)
    modifies morgues[j], st[j].fleet, Targets(st[j].fleet)`isBeingCollected
    modifies people.items`isBeingCollected, people`items
    ensures Stands(morgues, st') && st' == st[j := st'[j]]
    ensures Turn(round, st'[j], Held(st[j]), corpses, morgues[j], time, pick, speed, advance) && buried == round.count
    ensures round.before.people == old(people.items) && round.after == people.items && now' == States(people.items)
    ensures |now'| == |round.after| && Survivors(round.after, now', round.before.people, now, Reached(round))
    ensures forall a :: a in st'[j].fleet ==> a in st[j].fleet || forall k :: 0 <= k < |st| && k != j ==> a !in st[k].fleet
  {
    ghost var s, h;
    OthersApart(morgues, j, st);
    buried, round, s, h, now' := RunMorgue(morgues[j], people, time, speed, pick, advance, corpses, now, Others(morgues, j));
    st' := st[j := s];
    forall a | a in s.fleet && a !in st[j].fleet
      ensures forall k :: 0 <= k < |st| && k != j ==> a !in st[k].fleet
    {
      forall k | 0 <= k < |st| && k != j ensures a !in st[k].fleet {
        assert old(allocated(st[k].fleet));
      }
    }
    forall k | 0 <= k < |morgues| && k != j
      ensures StandingOf(morgues[k]) == st[k]
    {
      var i := if k < j then k else k - 1;
      assert Others(morgues, j)[i] == morgues[k];
    }
  }

  /** The morgues of the loop other than the one at `j`. */
  function Others(morgues: seq<Morgue>, j: nat): (others: seq<Morgue>)
    requires j < |morgues|
    ensures |others| == |morgues| - 1
    ensures forall k :: 0 <= k < |morgues| && k != j ==> others[if k < j then k else k - 1] == morgues[k]
  {
    morgues[..j] + morgues[j + 1..]
  }

  /** The morgue at `j` is apart from the other morgues of the loop. */
  lemma OthersApart(morgues: seq<Morgue>, j: nat, st: seq<Standing>)
    requires j < |morgues| && Distinct(morgues) && Stands(morgues, st) && Separate(FleetsOf(st))
    ensures Apart(morgues[j], Others(morgues, j))
  {
    DistinctPairs(morgues);
    assert forall k :: 0 <= k < |morgues| ==> FleetsOf(st)[k] == morgues[k].ambulances;
    forall k, a | 0 <= k < |Others(morgues, j)| && a in Others(morgues, j)[k].ambulances
      ensures a !in morgues[j].ambulances
    {
      var i := if k < j then k else k + 1;
      assert Others(morgues, j)[k] == morgues[i];
    }
  }

  /**
   * One turn of the morgue loop at `morgue`: `morgue.update(...)` once, while
   * the other morgues `others` stand as they stood. See `UpdatingMorgue` for
   * what the round says.
   */
  method RunMorgue(morgue: Morgue, people: PersonList, time: real, speed: real, pick: real, advance: Advance,
                   ghost corpses: seq<Person>, ghost now: seq<PersonState>, ghost others: seq<Morgue>)
    returns (buried: nat, ghost round: Round, ghost s: Standing, ghost h: Holding, ghost now': seq<PersonState>)
    requires morgue.Valid() && IsDraw(pick) && Apart(morgue, others)
    requires corpses == Corpses(people.items) && now == States(people.items)
    modifies morgue, morgue.ambulances, Targets(morgue.ambulances)`isBeingCollected, people.items`isBeingCollected, people`items
    ensures s == StandingOf(morgue) && h == old(Held(StandingOf(morgue))) && now' == States(people.items)
    ensures Turn(round, s, h, corpses, morgue, time, pick, speed, advance) && buried == round.count
    ensures round.before.people == old(people.items) && round.after == people.items
    ensures |now'| == |round.after| && Survivors(round.after, now', round.before.people, now, Reached(round))
    ensures forall a :: a in s.fleet ==> a in old(morgue.ambulances) || fresh(a)
    ensures forall k :: 0 <= k < |others| ==> StandingOf(others[k]) == old(StandingOf(others[k]))
  {
    HeldStanding(morgue);
    buried, round, s, h := UpdatingMorgue(morgue, people, time, speed, pick, advance, corpses, others);
    now' := States(people.items);
    forall k | 0 <= k < |people.items|
      ensures people.items[k] in old(people.items)
      ensures var s := now[IndexOf(old(people.items), people.items[k])];
        now'[k] == s.(isBeingCollected := s.isBeingCollected || people.items[k] in Reached(round))
    {
      var q := people.items[k];
      assert q in multiset(people.items);
      assert now[IndexOf(old(people.items), q)] == old(q.State());
      assert q.State().(isBeingCollected := false) == old(q.State()).(isBeingCollected := false);
    }
  }

  /**
   * The morgue at (`morgue.x`, `morgue.y`) took its turn: `round` is its
   * update at `time` with the draw `pick`, from what it held (`h`) and the
   * corpses `corpses`, and left it standing as `s`, each ambulance once.
   */
  ghost predicate Turn(round: Round, s: Standing, h: Holding, corpses: seq<Person>, morgue: Morgue,
                       time: real, pick: real, speed: real, advance: Advance)
  {
    && UpdateOf(round, morgue.x, morgue.y, morgue.ambulanceCooldown, time, pick, speed, advance)
    && round.last == h.last && round.kept == h.views && round.corpses == corpses
    && FinishedAt(round, s, h) && Distinct(s.fleet)
  }

  /**
   * The call of `morgue.update` itself: the round records what the update
   * read of the morgue, the fleet its ambulance round starts from, and the
   * views and population it leaves; `onBuried` is called once per burial,
   * the population loses the buried corpses, and every person left is as
   * before except that a corpse an ambulance reached is being collected.
   * `now` names the states on entry.
   */
  method UpdatingMorgue(morgue: Morgue, people: PersonList, time: real, speed: real, pick: real, advance: Advance,
                        ghost corpses: seq<Person>, ghost others: seq<Morgue>)
    returns (buried: nat, ghost round: Round, ghost s: Standing, ghost h: Holding)
    requires morgue.Valid() && IsDraw(pick) && corpses == Corpses(people.items) && Apart(morgue, others)
    modifies morgue, morgue.ambulances, Targets(morgue.ambulances)`isBeingCollected, people.items`isBeingCollected, people`items
    ensures morgue.Valid() && s == StandingOf(morgue) && h == old(HoldingOf(morgue))
    ensures Turn(round, s, h, corpses, morgue, time, pick, speed, advance) && buried == round.count
    ensures round.before.people == old(people.items) && round.after == people.items
    ensures multiset(people.items) <= multiset(old(people.items))
    ensures forall q :: q in old(people.items) ==> q.isBeingCollected == (old(q.isBeingCollected) || q in Reached(round))
    ensures forall q :: q in old(people.items) ==> q.Unflagged() == old(q.Unflagged())
    ensures forall a :: a in morgue.ambulances ==> a in old(morgue.ambulances) || fresh(a)
    ensures forall k :: 0 <= k < |others| ==> StandingOf(others[k]) == old(StandingOf(others[k]))
  {
    ghost var outside := AllAmbulances(Fleets(others));
    forall a | a in outside
      ensures a !in morgue.ambulances
    {
      var k :| 0 <= k < |others| && a in Fleets(others)[k];
    }
    buried, round, s, h := Sparing(morgue, people, time, speed, pick, advance, corpses, outside);
    assert unchanged(others);
    OthersStand(others);
  }

  /** `Updating`, which leaves the ambulances `outside` the morgue as they were. */
  method Sparing(morgue: Morgue, people: PersonList, time: real, speed: real, pick: real, advance: Advance,
                 ghost corpses: seq<Person>, ghost outside: set<Ambulance>)
    returns (buried: nat, ghost round: Round, ghost s: Standing, ghost h: Holding)
    requires morgue.Valid() && IsDraw(pick) && corpses == Corpses(people.items)
    requires forall a :: a in outside ==> a !in morgue.ambulances
    modifies morgue, morgue.ambulances, Targets(morgue.ambulances)`isBeingCollected, people.items`isBeingCollected, people`items
    ensures morgue.Valid() && s == StandingOf(morgue) && h == old(HoldingOf(morgue))
    ensures Turn(round, s, h, corpses, morgue, time, pick, speed, advance) && buried == round.count
    ensures round.before.people == old(people.items) && round.after == people.items
    ensures multiset(people.items) <= multiset(old(people.items))
    ensures forall q :: q in old(people.items) ==> q.isBeingCollected == (old(q.isBeingCollected) || q in Reached(round))
    ensures forall q :: q in old(people.items) ==> q.Unflagged() == old(q.Unflagged())
    ensures unchanged(outside)
    ensures forall a :: a in morgue.ambulances ==> a in old(morgue.ambulances) || fresh(a)
  {
    buried, round, s, h := Updating(morgue, people, time, speed, pick, advance, corpses);
  }

  /** `UpdatingMorgue` without the other morgues. */
  method Updating(morgue: Morgue, people: PersonList, time: real, speed: real, pick: real, advance: Advance,
                  ghost corpses: seq<Person>)
    returns (buried: nat, ghost round: Round, ghost s: Standing, ghost h: Holding)
    requires morgue.Valid() && IsDraw(pick) && corpses == Corpses(people.items)
    modifies morgue, morgue.ambulances, Targets(morgue.ambulances)`isBeingCollected, people.items`isBeingCollected, people`items
    ensures morgue.Valid() && s == StandingOf(morgue) && h == old(HoldingOf(morgue))
    ensures Turn(round, s, h, corpses, morgue, time, pick, speed, advance) && buried == round.count
    ensures round.before.people == old(people.items) && round.after == people.items
    ensures multiset(people.items) <= multiset(old(people.items))
    ensures forall q :: q in old(people.items) ==> q.isBeingCollected == (old(q.isBeingCollected) || q in Reached(round))
    ensures forall q :: q in old(people.items) ==> q.Unflagged() == old(q.Unflagged())
    ensures forall a :: a in morgue.ambulances ==> a in old(morgue.ambulances) || fresh(a)
  {
    h := HoldingOf(morgue);
    ghost var last := h.last;
    ghost var before, routes;
    buried, before, routes := morgue.Update(time, people, speed, pick, advance);
    var targets := Targets(morgue.ambulances);
    ghost var views := Views(morgue.ambulances);
    ghost var dispatched := |corpses| > 0 && time - last > morgue.ambulanceCooldown;
    assert |targets| == |h.kept| + (if dispatched then 1 else 0);
    assert StartsFrom(before, h.views, morgue.x, morgue.y);
    if dispatched {
      assert targets[|h.kept|] == corpses[PickIndex(pick, |corpses|)];
      assert routes[|h.kept|] == morgue.ambulances[|h.kept|].Course();
    }
    round := Round(targets, before, routes, buried, people.items, last, h.views, corpses, morgue.lastAmbulanceTime, views);
    UpdatedRound(round, advance);
    s := StandingOf(morgue);
  }

  /**
   * The morgues `others` and their ambulances stand as they stood while
   * their fields, their ambulances and their corpses' positions are as they were.
   */
  twostate lemma OthersStand(others: seq<Morgue>)
    requires unchanged(others) && unchanged(AllAmbulances(Fleets(others)))
    requires unchanged(AllTargets(Fleets(others))`x, AllTargets(Fleets(others))`y)
    ensures forall k :: 0 <= k < |others| ==> StandingOf(others[k]) == old(StandingOf(others[k]))
  {
    forall k | 0 <= k < |others|
      ensures StandingOf(others[k]) == old(StandingOf(others[k]))
    {
      var fleet := others[k].ambulances;
      InFleets(Fleets(others), k);
      forall i | 0 <= i < |fleet|
        ensures fleet[i].View() == old(fleet[i].View()) && fleet[i].Course() == old(fleet[i].Course())
      {
        assert fleet[i] in fleet && fleet[i].target in Targets(fleet);
      }
      assert Views(fleet) == old(Views(fleet));
      assert Routes(fleet) == old(Routes(fleet));
    }
  }


}
