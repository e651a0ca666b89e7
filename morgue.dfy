/**
 * The morgues and their ambulances. A morgue prunes its finished ambulances,
 * dispatches at most one new ambulance per update to a corpse nobody is
 * collecting yet, and then updates every ambulance once. An ambulance drives
 * to its corpse, collects it for 2000 ms of 16 ms updates, drives back, and on
 * arrival reports one burial and splices the corpse out of the population.
 */
module Mortuary {
  import opened Config
  import opened Zones
  import opened Agent
  import opened Population

  datatype AmbulanceState = Going | Collecting | Returning

  /** The order in which the states are visited. */
  function Rank(s: AmbulanceState): nat {
    match s
    case Going => 0
    case Collecting => 1
    case Returning => 2
  }

  /** `collectionDuration`, and the time one update adds while collecting. */
  const CollectionDuration: int := 2000
  const CollectionTick: int := 16

  /** An ambulance has arrived when it is strictly closer than this. */
  const ArrivalDistance: real := 5.0

  /**
   * The unit-vector step `x += dx / distance * speed` towards a point, given
   * as (x, y, towardX, towardY, speed) to the new position; left abstract.
   */
  type Advance = (real, real, real, real, real) -> (real, real)

  /** Where an ambulance starts and returns to, where its corpse lies, and its speed. */
  datatype Route = Route(startX: real, startY: real, targetX: real, targetY: real, speed: real)

  /** The fields of an `Ambulance` that its update changes. */
  datatype AmbulanceView = AmbulanceView(
    x: real, y: real, state: AmbulanceState, collectionTime: int, isDone: bool, hasBuried: bool)

  /** A new ambulance: at the morgue, going, nothing collected and nothing buried. */
  function Launched(startX: real, startY: real): AmbulanceView {
    AmbulanceView(startX, startY, Going, 0, false, false)
  }

  predicate Arrived(x: real, y: real, toX: real, toY: real) {
    WithinRadius(toX - x, toY - y, ArrivalDistance)
  }

  /** The update reaches the corpse: it is marked as being collected. */
  predicate Claims(v: AmbulanceView, route: Route) {
    v.state == Going && Arrived(v.x, v.y, route.targetX, route.targetY)
  }

  /** The update is back at the morgue and has not buried yet: `onBuried` fires and the splice runs. */
  predicate Buries(v: AmbulanceView, route: Route) {
    v.state == Returning && Arrived(v.x, v.y, route.startX, route.startY) && !v.hasBuried
  }

  /** `Ambulance.update` on the view. */
  function Stepped(v: AmbulanceView, route: Route, advance: Advance): AmbulanceView {
    match v.state
    case Going =>
      if Arrived(v.x, v.y, route.targetX, route.targetY) then v.(state := Collecting)
      else
        var (x, y) := advance(v.x, v.y, route.targetX, route.targetY, route.speed);
        v.(x := x, y := y)
    case Collecting =>
      var t := v.collectionTime + CollectionTick;
      if t >= CollectionDuration then v.(collectionTime := t, state := Returning)
      else v.(collectionTime := t)
    case Returning =>
      if Arrived(v.x, v.y, route.startX, route.startY) then v.(isDone := true, hasBuried := true)
      else
        var (x, y) := advance(v.x, v.y, route.startX, route.startY, route.speed);
        v.(x := x, y := y)
  }

  /**
   * What every ambulance satisfies: the collection timer only runs while
   * collecting and has reached the duration exactly when returning; only a
   * returning ambulance is done, and it is done exactly when it has buried.
   */
  predicate Consistent(v: AmbulanceView) {
    && 0 <= v.collectionTime
    && v.collectionTime % CollectionTick == 0
    && (v.state == Going ==> v.collectionTime == 0)
    && (v.state == Returning <==> v.collectionTime >= CollectionDuration)
    && (v.isDone ==> v.state == Returning)
    && (v.isDone <==> v.hasBuried)
  }

  /** `n` updates in a row. */
  function Repeat(v: AmbulanceView, route: Route, advance: Advance, n: nat): AmbulanceView {
    if n == 0 then v else Stepped(Repeat(v, route, advance, n - 1), route, advance)
  }

  /** How many of those `n` updates fired `onBuried`. */
  function Burials(v: AmbulanceView, route: Route, advance: Advance, n: nat): nat {
    if n == 0 then 0
    else Burials(v, route, advance, n - 1) + if Buries(Repeat(v, route, advance, n - 1), route) then 1 else 0
  }

  class Ambulance {
    const startX: real
    const startY: real
    const target: Person
    const speed: real
    var x: real
    var y: real
    var state: AmbulanceState
    var collectionTime: int
    var isDone: bool
    var hasBuried: bool

    function View(): AmbulanceView
      reads this
    {
      AmbulanceView(x, y, state, collectionTime, isDone, hasBuried)
    }

    function Course(): Route
      reads target`x, target`y
    {
      Route(startX, startY, target.x, target.y, speed)
    }

    constructor (startX: real, startY: real, target: Person, speed: real)
      ensures View() == Launched(startX, startY)
      ensures this.startX == startX && this.startY == startY && this.target == target && this.speed == speed
    {
      this.startX := startX;
      this.startY := startY;
      this.target := target;
      this.speed := speed;
      x := startX;
      y := startY;
      state := Going;
      collectionTime := 0;
      isDone := false;
      hasBuried := false;
    }

    /**
     * One update. Returns whether `onBuried` was called; the corpse is marked
     * on arrival at it and spliced out of `people` on the burial.
     */
    method Update(people: PersonList, advance: Advance) returns (buried: bool)
      modifies this, target`isBeingCollected, people`items
      ensures View() == Stepped(old(View()), old(Course()), advance)
      ensures target.isBeingCollected == (old(target.isBeingCollected) || Claims(old(View()), old(Course())))
      ensures buried == Buries(old(View()), old(Course()))
      ensures people.items == if buried then Spliced(old(people.items), target) else old(people.items)
      ensures forall q: Person :: old(allocated(q)) ==> q.Unflagged() == old(q.Unflagged())
    {
      buried := false;
      if state == Going {
        if Arrived(x, y, target.x, target.y) {
          state := Collecting;
          target.isBeingCollected := true;
        } else {
          var (nx, ny) := advance(x, y, target.x, target.y, speed);
          x, y := nx, ny;
        }
      } else if state == Collecting {
        collectionTime := collectionTime + CollectionTick;
        if collectionTime >= CollectionDuration {
          state := Returning;
        }
      } else {
        if Arrived(x, y, startX, startY) {
          isDone := true;
          if !hasBuried {
            buried := true;
            hasBuried := true;
            people.Remove(target);
          }
        } else {
          var (nx, ny) := advance(x, y, startX, startY, speed);
          x, y := nx, ny;
        }
      }
    }
  }

  /**
   * What one round of `ambulances.forEach(ambulance => ambulance.update(people))`
   * works on, as values: the views of the ambulances, the `isBeingCollected`
   * flags of their corpses (by ambulance position), the population, and how
   * many times `onBuried` was called.
   */
  datatype Fleet = Fleet(views: seq<AmbulanceView>, flags: seq<bool>, people: seq<Person>, burials: nat)

  /** A fleet with one view and one flag per ambulance. */
  predicate Fits(f: Fleet, targets: seq<Person>, routes: seq<Route>) {
    |f.views| == |targets| && |f.flags| == |targets| && |routes| == |targets|
  }

  /** The flags with every position whose corpse is `t` set. */
  function Marked(flags: seq<bool>, targets: seq<Person>, t: Person): (m: seq<bool>)
    requires |flags| == |targets|
    ensures |m| == |flags|
  {
    seq(|flags|, k requires 0 <= k < |flags| => flags[k] || targets[k] == t)
  }

  /**
   * `ambulances[i].update(people)`: the ambulance steps; reaching the corpse
   * sets its flag; burying it splices it out of the population and counts.
   */
  function UpdatedOne(f: Fleet, targets: seq<Person>, routes: seq<Route>, advance: Advance, i: nat): (g: Fleet)
    requires Fits(f, targets, routes) && i < |targets|
    ensures Fits(g, targets, routes)
  {
    var v := f.views[i];
    var buried := Buries(v, routes[i]);
    Fleet(f.views[i := Stepped(v, routes[i], advance)],
          if Claims(v, routes[i]) then Marked(f.flags, targets, targets[i]) else f.flags,
          if buried then Spliced(f.people, targets[i]) else f.people,
          if buried then f.burials + 1 else f.burials)
  }

  /** The updates of the first `n` ambulances, in array order. */
  function UpdatedAll(f: Fleet, targets: seq<Person>, routes: seq<Route>, advance: Advance, n: nat): (g: Fleet)
    requires Fits(f, targets, routes) && n <= |targets|
    ensures Fits(g, targets, routes)
  {
    if n == 0 then f else UpdatedOne(UpdatedAll(f, targets, routes, advance, n - 1), targets, routes, advance, n - 1)
  }

  /** Each ambulance is updated exactly once, from the view it had before the round. */
  lemma {:induction false} UpdatedAllViews(f: Fleet, targets: seq<Person>, routes: seq<Route>, advance: Advance, n: nat)
    requires Fits(f, targets, routes) && n <= |targets|
    ensures forall k :: 0 <= k < |targets| ==>
      UpdatedAll(f, targets, routes, advance, n).views[k] == if k < n then Stepped(f.views[k], routes[k], advance) else f.views[k]
  {
    if n > 0 {
      UpdatedAllViews(f, targets, routes, advance, n - 1);
    }
  }

  /** The corpses buried by one update of each of the first `n` ambulances, in ambulance order. */
  function BuriedTargets(targets: seq<Person>, views: seq<AmbulanceView>, routes: seq<Route>, n: nat): (r: seq<Person>)
    requires |views| == |targets| && |routes| == |targets| && n <= |targets|
    ensures |r| <= n
  {
    if n == 0 then []
    else BuriedTargets(targets, views, routes, n - 1) + if Buries(views[n - 1], routes[n - 1]) then [targets[n - 1]] else []
  }

  /** Only corpses of those ambulances are buried, each by an ambulance whose update buries. */
  lemma {:induction false} BuriedTargetsAreBuried(targets: seq<Person>, views: seq<AmbulanceView>, routes: seq<Route>, n: nat)
    requires |views| == |targets| && |routes| == |targets| && n <= |targets|
    ensures forall q :: q in BuriedTargets(targets, views, routes, n) ==>
      exists j :: 0 <= j < n && targets[j] == q && Buries(views[j], routes[j])
  {
    if n > 0 {
      BuriedTargetsAreBuried(targets, views, routes, n - 1);
    }
  }

  /**
   * The round splices out, in ambulance order, the corpse of every ambulance
   * whose update buries, and calls `onBuried` once for each.
   */
  lemma {:induction false} UpdatedAllBuries(f: Fleet, targets: seq<Person>, routes: seq<Route>, advance: Advance, n: nat)
    requires Fits(f, targets, routes) && n <= |targets|
    ensures UpdatedAll(f, targets, routes, advance, n).people == SplicedAll(f.people, BuriedTargets(targets, f.views, routes, n))
    ensures UpdatedAll(f, targets, routes, advance, n).burials == f.burials + |BuriedTargets(targets, f.views, routes, n)|
  {
    if n > 0 {
      UpdatedAllBuries(f, targets, routes, advance, n - 1);
      UpdatedAllViews(f, targets, routes, advance, n - 1);
      var done := BuriedTargets(targets, f.views, routes, n - 1);
      if Buries(f.views[n - 1], routes[n - 1]) {
        assert BuriedTargets(targets, f.views, routes, n) == done + [targets[n - 1]];
        SplicedAllSnoc(f.people, done, targets[n - 1]);
      } else {
        assert BuriedTargets(targets, f.views, routes, n) == done;
      }
    }
  }

  /**
   * After the round a corpse's flag is set exactly when it was set before or
   * some ambulance sent to that corpse reached it during the round.
   */
  lemma {:induction false} UpdatedAllFlags(f: Fleet, targets: seq<Person>, routes: seq<Route>, advance: Advance, n: nat, k: nat)
    requires Fits(f, targets, routes) && n <= |targets| && k < |targets|
    ensures UpdatedAll(f, targets, routes, advance, n).flags[k] <==>
      f.flags[k] || exists j :: 0 <= j < n && targets[j] == targets[k] && Claims(f.views[j], routes[j])
  {
    if n > 0 {
      UpdatedAllFlags(f, targets, routes, advance, n - 1, k);
      UpdatedAllViews(f, targets, routes, advance, n - 1);
    }
  }

  /** The corpses that the ambulances with views `views` reach in their update, which marks them as being collected. */
  function ReachedBy(targets: seq<Person>, views: seq<AmbulanceView>, routes: seq<Route>): set<Person> {
    set k | 0 <= k < |targets| && k < |views| && k < |routes| && Claims(views[k], routes[k]) :: targets[k]
  }

  /**
   * After the round a corpse's flag is set exactly when it was set before or
   * the corpse is one that an ambulance of the round reached.
   */
  lemma UpdatedAllReached(f: Fleet, targets: seq<Person>, routes: seq<Route>, advance: Advance, k: nat)
    requires Fits(f, targets, routes) && k < |targets|
    ensures UpdatedAll(f, targets, routes, advance, |targets|).flags[k] == (f.flags[k] || targets[k] in ReachedBy(targets, f.views, routes))
  {
    UpdatedAllFlags(f, targets, routes, advance, |targets|, k);
  }

  /** The views of a list of ambulances. */
  function Views(ambulances: seq<Ambulance>): (vs: seq<AmbulanceView>)
    reads ambulances
    ensures |vs| == |ambulances|
    ensures forall k {:trigger vs[k]} :: 0 <= k < |ambulances| ==> vs[k] == ambulances[k].View()
  {
    if ambulances == [] then [] else [ambulances[0].View()] + Views(ambulances[1..])
  }

  /** The corpses of a list of ambulances. */
  function Targets(ambulances: seq<Ambulance>): (ts: seq<Person>)
    ensures |ts| == |ambulances|
    ensures forall k :: 0 <= k < |ambulances| ==> ts[k] == ambulances[k].target
  {
    seq(|ambulances|, k requires 0 <= k < |ambulances| => ambulances[k].target)
  }

  /** The routes of a list of ambulances. */
  function Routes(ambulances: seq<Ambulance>): (rs: seq<Route>)
    reads Targets(ambulances)`x, Targets(ambulances)`y
    ensures |rs| == |ambulances|
    ensures forall k {:trigger rs[k]} :: 0 <= k < |ambulances| ==> rs[k] == ambulances[k].Course()
  {
    if ambulances == [] then [] else [ambulances[0].Course()] + Routes(ambulances[1..])
  }

  /** The routes of ambulances whose courses are `routes` are `routes`. */
  lemma {:induction false} RoutesAre(ambulances: seq<Ambulance>, routes: seq<Route>)
    requires |routes| == |ambulances| && forall k :: 0 <= k < |ambulances| ==> ambulances[k].Course() == routes[k]
    ensures Routes(ambulances) == routes
  {
    if ambulances != [] {
      RoutesAre(ambulances[1..], routes[1..]);
    }
  }

  /** The `isBeingCollected` flags of a list of persons. */
  function Flags(people: seq<Person>): (fs: seq<bool>)
    reads people
    ensures |fs| == |people|
    ensures forall k {:trigger fs[k]} :: 0 <= k < |people| ==> fs[k] == people[k].isBeingCollected
  {
    seq(|people|, k reads people requires 0 <= k < |people| => people[k].isBeingCollected)
  }

  /** The ambulances, their corpses and the population hold the values of the fleet. */
  predicate Mirrors(ambulances: seq<Ambulance>, targets: seq<Person>, routes: seq<Route>, people: PersonList, f: Fleet)
    reads ambulances, Targets(ambulances), targets, people
  {
    && Fits(f, targets, routes) && |ambulances| == |targets|
    && (forall k :: 0 <= k < |ambulances| ==> ambulances[k].View() == f.views[k] && ambulances[k].Course() == routes[k])
    && (forall k :: 0 <= k < |targets| ==> targets[k].isBeingCollected == f.flags[k])
    && people.items == f.people
  }

  /**
   * The persons `items` that are not among `targets` still have the flags
   * `flags` they had.
   */
  predicate Kept(items: seq<Person>, flags: seq<bool>, targets: seq<Person>)
    reads items
  {
    && |flags| == |items|
    && forall k :: 0 <= k < |items| && items[k] !in targets ==> items[k].isBeingCollected == flags[k]
  }

  /**
   * `this.ambulances.forEach(ambulance => ambulance.update(people))`; returns
   * how many times `onBuried` was called.
   */
  method UpdateAll(ambulances: seq<Ambulance>, people: PersonList, advance: Advance,
                   ghost targets: seq<Person>, ghost routes: seq<Route>, ghost f: Fleet, ghost flags: seq<bool>)
    returns (burials: nat)
    requires Distinct(ambulances) && targets == Targets(ambulances)
    requires Mirrors(ambulances, targets, routes, people, f) && f.burials == 0
    requires Kept(f.people, flags, targets)
    modifies ambulances, targets`isBeingCollected, people`items
    ensures Mirrors(ambulances, targets, routes, people, UpdatedAll(f, targets, routes, advance, |ambulances|))
    ensures burials == UpdatedAll(f, targets, routes, advance, |ambulances|).burials
    ensures Kept(f.people, flags, targets)
  {
    DistinctPairs(ambulances);
    burials := 0;
    var i := 0;
    while i != |ambulances|
      invariant 0 <= i <= |ambulances|
      invariant Mirrors(ambulances, targets, routes, people, UpdatedAll(f, targets, routes, advance, i))
      invariant burials == UpdatedAll(f, targets, routes, advance, i).burials
      invariant Kept(f.people, flags, targets)
    {
      burials := UpdateOne(ambulances, i, people, advance, targets, routes, UpdatedAll(f, targets, routes, advance, i), burials,
                           f.people, flags);
      i := i + 1;
    }
  }

  /** The `i`-th call of the `forEach`, on the objects. */
  method UpdateOne(ambulances: seq<Ambulance>, i: nat, people: PersonList, advance: Advance,
                   ghost targets: seq<Person>, ghost routes: seq<Route>, ghost f: Fleet, burials: nat,
                   ghost items: seq<Person>, ghost flags: seq<bool>)
    returns (burials': nat)
    requires (forall a, b :: 0 <= a < b < |ambulances| ==> ambulances[a] != ambulances[b])
    requires i < |ambulances| && targets == Targets(ambulances)
    requires Mirrors(ambulances, targets, routes, people, f) && burials == f.burials
    requires Kept(items, flags, targets)
    modifies ambulances[i], {targets[i]}`isBeingCollected, people`items
    ensures Mirrors(ambulances, targets, routes, people, UpdatedOne(f, targets, routes, advance, i))
    ensures burials' == UpdatedOne(f, targets, routes, advance, i).burials
    ensures Kept(items, flags, targets)
  {
    var buried := ambulances[i].Update(people, advance);
    burials' := if buried then burials + 1 else burials;
  }

  /** A corpse that no ambulance has reached yet. */
  predicate Eligible(s: PersonState) {
    s.status == Deceased && !s.isBeingCollected
  }

  /** `people.filter(p => p.status === 'deceased' && !p.isBeingCollected)`. */
  function Corpses(people: seq<Person>): (r: seq<Person>)
    reads people
    ensures |r| <= |people|
  {
    if people == [] then []
    else (if Eligible(people[0].State()) then [people[0]] else []) + Corpses(people[1..])
  }

  /** The corpses are exactly the persons of `people` that are dead and not being collected. */
  lemma {:induction false} CorpsesAre(people: seq<Person>)
    ensures forall k :: 0 <= k < |Corpses(people)| ==> Corpses(people)[k] in people && Eligible(Corpses(people)[k].State())
    ensures forall k :: 0 <= k < |people| && Eligible(people[k].State()) ==> people[k] in Corpses(people)
  {
    if people != [] {
      var rest := people[1..];
      CorpsesAre(rest);
      var head := if Eligible(people[0].State()) then [people[0]] else [];
      var r := Corpses(people);
      assert r == head + Corpses(rest);
      forall k | 0 <= k < |r|
        ensures r[k] in people && Eligible(r[k].State())
      {
        if k >= |head| {
          assert r[k] == Corpses(rest)[k - |head|] && r[k] in rest;
        }
      }
      forall k | 0 <= k < |people| && Eligible(people[k].State())
        ensures people[k] in r
      {
        if k > 0 {
          assert people[k] == rest[k - 1];
        }
      }
    }
  }

  /** `ambulances.filter(a => !a.isDone)`. */
  function Undone(ambulances: seq<Ambulance>): (r: seq<Ambulance>)
    reads ambulances
    ensures forall k :: 0 <= k < |r| ==> r[k] in ambulances && !r[k].isDone
  {
    if ambulances == [] then []
    else
      var rest := Undone(ambulances[1..]);
      (if ambulances[0].isDone then [] else [ambulances[0]]) + rest
  }

  /** Every ambulance that is not done is kept. */
  lemma {:induction false} UndoneKeeps(ambulances: seq<Ambulance>)
    ensures forall k :: 0 <= k < |ambulances| && !ambulances[k].isDone ==> ambulances[k] in Undone(ambulances)
  {
    if ambulances != [] {
      var rest := ambulances[1..];
      UndoneKeeps(rest);
      forall k | 0 <= k < |ambulances| && !ambulances[k].isDone
        ensures ambulances[k] in Undone(ambulances)
      {
        if k > 0 {
          assert ambulances[k] == rest[k - 1];
        }
      }
    }
  }

  /** Pruning a fleet without repetitions leaves one without repetitions. */
  lemma {:induction false} UndoneDistinct(ambulances: seq<Ambulance>)
    requires Distinct(ambulances)
    ensures Distinct(Undone(ambulances))
  {
    if ambulances != [] {
      var rest := ambulances[1..];
      DistinctPairs(ambulances);
      assert forall i, j :: 0 <= i < j < |rest| ==> rest[i] == ambulances[i + 1] && rest[j] == ambulances[j + 1];
      PairwiseDistinct(rest);
      UndoneDistinct(rest);
      if !ambulances[0].isDone {
        var r := [ambulances[0]] + Undone(rest);
        DistinctPairs(Undone(rest));
        assert forall j :: 0 < j < |r| ==> r[j] == Undone(rest)[j - 1] && r[j] in rest;
        PairwiseDistinct(r);
      } else {
        assert Undone(ambulances) == Undone(rest);
      }
    }
  }

  /** `Math.floor(r * n)` for a draw `r`: a position in a list of `n` elements. */
  function PickIndex(r: real, n: nat): (i: nat)
    requires IsDraw(r) && 0 < n
    ensures i < n
  {
    var nr := n as real;
    var scaled := r * nr;
    assert 0.0 <= scaled < nr by {
      NonNegativeProduct(r, nr);
      PositiveProduct(1.0 - r, nr);
      assert (1.0 - r) * nr == nr - r * nr;
    }
    scaled.Floor
  }

  /**
   * Of the persons `items`, whose flags were `flags`, exactly those in
   * `reached` have been marked as being collected since.
   */
  predicate Marks(items: seq<Person>, flags: seq<bool>, reached: set<Person>)
    reads items
  {
    && |flags| == |items|
    && forall k :: 0 <= k < |items| ==> items[k].isBeingCollected == (flags[k] || items[k] in reached)
  }

  /**
   * Each person of `items` that is the corpse of some ambulance had the flag
   * `flags` gives it, which is also the flag `tflags` gives the first
   * ambulance going to it.
   */
  predicate Agree(items: seq<Person>, flags: seq<bool>, targets: seq<Person>, tflags: seq<bool>)
    requires |flags| == |items| && |tflags| == |targets|
  {
    items == [] ||
    ((items[0] in targets ==> tflags[IndexOf(targets, items[0])] == flags[0]) &&
     Agree(items[1..], flags[1..], targets, tflags))
  }

  /** The flags of persons and of corpses, read at the same time, agree. */
  lemma {:induction false} FlagsAgree(items: seq<Person>, targets: seq<Person>)
    ensures Agree(items, Flags(items), targets, Flags(targets))
  {
    if items != [] {
      FlagsAgree(items[1..], targets);
      assert Flags(items)[1..] == Flags(items[1..]);
    }
  }

  /** What `Agree` says of the person at position `k`. */
  lemma {:induction false} AgreeAt(items: seq<Person>, flags: seq<bool>, targets: seq<Person>, tflags: seq<bool>, k: nat)
    requires |flags| == |items| && |tflags| == |targets| && Agree(items, flags, targets, tflags) && k < |items|
    ensures items[k] in targets ==> tflags[IndexOf(targets, items[k])] == flags[k]
  {
    if k > 0 {
      AgreeAt(items[1..], flags[1..], targets, tflags, k - 1);
    }
  }

  /** `morgue` is none of `others` and shares no ambulance with them. */
  predicate Apart(morgue: Morgue, others: seq<Morgue>)
    reads morgue, others
  {
    && morgue !in others
    && forall k, a :: 0 <= k < |others| && a in others[k].ambulances ==> a !in morgue.ambulances
  }

  /** The fields of the ambulance `a` that its view shows are as they were. */
  twostate predicate Still(a: Ambulance)
    reads a
  {
    && a.x == old(a.x) && a.y == old(a.y) && a.state == old(a.state)
    && a.collectionTime == old(a.collectionTime) && a.isDone == old(a.isDone) && a.hasBuried == old(a.hasBuried)
  }

  class Morgue {
    const id: int
    const x: real
    const y: real
    const ambulanceCooldown: real
    var ambulances: seq<Ambulance>
    var lastAmbulanceTime: real

    /** The morgue holds each of its ambulances once. */
    predicate Valid()
      reads this
    {
      Distinct(ambulances)
    }

    constructor (id: int, x: real, y: real, p: Params)
      ensures Valid()
      ensures this.id == id && this.x == x && this.y == y
      ensures ambulances == [] && lastAmbulanceTime == 0.0
      ensures ambulanceCooldown == p.morgueCollectionInterval
    {
      this.id := id;
      this.x := x;
      this.y := y;
      ambulances := [];
      lastAmbulanceTime := 0.0;
      ambulanceCooldown := p.morgueCollectionInterval;
    }

    /**
     * The dispatch half of `update` as it leaves the morgue: the ambulances
     * that were not done are kept, in order, and when there is a corpse that
     * nobody is collecting and more than the cooldown has passed since the
     * last dispatch, `time` becomes the last dispatch and one new ambulance
     * goes from the morgue, at collection speed `speed`, to the corpse the
     * draw `pick` selects.
     */
    twostate predicate Dispatched(time: real, people: PersonList, speed: real, pick: real)
      reads this
    {
      var kept := old(Undone(ambulances));
      var corpses := old(Corpses(people.items));
      var dispatched := |corpses| > 0 && time - old(lastAmbulanceTime) > ambulanceCooldown;
      && IsDraw(pick)
      && lastAmbulanceTime == (if dispatched then time else old(lastAmbulanceTime))
      && |ambulances| == |kept| + (if dispatched then 1 else 0)
      && ambulances[..|kept|] == kept
      && (forall a :: a in ambulances ==> a in old(ambulances) || fresh(a))
      && (dispatched ==>
            && fresh(ambulances[|kept|])
            && ambulances[|kept|].target == corpses[PickIndex(pick, |corpses|)]
            && ambulances[|kept|].startX == x && ambulances[|kept|].startY == y
            && ambulances[|kept|].speed == speed)
    }

    /**
     * `views` are what the ambulances of the morgue showed before the update:
     * those that were not done as they were, and a new one at the morgue.
     */
    twostate predicate StartsWith(views: seq<AmbulanceView>)
    {
      var kept := old(Undone(ambulances));
      && |kept| <= |views| <= |kept| + 1
      && (forall k :: 0 <= k < |kept| ==> views[k] == old(kept[k].View()))
      && (|views| > |kept| ==> views[|kept|] == Launched(x, y))
    }

    /**
     * The round of the ambulances, from the fleet `before` along `routes`,
     * left the ambulances, the population and the count of burials as
     * `UpdatedAll` says.
     */
    ghost predicate Leaves(people: PersonList, advance: Advance, before: Fleet, routes: seq<Route>, burials: nat)
      reads this, ambulances, Targets(ambulances), people
    {
      && Valid()
      && Fits(before, Targets(ambulances), routes) && before.burials == 0
      && routes == Routes(ambulances)
      && var after := UpdatedAll(before, Targets(ambulances), routes, advance, |ambulances|);
        Views(ambulances) == after.views && people.items == after.people && burials == after.burials
    }

    /**
     * The first half of `update`: drop the ambulances that are done and, when
     * there is a corpse nobody is collecting and the cooldown has passed,
     * dispatch a new ambulance to the corpse the draw picks.
     */
    method Dispatch(time: real, people: PersonList, speed: real, pick: real)
      requires Valid() && IsDraw(pick)
      modifies this
      ensures Valid() && unchanged(people, people.items)
      ensures Flags(people.items) == old(Flags(people.items))
      ensures forall q: Person :: old(allocated(q)) ==> q.Unflagged() == old(q.Unflagged())
      ensures Dispatched(time, people, speed, pick)
      ensures StartsWith(Views(ambulances))
      ensures forall m: Morgue {:trigger m.ambulances} :: old(allocated(m)) && m != this ==>
                m.ambulances == old(m.ambulances) && m.lastAmbulanceTime == old(m.lastAmbulanceTime)
      ensures forall a: Ambulance {:trigger a.View()} :: old(allocated(a)) ==> a.View() == old(a.View())
    {
      Launch(time, people, speed, pick);
    }

    /** Keep the ambulances that are not done and dispatch one when the morgue may. */
    method Launch(time: real, people: PersonList, speed: real, pick: real)
      requires Valid() && IsDraw(pick)
      modifies this
      ensures Valid() && unchanged(people, people.items)
      ensures Dispatched(time, people, speed, pick)
      ensures StartsWith(Views(ambulances))
    {
      var corpses := Corpses(people.items);
      UndoneDistinct(ambulances);
      ambulances := Undone(ambulances);
      if |corpses| > 0 && time - lastAmbulanceTime > ambulanceCooldown {
        lastAmbulanceTime := time;
        var ambulance := new Ambulance(x, y, corpses[PickIndex(pick, |corpses|)], speed);
        DistinctSnoc(ambulances, ambulance);
        ambulances := ambulances + [ambulance];
      }
    }

    /**
     * `update(time, people, onBuried)` with the collection speed of the
     * current parameters and the draw that picks the corpse. Returns how many
     * times `onBuried` was called, and as ghost values the fleet the ambulance
     * round starts from and the ambulances' routes.
     */
    method Update(time: real, people: PersonList, speed: real, pick: real, advance: Advance)
      returns (burials: nat, ghost before: Fleet, ghost routes: seq<Route>)
      requires Valid() && IsDraw(pick)
      modifies this, ambulances, Targets(ambulances)`isBeingCollected, people.items`isBeingCollected, people`items
      ensures Dispatched(time, people, speed, pick)
      ensures StartsWith(before.views) && before.people == old(people.items)
      ensures Leaves(people, advance, before, routes, burials)
      ensures Marks(before.people, old(Flags(people.items)), ReachedBy(Targets(ambulances), before.views, routes))
      ensures forall q: Person :: old(allocated(q)) ==> q.Unflagged() == old(q.Unflagged())
      ensures forall m: Morgue {:trigger m.ambulances} :: old(allocated(m)) && m != this ==>
                m.ambulances == old(m.ambulances) && m.lastAmbulanceTime == old(m.lastAmbulanceTime)
      ensures forall a: Ambulance {:trigger a.View()} :: old(allocated(a)) && a !in old(ambulances) ==> a.View() == old(a.View())
    {
      ghost var kept := Undone(ambulances);
      CorpsesAre(people.items);
      Dispatch(time, people, speed, pick);
      TargetsWithin(ambulances, kept, old(ambulances), people.items);
      burials, before, routes := Round(people, advance);
    }

    /**
     * After a dispatch, every ambulance goes to the corpse of an ambulance the
     * morgue had or to a person of the population.
     */
    static lemma TargetsWithin(fleet: seq<Ambulance>, kept: seq<Ambulance>, had: seq<Ambulance>, people: seq<Person>)
      requires |kept| <= |fleet| <= |kept| + 1 && fleet[..|kept|] == kept
      requires forall a :: a in kept ==> a in had
      requires |fleet| > |kept| ==> fleet[|kept|].target in people
      ensures forall q :: q in Targets(fleet) ==> q in Targets(had) || q in people
    {
      forall q | q in Targets(fleet)
        ensures q in Targets(had) || q in people
      {
        var i :| 0 <= i < |fleet| && fleet[i].target == q;
        if i < |kept| {
          assert fleet[i] == kept[i] && kept[i] in kept;
          var j :| 0 <= j < |had| && had[j] == kept[i];
          assert Targets(had)[j] == q;
        }
      }
    }

    /**
     * Once the round has run, the ambulances, their corpses and the
     * population mirror what `UpdatedAll` says of the fleet `before`, and the
     * persons `before.people` that are not corpses of the ambulances kept
     * their flags `flags`: the round left them as `Leaves` says, and a person
     * is being collected exactly when it was or an ambulance reached it.
     */
    lemma Settles(people: PersonList, advance: Advance, before: Fleet, routes: seq<Route>, burials: nat, flags: seq<bool>)
      requires Valid() && Fits(before, Targets(ambulances), routes) && before.burials == 0
      requires Mirrors(ambulances, Targets(ambulances), routes, people,
                       UpdatedAll(before, Targets(ambulances), routes, advance, |ambulances|))
      requires burials == UpdatedAll(before, Targets(ambulances), routes, advance, |ambulances|).burials
      requires Kept(before.people, flags, Targets(ambulances))
      requires |flags| == |before.people| && Agree(before.people, flags, Targets(ambulances), before.flags)
      ensures Leaves(people, advance, before, routes, burials)
      ensures Marks(before.people, flags, ReachedBy(Targets(ambulances), before.views, routes))
    {
      var targets := Targets(ambulances);
      RoutesAre(ambulances, routes);
      forall k | 0 <= k < |before.people|
        ensures before.people[k].isBeingCollected == (flags[k] || before.people[k] in ReachedBy(targets, before.views, routes))
      {
        if before.people[k] in targets {
          AgreeAt(before.people, flags, targets, before.flags, k);
          UpdatedAllReached(before, targets, routes, advance, IndexOf(targets, before.people[k]));
        }
      }
    }

    /** Every ambulance of the morgue updates once, in order. */
    method Sweep(people: PersonList, advance: Advance)
      returns (burials: nat, ghost before: Fleet, ghost routes: seq<Route>)
      requires Valid()
      modifies ambulances, Targets(ambulances)`isBeingCollected, people`items
      ensures unchanged(this)
      ensures before.views == old(Views(ambulances)) && before.people == old(people.items)
      ensures Leaves(people, advance, before, routes, burials)
      ensures Marks(before.people, old(Flags(people.items)), ReachedBy(Targets(ambulances), before.views, routes))
    {
      ghost var targets := Targets(ambulances);
      ghost var flags := Flags(people.items);
      routes := Routes(ambulances);
      before := Fleet(Views(ambulances), Flags(targets), people.items, 0);
      FlagsAgree(before.people, targets);
      burials := UpdateAll(ambulances, people, advance, targets, routes, before, flags);
      Settles(people, advance, before, routes, burials, flags);
    }

    /** The second half of `update`: every ambulance updates once, in order. */
    method Round(people: PersonList, advance: Advance)
      returns (burials: nat, ghost before: Fleet, ghost routes: seq<Route>)
      requires Valid()
      modifies ambulances, Targets(ambulances)`isBeingCollected, people`items
      ensures unchanged(this)
      ensures before.views == old(Views(ambulances)) && before.people == old(people.items)
      ensures Leaves(people, advance, before, routes, burials)
      ensures Marks(before.people, old(Flags(people.items)), ReachedBy(Targets(ambulances), before.views, routes))
      ensures forall q: Person :: old(allocated(q)) ==> q.Unflagged() == old(q.Unflagged())
      ensures forall m: Morgue {:trigger m.ambulances} :: old(allocated(m)) ==>
                m.ambulances == old(m.ambulances) && m.lastAmbulanceTime == old(m.lastAmbulanceTime)
      ensures forall a: Ambulance {:trigger a.View()} :: old(allocated(a)) && a !in ambulances ==> a.View() == old(a.View())
    {
      burials, before, routes := Sweep(people, advance);
    }
  }
}
