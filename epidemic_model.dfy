/**
 * The older `EpidemicModel` class: a population built with its initial
 * infected, a four-way status count, and a frame step that scans every
 * unordered pair of persons once and lets an infected person infect a
 * healthy one closer than `infectionDistance`.
 *
 * `getInfectionRate`, which `Person` does not define, is a parameter, as is
 * the `Math.random()` result each pair's `handleInfection` may draw.
 */
module Epidemic {
  import opened Config
  import opened Zones
  import opened Agent
  import opened App
  import opened AppProperties

  /** The counters `updateStats` rebuilds. */
  datatype ModelStats = ModelStats(healthy: nat, infected: nat, recovered: nat, deceased: nat)

  /** `getInfectionRate()` of a person, for any rule that maps a person to a rate. */
  type InfectionRate = PersonState -> real

  /** A healthy person infected at frame `frameCount`. */
  function Caught(s: PersonState, frameCount: int): PersonState {
    s.(status := Infected, infectedSince := Some(frameCount as real))
  }

  /**
   * `handleInfection(p1, p2)` on the states of the pair: when exactly one of
   * them is infected and the other healthy, the healthy one is infected if
   * the draw falls below its infection rate.
   */
  function Contact(a: PersonState, b: PersonState, frameCount: int, draw: real, rate: InfectionRate): (r: (PersonState, PersonState))
    ensures r.0 == a || r.1 == b
    ensures r.1 != b <==> a.status == Infected && b.status == Healthy && draw < rate(b)
    ensures r.0 != a <==> b.status == Infected && a.status == Healthy && draw < rate(a)
    ensures r.1 != b ==> r.1 == Caught(b, frameCount)
    ensures r.0 != a ==> r.0 == Caught(a, frameCount)
  {
    if a.status == Infected && b.status == Healthy then
      (a, if draw < rate(b) then Caught(b, frameCount) else b)
    else if b.status == Infected && a.status == Healthy then
      (if draw < rate(a) then Caught(a, frameCount) else a, b)
    else (a, b)
  }

  /** The pairs `(i, j)` the inner loop of `checkCollisions` visits for row `i`, in order. */
  function Row(n: nat, i: nat): (r: seq<(nat, nat)>)
    ensures |r| == if i < n then n - i - 1 else 0
    ensures forall k :: 0 <= k < |r| ==> r[k] == (i, i + 1 + k)
  {
    if i < n then seq(n - i - 1, k requires 0 <= k => (i, i + 1 + k)) else []
  }

  /** The pairs the first `i` rows of `checkCollisions` visit, in order. */
  function Pairs(n: nat, i: nat): seq<(nat, nat)> {
    if i == 0 then [] else Pairs(n, i - 1) + Row(n, i - 1)
  }

  /** Row `i` follows the rows before it. */
  lemma PairsNext(n: nat, i: nat)
    ensures Pairs(n, i + 1) == Pairs(n, i) + Row(n, i)
  {
  }

  /** The loops of `checkCollisions` over `n` persons visit only pairs `i < j < n` of the rows begun. */
  lemma {:induction false} PairsBounded(n: nat, i: nat)
    requires i <= n
    ensures forall k :: 0 <= k < |Pairs(n, i)| ==> Pairs(n, i)[k].0 < i && Pairs(n, i)[k].0 < Pairs(n, i)[k].1 < n
  {
    if i > 0 {
      PairsBounded(n, i - 1);
      var before, row := Pairs(n, i - 1), Row(n, i - 1);
      var all := Pairs(n, i);
      assert all == before + row;
      forall k | 0 <= k < |all|
        ensures all[k].0 < i && all[k].0 < all[k].1 < n
      {
        if k < |before| {
          assert all[k] == before[k];
        } else {
          assert all[k] == row[k - |before|];
        }
      }
    }
  }

  /** The loops of `checkCollisions` over `n` persons visit every pair `i < j < n` of the rows begun. */
  lemma {:induction false} PairsCover(n: nat, i: nat)
    requires i <= n
    ensures forall a: nat, b: nat :: a < i && a < b < n ==> (a, b) in Pairs(n, i)
  {
    if i > 0 {
      PairsCover(n, i - 1);
      var before, row := Pairs(n, i - 1), Row(n, i - 1);
      assert Pairs(n, i) == before + row;
      forall a: nat, b: nat | a < i && a < b < n
        ensures (a, b) in Pairs(n, i)
      {
        if a == i - 1 {
          assert row[b - i] == (a, b);
        } else {
          assert (a, b) in before;
        }
      }
    }
  }

  /** The loops of `checkCollisions` visit no pair twice. */
  lemma {:induction false} PairsDistinct(n: nat, i: nat)
    requires i <= n
    ensures Distinct(Pairs(n, i))
  {
    if i > 0 {
      PairsDistinct(n, i - 1);
      DistinctPairs(Pairs(n, i - 1));
      PairsBounded(n, i - 1);
      var before, row := Pairs(n, i - 1), Row(n, i - 1);
      var all := Pairs(n, i);
      assert all == before + row;
      forall x, y | 0 <= x < y < |all|
        ensures all[x] != all[y]
      {
        if y < |before| {
          assert all[x] == before[x] && all[y] == before[y];
        } else if x < |before| {
          assert all[x] == before[x] && all[y] == row[y - |before|];
        } else {
          assert all[x] == row[x - |before|] && all[y] == row[y - |before|];
        }
      }
      PairwiseDistinct(all);
    }
  }

  /** Element `j - i - 1` of row `i` is the pair `(i, j)`. */
  lemma RowAt(n: nat, i: nat, j: nat)
    requires i < j < n
    ensures Row(n, i)[j - i - 1] == (i, j)
  {
  }

  /** The draws for one frame's pairs: one per ordered index pair. */
  predicate ValidPairDraws(draws: seq<seq<real>>, n: nat) {
    |draws| == n && forall i :: 0 <= i < n ==> |draws[i]| == n
  }

  /** One pair of the scan: `handleInfection` if the two are closer than `infectionDistance`. */
  function Met(ss: seq<PersonState>, pr: (nat, nat), frameCount: int, infectionDistance: real,
               draws: seq<seq<real>>, rate: InfectionRate): (r: seq<PersonState>)
    requires pr.0 < pr.1 < |ss| && ValidPairDraws(draws, |ss|)
    ensures |r| == |ss|
  {
    var (i, j) := pr;
    if WithinRadius(ss[i].x - ss[j].x, ss[i].y - ss[j].y, infectionDistance) then
      var c := Contact(ss[i], ss[j], frameCount, draws[i][j], rate);
      ss[i := c.0][j := c.1]
    else ss
  }

  predicate PairsIn(pairs: seq<(nat, nat)>, n: nat) {
    forall k :: 0 <= k < |pairs| ==> pairs[k].0 < pairs[k].1 < n
  }

  /** The states after the scan has met the pairs in order. */
  function Scan(ss: seq<PersonState>, pairs: seq<(nat, nat)>, frameCount: int, infectionDistance: real,
                draws: seq<seq<real>>, rate: InfectionRate): (r: seq<PersonState>)
    requires PairsIn(pairs, |ss|) && ValidPairDraws(draws, |ss|)
    ensures |r| == |ss|
  {
    if pairs == [] then ss
    else Met(Scan(ss, pairs[..|pairs| - 1], frameCount, infectionDistance, draws, rate), pairs[|pairs| - 1],
             frameCount, infectionDistance, draws, rate)
  }

  /** One more element of `row` extends the pairs met so far. */
  lemma PrefixNext<T>(done: seq<T>, row: seq<T>, m: nat)
    requires m < |row|
    ensures done + row[..m + 1] == done + row[..m] + [row[m]]
  {
    assert row[..m + 1] == row[..m] + [row[m]];
  }

  /** Meeting one more pair extends the scan. */
  lemma ScanNext(ss: seq<PersonState>, pairs: seq<(nat, nat)>, pr: (nat, nat), frameCount: int, infectionDistance: real,
                 draws: seq<seq<real>>, rate: InfectionRate)
    requires PairsIn(pairs, |ss|) && pr.0 < pr.1 < |ss| && ValidPairDraws(draws, |ss|)
    ensures PairsIn(pairs + [pr], |ss|)
    ensures Scan(ss, pairs + [pr], frameCount, infectionDistance, draws, rate)
         == Met(Scan(ss, pairs, frameCount, infectionDistance, draws, rate), pr, frameCount, infectionDistance, draws, rate)
  {
    assert (pairs + [pr])[..|pairs|] == pairs;
  }

  /**
   * The scan only infects: every person ends as it was, or was healthy and
   * is now infected since `frameCount`, with position and everything else
   * as before.
   */
  lemma {:induction false} ScanOnlyInfects(ss: seq<PersonState>, pairs: seq<(nat, nat)>, frameCount: int,
                                           infectionDistance: real, draws: seq<seq<real>>, rate: InfectionRate)
    requires PairsIn(pairs, |ss|) && ValidPairDraws(draws, |ss|)
    ensures var r := Scan(ss, pairs, frameCount, infectionDistance, draws, rate);
      forall k :: 0 <= k < |ss| ==> r[k] == ss[k] || (ss[k].status == Healthy && r[k] == Caught(ss[k], frameCount))
  {
    if pairs != [] {
      var prefix := pairs[..|pairs| - 1];
      ScanOnlyInfects(ss, prefix, frameCount, infectionDistance, draws, rate);
    }
  }

  /** Without an infected person the scan changes nobody. */
  lemma {:induction false} NoInfectedNoChange(ss: seq<PersonState>, pairs: seq<(nat, nat)>, frameCount: int,
                                              infectionDistance: real, draws: seq<seq<real>>, rate: InfectionRate)
    requires PairsIn(pairs, |ss|) && ValidPairDraws(draws, |ss|)
    requires forall k :: 0 <= k < |ss| ==> ss[k].status != Infected
    ensures Scan(ss, pairs, frameCount, infectionDistance, draws, rate) == ss
  {
    if pairs != [] {
      NoInfectedNoChange(ss, pairs[..|pairs| - 1], frameCount, infectionDistance, draws, rate);
    }
  }

  /** Closeness does not depend on the order of the two persons. */
  lemma WithinRadiusSymmetric(dx: real, dy: real, r: real)
    ensures WithinRadius(-dx, -dy, r) == WithinRadius(dx, dy, r)
  {
    assert (-dx) * (-dx) == dx * dx && (-dy) * (-dy) == dy * dy;
  }

  /** A person closer than `infectionDistance` to nobody is left as it was. */
  lemma {:induction false} IsolatedUnchanged(ss: seq<PersonState>, pairs: seq<(nat, nat)>, frameCount: int,
                                             infectionDistance: real, draws: seq<seq<real>>, rate: InfectionRate, k: nat)
    requires PairsIn(pairs, |ss|) && ValidPairDraws(draws, |ss|) && k < |ss|
    requires forall j :: 0 <= j < |ss| && j != k ==> !WithinRadius(ss[k].x - ss[j].x, ss[k].y - ss[j].y, infectionDistance)
    ensures Scan(ss, pairs, frameCount, infectionDistance, draws, rate)[k] == ss[k]
  {
    if pairs != [] {
      var prefix := pairs[..|pairs| - 1];
      IsolatedUnchanged(ss, prefix, frameCount, infectionDistance, draws, rate, k);
      ScanOnlyInfects(ss, prefix, frameCount, infectionDistance, draws, rate);
      var mid := Scan(ss, prefix, frameCount, infectionDistance, draws, rate);
      var (i, j) := pairs[|pairs| - 1];
      if i == k {
        assert mid[j].x == ss[j].x && mid[j].y == ss[j].y;
      } else if j == k {
        assert mid[i].x == ss[i].x && mid[i].y == ss[i].y;
        WithinRadiusSymmetric(ss[k].x - ss[i].x, ss[k].y - ss[i].y, infectionDistance);
        assert ss[i].x - ss[k].x == -(ss[k].x - ss[i].x) && ss[i].y - ss[k].y == -(ss[k].y - ss[i].y);
      }
    }
  }

  /** The `EpidemicModel` object. */
  class EpidemicModel {
    var people: seq<Person>
    var frameCount: int
    var stats: ModelStats

    /** Each person object appears once in `people`. */
    predicate Valid()
      reads this
    {
      Distinct(people)
    }

    /** `new EpidemicModel(paramsRef)`: no person, frame zero, all counters zero. */
    constructor ()
      ensures Valid() && people == [] && frameCount == 0 && stats == ModelStats(0, 0, 0, 0)
    {
      people := [];
      frameCount := 0;
      stats := ModelStats(0, 0, 0, 0);
    }

    /**
     * `initialize()`: `population` new persons (none when it is negative),
     * person `i` infected exactly when `i < initialInfected`, then the counters
     * and the frame counter reset.
     */
    method Initialize(p: Params, setups: seq<PersonSetup>)
      requires |setups| == ArrayLength(p.population)
      requires forall k :: 0 <= k < |setups| ==> ValidSetup(setups[k])
      modifies this
      ensures Valid() && |people| == |setups| && frameCount == 0
      ensures forall k :: 0 <= k < |people| ==> fresh(people[k]) && people[k].State() == Built(k, p, setups[k])
      ensures stats.infected == if p.initialInfected < 0 then 0 else if p.initialInfected < |people| then p.initialInfected else |people|
      ensures stats.healthy + stats.infected == |people| && stats.recovered == 0 && stats.deceased == 0
    {
      people := Populate(p, setups);
      UpdateStats();
      frameCount := 0;
      BuiltCounts(p, setups, States(people));
      StatusesPartition(States(people));
    }

    /** `updateStats()`: each counter is the number of persons with that status. */
    method UpdateStats()
      modifies this`stats
      ensures stats.healthy == Count(States(people), OfStatus(Healthy))
      ensures stats.infected == Count(States(people), OfStatus(Infected))
      ensures stats.recovered == Count(States(people), OfStatus(Recovered))
      ensures stats.deceased == Count(States(people), OfStatus(Deceased))
      ensures stats.healthy + stats.infected + stats.recovered + stats.deceased == |people|
    {
      ghost var ss := States(people);
      var t := ModelStats(0, 0, 0, 0);
      var i := 0;
      while i != |people|
        invariant 0 <= i <= |people|
        invariant t.healthy == Count(ss[..i], OfStatus(Healthy))
        invariant t.infected == Count(ss[..i], OfStatus(Infected))
        invariant t.recovered == Count(ss[..i], OfStatus(Recovered))
        invariant t.deceased == Count(ss[..i], OfStatus(Deceased))
      {
        assert ss[..i + 1][..i] == ss[..i];
        var status := people[i].status;
        if status == Healthy {
          t := t.(healthy := t.healthy + 1);
        } else if status == Infected {
          t := t.(infected := t.infected + 1);
        } else if status == Recovered {
          t := t.(recovered := t.recovered + 1);
        } else if status == Deceased {
          t := t.(deceased := t.deceased + 1);
        }
        i := i + 1;
      }
      assert ss[..i] == ss;
      stats := t;
      StatusesPartition(ss);
    }

    /** `handleInfection(p1, p2)` at the current frame. */
    method HandleInfection(p1: Person, p2: Person, draw: real, rate: InfectionRate)
      modifies p1, p2
      ensures (p1.State(), p2.State()) == Contact(old(p1.State()), old(p2.State()), frameCount, draw, rate)
    {
      if p1.status == Infected && p2.status == Healthy {
        if draw < rate(p2.State()) {
          p2.status := Infected;
          p2.infectedSince := Some(frameCount as real);
        }
      } else if p2.status == Infected && p1.status == Healthy {
        if draw < rate(p1.State()) {
          p1.status := Infected;
          p1.infectedSince := Some(frameCount as real);
        }
      }
    }

    /**
     * `checkCollisions()`: for every `i` and every `j > i`, in order,
     * `handleInfection(people[i], people[j])` when the two are closer than
     * `infectionDistance`.
     */
    method CheckCollisions(p: Params, draws: seq<seq<real>>, rate: InfectionRate)
      requires Valid() && ValidPairDraws(draws, |people|)
      modifies people
      ensures PairsIn(Pairs(|people|, |people|), |people|)
      ensures States(people) == Scan(old(States(people)), Pairs(|people|, |people|), frameCount, p.infectionDistance, draws, rate)
    {
      ghost var ss := States(people);
      var i := 0;
      assert ScannedTo(ss, 0, p.infectionDistance, draws, rate);
      while i != |people|
        invariant i <= |people| && ScannedTo(ss, i, p.infectionDistance, draws, rate)
      {
        CheckRow(i, ss, p.infectionDistance, draws, rate);
        i := i + 1;
      }
    }

    /** The scan has met every pair `(a, b)` with `a < i`, in loop order, starting from the states `ss`. */
    ghost predicate ScannedTo(ss: seq<PersonState>, i: nat, infectionDistance: real, draws: seq<seq<real>>, rate: InfectionRate)
      reads this, people
    {
      && |ss| == |people| && i <= |people| && ValidPairDraws(draws, |people|)
      && PairsIn(Pairs(|people|, i), |people|)
      && States(people) == Scan(ss, Pairs(|people|, i), frameCount, infectionDistance, draws, rate)
    }

    /** The inner loop of `checkCollisions` for row `i`: the pairs `(i, j)` for every `j > i`, in order. */
    method CheckRow(i: nat, ghost ss: seq<PersonState>, infectionDistance: real, draws: seq<seq<real>>, rate: InfectionRate)
      requires Valid() && i < |people| && ScannedTo(ss, i, infectionDistance, draws, rate)
      modifies people
      ensures ScannedTo(ss, i + 1, infectionDistance, draws, rate)
    {
      PairsNext(|people|, i);
      ghost var done := Pairs(|people|, i);
      ghost var row := Row(|people|, i);
      ghost var met := done;
      ghost var m := 0;
      assert done + row[..0] == done;
      var j := i + 1;
      while j != |people|
        invariant i + 1 <= j <= |people| && m == j - i - 1
        invariant met == done + row[..m]
        invariant PairsIn(met, |people|)
        invariant States(people) == Scan(ss, met, frameCount, infectionDistance, draws, rate)
      {
        MeetPair(i, j, ss, met, infectionDistance, draws, rate);
        PrefixNext(done, row, m);
        RowAt(|people|, i, j);
        met := met + [(i, j)];
        m, j := m + 1, j + 1;
      }
      assert row[..m] == row;
    }

    /** One step of the inner loop of `checkCollisions`: the pair `(i, j)` met. */
    method MeetPair(i: nat, j: nat, ghost ss: seq<PersonState>, ghost pairs: seq<(nat, nat)>, infectionDistance: real,
                    draws: seq<seq<real>>, rate: InfectionRate)
      requires Valid() && i < j < |people| && ValidPairDraws(draws, |people|)
      requires |ss| == |people| && PairsIn(pairs, |people|)
      requires States(people) == Scan(ss, pairs, frameCount, infectionDistance, draws, rate)
      modifies people[i], people[j]
      ensures PairsIn(pairs + [(i, j)], |people|)
      ensures States(people) == Scan(ss, pairs + [(i, j)], frameCount, infectionDistance, draws, rate)
    {
      ghost var before := States(people);
      DistinctPairs(people);
      ScanNext(ss, pairs, (i, j), frameCount, infectionDistance, draws, rate);
      var p1, p2 := people[i], people[j];
      if WithinRadius(p1.x - p2.x, p1.y - p2.y, infectionDistance) {
        HandleInfection(p1, p2, draws[i][j], rate);
        var c := Contact(before[i], before[j], frameCount, draws[i][j], rate);
        assert States(people) == before[i := c.0][j := c.1];
      }
    }

    /**
     * `update()`: the frame counter advances by one, then the collision scan
     * runs. The per-person calls that follow cannot complete: `move()` gets
     * no zone lists, and `updateStatus` is no method of `Person`. So the frame
     * ends with an error whenever there is a person, and only an empty model
     * reaches `updateStats`. Returns whether the frame completed.
     */
    method Update(p: Params, draws: seq<seq<real>>, rate: InfectionRate) returns (completed: bool)
      requires Valid() && ValidPairDraws(draws, |people|)
      modifies this`frameCount, this`stats, people
      ensures frameCount == old(frameCount) + 1
      ensures PairsIn(Pairs(|people|, |people|), |people|)
      ensures States(people) == Scan(old(States(people)), Pairs(|people|, |people|), frameCount, p.infectionDistance, draws, rate)
      ensures completed <==> people == []
      ensures completed ==> stats == ModelStats(0, 0, 0, 0)
      ensures !completed ==> stats == old(stats)
    {
      frameCount := frameCount + 1;
      CheckCollisions(p, draws, rate);
      if people != [] {
        return false;
      }
      UpdateStats();
      return true;
    }
  }
}
