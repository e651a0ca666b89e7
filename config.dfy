/** The simulation parameters and the small numeric helpers every component shares. */
module Config {

  datatype Option<+T> = None | Some(value: T)

  /**
   * The parameter record every component reads through `paramsRef.current`.
   * The user interface may replace it between two frames, so each operation
   * takes the record it reads as an argument.
   */
  datatype Params = Params(
    population: int,
    initialInfected: int,
    infectionRate: real,
    infectionDistance: real,
    recoveryTime: real,
    mortalityRate: real,
    simulationSpeed: real,
    pharmacyCount: int,
    pharmacyRadius: real,
    quarantineCount: int,
    quarantineRadius: real,
    quarantineInfectionReduction: real,
    reinfectionRate: real,
    width: real,
    height: real,
    incubationPeriodRatio: real,
    progressionPeriodRatio: real,
    minRecoveryVariation: real,
    maxRecoveryVariation: real,
    morgueCount: int,
    morgueCollectionSpeed: real,
    morgueCollectionInterval: real)

  /** The values the application starts with. */
  const Defaults: Params := Params(
    150, 5, 0.4, 20.0, 2000.0, 0.12, 60.0, 4, 35.0, 3, 60.0, 0.5, 0.1,
    1200.0, 700.0, 0.3, 0.5, 0.7, 1.3, 1, 2.0, 5000.0)

  /** A result of `Math.random()`. */
  predicate IsDraw(r: real) {
    0.0 <= r < 1.0
  }

  /** The product of two non-negative numbers is not negative. */
  lemma NonNegativeProduct(a: real, b: real)
    requires 0.0 <= a && 0.0 <= b
    ensures 0.0 <= a * b
  {
  }

  /** The product of two positive numbers is positive. */
  lemma PositiveProduct(a: real, b: real)
    requires 0.0 < a && 0.0 < b
    ensures 0.0 < a * b
  {
  }

  /** `Math.min`. */
  function Min(a: real, b: real): (m: real)
    ensures m <= a && m <= b && (m == a || m == b)
  {
    if a <= b then a else b
  }

  /** `Math.max`. */
  function Max(a: real, b: real): (m: real)
    ensures a <= m && b <= m && (m == a || m == b)
  {
    if a <= b then b else a
  }

  /** The length `Array.from({ length: n })` gives an integer `n`: a negative length counts as 0. */
  function ArrayLength(n: int): (len: nat)
    ensures n >= 0 ==> len == n
    ensures n < 0 ==> len == 0
  {
    if n < 0 then 0 else n
  }

  /**
   * No element occurs twice: the arrays of the source hold distinct objects.
   * Stated through `Differ`, so that the facts about two positions are drawn
   * only where a proof asks for them (`DistinctPairs`, `PairwiseDistinct`).
   */
  predicate Distinct<T(==)>(s: seq<T>) {
    forall i, j :: 0 <= i < j < |s| ==> Differ(s, i, j)
  }

  /** Positions `i` and `j` of `s` hold different elements. */
  predicate Differ<T(==)>(s: seq<T>, i: int, j: int) {
    0 <= i < |s| && 0 <= j < |s| && s[i] != s[j]
  }

  /** In a sequence without repetitions, two different positions hold different elements. */
  lemma DistinctPairs<T>(s: seq<T>)
    requires Distinct(s)
    ensures forall i, j :: 0 <= i < j < |s| ==> s[i] != s[j]
  {
    forall i, j | 0 <= i < j < |s|
      ensures s[i] != s[j]
    {
      assert Differ(s, i, j);
    }
  }

  /** A sequence whose positions all hold different elements has no repetitions. */
  lemma PairwiseDistinct<T>(s: seq<T>)
    requires forall i, j :: 0 <= i < j < |s| ==> s[i] != s[j]
    ensures Distinct(s)
  {
    forall i, j | 0 <= i < j < |s|
      ensures Differ(s, i, j)
    {
    }
  }

  /** Appending an element that does not occur yet keeps a sequence without repetitions. */
  lemma DistinctSnoc<T>(s: seq<T>, x: T)
    requires Distinct(s) && x !in s
    ensures Distinct(s + [x])
  {
    DistinctPairs(s);
    PairwiseDistinct(s + [x]);
  }
}
