/**
 * The population array that `App` keeps in `peopleRef.current` and that the
 * morgues splice corpses out of: `indexOf` and `splice(index, 1)` on a
 * sequence, and the array itself as a class whose `items` the splice reassigns.
 */
module Population {
  import opened Agent

  /** `indexOf`: the first position holding `t`, or -1 when there is none. */
  function IndexOf<T(==)>(s: seq<T>, t: T): (i: int)
    ensures -1 <= i < |s|
    ensures i == -1 <==> t !in s
    ensures 0 <= i ==> s[i] == t && t !in s[..i]
  {
    if s == [] then -1
    else if s[0] == t then 0
    else
      var j := IndexOf(s[1..], t);
      if j == -1 then -1 else assert s[1..][..j] == s[1..j + 1]; j + 1
  }

  /** The sequence without the first occurrence of `t`, when there is one. */
  function Spliced<T(==)>(s: seq<T>, t: T): seq<T> {
    if s == [] then []
    else if s[0] == t then s[1..]
    else [s[0]] + Spliced(s[1..], t)
  }

  /** Splicing out a person that is not there changes nothing. */
  lemma {:induction false} SplicedAbsent<T>(s: seq<T>, t: T)
    requires t !in s
    ensures Spliced(s, t) == s
  {
    if s != [] {
      SplicedAbsent(s[1..], t);
    }
  }

  /**
   * `splice(index, 1)` at the first index holding `t` computes `Spliced`:
   * exactly the element at that index is cut out.
   */
  lemma {:induction false} SplicedAt<T>(s: seq<T>, t: T, i: nat)
    requires i < |s| && s[i] == t && t !in s[..i]
    ensures Spliced(s, t) == s[..i] + s[i + 1..]
  {
    if i > 0 {
      assert s[0] in s[..i];
      assert s[1..][..i - 1] == s[1..i];
      SplicedAt(s[1..], t, i - 1);
      assert s[..i] == [s[0]] + s[1..i];
      assert s[i + 1..] == s[1..][i..];
    }
  }

  /**
   * The splice removes exactly the first occurrence of `t` and keeps the
   * others in order; it changes nothing when `t` is absent.
   */
  lemma {:induction false} SpliceRemovesFirst<T>(s: seq<T>, t: T)
    ensures t !in s ==> Spliced(s, t) == s
    ensures t in s ==>
      && |Spliced(s, t)| == |s| - 1
      && multiset(Spliced(s, t)) == multiset(s) - multiset{t}
      && exists i :: 0 <= i < |s| && s[i] == t && t !in s[..i] && Spliced(s, t) == s[..i] + s[i + 1..]
  {
    if t !in s {
      SplicedAbsent(s, t);
    } else {
      var i := IndexOf(s, t);
      SplicedAt(s, t, i);
      MultisetAround(s, i);
    }
  }

  /** Cutting out the element at `i` removes exactly that element from the multiset. */
  lemma MultisetAround<T>(s: seq<T>, i: nat)
    requires i < |s|
    ensures |s[..i] + s[i + 1..]| == |s| - 1
    ensures multiset(s[..i] + s[i + 1..]) == multiset(s) - multiset{s[i]}
  {
    assert s == s[..i] + [s[i]] + s[i + 1..];
  }

  /** The population after the splices of `removed`, applied in order. */
  function SplicedAll<T(==)>(s: seq<T>, removed: seq<T>): seq<T>
    decreases |removed|
  {
    if removed == [] then s else SplicedAll(Spliced(s, removed[0]), removed[1..])
  }

  /** The splices only ever take persons out: none is added, none is duplicated. */
  lemma {:induction false} SplicedAllShrinks<T>(s: seq<T>, removed: seq<T>)
    ensures |s| - |removed| <= |SplicedAll(s, removed)| <= |s|
    ensures multiset(SplicedAll(s, removed)) <= multiset(s)
    decreases |removed|
  {
    if removed != [] {
      SpliceRemovesFirst(s, removed[0]);
      SplicedAllShrinks(Spliced(s, removed[0]), removed[1..]);
    }
  }

  /** Splicing out persons that are not in the population leaves it as it was. */
  lemma {:induction false} SplicedAllAbsent<T>(s: seq<T>, removed: seq<T>)
    requires forall k :: 0 <= k < |removed| ==> removed[k] !in s
    ensures SplicedAll(s, removed) == s
    decreases |removed|
  {
    if removed != [] {
      SpliceRemovesFirst(s, removed[0]);
      SplicedAllAbsent(s, removed[1..]);
    }
  }

  /**
   * Splicing the same person out twice removes it once: the second `indexOf`
   * finds nothing, so the array loses one element for two removals.
   */
  lemma {:induction false} SplicedTwice<T>(s: seq<T>, t: T)
    requires multiset(s)[t] == 1
    ensures SplicedAll(s, [t, t]) == Spliced(s, t)
    ensures |SplicedAll(s, [t, t])| == |s| - 1
  {
    SpliceRemovesFirst(s, t);
    assert t !in Spliced(s, t) by {
      assert multiset(Spliced(s, t))[t] == 0;
    }
    SpliceRemovesFirst(Spliced(s, t), t);
    var once := Spliced(s, t);
    assert [t, t][1..] == [t];
    assert SplicedAll(s, [t, t]) == SplicedAll(once, [t]);
    assert SplicedAll(once, [t]) == SplicedAll(Spliced(once, t), []);
  }

  /** Splicing a list of removals extended by one is one more splice. */
  lemma {:induction false} SplicedAllSnoc<T>(s: seq<T>, removed: seq<T>, t: T)
    ensures SplicedAll(s, removed + [t]) == Spliced(SplicedAll(s, removed), t)
    decreases |removed|
  {
    if removed == [] {
      assert removed + [t] == [t];
    } else {
      assert (removed + [t])[1..] == removed[1..] + [t];
      SplicedAllSnoc(Spliced(s, removed[0]), removed[1..], t);
    }
  }

  /** The array of persons shared by the driver and the morgues. */
  class PersonList {
    var items: seq<Person>

    constructor (items: seq<Person>)
      ensures this.items == items
    {
      this.items := items;
    }

    /** `people.splice(people.indexOf(t), 1)` when `t` is present. */
    method Remove(t: Person)
      modifies this`items
      ensures items == Spliced(old(items), t)
    {
      var index := IndexOf(items, t);
      if index != -1 {
        SplicedAt(items, t, index);
        items := items[..index] + items[index + 1..];
      } else {
        SplicedAbsent(items, t);
      }
    }
  }
}
