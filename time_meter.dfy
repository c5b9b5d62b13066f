/**
 * `TimeMeter`: per-operation duration statistics (count, min, max, sum and a
 * rounded average) kept in a registry keyed by operation name, where every
 * entry remembers the order in which its name was first seen.
 *
 * The concurrent map, the atomic counter and the `synchronized` blocks become
 * a plain map, an integer field and sequential updates. `Long` arithmetic is
 * unbounded here.
 */
module TimeMeter {

  // ---------------------------------------------------------------------
  // Statistics over a run of durations
  // ---------------------------------------------------------------------

  function MinOf(s: seq<int>): int
    requires s != []
  {
    if |s| == 1 then s[0]
    else var m := MinOf(s[..|s| - 1]); if s[|s| - 1] < m then s[|s| - 1] else m
  }

  function MaxOf(s: seq<int>): int
    requires s != []
  {
    if |s| == 1 then s[0]
    else var m := MaxOf(s[..|s| - 1]); if s[|s| - 1] > m then s[|s| - 1] else m
  }

  function SumOf(s: seq<int>): int
  {
    if s == [] then 0 else SumOf(s[..|s| - 1]) + s[|s| - 1]
  }

  /** The running minimum and maximum are the smallest and the largest duration seen. */
  lemma {:induction false} MinMaxBounds(s: seq<int>)
    requires s != []
    ensures MinOf(s) in s && MaxOf(s) in s
    ensures forall k :: 0 <= k < |s| ==> MinOf(s) <= s[k] <= MaxOf(s)
  {
    if |s| > 1 {
      MinMaxBounds(s[..|s| - 1]);
      assert forall k :: 0 <= k < |s| - 1 ==> s[k] == s[..|s| - 1][k];
    }
  }

  /** Kotlin's `Long` division, which truncates toward zero. */
  function KotlinDiv(a: int, b: int): (q: int)
    requires b > 0
    ensures a >= 0 ==> q == a / b
  {
    if a >= 0 then a / b else -((-a) / b)
  }

  // ---------------------------------------------------------------------
  // The ordering of entries
  // ---------------------------------------------------------------------

  /** `Int.compareTo` / `Long.compareTo`: -1, 0 or 1. */
  function CompareNumbers(a: int, b: int): (z: int)
    ensures z == 0 <==> a == b
    ensures z < 0 <==> a < b
    ensures -1 <= z <= 1
  {
    if a < b then -1 else if a > b then 1 else 0
  }

  /**
   * `String.compareTo`: the difference of the first two characters that
   * differ, or else the difference of the lengths.
   */
  function CompareStrings(s: string, t: string): int
  {
    if s == [] || t == [] then |s| - |t|
    else if s[0] != t[0] then s[0] as int - t[0] as int
    else CompareStrings(s[1..], t[1..])
  }

  lemma {:induction false} CompareStringsZero(s: string, t: string)
    ensures CompareStrings(s, t) == 0 <==> s == t
  {
    if s != [] && t != [] && s[0] == t[0] {
      CompareStringsZero(s[1..], t[1..]);
      assert s == [s[0]] + s[1..] && t == [t[0]] + t[1..];
    }
  }

  lemma {:induction false} CompareStringsAntisymmetric(s: string, t: string)
    ensures CompareStrings(s, t) == -CompareStrings(t, s)
  {
    if s != [] && t != [] && s[0] == t[0] {
      CompareStringsAntisymmetric(s[1..], t[1..]);
    }
  }

  lemma {:induction false} CompareStringsTransitive(s: string, t: string, u: string)
    requires CompareStrings(s, t) < 0 && CompareStrings(t, u) < 0
    ensures CompareStrings(s, u) < 0
  {
    if s != [] && t != [] && u != [] && s[0] == t[0] && t[0] == u[0] {
      CompareStringsTransitive(s[1..], t[1..], u[1..]);
    }
  }

  /** The values of an entry that `compareTo` looks at. */
  datatype EntryStats = EntryStats(order: int, name: string, count: int, min: int, max: int, sum: int)

  /**
   * `OperationEntry.compareTo`: lexicographic over order, name, count, min,
   * max and sum.
   */
  function Compare(x: EntryStats, y: EntryStats): (z: int)
    ensures x.order < y.order ==> z < 0
    ensures x.order > y.order ==> z > 0
  {
    var z1 := CompareNumbers(x.order, y.order);
    if z1 != 0 then z1 else
    var z2 := CompareStrings(x.name, y.name);
    if z2 != 0 then z2 else
    var z3 := CompareNumbers(x.count, y.count);
    if z3 != 0 then z3 else
    var z4 := CompareNumbers(x.min, y.min);
    if z4 != 0 then z4 else
    var z5 := CompareNumbers(x.max, y.max);
    if z5 != 0 then z5 else
    CompareNumbers(x.sum, y.sum)
  }

  /** `compareTo` is zero exactly on equal entries, and swapping the arguments negates it. */
  lemma CompareAntisymmetric(x: EntryStats, y: EntryStats)
    ensures Compare(x, y) == 0 <==> x == y
    ensures Compare(x, y) == -Compare(y, x)
  {
    CompareStringsZero(x.name, y.name);
    CompareStringsAntisymmetric(x.name, y.name);
  }

  /** `compareTo` is transitive, so it orders entries totally. */
  lemma CompareTransitive(x: EntryStats, y: EntryStats, z: EntryStats)
    requires Compare(x, y) < 0 && Compare(y, z) < 0
    ensures Compare(x, z) < 0
  {
    CompareStringsZero(x.name, y.name);
    CompareStringsZero(y.name, z.name);
    CompareStringsZero(x.name, z.name);
    if x.order == y.order == z.order && x.name != y.name && y.name != z.name {
      CompareStringsTransitive(x.name, y.name, z.name);
    } else if x.order == y.order == z.order && x.name != y.name {
      assert y.name == z.name;
    }
  }

  // ---------------------------------------------------------------------
  // OperationEntry
  // ---------------------------------------------------------------------

  class OperationEntry {
    const order: int
    const name: string
    var count: int
    var min: int
    var max: int
    var sum: int
    /** Every duration considered so far, oldest first. */
    ghost var durations: seq<int>

    ghost predicate Valid()
      reads this
    {
      && count == |durations|
      && (durations == [] ==> min == 0 && max == 0 && sum == 0)
      && (durations != [] ==> min == MinOf(durations) && max == MaxOf(durations) && sum == SumOf(durations))
    }

    constructor (order: int, name: string)
      ensures Valid() && this.order == order && this.name == name && durations == []
    {
      this.order := order;
      this.name := name;
      count, min, max, sum := 0, 0, 0, 0;
      durations := [];
    }

    /**
     * `considerDuration`: the first duration sets min, max and sum to it;
     * later ones lower min or raise max when exceeded, and add to sum.
     */
    method ConsiderDuration(duration: int)
      requires Valid()
      modifies this
      ensures Valid()
      ensures durations == old(durations) + [duration]
    {
      if count == 0 {
        count := count + 1;
        min := duration;
        max := duration;
        sum := duration;
      } else {
        count := count + 1;
        if duration < min { min := duration; }
        if duration > max { max := duration; }
        sum := sum + duration;
      }
      durations := durations + [duration];
      assert durations[..|durations| - 1] == old(durations);
    }

    /**
     * `avg`: 0 without durations, otherwise `(sum + count/2) / count`, the
     * mean rounded to the nearest integer (halves up) for a non-negative sum.
     */
    function Avg(): (r: int)
      reads this
      requires Valid()
      ensures count == 0 ==> r == 0
      ensures count > 0 && sum >= 0 ==> -count <= 2 * (sum - r * count) < count
    {
      if count == 0 then 0
      else
        var r := KotlinDiv(sum + count / 2, count);
        RoundedDivision(sum, count, r);
        r
    }

    /** The values `compareTo` compares. */
    function Stats(): EntryStats
      reads this
    {
      EntryStats(order, name, count, min, max, sum)
    }

    /** `compareTo(other)`. */
    function CompareTo(other: OperationEntry): (z: int)
      reads this, other
      ensures order < other.order ==> z < 0
    {
      Compare(Stats(), other.Stats())
    }
  }

  /** `(sum + count/2) / count` is the mean rounded to nearest. */
  lemma RoundedDivision(sum: int, count: int, r: int)
    requires count > 0
    requires r == KotlinDiv(sum + count / 2, count)
    ensures sum >= 0 ==> -count <= 2 * (sum - r * count) < count
  {
    if sum < 0 { return; }
    var q := sum + count / 2;
    var m := q % count;
    assert q == r * count + m;
    assert 0 <= m < count;
    assert count == 2 * (count / 2) + count % 2;
  }

  /** After at least one duration, count is their number, and min and max are durations that bound all of them. */
  lemma EntryBounds(e: OperationEntry)
    requires e.Valid() && e.durations != []
    ensures e.count == |e.durations|
    ensures e.min <= e.max
    ensures forall k :: 0 <= k < |e.durations| ==> e.min <= e.durations[k] <= e.max
    ensures e.min in e.durations && e.max in e.durations
  {
    MinMaxBounds(e.durations);
  }

  // ---------------------------------------------------------------------
  // TimeMeter
  // ---------------------------------------------------------------------

  class TimeMeter {
    var operations: map<string, OperationEntry>
    var sequence: int
    /** The entries the meter has created. */
    ghost var Repr: set<OperationEntry>

    /**
     * One entry per name seen, each consistent with its durations; the
     * counter has handed out one order per name, all different, from 1 to
     * `sequence`.
     */
    ghost predicate Valid()
      reads this, Repr
    {
      && |operations| == sequence
      && (forall k :: k in operations ==> operations[k] in Repr && operations[k].Valid())
      && (forall k :: k in operations ==> operations[k].name == k && 1 <= operations[k].order <= sequence)
      && (forall k1, k2 :: k1 in operations && k2 in operations && k1 != k2 ==>
            operations[k1].order != operations[k2].order)
    }

    constructor ()
      ensures Valid() && operations == map[] && sequence == 0
    {
      operations := map[];
      sequence := 0;
      Repr := {};
    }

    /** `instantiateOperationEntry`: a fresh entry carrying the next counter value. */
    method InstantiateOperationEntry(name: string) returns (e: OperationEntry)
      modifies this
      ensures fresh(e) && e.Valid() && e.durations == []
      ensures e.name == name && e.order == old(sequence) + 1
      ensures sequence == old(sequence) + 1 && operations == old(operations) && Repr == old(Repr)
    {
      sequence := sequence + 1;
      e := new OperationEntry(sequence, name);
    }

    /**
     * `obtainOperationEntry`: the entry of `name`, created and registered on
     * the first use of the name and reused afterwards.
     */
    method ObtainOperationEntry(name: string) returns (e: OperationEntry)
      requires Valid()
      modifies this
      ensures Valid() && fresh(Repr - old(Repr))
      ensures name in operations && e == operations[name]
      ensures forall k :: k in old(operations) ==> k in operations && operations[k] == old(operations[k])
      ensures name in old(operations) ==>
                e == old(operations)[name] && operations == old(operations) && sequence == old(sequence)
      ensures name !in old(operations) ==>
                && fresh(e) && e.durations == [] && e.order == old(sequence) + 1
                && operations == old(operations)[name := e] && sequence == old(sequence) + 1
    {
      if name in operations {
        e := operations[name];
      } else {
        e := RegisterOperationEntry(name);
      }
    }

    /** The `getOrPut` branch for a name not seen before. */
    method RegisterOperationEntry(name: string) returns (e: OperationEntry)
      requires Valid() && name !in operations
      modifies this
      ensures Valid() && Repr == old(Repr) + {e}
      ensures fresh(e) && e.durations == [] && e.order == old(sequence) + 1
      ensures operations == old(operations)[name := e] && sequence == old(sequence) + 1
    {
      e := InstantiateOperationEntry(name);
      operations := operations[name := e];
      Repr := Repr + {e};
    }

    /**
     * `considerDuration(operationName, duration)`: records the duration in the
     * entry of that name, registering the name first when it is new; every
     * other entry is left as it was.
     */
    method ConsiderDuration(operationName: string, duration: int)
      requires Valid()
      modifies this, Repr
      ensures Valid() && fresh(Repr - old(Repr))
      ensures operations.Keys == old(operations.Keys) + {operationName}
      ensures operationName in old(operations) ==>
                && operations[operationName] == old(operations[operationName])
                && operations[operationName].durations == old(operations[operationName].durations) + [duration]
      ensures operationName !in old(operations) ==>
                && operations[operationName].order == old(sequence) + 1
                && operations[operationName].durations == [duration]
      ensures forall k :: k in old(operations) && k != operationName ==>
                && operations[k] == old(operations[k])
                && operations[k].durations == old(operations[k].durations)
    {
      var e := ObtainOperationEntry(operationName);
      ghost var ops := operations;
      forall k | k in ops && k != operationName
        ensures ops[k] != e
      {
        assert ops[k].order != ops[operationName].order;
      }
      label obtained:
      e.ConsiderDuration(duration);
      forall k | k in old(operations) && k != operationName
        ensures operations[k] == old(operations[k]) && operations[k].durations == old(operations[k].durations)
      {
        assert operations[k] == ops[k] && ops[k].durations == old@obtained(ops[k].durations);
      }
    }

    /**
     * `getMetrics()`: every entry once, sorted by `compareTo`, which puts them
     * in the order their names were first registered.
     */
    method GetMetrics() returns (list: seq<OperationEntry>)
      requires Valid()
      ensures |list| == |operations|
      ensures forall i :: 0 <= i < |list| ==> list[i] in operations.Values && list[i].order == i + 1
      ensures forall i, j :: 0 <= i < j < |list| ==> list[i].CompareTo(list[j]) < 0
    {
      var values := Values();
      var arr := new OperationEntry[|values|](i requires 0 <= i < |values| => values[i]);
      assert arr[..] == values;
      SortEntries(arr);
      list := arr[..];
      forall i | 0 <= i < |list|
        ensures list[i] in operations.Values && 1 <= list[i].order <= |list|
      {
        assert list[i] in multiset(values);
      }
      ConsecutiveOrders(list);
    }

    /** `ArrayList(operations.values)`: the entries, each once, in no particular order. */
    method Values() returns (values: seq<OperationEntry>)
      requires Valid()
      ensures |values| == |operations|
      ensures forall i :: 0 <= i < |values| ==> values[i] in operations.Values && 1 <= values[i].order <= sequence
      ensures DistinctOrders(values)
    {
      var keys := operations.Keys;
      values := [];
      while keys != {}
        invariant keys <= operations.Keys
        invariant |values| + |keys| == |operations|
        invariant forall i :: 0 <= i < |values| ==>
                    values[i].name in operations && values[i].name !in keys
                    && values[i] == operations[values[i].name]
        invariant DistinctOrders(values)
        decreases |keys|
      {
        var k :| k in keys;
        values := values + [operations[k]];
        keys := keys - {k};
      }
    }

    /**
     * `sortEntries(list)`: `list.sort()` in place. The entries of one meter
     * have pairwise different orders, the first key of `compareTo`, so the
     * natural order is the order of `order`.
     */
    static method SortEntries(a: array<OperationEntry>)
      requires DistinctOrders(a[..])
      modifies a
      ensures IncreasingOrders(a[..])
      ensures multiset(a[..]) == old(multiset(a[..]))
    {
      for i := 0 to a.Length
        invariant DistinctOrders(a[..]) && SelectedUpTo(a[..], i)
        invariant multiset(a[..]) == old(multiset(a[..]))
      {
        var m := MinOrderFrom(a, i);
        ghost var s := a[..];
        SelectionStep(s, i, m);
        a[i], a[m] := a[m], a[i];
        assert a[..] == s[i := s[m]][m := s[i]];
      }
      assert SelectedUpTo(a[..], a.Length);
    }

    /** The index of the entry with the least order among `a[from..]`. */
    static method MinOrderFrom(a: array<OperationEntry>, from: nat) returns (m: nat)
      requires from < a.Length
      ensures from <= m < a.Length
      ensures forall l :: from <= l < a.Length ==> a[m].order <= a[l].order
    {
      m := from;
      for j := from + 1 to a.Length
        invariant from <= m < a.Length
        invariant forall l :: from <= l < j ==> a[m].order <= a[l].order
      {
        if a[j].order < a[m].order {
          m := j;
        }
      }
    }
  }

  /** No two entries of `s` share an order. */
  ghost predicate DistinctOrders(s: seq<OperationEntry>)
  {
    forall k, l :: 0 <= k < |s| && 0 <= l < |s| && k != l ==> s[k].order != s[l].order
  }

  /** The orders of `s` strictly increase. */
  ghost predicate IncreasingOrders(s: seq<OperationEntry>)
  {
    forall k, l :: 0 <= k < l < |s| ==> s[k].order < s[l].order
  }

  /** `s[..i]` holds the `i` least orders of `s`, increasing. */
  ghost predicate SelectedUpTo(s: seq<OperationEntry>, i: nat)
  {
    && i <= |s|
    && (forall k, l :: 0 <= k < l < i ==> s[k].order < s[l].order)
    && (forall k, l :: 0 <= k < i <= l < |s| ==> s[k].order < s[l].order)
  }

  /** Swapping the least order of `s[i..]` into place `i` selects one more entry. */
  lemma SelectionStep(s: seq<OperationEntry>, i: nat, m: nat)
    requires DistinctOrders(s) && SelectedUpTo(s, i)
    requires i <= m < |s|
    requires forall l :: i <= l < |s| ==> s[m].order <= s[l].order
    ensures DistinctOrders(s[i := s[m]][m := s[i]])
    ensures SelectedUpTo(s[i := s[m]][m := s[i]], i + 1)
    ensures multiset(s[i := s[m]][m := s[i]]) == multiset(s)
  {
    var t := s[i := s[m]][m := s[i]];
    forall k, l | 0 <= k < i + 1 <= l < |t|
      ensures t[k].order < t[l].order
    {
      if k == i {
        assert t[k] == s[m];
        if l == m {
          assert t[l] == s[i];
        }
      }
    }
  }

  /** Strictly increasing orders drawn from 1..n, n of them, are exactly 1, 2, ..., n. */
  lemma ConsecutiveOrders(list: seq<OperationEntry>)
    requires forall i :: 0 <= i < |list| ==> 1 <= list[i].order <= |list|
    requires forall i, j :: 0 <= i < j < |list| ==> list[i].order < list[j].order
    ensures forall i :: 0 <= i < |list| ==> list[i].order == i + 1
    ensures forall i, j :: 0 <= i < j < |list| ==> list[i].CompareTo(list[j]) < 0
  {
    forall i | 0 <= i < |list|
      ensures list[i].order == i + 1
    {
      OrderAtLeast(list, i);
      OrderAtMost(list, i);
    }
  }

  lemma {:induction false} OrderAtLeast(list: seq<OperationEntry>, i: nat)
    requires i < |list|
    requires forall i :: 0 <= i < |list| ==> 1 <= list[i].order
    requires forall i, j :: 0 <= i < j < |list| ==> list[i].order < list[j].order
    ensures list[i].order >= i + 1
  {
    if i > 0 {
      OrderAtLeast(list, i - 1);
    }
  }

  lemma {:induction false} OrderAtMost(list: seq<OperationEntry>, i: nat)
    requires i < |list|
    requires forall i :: 0 <= i < |list| ==> list[i].order <= |list|
    requires forall i, j :: 0 <= i < j < |list| ==> list[i].order < list[j].order
    ensures list[i].order <= i + 1
    decreases |list| - i
  {
    if i < |list| - 1 {
      OrderAtMost(list, i + 1);
    }
  }
}
