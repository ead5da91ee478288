/**
 * Count tables: what `df.groupby(col).size()` followed by `sort_values('count', ascending=False)`
 * and `Series.value_counts()` produce in dashboard.py, as a sequence of (name, count) rows.
 */
module Grouping {

  /** One row of a count table. */
  datatype Group = Group(name: string, count: nat)

  /** The sum of the counts of a table. */
  function Total(t: seq<Group>): nat {
    if t == [] then 0 else Total(t[..|t| - 1]) + t[|t| - 1].count
  }

  /** The number of rows named k. */
  function Named(t: seq<Group>, k: string): nat {
    if t == [] then 0 else Named(t[..|t| - 1], k) + (if t[|t| - 1].name == k then 1 else 0)
  }

  /** The summed count of the rows named k. */
  function CountOf(t: seq<Group>, k: string): nat {
    if t == [] then 0 else CountOf(t[..|t| - 1], k) + (if t[|t| - 1].name == k then t[|t| - 1].count else 0)
  }

  /** Rows in non-increasing count order. */
  predicate NonIncreasing(t: seq<Group>) {
    forall i, j :: 0 <= i < j < |t| ==> t[i].count >= t[j].count
  }

  /**
   * t is the count table of the values s: each value of s names exactly one row, no other name
   * has a row, and each row counts the occurrences of its name.
   */
  ghost predicate IsCountTable(t: seq<Group>, s: seq<string>) {
    forall k :: (Named(t, k) == if k in s then 1 else 0) && CountOf(t, k) == multiset(s)[k]
  }

  lemma {:induction false} AppendLaws(a: seq<Group>, b: seq<Group>, k: string)
    ensures Total(a + b) == Total(a) + Total(b)
    ensures Named(a + b, k) == Named(a, k) + Named(b, k)
    ensures CountOf(a + b, k) == CountOf(a, k) + CountOf(b, k)
  {
    if b == [] {
      assert a + b == a;
    } else {
      assert (a + b)[..|a + b| - 1] == a + b[..|b| - 1];
      AppendLaws(a, b[..|b| - 1], k);
    }
  }

  lemma SingletonLaws(g: Group, k: string)
    ensures Total([g]) == g.count
    ensures Named([g], k) == if g.name == k then 1 else 0
    ensures CountOf([g], k) == if g.name == k then g.count else 0
  {
    assert [g][..0] == [];
  }

  lemma RemoveOne(rest: seq<Group>, g: Group, b1: seq<Group>, b2: seq<Group>)
    requires multiset(rest + [g]) == multiset(b1 + [g] + b2)
    ensures multiset(rest) == multiset(b1 + b2)
  {
    assert multiset(rest + [g]) == multiset(rest) + multiset{g};
    assert multiset(b1 + [g] + b2) == multiset(b1 + b2) + multiset{g};
    forall x ensures multiset(rest)[x] == multiset(b1 + b2)[x] {
      assert (multiset(rest) + multiset{g})[x] == (multiset(b1 + b2) + multiset{g})[x];
    }
  }

  /** Totals, row numbers and counts depend only on which rows a table has, not on their order. */
  lemma {:induction false} PermutationLaws(a: seq<Group>, b: seq<Group>, k: string)
    requires multiset(a) == multiset(b)
    ensures Total(a) == Total(b)
    ensures Named(a, k) == Named(b, k)
    ensures CountOf(a, k) == CountOf(b, k)
    decreases |a|
  {
    if a == [] {
      assert |multiset(b)| == |b|;
    } else {
      var g := a[|a| - 1];
      var rest := a[..|a| - 1];
      assert a == rest + [g];
      assert g in multiset(b);
      var i :| 0 <= i < |b| && b[i] == g;
      var b1, b2 := b[..i], b[i + 1..];
      assert b == b1 + [g] + b2;
      RemoveOne(rest, g, b1, b2);
      PermutationLaws(rest, b1 + b2, k);
      AppendLaws(rest, [g], k);
      AppendLaws(b1 + [g], b2, k);
      AppendLaws(b1, [g], k);
      AppendLaws(b1, b2, k);
      SingletonLaws(g, k);
    }
  }

  // ---------------------------------------------------------------------------------------------
  // Counting: groupby(...).size() and value_counts()
  // ---------------------------------------------------------------------------------------------

  /** Counts one more occurrence of k: its first row goes up by one, or a new row is appended. */
  function Bump(t: seq<Group>, k: string): seq<Group> {
    if t == [] then [Group(k, 1)]
    else if t[0].name == k then [Group(k, t[0].count + 1)] + t[1..]
    else [t[0]] + Bump(t[1..], k)
  }

  /** Bump adds one to the total and to the count of k, and a row for k only when it had none. */
  lemma {:induction false} BumpLaws(t: seq<Group>, k: string, j: string)
    ensures Total(Bump(t, k)) == Total(t) + 1
    ensures Named(Bump(t, k), j) == Named(t, j) + (if j == k && Named(t, k) == 0 then 1 else 0)
    ensures CountOf(Bump(t, k), j) == CountOf(t, j) + (if j == k then 1 else 0)
  {
    if t == [] {
      SingletonLaws(Group(k, 1), j);
    } else {
      var head := if t[0].name == k then Group(k, t[0].count + 1) else t[0];
      var tail := if t[0].name == k then t[1..] else Bump(t[1..], k);
      assert Bump(t, k) == [head] + tail;
      assert t == [t[0]] + t[1..];
      AppendLaws([head], tail, j);
      AppendLaws([t[0]], t[1..], j);
      AppendLaws([t[0]], t[1..], k);
      SingletonLaws(t[0], j);
      SingletonLaws(t[0], k);
      SingletonLaws(head, j);
      if t[0].name != k {
        BumpLaws(t[1..], k, j);
      }
    }
  }

  /** The first-appearance count table of s: one row per distinct value, counting its occurrences. */
  function CountBy(s: seq<string>): seq<Group> {
    if s == [] then [] else Bump(CountBy(s[..|s| - 1]), s[|s| - 1])
  }

  lemma {:induction false} CountByLaws(s: seq<string>, k: string)
    ensures Total(CountBy(s)) == |s|
    ensures Named(CountBy(s), k) == if k in s then 1 else 0
    ensures CountOf(CountBy(s), k) == multiset(s)[k]
  {
    if s != [] {
      var prefix := s[..|s| - 1];
      var last := s[|s| - 1];
      CountByLaws(prefix, k);
      CountByLaws(prefix, last);
      BumpLaws(CountBy(prefix), last, k);
      assert s == prefix + [last];
      assert k in s <==> k in prefix || k == last;
      assert multiset(s)[k] == multiset(prefix)[k] + (if k == last then 1 else 0);
    }
  }

  lemma CountByIsCountTable(s: seq<string>)
    ensures IsCountTable(CountBy(s), s)
    ensures Total(CountBy(s)) == |s|
  {
    forall k
      ensures (Named(CountBy(s), k) == if k in s then 1 else 0) && CountOf(CountBy(s), k) == multiset(s)[k]
    {
      CountByLaws(s, k);
    }
    CountByLaws(s, "");
  }

  // ---------------------------------------------------------------------------------------------
  // Sorting: sort_values('count', ascending=False)
  // ---------------------------------------------------------------------------------------------

  /** Inserts g in front of the first row whose count it is not below. */
  function Insert(g: Group, t: seq<Group>): (r: seq<Group>)
    ensures multiset(r) == multiset(t) + multiset{g}
  {
    if t == [] || g.count >= t[0].count then [g] + t
    else
      assert t == [t[0]] + t[1..];
      [t[0]] + Insert(g, t[1..])
  }

  /** Inserting into a table in non-increasing order keeps it in that order. */
  lemma {:induction false} InsertKeepsOrder(g: Group, t: seq<Group>)
    requires NonIncreasing(t)
    ensures NonIncreasing(Insert(g, t))
    ensures Insert(g, t)[0] == g || Insert(g, t)[0] == t[0]
  {
    if t != [] && g.count < t[0].count {
      var rest := Insert(g, t[1..]);
      InsertKeepsOrder(g, t[1..]);
      assert t[0].count >= rest[0].count;
      assert forall j :: 0 < j < |rest| + 1 ==> ([t[0]] + rest)[j] == rest[j - 1];
    }
  }

  /** The rows of t in non-increasing count order. */
  function SortByCountDesc(t: seq<Group>): (r: seq<Group>)
    ensures NonIncreasing(r)
    ensures multiset(r) == multiset(t)
  {
    if t == [] then []
    else
      assert t == [t[0]] + t[1..];
      InsertKeepsOrder(t[0], SortByCountDesc(t[1..]));
      Insert(t[0], SortByCountDesc(t[1..]))
  }

  /** A reordering of a count table is a count table of the same values with the same total. */
  lemma PermutedCountTable(a: seq<Group>, b: seq<Group>, s: seq<string>)
    requires IsCountTable(a, s)
    requires multiset(a) == multiset(b)
    ensures IsCountTable(b, s)
    ensures Total(b) == Total(a)
  {
    forall k
      ensures (Named(b, k) == if k in s then 1 else 0) && CountOf(b, k) == multiset(s)[k]
    {
      PermutationLaws(a, b, k);
    }
    PermutationLaws(a, b, "");
  }

  /** groupby(...).size() sorted by count descending, and equally value_counts(). */
  function CountTable(s: seq<string>): (t: seq<Group>)
    ensures IsCountTable(t, s)
    ensures Total(t) == |s|
    ensures NonIncreasing(t)
  {
    var t := SortByCountDesc(CountBy(s));
    CountByIsCountTable(s);
    PermutedCountTable(CountBy(s), t, s);
    t
  }
}
