/** Python semantics the report relies on: the ordering of `str` values and
    `sorted(set(xs))` over a list of strings. */
module PyBuiltins {

  /** Python's `a < b` on `str`: lexicographic by code point, where a proper
      prefix is smaller than the longer string. */
  predicate Less(a: string, b: string)
    decreases |a|
  {
    if a == [] then b != []
    else if b == [] then false
    else if a[0] != b[0] then a[0] < b[0]
    else Less(a[1..], b[1..])
  }

  lemma {:induction false} LessIrreflexive(a: string)
    ensures !Less(a, a)
    decreases |a|
  {
    if a != [] {
      LessIrreflexive(a[1..]);
    }
  }

  lemma {:induction false} LessTransitive(a: string, b: string, c: string)
    requires Less(a, b) && Less(b, c)
    ensures Less(a, c)
    decreases |a|
  {
    if a != [] && a[0] == b[0] && b[0] == c[0] {
      LessTransitive(a[1..], b[1..], c[1..]);
    }
  }

  /** Any two different strings are ordered one way or the other. */
  lemma {:induction false} LessTotal(a: string, b: string)
    requires a != b
    ensures Less(a, b) || Less(b, a)
    decreases |a|
  {
    if a != [] && b != [] && a[0] == b[0] {
      assert a == [a[0]] + a[1..] && b == [b[0]] + b[1..];
      LessTotal(a[1..], b[1..]);
    }
  }

  lemma LessAsymmetric(a: string, b: string)
    requires Less(a, b)
    ensures !Less(b, a)
  {
  }

  /** Each element is smaller than every later one: sorted and free of duplicates. */
  ghost predicate StrictlyAscending(s: seq<string>)
  {
    forall i, j :: 0 <= i < j < |s| ==> Less(s[i], s[j])
  }

  /** Adds `x` to a strictly ascending list unless it is already there. */
  function InsertDistinct(sorted: seq<string>, x: string): (r: seq<string>)
    requires StrictlyAscending(sorted)
    ensures StrictlyAscending(r)
    ensures forall s :: s in r <==> s == x || s in sorted
  {
    if sorted == [] then [x]
    else if x == sorted[0] then sorted
    else if Less(x, sorted[0]) then
      InsertFront(sorted, x);
      [x] + sorted
    else
      var rest := InsertDistinct(sorted[1..], x);
      LessTotal(x, sorted[0]);
      HeadBelowRest(sorted, x, rest);
      [sorted[0]] + rest
  }

  lemma InsertFront(sorted: seq<string>, x: string)
    requires StrictlyAscending(sorted) && sorted != [] && Less(x, sorted[0])
    ensures StrictlyAscending([x] + sorted)
  {
    forall j | 0 <= j < |sorted|
      ensures Less(x, sorted[j])
    {
      if j > 0 {
        LessTransitive(x, sorted[0], sorted[j]);
      }
    }
  }

  lemma HeadBelowRest(sorted: seq<string>, x: string, rest: seq<string>)
    requires StrictlyAscending(sorted) && sorted != [] && Less(sorted[0], x)
    requires StrictlyAscending(rest)
    requires forall s :: s in rest <==> s == x || s in sorted[1..]
    ensures StrictlyAscending([sorted[0]] + rest)
  {
    forall j | 0 <= j < |rest|
      ensures Less(sorted[0], rest[j])
    {
      if rest[j] != x {
        assert rest[j] in sorted[1..];
        var k :| 0 <= k < |sorted[1..]| && sorted[1..][k] == rest[j];
        assert sorted[k + 1] == rest[j];
      }
    }
  }

  /** Python's `sorted(set(xs))`: the distinct elements of `xs`, in ascending order. */
  function SortedSet(xs: seq<string>): (r: seq<string>)
    ensures StrictlyAscending(r)
    ensures forall s :: s in r <==> s in xs
  {
    if xs == [] then []
    else
      var r := InsertDistinct(SortedSet(xs[..|xs| - 1]), xs[|xs| - 1]);
      assert xs == xs[..|xs| - 1] + [xs[|xs| - 1]];
      r
  }

  /** A strictly ascending list is determined by its elements, so `SortedSet(xs)`
      is the only ascending, duplicate-free listing of the elements of `xs`. */
  lemma {:induction false} AscendingUnique(a: seq<string>, b: seq<string>)
    requires StrictlyAscending(a) && StrictlyAscending(b)
    requires forall s :: s in a <==> s in b
    ensures a == b
    decreases |a|
  {
    if a != [] {
      assert a[0] in a;
    }
    if b != [] {
      assert b[0] in b;
    }
    if a != [] && b != [] {
      assert a[0] in b && b[0] in a;
      var k :| 0 <= k < |b| && b[k] == a[0];
      var m :| 0 <= m < |a| && a[m] == b[0];
      if k != 0 && m != 0 {
        LessAsymmetric(b[0], a[0]);
        assert false;
      }
      assert a[0] == b[0];
      forall s
        ensures s in a[1..] <==> s in b[1..]
      {
        TailMembers(a, s);
        TailMembers(b, s);
      }
      AscendingUnique(a[1..], b[1..]);
      assert a == [a[0]] + a[1..] && b == [b[0]] + b[1..];
    }
  }

  /** In a strictly ascending list, the tail holds every element but the head. */
  lemma TailMembers(a: seq<string>, s: string)
    requires StrictlyAscending(a) && a != []
    ensures s in a[1..] <==> s in a && s != a[0]
  {
    if s in a[1..] {
      var k :| 0 <= k < |a[1..]| && a[1..][k] == s;
      assert Less(a[0], a[k + 1]);
      LessIrreflexive(a[0]);
    }
    if s in a && s != a[0] {
      var k :| 0 <= k < |a| && a[k] == s;
      assert a[1..][k - 1] == s;
    }
  }
}
