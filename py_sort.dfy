/** `sorted(names, reverse=...)` over strings: Python orders strings by
    comparing code points from the left, a proper prefix coming first. */
module PySort {

  /** `a <= b` on Python strings. */
  predicate StrLe(a: string, b: string)
    decreases |a|
  {
    if a == [] then true
    else if b == [] then false
    else if a[0] != b[0] then a[0] < b[0]
    else StrLe(a[1..], b[1..])
  }

  lemma {:induction false} StrLeReflexive(a: string)
    ensures StrLe(a, a)
    decreases |a|
  {
    if a != [] {
      StrLeReflexive(a[1..]);
    }
  }

  lemma {:induction false} StrLeTotal(a: string, b: string)
    ensures StrLe(a, b) || StrLe(b, a)
    decreases |a|
  {
    if a != [] && b != [] && a[0] == b[0] {
      StrLeTotal(a[1..], b[1..]);
    }
  }

  lemma {:induction false} StrLeAntisymmetric(a: string, b: string)
    requires StrLe(a, b) && StrLe(b, a)
    ensures a == b
    decreases |a|
  {
    if a != [] && b != [] {
      StrLeAntisymmetric(a[1..], b[1..]);
      assert a == [a[0]] + a[1..] && b == [b[0]] + b[1..];
    }
  }

  lemma {:induction false} StrLeTransitive(a: string, b: string, c: string)
    requires StrLe(a, b) && StrLe(b, c)
    ensures StrLe(a, c)
    decreases |a|
  {
    if a != [] && b != [] && c != [] && a[0] == b[0] && b[0] == c[0] {
      StrLeTransitive(a[1..], b[1..], c[1..]);
    }
  }

  predicate Ascending(s: seq<string>) {
    forall i, j | 0 <= i < j < |s| :: StrLe(s[i], s[j])
  }

  predicate Descending(s: seq<string>) {
    forall i, j | 0 <= i < j < |s| :: StrLe(s[j], s[i])
  }

  /** Inserts `x` into the ascending list `s`, before the first element above it. */
  function Insert(x: string, s: seq<string>): (r: seq<string>)
    requires Ascending(s)
    ensures multiset(r) == multiset(s) + multiset{x}
    ensures Ascending(r)
  {
    if s == [] then [x]
    else if StrLe(x, s[0]) then
      assert forall j | 0 < j < |s| :: StrLe(x, s[j]) by {
        forall j | 0 < j < |s| ensures StrLe(x, s[j]) { StrLeTransitive(x, s[0], s[j]); }
      }
      [x] + s
    else
      StrLeTotal(x, s[0]);
      AscendingTail(s);
      var rest := Insert(x, s[1..]);
      assert s == [s[0]] + s[1..];
      AscendingHeadBound(s);
      BoundOfMultiset(s[0], rest, s[1..], x);
      [s[0]] + rest
  }

  /** Every element of `s` is at or above `a`. */
  predicate AtLeast(a: string, s: seq<string>) {
    forall j | 0 <= j < |s| :: StrLe(a, s[j])
  }

  /** The head of an ascending list bounds its tail from below. */
  lemma AscendingHeadBound(s: seq<string>)
    requires Ascending(s) && s != []
    ensures AtLeast(s[0], s[1..])
  {
    forall j | 0 <= j < |s[1..]| ensures StrLe(s[0], s[1..][j]) {
      assert s[1..][j] == s[j + 1];
    }
  }

  /** A lower bound of `s` and of `x` bounds any list holding `s` and `x`. */
  lemma BoundOfMultiset(a: string, r: seq<string>, s: seq<string>, x: string)
    requires AtLeast(a, s) && StrLe(a, x) && multiset(r) == multiset(s) + multiset{x}
    ensures AtLeast(a, r)
  {
    forall j | 0 <= j < |r| ensures StrLe(a, r[j]) {
      assert r[j] in multiset(r);
      if r[j] != x {
        assert r[j] in multiset(s);
        var k :| 0 <= k < |s| && s[k] == r[j];
      }
    }
  }

  /** The ascending rearrangement of `s`. */
  function Sort(s: seq<string>): (r: seq<string>)
    ensures multiset(r) == multiset(s)
    ensures Ascending(r)
  {
    if s == [] then []
    else
      assert s == [s[0]] + s[1..];
      Insert(s[0], Sort(s[1..]))
  }

  lemma AscendingTail(s: seq<string>)
    requires Ascending(s) && s != []
    ensures Ascending(s[1..])
  {
    forall x, y | 0 <= x < y < |s[1..]| ensures StrLe(s[1..][x], s[1..][y]) {
      assert StrLe(s[x + 1], s[y + 1]);
    }
  }

  /** The head of an ascending list is at or below each of its elements. */
  lemma AscendingHeadLeast(s: seq<string>, y: string)
    requires Ascending(s) && y in multiset(s)
    ensures StrLe(s[0], y)
  {
    var i :| 0 <= i < |s| && s[i] == y;
    if i == 0 { StrLeReflexive(y); }
  }

  lemma MultisetTail(s: seq<string>)
    requires s != []
    ensures multiset(s[1..]) == multiset(s) - multiset{s[0]}
  {
    assert s == [s[0]] + s[1..];
  }

  /** Only one ascending list holds a given multiset of strings: any correct
      sorting algorithm, Python's included, returns what Sort returns. */
  lemma {:induction false} AscendingUnique(a: seq<string>, b: seq<string>)
    requires Ascending(a) && Ascending(b) && multiset(a) == multiset(b)
    ensures a == b
    decreases |a|
  {
    if a != [] {
      assert |b| == |a| by { assert |multiset(b)| == |multiset(a)|; }
      assert a[0] in multiset(b) && b[0] in multiset(a) by {
        assert a[0] in multiset(a) && b[0] in multiset(b);
      }
      AscendingHeadLeast(a, b[0]);
      AscendingHeadLeast(b, a[0]);
      StrLeAntisymmetric(a[0], b[0]);
      assert multiset(a[1..]) == multiset(b[1..]) by {
        MultisetTail(a);
        MultisetTail(b);
      }
      AscendingTail(a);
      AscendingTail(b);
      AscendingUnique(a[1..], b[1..]);
      assert a == [a[0]] + a[1..] && b == [b[0]] + b[1..];
    }
  }

  function Reverse(s: seq<string>): (r: seq<string>)
    ensures |r| == |s| && forall i | 0 <= i < |s| :: r[i] == s[|s| - 1 - i]
  {
    if s == [] then [] else Reverse(s[1..]) + [s[0]]
  }

  /** `sorted(names, reverse=reverse)` */
  function Sorted(names: seq<string>, reverse: bool): (r: seq<string>)
    ensures multiset(r) == multiset(names)
    ensures if reverse then Descending(r) else Ascending(r)
  {
    var up := Sort(names);
    if reverse then
      var r := Reverse(up);
      assert multiset(r) == multiset(up) by {
        assert multiset(up) == multiset(Reverse(up)) by { ReverseMultiset(up); }
      }
      r
    else up
  }

  lemma {:induction false} ReverseMultiset(s: seq<string>)
    ensures multiset(Reverse(s)) == multiset(s)
  {
    if s != [] {
      ReverseMultiset(s[1..]);
      assert s == [s[0]] + s[1..];
    }
  }
}
