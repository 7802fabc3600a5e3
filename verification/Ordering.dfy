/** Total orders, sorting of a set of keys, and the code-point order of strings. */
module Ordering {

  ghost predicate IsTotalOrder<K(!new)>(le: (K, K) -> bool) {
    && (forall a, b :: le(a, b) || le(b, a))
    && (forall a, b :: le(a, b) && le(b, a) ==> a == b)
    && (forall a, b, c :: le(a, b) && le(b, c) ==> le(a, c))
  }

  ghost predicate Ascending<K>(s: seq<K>, le: (K, K) -> bool) {
    forall i, j :: 0 <= i < j < |s| ==> le(s[i], s[j]) && s[i] != s[j]
  }

  /** The keys of a dictionary in ascending order. */
  method SortKeys<K(==, !new)>(keys: set<K>, le: (K, K) -> bool) returns (s: seq<K>)
    requires IsTotalOrder(le)
    ensures Ascending(s, le)
    ensures forall k :: k in s <==> k in keys
    ensures |s| == |keys|
  {
    s := [];
    var rest := keys;
    while rest != {}
      invariant rest <= keys && |s| + |rest| == |keys|
      invariant Ascending(s, le)
      invariant forall k :: k in s <==> k in keys && k !in rest
      decreases rest
    {
      var k :| k in rest;
      var at := 0;
      while at < |s| && le(s[at], k)
        invariant 0 <= at <= |s|
        invariant forall i :: 0 <= i < at ==> le(s[i], k)
      {
        at := at + 1;
      }
      assert k !in s;
      InsertAscending(s, k, at, le);
      s := s[..at] + [k] + s[at..];
      rest := rest - {k};
    }
  }

  lemma InsertAscending<K(!new)>(s: seq<K>, k: K, at: nat, le: (K, K) -> bool)
    requires IsTotalOrder(le) && Ascending(s, le) && k !in s && at <= |s|
    requires forall i :: 0 <= i < at ==> le(s[i], k)
    requires at < |s| ==> !le(s[at], k)
    ensures Ascending(s[..at] + [k] + s[at..], le)
    ensures forall x :: x in s[..at] + [k] + s[at..] <==> x == k || x in s
  {
    forall i | at <= i < |s| ensures le(k, s[i]) {
      assert le(k, s[at]);
      assert i > at ==> le(s[at], s[i]);
    }
    InsertedMembers(s, k, at);
  }

  lemma InsertedMembers<K>(s: seq<K>, k: K, at: nat)
    requires at <= |s|
    ensures forall x :: x in s[..at] + [k] + s[at..] <==> x == k || x in s
  {
    assert s == s[..at] + s[at..];
  }

  /** Two ascending sequences with the same elements are equal: the sorted order is unique. */
  lemma {:induction false} AscendingUnique<K(!new)>(s: seq<K>, t: seq<K>, le: (K, K) -> bool)
    requires IsTotalOrder(le) && Ascending(s, le) && Ascending(t, le)
    requires forall k :: k in s <==> k in t
    ensures s == t
  {
    if s == [] {
      assert forall i :: 0 <= i < |t| ==> t[i] in s;
    } else {
      assert s[0] in t;
      var j :| 0 <= j < |t| && t[j] == s[0];
      assert t[0] in s;
      var i :| 0 <= i < |s| && s[i] == t[0];
      assert le(s[0], s[i]) && le(t[0], t[j]);
      assert s[0] == t[0];
      forall k ensures k in s[1..] <==> k in t[1..] {
        TailMembers(s, k, le);
        TailMembers(t, k, le);
      }
      AscendingUnique(s[1..], t[1..], le);
      assert s == [s[0]] + s[1..] && t == [t[0]] + t[1..];
    }
  }

  lemma TailMembers<K>(s: seq<K>, k: K, le: (K, K) -> bool)
    requires |s| > 0 && Ascending(s, le)
    ensures k in s[1..] <==> k in s && k != s[0]
  {
    assert s == [s[0]] + s[1..];
    if k in s[1..] {
      var i :| 0 <= i < |s[1..]| && s[1..][i] == k;
      assert s[i + 1] == k;
    }
  }

  // ----- strings -----

  predicate LexLe(a: string, b: string) {
    a == [] || (b != [] && (a[0] < b[0] || (a[0] == b[0] && LexLe(a[1..], b[1..]))))
  }

  /** The first place where two strings differ decides. */
  lemma {:induction false} FirstDifferenceDecides(s: string, a: char, b: char, t: string, u: string)
    requires a != b
    ensures LexLe(s + [a] + t, s + [b] + u) <==> a < b
  {
    if s == [] {
      HeadsDecide(a, b, t, u);
      assert s + [a] + t == [a] + t && s + [b] + u == [b] + u;
    } else {
      hide LexLe;
      FirstDifferenceDecides(s[1..], a, b, t, u);
      HeadAgrees(s[0], s[1..] + [a] + t, s[1..] + [b] + u);
      assert s + [a] + t == [s[0]] + (s[1..] + [a] + t);
      assert s + [b] + u == [s[0]] + (s[1..] + [b] + u);
    }
  }

  lemma HeadsDecide(a: char, b: char, t: string, u: string)
    requires a != b
    ensures LexLe([a] + t, [b] + u) <==> a < b
  {
  }

  lemma HeadAgrees(c: char, t: string, u: string)
    ensures LexLe([c] + t, [c] + u) <==> LexLe(t, u)
  {
    assert ([c] + t)[1..] == t && ([c] + u)[1..] == u;
  }

  /** A string comes before its extensions. */
  lemma {:induction false} PrefixFirst(s: string, t: string)
    ensures LexLe(s, s + t) && (LexLe(s + t, s) <==> t == [])
  {
    if s == [] {
      assert s + t == t;
    } else {
      PrefixFirst(s[1..], t);
      assert s + t == [s[0]] + (s[1..] + t) && s == [s[0]] + s[1..];
      HeadAgrees(s[0], s[1..], s[1..] + t);
      HeadAgrees(s[0], s[1..] + t, s[1..]);
    }
  }

  lemma {:induction false} LexTotal(a: string, b: string)
    ensures LexLe(a, b) || LexLe(b, a)
    ensures LexLe(a, b) && LexLe(b, a) ==> a == b
  {
    if a != [] && b != [] {
      LexTotal(a[1..], b[1..]);
      assert a == [a[0]] + a[1..] && b == [b[0]] + b[1..];
    }
  }

  lemma {:induction false} LexTransitive(a: string, b: string, c: string)
    requires LexLe(a, b) && LexLe(b, c)
    ensures LexLe(a, c)
  {
    if a != [] && a[0] == b[0] == c[0] {
      LexTransitive(a[1..], b[1..], c[1..]);
    }
  }

  lemma LexIsTotalOrder()
    ensures IsTotalOrder(LexLe)
  {
    forall a, b ensures LexLe(a, b) || LexLe(b, a) {
      LexTotal(a, b);
    }
    forall a, b | LexLe(a, b) && LexLe(b, a) ensures a == b {
      LexTotal(a, b);
    }
    forall a, b, c | LexLe(a, b) && LexLe(b, c) ensures LexLe(a, c) {
      LexTransitive(a, b, c);
    }
  }
}
