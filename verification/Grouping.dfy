/** Splitting a sequence of values into groups by label, and sums over the groups. */
module Grouping {
  import opened RealMath

  /** The values whose label is `tag`, in their original order. */
  function Group<L(==), V>(labels: seq<L>, v: seq<V>, tag: L): (g: seq<V>)
    requires |labels| == |v|
    ensures |g| <= |v|
  {
    if |v| == 0 then []
    else
      var n := |v| - 1;
      Group(labels[..n], v[..n], tag) + if labels[n] == tag then [v[n]] else []
  }

  function GroupSum<L(==)>(labels: seq<L>, v: seq<real>, tag: L): real
    requires |labels| == |v|
  {
    Sum(Group(labels, v, tag))
  }

  predicate Distinct<L(==)>(tags: seq<L>) {
    forall i, j :: 0 <= i < j < |tags| ==> tags[i] != tags[j]
  }

  /** Sum over the given tags of the group sums. */
  function TotalOver<L(==)>(labels: seq<L>, v: seq<real>, tags: seq<L>): real
    requires |labels| == |v|
  {
    if |tags| == 0 then 0.0
    else TotalOver(labels, v, tags[..|tags| - 1]) + GroupSum(labels, v, tags[|tags| - 1])
  }

  /** Sum over the given tags of the absolute group sums. */
  function AbsTotalOver<L(==)>(labels: seq<L>, v: seq<real>, tags: seq<L>): real
    requires |labels| == |v|
  {
    if |tags| == 0 then 0.0
    else AbsTotalOver(labels, v, tags[..|tags| - 1]) + Abs(GroupSum(labels, v, tags[|tags| - 1]))
  }

  function SizeOver<L(==), V>(labels: seq<L>, v: seq<V>, tags: seq<L>): nat
    requires |labels| == |v|
  {
    if |tags| == 0 then 0
    else SizeOver(labels, v, tags[..|tags| - 1]) + |Group(labels, v, tags[|tags| - 1])|
  }

  lemma GroupStep<L, V>(labels: seq<L>, v: seq<V>, tag: L, i: nat)
    requires |labels| == |v| && i < |v|
    ensures Group(labels[..i + 1], v[..i + 1], tag) ==
            Group(labels[..i], v[..i], tag) + if labels[i] == tag then [v[i]] else []
  {
    assert labels[..i + 1][..i] == labels[..i];
    assert v[..i + 1][..i] == v[..i];
  }

  lemma GroupSumStep<L>(labels: seq<L>, v: seq<real>, tag: L)
    requires |labels| == |v| > 0
    ensures var n := |v| - 1;
            GroupSum(labels, v, tag) == GroupSum(labels[..n], v[..n], tag) + if labels[n] == tag then v[n] else 0.0
  {
    var n := |v| - 1;
    var before := Group(labels[..n], v[..n], tag);
    SumAppend(before, v[n]);
    assert before + [] == before;
  }

  /** A tag occurs among distinct tags in at most one place. */
  lemma DistinctPrefix<L>(tags: seq<L>)
    requires Distinct(tags) && |tags| > 0
    ensures Distinct(tags[..|tags| - 1]) && tags[|tags| - 1] !in tags[..|tags| - 1]
  {
  }

  lemma {:induction false} TotalOverStep<L>(labels: seq<L>, v: seq<real>, tags: seq<L>)
    requires |labels| == |v| > 0 && Distinct(tags)
    ensures var n := |v| - 1;
            TotalOver(labels, v, tags) ==
            TotalOver(labels[..n], v[..n], tags) + if labels[n] in tags then v[n] else 0.0
  {
    hide GroupSum;
    if |tags| > 0 {
      var n, t := |v| - 1, |tags| - 1;
      DistinctPrefix(tags);
      TotalOverStep(labels, v, tags[..t]);
      GroupSumStep(labels, v, tags[t]);
      assert labels[n] in tags <==> labels[n] in tags[..t] || labels[n] == tags[t];
    }
  }

  /** Grouping loses nothing: over distinct tags that cover every label the group sums add
      up to the whole sum. */
  lemma {:induction false} GroupsReconcile<L>(labels: seq<L>, v: seq<real>, tags: seq<L>)
    requires |labels| == |v| && Distinct(tags) && forall i :: 0 <= i < |labels| ==> labels[i] in tags
    ensures TotalOver(labels, v, tags) == Sum(v)
  {
    hide TotalOver, Distinct;
    if |v| == 0 {
      EmptyTotals(labels, v, tags);
    } else {
      TotalOverStep(labels, v, tags);
      GroupsReconcile(labels[..|v| - 1], v[..|v| - 1], tags);
    }
  }

  lemma {:induction false} EmptyTotals<L>(labels: seq<L>, v: seq<real>, tags: seq<L>)
    requires |labels| == |v| == 0
    ensures TotalOver(labels, v, tags) == 0.0 && AbsTotalOver(labels, v, tags) == 0.0 && SizeOver(labels, v, tags) == 0
  {
    if |tags| > 0 {
      EmptyTotals(labels, v, tags[..|tags| - 1]);
    }
  }

  lemma AbsAdd(a: real, b: real, c: real)
    requires a == b + c
    ensures Abs(a) <= Abs(b) + Abs(c)
  {
  }

  lemma AbsGroupStep<L>(labels: seq<L>, v: seq<real>, tag: L)
    requires |labels| == |v| > 0
    ensures var n := |v| - 1;
            Abs(GroupSum(labels, v, tag)) <=
            Abs(GroupSum(labels[..n], v[..n], tag)) + if labels[n] == tag then Abs(v[n]) else 0.0
  {
    hide GroupSum;
    var n := |v| - 1;
    GroupSumStep(labels, v, tag);
    AbsAdd(GroupSum(labels, v, tag), GroupSum(labels[..n], v[..n], tag), if labels[n] == tag then v[n] else 0.0);
  }

  lemma {:induction false} AbsTotalOverStep<L>(labels: seq<L>, v: seq<real>, tags: seq<L>)
    requires |labels| == |v| > 0 && Distinct(tags)
    ensures var n := |v| - 1;
            AbsTotalOver(labels, v, tags) <=
            AbsTotalOver(labels[..n], v[..n], tags) + if labels[n] in tags then Abs(v[n]) else 0.0
  {
    hide GroupSum, Abs;
    if |tags| > 0 {
      var n, t := |v| - 1, |tags| - 1;
      DistinctPrefix(tags);
      AbsTotalOverStep(labels, v, tags[..t]);
      AbsGroupStep(labels, v, tags[t]);
      assert labels[n] in tags <==> labels[n] in tags[..t] || labels[n] == tags[t];
    }
  }

  /** Cancellation inside groups can only shrink the total: triangle inequality, group by group. */
  lemma {:induction false} GroupsShrink<L>(labels: seq<L>, v: seq<real>, tags: seq<L>)
    requires |labels| == |v| && Distinct(tags)
    ensures AbsTotalOver(labels, v, tags) <= AbsSum(v)
  {
    if |v| == 0 {
      EmptyTotals(labels, v, tags);
    } else {
      AbsTotalOverStep(labels, v, tags);
      GroupsShrink(labels[..|v| - 1], v[..|v| - 1], tags);
    }
  }

  lemma {:induction false} TotalBelowAbsTotal<L>(labels: seq<L>, v: seq<real>, tags: seq<L>)
    requires |labels| == |v|
    ensures Abs(TotalOver(labels, v, tags)) <= AbsTotalOver(labels, v, tags)
  {
    if |tags| > 0 {
      TotalBelowAbsTotal(labels, v, tags[..|tags| - 1]);
    }
  }

  lemma {:induction false} SizeOverStep<L, V>(labels: seq<L>, v: seq<V>, tags: seq<L>)
    requires |labels| == |v| > 0 && Distinct(tags)
    ensures var n := |v| - 1;
            SizeOver(labels, v, tags) == SizeOver(labels[..n], v[..n], tags) + if labels[n] in tags then 1 else 0
  {
    if |tags| > 0 {
      var t := |tags| - 1;
      DistinctPrefix(tags);
      SizeOverStep(labels, v, tags[..t]);
      assert tags == tags[..t] + [tags[t]];
    }
  }

  /** The groups partition the values. */
  lemma {:induction false} GroupsPartition<L, V>(labels: seq<L>, v: seq<V>, tags: seq<L>)
    requires |labels| == |v| && Distinct(tags) && forall i :: 0 <= i < |labels| ==> labels[i] in tags
    ensures SizeOver(labels, v, tags) == |v|
  {
    if |v| == 0 {
      EmptySizes(labels, v, tags);
    } else {
      SizeOverStep(labels, v, tags);
      GroupsPartition(labels[..|v| - 1], v[..|v| - 1], tags);
    }
  }

  lemma {:induction false} EmptySizes<L, V>(labels: seq<L>, v: seq<V>, tags: seq<L>)
    requires |labels| == |v| == 0
    ensures SizeOver(labels, v, tags) == 0
  {
    if |tags| > 0 {
      EmptySizes(labels, v, tags[..|tags| - 1]);
    }
  }

  /** A group is empty exactly when its tag labels nothing. */
  lemma {:induction false} GroupEmpty<L, V>(labels: seq<L>, v: seq<V>, tag: L)
    requires |labels| == |v|
    ensures Group(labels, v, tag) == [] <==> tag !in labels
  {
    if |v| > 0 {
      var n := |v| - 1;
      GroupEmpty(labels[..n], v[..n], tag);
      assert labels == labels[..n] + [labels[n]];
    }
  }

  /** Two value sequences grouped by the same labels give groups of the same size. */
  lemma {:induction false} GroupSizes<L, V, W>(labels: seq<L>, v: seq<V>, w: seq<W>, tag: L)
    requires |labels| == |v| == |w|
    ensures |Group(labels, v, tag)| == |Group(labels, w, tag)|
  {
    if |v| > 0 {
      var n := |v| - 1;
      GroupSizes(labels[..n], v[..n], w[..n], tag);
    }
  }

  lemma {:induction false} AbsSumSquared(v: seq<real>)
    ensures AbsSum(v) * AbsSum(v) <= |v| as real * Dot(v, v)
    ensures AbsSum(v) >= 0.0
  {
    var w := Magnitudes(v);
    MagnitudesAgree(v);
    SumSquaredBound(w);
  }

  function Magnitudes(v: seq<real>): (w: seq<real>)
    ensures |w| == |v| && forall i :: 0 <= i < |v| ==> w[i] == Abs(v[i])
  {
    seq(|v|, i requires 0 <= i < |v| => Abs(v[i]))
  }

  lemma {:induction false} MagnitudesAgree(v: seq<real>)
    ensures Sum(Magnitudes(v)) == AbsSum(v) >= 0.0
    ensures Dot(Magnitudes(v), Magnitudes(v)) == Dot(v, v)
  {
    if |v| > 0 {
      var n := |v| - 1;
      MagnitudesAgree(v[..n]);
      assert Magnitudes(v)[..n] == Magnitudes(v[..n]);
      assert Abs(v[n]) * Abs(v[n]) == v[n] * v[n];
    }
  }

  function Project<V>(f: V -> real, v: seq<V>): (r: seq<real>)
    ensures |r| == |v| && forall i :: 0 <= i < |v| ==> r[i] == f(v[i])
  {
    seq(|v|, i requires 0 <= i < |v| => f(v[i]))
  }

  /** Selecting a field commutes with grouping. */
  lemma {:induction false} GroupProject<L, V>(f: V -> real, labels: seq<L>, v: seq<V>, tag: L)
    requires |labels| == |v|
    ensures Project(f, Group(labels, v, tag)) == Group(labels, Project(f, v), tag)
  {
    if |v| > 0 {
      var n := |v| - 1;
      GroupProject(f, labels[..n], v[..n], tag);
      assert Project(f, v)[..n] == Project(f, v[..n]);
    }
  }

  lemma {:induction false} TotalOfGroups<L>(labels: seq<L>, v: seq<real>, tags: seq<L>, sums: seq<real>)
    requires |labels| == |v| && |sums| == |tags|
    requires forall j :: 0 <= j < |tags| ==> sums[j] == GroupSum(labels, v, tags[j])
    ensures Sum(sums) == TotalOver(labels, v, tags)
  {
    if |tags| > 0 {
      TotalOfGroups(labels, v, tags[..|tags| - 1], sums[..|tags| - 1]);
    }
  }

  lemma {:induction false} TotalOfSizes<L, V>(labels: seq<L>, v: seq<V>, tags: seq<L>, sizes: seq<real>)
    requires |labels| == |v| && |sizes| == |tags|
    requires forall j :: 0 <= j < |tags| ==> sizes[j] == |Group(labels, v, tags[j])| as real
    ensures Sum(sizes) == SizeOver(labels, v, tags) as real
  {
    if |tags| > 0 {
      TotalOfSizes(labels, v, tags[..|tags| - 1], sizes[..|tags| - 1]);
    }
  }
}
