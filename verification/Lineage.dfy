/** The experiment registry's parent links: the ancestor walk with its cycle report, and
    the generation-by-generation walk over all descendants. */
module Lineage {
  import opened Wrappers

  type Id = string

  datatype Record = Record(id: Id, parent: Option<Id>)

  /** The registry in listing order; an id is registered once. */
  datatype Store = Store(records: seq<Record>) {

    ghost predicate Valid() {
      forall i, j :: 0 <= i < j < |records| ==> records[i].id != records[j].id
    }

    function Get(id: Id): (r: Option<Record>)
      ensures r.Some? ==> r.value in records && r.value.id == id
      ensures r.None? ==> forall k :: 0 <= k < |records| ==> records[k].id != id
    {
      Find(records, id)
    }

    static function Find(rs: seq<Record>, id: Id): (r: Option<Record>)
      ensures r.Some? ==> r.value in rs && r.value.id == id
      ensures r.None? ==> forall k :: 0 <= k < |rs| ==> rs[k].id != id
    {
      if |rs| == 0 then None
      else if rs[0].id == id then Some(rs[0])
      else Find(rs[1..], id)
    }

    predicate Has(id: Id) {
      Get(id).Some?
    }

    function Ids(): (ids: set<Id>)
      ensures forall id :: id in ids <==> Has(id)
    {
      var ids := set r | r in records :: r.id;
      assert forall id :: id in ids ==> exists k :: 0 <= k < |records| && records[k].id == id;
      ids
    }

    /** The k-th parent of an id; None once the chain has ended or left the registry. */
    ghost function Up(id: Id, k: nat): Option<Id> {
      if k == 0 then Some(id)
      else
        var p := Up(id, k - 1);
        if p.Some? && Has(p.value) then Get(p.value).value.parent else None
    }

    /** `above` is a proper ancestor of `below`. */
    ghost predicate Reaches(below: Id, above: Id) {
      exists k: nat :: k >= 1 && Up(below, k) == Some(above)
    }

    ghost predicate OnLoop(id: Id) {
      Reaches(id, id)
    }

    /** The chain above an id neither ends nor leaves the registry. */
    ghost predicate NeverEnds(id: Id) {
      forall k: nat :: k >= 1 ==> Up(id, k).Some? && Has(Up(id, k).value)
    }

    lemma GetUnique(r: Record)
      requires Valid() && r in records
      ensures Get(r.id) == Some(r)
    {
      var s := Get(r.id).value;
      var i :| 0 <= i < |records| && records[i] == r;
      var j :| 0 <= j < |records| && records[j] == s;
    }

    lemma {:induction false} UpAdd(id: Id, a: nat, b: nat)
      requires Up(id, a).Some?
      ensures Up(id, a + b) == Up(Up(id, a).value, b)
    {
      if b > 0 {
        UpAdd(id, a, b - 1);
      }
    }

    /** Once the chain has ended it stays ended. */
    lemma {:induction false} UpEnded(id: Id, a: nat, b: nat)
      requires a <= b && (Up(id, a).None? || !Has(Up(id, a).value))
      ensures a < b ==> Up(id, b).None?
    {
      if a < b {
        UpEnded(id, a, b - 1);
      }
    }
  }

  // ----- ancestors -----

  /** The records walked are the parents at distance 1, 2, ... without repetition. */
  ghost predicate IsChain(s: Store, root: Id, walked: seq<Record>) {
    && (forall j :: 0 <= j < |walked| ==>
         walked[j] in s.records && s.Up(root, j + 1) == Some(walked[j].id) && s.Get(walked[j].id) == Some(walked[j]))
    && (forall i, j :: 0 <= i < j < |walked| ==> walked[i].id != walked[j].id)
  }

  function IdsOf(rs: seq<Record>): (ids: set<Id>)
    ensures forall r :: r in rs ==> r.id in ids
    ensures forall id :: id in ids ==> exists j :: 0 <= j < |rs| && rs[j].id == id
  {
    set r | r in rs :: r.id
  }

  /** What the ancestor walk reports about the chain above `root`. */
  ghost predicate IsAncestorWalk(s: Store, root: Id, walked: seq<Record>, cycleIds: set<Id>) {
    && IsChain(s, root, walked)
    && WalksAll(s, root, walked)
    && (cycleIds != {} <==> s.NeverEnds(root))
    && (cycleIds != {} ==> cycleIds == IdsOf(walked) && HoldsLoop(s, root, walked))
  }

  /** The walked ids are exactly the registered ancestors. */
  ghost predicate WalksAll(s: Store, root: Id, walked: seq<Record>) {
    forall id :: id in IdsOf(walked) <==> s.Has(id) && s.Reaches(root, id)
  }

  /** The walked ids contain the whole loop above `root`, and nothing else exactly when the
      first parent is itself on the loop. */
  ghost predicate HoldsLoop(s: Store, root: Id, walked: seq<Record>) {
    && |walked| > 0
    && (forall id :: s.Reaches(root, id) && s.OnLoop(id) ==> id in IdsOf(walked))
    && (s.OnLoop(walked[0].id) <==> forall id :: id in IdsOf(walked) ==> s.OnLoop(id))
  }

  /** Beyond the end of the chain there are no registered ancestors. */
  lemma NothingBeyond(s: Store, root: Id, n: nat, k: nat)
    requires s.Up(root, n).None? || !s.Has(s.Up(root, n).value)
    requires s.Up(root, k).Some? && s.Has(s.Up(root, k).value)
    ensures k < n
  {
    hide Store.Up, Store.Has;
    if n <= k {
      s.UpEnded(root, n, k);
    }
  }

  lemma WalkedAreAncestors(s: Store, root: Id, walked: seq<Record>, id: Id)
    requires IsChain(s, root, walked) && id in IdsOf(walked)
    ensures s.Has(id) && s.Reaches(root, id)
  {
    hide Store.Up, Store.Get;
    var j :| 0 <= j < |walked| && walked[j].id == id;
    assert s.Up(root, j + 1) == Some(id);
  }

  /** The chain stopped without repeating: everything above `root` has been walked. */
  lemma ChainEnded(s: Store, root: Id, walked: seq<Record>)
    requires s.Valid() && IsChain(s, root, walked)
    requires var next := s.Up(root, |walked| + 1); next.None? || !s.Has(next.value)
    ensures IsAncestorWalk(s, root, walked, {})
  {
    hide Store.Up, Store.Has, Store.Valid;
    var n := |walked|;
    forall id ensures id in IdsOf(walked) <==> s.Has(id) && s.Reaches(root, id) {
      if id in IdsOf(walked) {
        WalkedAreAncestors(s, root, walked, id);
      }
      if s.Has(id) && s.Reaches(root, id) {
        var k: nat :| k >= 1 && s.Up(root, k) == Some(id);
        NothingBeyond(s, root, n + 1, k);
        assert walked[k - 1] in walked && walked[k - 1].id == id;
      }
    }
  }

  /** After the first repetition the chain stays among the ids walked since its first visit. */
  lemma {:induction false} ChainRepeats(s: Store, root: Id, walked: seq<Record>, i: nat, k: nat)
    requires IsChain(s, root, walked) && i < |walked| && k >= i + 1
    requires s.Up(root, |walked| + 1) == Some(walked[i].id)
    ensures exists j :: i <= j < |walked| && s.Up(root, k) == Some(walked[j].id)
  {
    hide Store.Get;
    if k <= |walked| {
      assert s.Up(root, k) == Some(walked[k - 1].id);
    } else {
      ChainRepeats(s, root, walked, i, k - 1);
      var j :| i <= j < |walked| && s.Up(root, k - 1) == Some(walked[j].id);
      assert s.Up(root, k) == s.Up(root, j + 2);
      if j + 1 < |walked| {
        assert s.Up(root, j + 2) == Some(walked[j + 1].id);
      } else {
        assert s.Up(root, j + 2) == Some(walked[i].id);
      }
    }
  }

  /** Going round a loop again: an id on a loop is met again arbitrarily far up. */
  lemma {:induction false} LoopRevisits(s: Store, id: Id, period: nat, far: nat) returns (k: nat)
    requires period >= 1 && s.Up(id, period) == Some(id)
    ensures k >= far && s.Up(id, k) == Some(id)
    decreases far
  {
    if far == 0 {
      k := period;
    } else {
      var before := LoopRevisits(s, id, period, far - 1);
      s.UpAdd(id, before, period);
      k := before + period;
    }
  }

  /** An id walked from the repeated id on comes back to itself. */
  lemma LoopPartReturns(s: Store, root: Id, walked: seq<Record>, i: nat, m: nat)
    requires IsChain(s, root, walked) && i <= m < |walked|
    requires s.Up(root, |walked| + 1) == Some(walked[i].id)
    ensures s.OnLoop(walked[m].id)
  {
    hide Store.Up, Store.Get, Store.Has;
    var n, id := |walked|, walked[m].id;
    // The walk takes n-i steps to come back to walked[i], so also to walked[m].
    s.UpAdd(root, n + 1, m - i);
    s.UpAdd(root, i + 1, m - i);
    assert s.Up(root, n + 1 + (m - i)) == Some(id);
    s.UpAdd(root, m + 1, n - i);
    assert s.Up(id, n - i) == Some(id);
  }

  /** An id walked before the repeated id never comes back. */
  lemma TailNeverReturns(s: Store, root: Id, walked: seq<Record>, i: nat, m: nat)
    requires IsChain(s, root, walked) && m < i < |walked|
    requires s.Up(root, |walked| + 1) == Some(walked[i].id)
    ensures !s.OnLoop(walked[m].id)
  {
    hide Store.Up, Store.Get, Store.Has;
    var id := walked[m].id;
    if s.OnLoop(id) {
      var period: nat :| period >= 1 && s.Up(id, period) == Some(id);
      var k := LoopRevisits(s, id, period, |walked|);
      s.UpAdd(root, m + 1, k);
      ChainRepeats(s, root, walked, i, m + 1 + k);
    }
  }

  lemma RepeatingNeverEnds(s: Store, root: Id, walked: seq<Record>, i: nat)
    requires s.Valid() && IsChain(s, root, walked) && i < |walked|
    requires s.Up(root, |walked| + 1) == Some(walked[i].id)
    ensures s.NeverEnds(root) && WalksAll(s, root, walked)
  {
    hide Store.Up, Store.Get;
    var n := |walked|;
    forall k: nat | k >= 1
      ensures s.Up(root, k).Some? && s.Has(s.Up(root, k).value) && s.Up(root, k).value in IdsOf(walked)
    {
      if k <= n {
        assert s.Up(root, k) == Some(walked[k - 1].id);
      } else {
        ChainRepeats(s, root, walked, i, k);
      }
    }
    forall id | id in IdsOf(walked) ensures s.Has(id) && s.Reaches(root, id) {
      var j :| 0 <= j < n && walked[j].id == id;
      assert s.Up(root, j + 1) == Some(id);
    }
  }

  /** The chain came back to a walked id: it never ends, and it loops from that id on. */
  lemma ChainLooped(s: Store, root: Id, walked: seq<Record>)
    requires s.Valid() && IsChain(s, root, walked)
    requires s.Up(root, |walked| + 1).Some? && s.Up(root, |walked| + 1).value in IdsOf(walked)
    ensures IsAncestorWalk(s, root, walked, IdsOf(walked))
  {
    hide Store.Up, Store.Get, Store.Has, Store.OnLoop, Store.Reaches, Store.NeverEnds, IsChain;
    var n := |walked|;
    var i :| 0 <= i < n && walked[i].id == s.Up(root, n + 1).value;
    RepeatingNeverEnds(s, root, walked, i);
    LoopReached(s, root, walked);
    forall m | 0 <= m < n ensures s.OnLoop(walked[m].id) <==> i <= m {
      if i <= m {
        LoopPartReturns(s, root, walked, i, m);
      } else {
        TailNeverReturns(s, root, walked, i, m);
      }
    }
    assert walked[0].id in IdsOf(walked);
    if s.OnLoop(walked[0].id) {
      forall id | id in IdsOf(walked) ensures s.OnLoop(id) {
        var j :| 0 <= j < n && walked[j].id == id;
      }
    }
  }

  /** Ids on a loop are registered, so the loop above `root` is among its walked ancestors. */
  lemma LoopReached(s: Store, root: Id, walked: seq<Record>)
    requires WalksAll(s, root, walked)
    ensures forall id :: s.Reaches(root, id) && s.OnLoop(id) ==> id in IdsOf(walked)
  {
    hide Store.Reaches, Store.OnLoop, Store.Has;
    forall id | s.OnLoop(id) ensures s.Has(id) {
      LoopIsRegistered(s, id);
    }
  }

  lemma LoopIsRegistered(s: Store, id: Id)
    requires s.OnLoop(id)
    ensures s.Has(id)
  {
    hide Store.Get, Store.Has;
    var k: nat :| k >= 1 && s.Up(id, k) == Some(id);
    assert s.Up(id, 0) == Some(id);
    if !s.Has(id) {
      s.UpEnded(id, 0, k);
    }
  }

  /** `_walk_ancestors`. */
  method WalkAncestors(s: Store, root: Record) returns (walked: seq<Record>, cycleIds: set<Id>)
    requires s.Valid() && root in s.records
    ensures IsAncestorWalk(s, root.id, walked, cycleIds)
  {
    hide Store.Get, Store.Up, IsAncestorWalk, IsChain;
    StartChain(s, root);
    walked := [];
    cycleIds := {};
    var visited: set<Id> := {};
    var current := root.parent;
    while current.Some?
      invariant IsChain(s, root.id, walked) && visited == IdsOf(walked) <= s.Ids()
      invariant current == s.Up(root.id, |walked| + 1)
      decreases s.Ids() - visited
    {
      var id := current.value;
      if id in visited {
        cycleIds := visited;
        ChainLooped(s, root.id, walked);
        return;
      }
      visited := visited + {id};
      var record := s.Get(id);
      if record.None? {
        ChainEnded(s, root.id, walked);
        return;
      }
      ghost var before := walked;
      walked := walked + [record.value];
      ExtendChain(s, root.id, before, record.value);
      current := record.value.parent;
    }
    ChainEnded(s, root.id, walked);
  }

  lemma StartChain(s: Store, root: Record)
    requires s.Valid() && root in s.records
    ensures IsChain(s, root.id, []) && s.Up(root.id, 1) == root.parent
  {
    s.GetUnique(root);
    assert s.Up(root.id, 0) == Some(root.id);
  }

  lemma ExtendChain(s: Store, root: Id, walked: seq<Record>, r: Record)
    requires s.Valid() && IsChain(s, root, walked) && r in s.records && r.id !in IdsOf(walked)
    requires s.Up(root, |walked| + 1) == Some(r.id)
    ensures IsChain(s, root, walked + [r]) && IdsOf(walked + [r]) == IdsOf(walked) + {r.id}
    ensures s.Up(root, |walked| + 2) == r.parent
  {
    hide Store.Get;
    s.GetUnique(r);
    var more := walked + [r];
    assert forall j :: 0 <= j < |walked| ==> more[j] == walked[j];
  }

  // ----- children -----

  function ChildrenOf(rs: seq<Record>, parent: Id): (c: seq<Record>)
    ensures forall r :: r in c <==> r in rs && r.parent == Some(parent)
  {
    if |rs| == 0 then []
    else
      var last := rs[|rs| - 1];
      ChildrenOf(rs[..|rs| - 1], parent) + if last.parent == Some(parent) then [last] else []
  }

  /** The index maps every id named as a parent to its children, in listing order. */
  ghost predicate IsChildrenIndex(s: Store, index: map<Id, seq<Record>>) {
    forall id :: Lookup(index, id) == ChildrenOf(s.records, id)
  }

  function Lookup(index: map<Id, seq<Record>>, id: Id): seq<Record> {
    if id in index then index[id] else []
  }

  /** `_children_index`. */
  method ChildrenIndex(s: Store) returns (index: map<Id, seq<Record>>)
    ensures IsChildrenIndex(s, index)
  {
    index := map[];
    for i := 0 to |s.records|
      invariant forall id :: Lookup(index, id) == ChildrenOf(s.records[..i], id)
    {
      var record := s.records[i];
      assert s.records[..i + 1][..i] == s.records[..i];
      if record.parent.Some? {
        var parent := record.parent.value;
        index := index[parent := Lookup(index, parent) + [record]];
      }
    }
    assert s.records[..|s.records|] == s.records;
  }

  // ----- descendants -----

  /** `below` first meets `above` after exactly k steps up: its generation below `above`. */
  ghost predicate AtDistance(s: Store, above: Id, below: Id, k: nat) {
    k >= 1 && s.Up(below, k) == Some(above) && forall j :: 1 <= j < k ==> s.Up(below, j) != Some(above)
  }

  lemma {:induction false} NearestMeeting(s: Store, above: Id, below: Id, k: nat) returns (d: nat)
    requires k >= 1 && s.Up(below, k) == Some(above)
    ensures d <= k && AtDistance(s, above, below, d)
  {
    if j: nat :| 1 <= j < k && s.Up(below, j) == Some(above) {
      d := NearestMeeting(s, above, below, j);
    } else {
      d := k;
    }
  }

  /** What the descendant walk returns: the registered ids that reach `above`, each once, and
      nearest generation first. */
  ghost predicate IsDescendantWalk(s: Store, above: Id, walked: seq<Record>) {
    && (forall r :: r in walked <==> r in s.records && s.Reaches(r.id, above))
    && (forall i, j :: 0 <= i < j < |walked| ==> walked[i].id != walked[j].id)
    && (forall i, j, d, e :: 0 <= i < j < |walked| ==>
         AtDistance(s, above, walked[i].id, d) && AtDistance(s, above, walked[j].id, e) ==> d <= e)
    && SiblingsInOrder(s, walked)
  }

  /** Children of one parent appear in listing order. */
  ghost predicate SiblingsInOrder(s: Store, rs: seq<Record>) {
    forall i, j :: 0 <= i < j < |rs| && rs[i].parent == rs[j].parent ==> ListedBefore(s.records, rs[i], rs[j])
  }

  ghost predicate ListedBefore(rs: seq<Record>, a: Record, b: Record) {
    exists p, q :: 0 <= p < q < |rs| && rs[p] == a && rs[q] == b
  }

  lemma {:induction false} ChildrenListed(rs: seq<Record>, parent: Id)
    ensures forall i, j :: 0 <= i < j < |ChildrenOf(rs, parent)| ==>
              ListedBefore(rs, ChildrenOf(rs, parent)[i], ChildrenOf(rs, parent)[j])
  {
    if |rs| > 0 {
      var n := |rs| - 1;
      var before, now := ChildrenOf(rs[..n], parent), ChildrenOf(rs, parent);
      ChildrenListed(rs[..n], parent);
      forall i, j | 0 <= i < j < |now| ensures ListedBefore(rs, now[i], now[j]) {
        if j < |before| {
          var p, q :| 0 <= p < q < n && rs[..n][p] == before[i] && rs[..n][q] == before[j];
          assert rs[p] == now[i] && rs[q] == now[j];
        } else {
          assert before[i] in rs[..n];
          var p :| 0 <= p < n && rs[..n][p] == before[i];
          assert rs[p] == now[i] && rs[n] == now[j];
        }
      }
    }
  }

  /** A child of a record at distance g is at distance g+1, unless it was met earlier; every
      record at distance g+1 is a child of one at distance g. */
  lemma ChildDistance(s: Store, above: Id, parent: Record, child: Record, g: nat)
    requires s.Valid() && parent in s.records && child in s.records && child.parent == Some(parent.id)
    requires AtDistance(s, above, parent.id, g)
    ensures s.Up(child.id, g + 1) == Some(above)
    ensures parent.id != above ==> AtDistance(s, above, child.id, g + 1)
  {
    FirstStep(s, child);
    hide Store.Get, Store.Has;
    forall j: nat | 1 <= j ensures s.Up(child.id, j + 1) == s.Up(parent.id, j) {
      s.UpAdd(child.id, 1, j);
    }
    if parent.id != above {
      forall j | 1 <= j < g + 1 ensures s.Up(child.id, j) != Some(above) {
        assert j > 1 ==> s.Up(child.id, (j - 1) + 1) == s.Up(parent.id, j - 1);
      }
    }
  }

  lemma FirstStep(s: Store, r: Record)
    requires s.Valid() && r in s.records
    ensures s.Up(r.id, 1) == r.parent
  {
    s.GetUnique(r);
    assert s.Up(r.id, 0) == Some(r.id);
  }

  lemma ParentDistance(s: Store, above: Id, child: Record, g: nat) returns (parent: Record)
    requires s.Valid() && child in s.records && g >= 1 && AtDistance(s, above, child.id, g + 1)
    ensures parent in s.records && child.parent == Some(parent.id) && AtDistance(s, above, parent.id, g)
    ensures parent.id != above
  {
    FirstStep(s, child);
    hide Store.Get;
    assert child.parent.Some? && s.Has(child.parent.value) by {
      if child.parent.None? || !s.Has(child.parent.value) {
        s.UpEnded(child.id, 1, g + 1);
      }
    }
    parent := s.Get(child.parent.value).value;
    forall j: nat | 1 <= j ensures s.Up(child.id, j + 1) == s.Up(parent.id, j) {
      s.UpAdd(child.id, 1, j);
    }
    forall j | 1 <= j < g ensures s.Up(parent.id, j) != Some(above) {
      assert s.Up(child.id, j + 1) == s.Up(parent.id, j);
    }
  }

  /** The invariant of the walk after g generations: `walked` holds every record at distance up
      to g, at the distances `levels`, and `frontier` holds every record at distance g+1. */
  ghost predicate Walking(s: Store, above: Id, walked: seq<Record>, levels: seq<nat>, g: nat) {
    && |levels| == |walked|
    && (forall i :: 0 <= i < |walked| ==>
         walked[i] in s.records && AtDistance(s, above, walked[i].id, levels[i]) && levels[i] <= g)
    && (forall i, j :: 0 <= i < j < |walked| ==> levels[i] <= levels[j] && walked[i].id != walked[j].id)
    && (forall r, d: nat :: r in s.records && AtDistance(s, above, r.id, d) && d <= g ==> r in walked)
  }

  ghost predicate IsFrontier(s: Store, above: Id, walked: seq<Record>, frontier: seq<Record>, g: nat) {
    && (forall r :: r in frontier ==> r in s.records && (r in walked || AtDistance(s, above, r.id, g + 1)))
    && (forall r :: r in s.records && AtDistance(s, above, r.id, g + 1) ==> r in frontier)
    && SiblingsInOrder(s, frontier)
  }

  lemma DistanceUnique(s: Store, above: Id, below: Id, d: nat, e: nat)
    requires AtDistance(s, above, below, d) && AtDistance(s, above, below, e)
    ensures d == e
  {
  }

  /** The records of a frontier that have not been walked yet, each once. */
  ghost predicate IsGeneration(walked: seq<Record>, frontier: seq<Record>, generation: seq<Record>) {
    && (forall r :: r in generation <==> r in frontier && r.id !in IdsOf(walked))
    && (forall i, j :: 0 <= i < j < |generation| ==> generation[i].id != generation[j].id)
  }

  lemma StartWalk(s: Store, above: Id)
    requires s.Valid()
    ensures Walking(s, above, [], [], 0) && IsFrontier(s, above, [], ChildrenOf(s.records, above), 0)
  {
    ChildrenListed(s.records, above);
    forall r | r in s.records ensures AtDistance(s, above, r.id, 1) <==> r.parent == Some(above) {
      FirstStep(s, r);
    }
  }

  /** Walking a generation: everything at distance g+1 has now been walked. */
  lemma WalkGeneration(s: Store, above: Id, walked: seq<Record>, levels: seq<nat>, frontier: seq<Record>,
                       generation: seq<Record>, g: nat)
    requires s.Valid() && Walking(s, above, walked, levels, g) && IsFrontier(s, above, walked, frontier, g)
    requires IsGeneration(walked, frontier, generation)
    ensures Walking(s, above, walked + generation, levels + seq(|generation|, _ => g + 1), g + 1)
    ensures forall r :: r in generation <==> r in s.records && AtDistance(s, above, r.id, g + 1)
  {
    hide AtDistance;
    forall r | r in generation ensures AtDistance(s, above, r.id, g + 1) {
      assert r !in walked;
    }
    forall r | r in s.records && AtDistance(s, above, r.id, g + 1) ensures r in generation {
      if r.id in IdsOf(walked) {
        var j :| 0 <= j < |walked| && walked[j].id == r.id;
        DistanceUnique(s, above, r.id, g + 1, levels[j]);
      }
    }
    var more, deeper := walked + generation, levels + seq(|generation|, _ => g + 1);
    forall i | 0 <= i < |more|
      ensures more[i] in s.records && AtDistance(s, above, more[i].id, deeper[i]) && deeper[i] <= g + 1
    {
      assert i >= |walked| ==> more[i] in generation;
    }
    forall i, j | 0 <= i < j < |more| ensures deeper[i] <= deeper[j] && more[i].id != more[j].id {
      if i < |walked| <= j {
        assert more[j] in generation && walked[i].id in IdsOf(walked);
      }
    }
  }

  function Flatten(index: map<Id, seq<Record>>, generation: seq<Record>): seq<Record> {
    if |generation| == 0 then []
    else Flatten(index, generation[..|generation| - 1]) + Lookup(index, generation[|generation| - 1].id)
  }

  lemma IdsOfLast(generation: seq<Record>)
    requires |generation| > 0
    ensures IdsOf(generation) == IdsOf(generation[..|generation| - 1]) + {generation[|generation| - 1].id}
  {
    assert generation == generation[..|generation| - 1] + [generation[|generation| - 1]];
  }

  lemma LookupMembers(s: Store, index: map<Id, seq<Record>>, id: Id)
    requires IsChildrenIndex(s, index)
    ensures forall r :: r in Lookup(index, id) <==> r in s.records && r.parent == Some(id)
  {
    hide Lookup;
  }

  lemma {:induction false} FlattenMembers(s: Store, index: map<Id, seq<Record>>, generation: seq<Record>)
    requires IsChildrenIndex(s, index)
    ensures forall r :: r in Flatten(index, generation) <==>
              r in s.records && r.parent.Some? && r.parent.value in IdsOf(generation)
  {
    hide IsChildrenIndex, Lookup, IdsOf;
    if |generation| > 0 {
      var n := |generation| - 1;
      FlattenMembers(s, index, generation[..n]);
      LookupMembers(s, index, generation[n].id);
      IdsOfLast(generation);
    } else {
      NoIds();
    }
  }

  lemma NoIds()
    ensures IdsOf([]) == {}
  {
  }

  /** Appending the children of another parent keeps siblings in order. */
  lemma AppendSiblings(s: Store, before: seq<Record>, last: seq<Record>, parent: Id)
    requires SiblingsInOrder(s, before) && forall r :: r in before ==> r.parent != Some(parent)
    requires forall r :: r in last ==> r.parent == Some(parent)
    requires forall i, j :: 0 <= i < j < |last| ==> ListedBefore(s.records, last[i], last[j])
    ensures SiblingsInOrder(s, before + last)
  {
    hide ListedBefore;
    var all := before + last;
    forall i, j | 0 <= i < j < |all| && all[i].parent == all[j].parent ensures ListedBefore(s.records, all[i], all[j]) {
      if i >= |before| {
        assert all[i] == last[i - |before|] && all[j] == last[j - |before|];
      } else if j < |before| {
        assert all[i] == before[i] && all[j] == before[j];
      } else {
        assert false;
      }
    }
  }

  lemma {:induction false} FlattenInOrder(s: Store, index: map<Id, seq<Record>>, generation: seq<Record>)
    requires IsChildrenIndex(s, index)
    requires forall i, j :: 0 <= i < j < |generation| ==> generation[i].id != generation[j].id
    ensures SiblingsInOrder(s, Flatten(index, generation))
  {
    hide Lookup, ListedBefore, ChildrenOf;
    if |generation| > 0 {
      var n := |generation| - 1;
      var last := Lookup(index, generation[n].id);
      FlattenInOrder(s, index, generation[..n]);
      FlattenMembers(s, index, generation[..n]);
      ChildrenListed(s.records, generation[n].id);
      AppendSiblings(s, Flatten(index, generation[..n]), last, generation[n].id);
    }
  }

  /** The children of a generation form the next frontier. */
  lemma NextFrontier(s: Store, index: map<Id, seq<Record>>, above: Id, walked: seq<Record>, levels: seq<nat>,
                     generation: seq<Record>, g: nat)
    requires s.Valid() && IsChildrenIndex(s, index) && Walking(s, above, walked, levels, g + 1)
    requires forall r :: r in generation <==> r in s.records && AtDistance(s, above, r.id, g + 1)
    requires forall i, j :: 0 <= i < j < |generation| ==> generation[i].id != generation[j].id
    ensures IsFrontier(s, above, walked, Flatten(index, generation), g + 1)
  {
    hide AtDistance, Flatten, Walking, SiblingsInOrder;
    var frontier := Flatten(index, generation);
    FlattenMembers(s, index, generation);
    FlattenInOrder(s, index, generation);
    forall r | r in frontier ensures r in walked || AtDistance(s, above, r.id, g + 2) {
      var k :| 0 <= k < |generation| && generation[k].id == r.parent.value;
      ChildOfGeneration(s, above, walked, levels, generation[k], r, g);
    }
    forall r | r in s.records && AtDistance(s, above, r.id, g + 2) ensures r in frontier {
      var parent := ParentDistance(s, above, r, g + 1);
      assert parent in generation;
    }
  }

  lemma ChildOfGeneration(s: Store, above: Id, walked: seq<Record>, levels: seq<nat>, parent: Record, r: Record, g: nat)
    requires s.Valid() && Walking(s, above, walked, levels, g + 1)
    requires parent in s.records && AtDistance(s, above, parent.id, g + 1)
    requires r in s.records && r.parent == Some(parent.id)
    ensures r in walked || AtDistance(s, above, r.id, g + 2)
  {
    hide AtDistance;
    ChildDistance(s, above, parent, r, g + 1);
    if parent.id == above {
      ChildAtOne(s, above, r);
    }
  }

  lemma ChildAtOne(s: Store, above: Id, r: Record)
    requires s.Valid() && r in s.records && r.parent == Some(above)
    ensures AtDistance(s, above, r.id, 1)
  {
    FirstStep(s, r);
  }

  /** An empty frontier means that nothing lies farther away. */
  lemma {:induction false} NothingFarther(s: Store, above: Id, r: Record, g: nat, d: nat)
    requires s.Valid() && r in s.records && AtDistance(s, above, r.id, d)
    requires forall q :: q in s.records ==> !AtDistance(s, above, q.id, g + 1)
    ensures d <= g
    decreases d
  {
    hide AtDistance;
    if d > g + 1 {
      var parent := ParentDistance(s, above, r, d - 1);
      NothingFarther(s, above, parent, g, d - 1);
    }
  }

  lemma WalkComplete(s: Store, above: Id, walked: seq<Record>, levels: seq<nat>, g: nat)
    requires s.Valid() && Walking(s, above, walked, levels, g) && IsFrontier(s, above, walked, [], g)
    requires SiblingsInOrder(s, walked)
    ensures IsDescendantWalk(s, above, walked)
  {
    forall r | r in s.records && s.Reaches(r.id, above) ensures r in walked {
      var k: nat :| k >= 1 && s.Up(r.id, k) == Some(above);
      var d := NearestMeeting(s, above, r.id, k);
      NothingFarther(s, above, r, g, d);
    }
    forall i, j, d, e | 0 <= i < j < |walked| && AtDistance(s, above, walked[i].id, d)
                        && AtDistance(s, above, walked[j].id, e)
      ensures d <= e
    {
      DistanceUnique(s, above, walked[i].id, d, levels[i]);
      DistanceUnique(s, above, walked[j].id, e, levels[j]);
    }
  }

  /** The unvisited records of a frontier, in order and without repetition. */
  method TakeGeneration(s: Store, frontier: seq<Record>, walked: seq<Record>, before: set<Id>)
    returns (generation: seq<Record>, visited: set<Id>)
    requires s.Valid() && before == IdsOf(walked) && forall r :: r in frontier ==> r in s.records
    requires SiblingsInOrder(s, frontier)
    ensures IsGeneration(walked, frontier, generation) && visited == before + IdsOf(generation)
    ensures SiblingsInOrder(s, generation)
  {
    hide SiblingsInOrder, IsGeneration, Store.Valid, IdsOf;
    generation := [];
    visited := before;
    NothingTaken(s, walked, frontier);
    for i := 0 to |frontier|
      invariant IsGeneration(walked, frontier[..i], generation) && visited == before + IdsOf(generation)
      invariant SiblingsInOrder(s, generation)
    {
      var record := frontier[i];
      TakeOne(s, walked, frontier, generation, i);
      if record.id !in visited {
        NextSibling(s, walked, frontier, generation, i);
        visited := visited + {record.id};
        generation := generation + [record];
      }
    }
    assert frontier[..|frontier|] == frontier;
  }

  lemma NothingTaken(s: Store, walked: seq<Record>, frontier: seq<Record>)
    ensures IsGeneration(walked, frontier[..0], []) && IdsOf([]) == {} && SiblingsInOrder(s, [])
  {
  }

  /** What is taken from an ordered frontier stays ordered. */
  lemma NextSibling(s: Store, walked: seq<Record>, frontier: seq<Record>, generation: seq<Record>, i: nat)
    requires i < |frontier| && SiblingsInOrder(s, frontier) && SiblingsInOrder(s, generation)
    requires IsGeneration(walked, frontier[..i], generation)
    ensures SiblingsInOrder(s, generation + [frontier[i]])
  {
    hide ListedBefore, IdsOf;
    var more := generation + [frontier[i]];
    forall k, l | 0 <= k < l < |more| && more[k].parent == more[l].parent
      ensures ListedBefore(s.records, more[k], more[l])
    {
      if l == |generation| {
        assert generation[k] in generation && generation[k] in frontier[..i];
        var j :| 0 <= j < i && frontier[..i][j] == generation[k];
        assert frontier[j] == more[k];
      }
    }
  }

  lemma TakeOne(s: Store, walked: seq<Record>, frontier: seq<Record>, generation: seq<Record>, i: nat)
    requires s.Valid() && i < |frontier| && forall r :: r in frontier ==> r in s.records
    requires IsGeneration(walked, frontier[..i], generation)
    ensures var r := frontier[i];
            if r.id in IdsOf(walked) + IdsOf(generation) then IsGeneration(walked, frontier[..i + 1], generation)
            else IsGeneration(walked, frontier[..i + 1], generation + [r])
                 && IdsOf(generation + [r]) == IdsOf(generation) + {r.id}
  {
    var r := frontier[i];
    assert frontier[..i + 1] == frontier[..i] + [r];
    if r.id in IdsOf(generation) {
      var k :| 0 <= k < |generation| && generation[k].id == r.id;
      assert generation[k] in frontier[..i];
      SameRecord(s, generation[k], r);
    }
  }

  lemma SameRecord(s: Store, a: Record, b: Record)
    requires s.Valid() && a in s.records && b in s.records && a.id == b.id
    ensures a == b
  {
    s.GetUnique(a);
    s.GetUnique(b);
  }

  /** Children of one parent lie at one distance, so they are walked in one generation. */
  lemma SiblingsAtOneDistance(s: Store, above: Id, a: Record, b: Record, d: nat, e: nat)
    requires s.Valid() && a in s.records && b in s.records && a.parent == b.parent
    requires AtDistance(s, above, a.id, d) && AtDistance(s, above, b.id, e)
    ensures d == e
  {
    hide AtDistance;
    if a.parent.Some? {
      SiblingsShareAncestors(s, a, b);
      SameDistance(s, above, a.id, b.id, d);
      DistanceUnique(s, above, b.id, d, e);
    } else {
      DistanceReaches(s, above, a.id, d);
      OrphanReachesNothing(s, above, a, d);
    }
  }

  lemma DistanceReaches(s: Store, above: Id, below: Id, d: nat)
    requires AtDistance(s, above, below, d)
    ensures d >= 1 && s.Up(below, d) == Some(above)
  {
  }

  lemma SiblingsShareAncestors(s: Store, a: Record, b: Record)
    requires s.Valid() && a in s.records && b in s.records && a.parent == b.parent && a.parent.Some?
    ensures forall j: nat :: j >= 1 ==> s.Up(a.id, j) == s.Up(b.id, j)
  {
    hide Store.Get, Store.Has, Store.Up;
    FirstStep(s, a);
    FirstStep(s, b);
    forall j: nat | 1 <= j ensures s.Up(a.id, j) == s.Up(b.id, j) {
      s.UpAdd(a.id, 1, j - 1);
      s.UpAdd(b.id, 1, j - 1);
    }
  }

  lemma SameDistance(s: Store, above: Id, a: Id, b: Id, d: nat)
    requires AtDistance(s, above, a, d) && forall j: nat :: j >= 1 ==> s.Up(a, j) == s.Up(b, j)
    ensures AtDistance(s, above, b, d)
  {
    hide Store.Up;
  }

  lemma OrphanReachesNothing(s: Store, above: Id, r: Record, d: nat)
    requires s.Valid() && r in s.records && r.parent.None? && d >= 1
    ensures s.Up(r.id, d).None?
  {
    FirstStep(s, r);
    s.UpEnded(r.id, 1, d);
  }

  lemma SiblingsAcross(s: Store, above: Id, walked: seq<Record>, levels: seq<nat>, generation: seq<Record>, g: nat)
    requires s.Valid() && Walking(s, above, walked, levels, g)
    requires SiblingsInOrder(s, walked) && SiblingsInOrder(s, generation)
    requires forall r :: r in generation ==> r in s.records && AtDistance(s, above, r.id, g + 1)
    ensures SiblingsInOrder(s, walked + generation)
  {
    hide AtDistance;
    var all := walked + generation;
    forall i, j | 0 <= i < j < |all| && all[i].parent == all[j].parent ensures ListedBefore(s.records, all[i], all[j]) {
      if i < |walked| <= j {
        assert all[j] in generation;
        SiblingsAtOneDistance(s, above, all[i], all[j], levels[i], g + 1);
        assert false;
      }
    }
  }

  /** `_walk_descendants`, over the children index of the whole registry. */
  method WalkDescendants(s: Store, above: Id, children: map<Id, seq<Record>>) returns (walked: seq<Record>)
    requires s.Valid() && IsChildrenIndex(s, children)
    ensures IsDescendantWalk(s, above, walked)
  {
    hide AtDistance, IsDescendantWalk, Flatten, IsGeneration, Walking, IsFrontier, SiblingsInOrder, IsChildrenIndex;
    walked := [];
    var visited: set<Id> := {};
    ghost var levels: seq<nat>, g := [], 0;
    StartWalk(s, above);
    NoSiblings(s);
    IndexAt(s, children, above);
    var frontier := Lookup(children, above);
    while frontier != []
      invariant visited == IdsOf(walked) <= s.Ids()
      invariant Walking(s, above, walked, levels, g) && IsFrontier(s, above, walked, frontier, g)
      invariant SiblingsInOrder(s, walked)
      decreases s.Ids() - visited, |frontier|
    {
      FrontierFacts(s, above, walked, frontier, g);
      var generation, reached := TakeGeneration(s, frontier, walked, visited);
      GenerationFacts(s, frontier, walked, generation);
      WalkGeneration(s, above, walked, levels, frontier, generation, g);
      SiblingsAcross(s, above, walked, levels, generation, g);
      levels := levels + seq(|generation|, _ => g + 1);
      walked := walked + generation;
      visited := reached;
      NextFrontier(s, children, above, walked, levels, generation, g);
      EmptyFlatten(children);
      frontier := Flatten(children, generation);
      g := g + 1;
    }
    WalkComplete(s, above, walked, levels, g);
  }

  lemma NoSiblings(s: Store)
    ensures SiblingsInOrder(s, [])
  {
  }

  lemma IndexAt(s: Store, children: map<Id, seq<Record>>, id: Id)
    requires IsChildrenIndex(s, children)
    ensures Lookup(children, id) == ChildrenOf(s.records, id)
  {
  }

  lemma EmptyFlatten(children: map<Id, seq<Record>>)
    ensures Flatten(children, []) == []
  {
  }

  lemma FrontierFacts(s: Store, above: Id, walked: seq<Record>, frontier: seq<Record>, g: nat)
    requires IsFrontier(s, above, walked, frontier, g)
    ensures SiblingsInOrder(s, frontier) && forall r :: r in frontier ==> r in s.records
  {
  }

  lemma GenerationFacts(s: Store, frontier: seq<Record>, walked: seq<Record>, generation: seq<Record>)
    requires s.Valid() && IsGeneration(walked, frontier, generation) && forall r :: r in frontier ==> r in s.records
    ensures forall i, j :: 0 <= i < j < |generation| ==> generation[i].id != generation[j].id
    ensures IdsOf(walked + generation) == IdsOf(walked) + IdsOf(generation)
    ensures IdsOf(generation) <= s.Ids() && IdsOf(generation) !! IdsOf(walked)
    ensures generation != [] ==> generation[0].id in IdsOf(generation)
  {
    forall r | r in generation ensures s.Has(r.id) {
      s.GetUnique(r);
    }
  }

  // ----- the report -----

  datatype Report = Report(ancestors: seq<Record>, descendants: seq<Record>, danglingParent: bool, cycleIds: set<Id>)

  /** The chain above an id reaches an id that is not registered. */
  ghost predicate ChainBroken(s: Store, id: Id) {
    exists k: nat :: k >= 1 && s.Up(id, k).Some? && !s.Has(s.Up(id, k).value)
  }

  /** `lineage`; None stands for the error on an unknown id. */
  method LineageOf(s: Store, id: Id) returns (r: Option<Report>)
    requires s.Valid()
    ensures r.None? <==> !s.Has(id)
    ensures r.Some? ==>
              && IsAncestorWalk(s, id, r.value.ancestors, r.value.cycleIds)
              && IsDescendantWalk(s, id, r.value.descendants)
              && (r.value.danglingParent <==> ChainBroken(s, id) && r.value.ancestors == [])
  {
    var root := s.Get(id);
    if root.None? {
      return None;
    }
    var ancestors, cycleIds := WalkAncestors(s, root.value);
    var children := ChildrenIndex(s);
    var descendants := WalkDescendants(s, id, children);
    var parent := root.value.parent;
    var dangling := parent.Some? && s.Get(parent.value).None?;
    DanglingIsDirect(s, root.value, ancestors, cycleIds);
    return Some(Report(ancestors, descendants, dangling, cycleIds));
  }

  /** The flag sees a missing record only directly above; a break higher up goes unreported. */
  lemma DanglingIsDirect(s: Store, root: Record, ancestors: seq<Record>, cycleIds: set<Id>)
    requires s.Valid() && root in s.records && IsAncestorWalk(s, root.id, ancestors, cycleIds)
    ensures (root.parent.Some? && s.Get(root.parent.value).None?) <==> ChainBroken(s, root.id) && ancestors == []
  {
    FirstStep(s, root);
    hide Store.Get, Store.Up;
    assert ancestors != [] ==> s.Up(root.id, 1) == Some(ancestors[0].id) && s.Has(ancestors[0].id);
    assert root.parent.Some? && s.Has(root.parent.value) ==>
        s.Reaches(root.id, root.parent.value) && root.parent.value in IdsOf(ancestors);
    if ancestors == [] && ChainBroken(s, root.id) {
      var k: nat :| k >= 1 && s.Up(root.id, k).Some? && !s.Has(s.Up(root.id, k).value);
      s.UpEnded(root.id, 1, k);
    }
  }

  /** The two walks agree: x is reported among y's ancestors exactly when y is reported among
      x's descendants. */
  lemma WalksAreDual(s: Store, x: Record, y: Record, ancestorsOfY: seq<Record>, cycleIds: set<Id>,
                     descendantsOfX: seq<Record>)
    requires s.Valid() && x in s.records && y in s.records
    requires IsAncestorWalk(s, y.id, ancestorsOfY, cycleIds) && IsDescendantWalk(s, x.id, descendantsOfX)
    ensures x in ancestorsOfY <==> y in descendantsOfX
  {
    s.GetUnique(x);
    hide Store.Get, Store.Up, Store.Reaches;
    if x.id in IdsOf(ancestorsOfY) {
      var j :| 0 <= j < |ancestorsOfY| && ancestorsOfY[j].id == x.id;
      SameRecord(s, ancestorsOfY[j], x);
    }
  }

  // ----- where the report says less, or more, than its field names promise -----

  const TAILED_LOOP := Store([Record("r", Some("a")), Record("a", Some("b")), Record("b", Some("c")),
                              Record("c", Some("b"))])

  lemma TailedLoopRecords()
    ensures TAILED_LOOP.Get("r") == Some(TAILED_LOOP.records[0])
    ensures TAILED_LOOP.Get("a") == Some(TAILED_LOOP.records[1])
    ensures TAILED_LOOP.Get("b") == Some(TAILED_LOOP.records[2])
    ensures TAILED_LOOP.Get("c") == Some(TAILED_LOOP.records[3])
  {
    var rs := TAILED_LOOP.records;
    assert Store.Find(rs[3..], "c") == Some(rs[3]);
    assert Store.Find(rs[2..], "c") == Store.Find(rs[3..], "c") && Store.Find(rs[2..], "b") == Some(rs[2]);
    assert Store.Find(rs[1..], "c") == Store.Find(rs[2..], "c") && Store.Find(rs[1..], "b") == Store.Find(rs[2..], "b");
    assert Store.Find(rs[1..], "a") == Some(rs[1]);
  }

  lemma {:induction false} TailedLoopUp(k: nat)
    requires k >= 1
    ensures TAILED_LOOP.Up("r", k) == if k == 1 then Some("a") else if k % 2 == 0 then Some("b") else Some("c")
  {
    hide Store.Get;
    TailedLoopRecords();
    if k > 1 {
      TailedLoopUp(k - 1);
    } else {
      assert TAILED_LOOP.Up("r", 0) == Some("r");
    }
  }

  lemma {:induction false} TailNotOnLoop(k: nat)
    requires k >= 1
    ensures TAILED_LOOP.Up("a", k) == if k % 2 == 1 then Some("b") else Some("c")
  {
    hide Store.Get;
    TailedLoopRecords();
    if k > 1 {
      TailNotOnLoop(k - 1);
    } else {
      assert TAILED_LOOP.Up("a", 0) == Some("a");
    }
  }

  /** Walked from "r", the cycle report names "a", which only leads into the loop b-c-b. */
  lemma CycleIdsOvershoot(walked: seq<Record>, cycleIds: set<Id>)
    requires IsAncestorWalk(TAILED_LOOP, "r", walked, cycleIds)
    ensures "a" in cycleIds && !TAILED_LOOP.OnLoop("a")
  {
    hide Store.Get;
    var s := TAILED_LOOP;
    TailedLoopRecords();
    assert s.Has("a") && s.Has("b") && s.Has("c");
    forall k: nat | k >= 1 ensures s.Up("r", k).Some? && s.Has(s.Up("r", k).value) {
      TailedLoopUp(k);
    }
    TailedLoopUp(1);
    assert s.Reaches("r", "a");
    forall k: nat | k >= 1 ensures s.Up("a", k) != Some("a") {
      TailNotOnLoop(k);
    }
  }

  const BROKEN_ABOVE := Store([Record("r", Some("a")), Record("a", Some("gone"))])

  /** A chain broken two steps up is not flagged: a reported dangling parent would need an
      empty ancestor list. */
  lemma BreakHigherUpUnreported(walked: seq<Record>, cycleIds: set<Id>)
    requires IsAncestorWalk(BROKEN_ABOVE, "r", walked, cycleIds)
    ensures ChainBroken(BROKEN_ABOVE, "r") && walked != []
  {
    var s := BROKEN_ABOVE;
    assert s.Has("a") && s.Has("r") && !s.Has("gone");
    assert s.Up("r", 0) == Some("r");
    assert s.Up("r", 1) == Some("a");
    assert s.Up("r", 2) == Some("gone");
    assert s.Reaches("r", "a");
    assert "a" in IdsOf(walked);
  }
}
