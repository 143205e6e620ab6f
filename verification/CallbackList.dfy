/**
 callback_list.h: callbacks that stay in a linked list until their subscription is destroyed, and
 iterators that stand on its nodes. A node is the callback of a subscription, or reset; while an
 iterator is alive nodes are only reset and appended, so that a position is an index or the end.
 */
module CallbackLists {
  import opened Optional
  import opened Sequences
  import ObserverLists

  // A subscription, and the callback that was added with it.
  type Id = nat
  type Node = Option<Id>

  datatype Position = At(index: nat) | End

  function Present(nodes: seq<Node>): (ids: seq<Id>) { ObserverLists.Present(nodes) }

  /** The position after node i; at the end an iterator stays, whatever is appended. */
  function After(nodes: seq<Node>, i: nat): Position
  {
    if i + 1 < |nodes| then At(i + 1) else End
  }

  function First(nodes: seq<Node>): Position
  {
    if nodes == [] then End else At(0)
  }

  predicate OnList(nodes: seq<Node>, p: Position) { p.At? ==> p.index < |nodes| }

  /** The first position from p on that is the end or holds a callback. */
  function Skip(nodes: seq<Node>, p: Position): (q: Position)
    requires OnList(nodes, p)
    ensures OnList(nodes, q) && (q.At? ==> nodes[q.index].Some?)
    decreases if p.At? then |nodes| - p.index else 0
  {
    if p.At? && nodes[p.index] == None then Skip(nodes, After(nodes, p.index)) else p
  }

  /** GetNext */
  function Advanced(nodes: seq<Node>, p: Position): (r: (Option<Id>, Position))
    requires OnList(nodes, p)
    ensures OnList(nodes, r.1)
  {
    var q := Skip(nodes, p);
    if q.At? then (nodes[q.index], After(nodes, q.index)) else (None, End)
  }

  /** The callbacks an iterator has still to come to. */
  function Ahead(nodes: seq<Node>, p: Position): (ids: seq<Id>)
    requires OnList(nodes, p)
  {
    if p.At? then Present(nodes[p.index..]) else []
  }

  /** A subscription's destructor: resets the node while there are iterators, else erases it. */
  function Ended(nodes: seq<Node>, active: nat, id: Id): (r: seq<Node>)
  {
    ObserverLists.Removed(ObserverLists.List(nodes, active, ObserverLists.NotifyAll), id).slots
  }

  function Compacted(nodes: seq<Node>): (r: seq<Node>)
  {
    ObserverLists.Filled(Present(nodes))
  }

  function FirstReset(nodes: seq<Node>): (k: nat)
    ensures k <= |nodes|
  {
    if nodes == [] || nodes[0] == None then 0 else 1 + FirstReset(nodes[1..])
  }

  // ---------------------------------------------------------------- the class and its iterators

  class CallbackList {
    var callbacks: seq<Node>
    var activeIteratorCount: nat
    var hasRemovalCallback: bool
    var removalRuns: nat  // how often the removal callback was run

    constructor ()
      ensures callbacks == [] && activeIteratorCount == 0 && removalRuns == 0 && !hasRemovalCallback
    {
      callbacks, activeIteratorCount, hasRemovalCallback, removalRuns := [], 0, false, 0;
    }

    method SetRemovalCallback(isNull: bool)
      modifies `hasRemovalCallback
      ensures hasRemovalCallback == !isNull
    {
      hasRemovalCallback := !isNull;
    }

    /** Returns the new subscription. */
    method Add(id: Id)
      modifies `callbacks
      ensures callbacks == old(callbacks) + [Some(id)]
    {
      callbacks := callbacks + [Some(id)];
    }

    /** The destructor of a subscription, which is where the list has it. */
    method EndSubscription(id: Id)
      requires Some(id) in callbacks
      modifies `callbacks, `removalRuns
      ensures callbacks == Ended(old(callbacks), activeIteratorCount, id)
      ensures removalRuns == old(removalRuns) + if activeIteratorCount == 0 && hasRemovalCallback then 1 else 0
    {
      var i := ObserverLists.Find(callbacks, id);
      if activeIteratorCount != 0 {
        callbacks := callbacks[i := None];
      } else {
        callbacks := callbacks[..i] + callbacks[i + 1..];
        if hasRemovalCallback {
          removalRuns := removalRuns + 1;
        }
      }
    }

    /** Erases the reset nodes; from the first of them on the removal callback runs once per node. */
    method Compact()
      modifies `callbacks, `removalRuns
      ensures callbacks == Compacted(old(callbacks))
      ensures removalRuns == old(removalRuns)
        + if hasRemovalCallback then |old(callbacks)| - FirstReset(old(callbacks)) else 0
    {
      hide FirstReset;
      var it, updated := 0, false;
      ghost var done := 0;
      ghost var nodes := callbacks;
      while it < |callbacks|
        invariant done <= |nodes| && it <= |callbacks|
        invariant callbacks[it..] == nodes[done..]
        invariant callbacks[..it] == Compacted(nodes[..done])
        invariant updated <==> FirstReset(nodes) < done
        invariant removalRuns == old(removalRuns)
          + if hasRemovalCallback && updated then done - FirstReset(nodes) else 0
        invariant hasRemovalCallback == old(hasRemovalCallback)
        decreases |callbacks| - it
      {
        assert callbacks[it] == nodes[done];
        CompactedStep(nodes, done);
        FirstResetAt(nodes, done);
        Around(callbacks, it);
        if callbacks[it] == None {
          updated := true;
          callbacks := callbacks[..it] + callbacks[it + 1..];
        } else {
          it := it + 1;
        }
        done := done + 1;
        if updated && hasRemovalCallback {
          removalRuns := removalRuns + 1;
        }
      }
      assert callbacks[..it] == callbacks && nodes[..done] == nodes;
    }
  }

  class Iterator {
    const list: CallbackList
    var position: Position

    constructor (list: CallbackList)
      modifies list`activeIteratorCount
      ensures this.list == list && position == First(list.callbacks)
      ensures list.activeIteratorCount == old(list.activeIteratorCount) + 1
    {
      this.list := list;
      position := if |list.callbacks| == 0 then End else At(0);
      new;
      list.activeIteratorCount := list.activeIteratorCount + 1;
    }

    /** The copy constructor. */
    constructor CopyOf(iter: Iterator)
      modifies iter.list`activeIteratorCount
      ensures list == iter.list && position == iter.position
      ensures list.activeIteratorCount == old(iter.list.activeIteratorCount) + 1
    {
      list, position := iter.list, iter.position;
      new;
      list.activeIteratorCount := list.activeIteratorCount + 1;
    }

    /** The destructor. */
    method Finish()
      requires list.activeIteratorCount > 0
      modifies list`activeIteratorCount, list`callbacks, list`removalRuns
      ensures list.activeIteratorCount == old(list.activeIteratorCount) - 1
      ensures list.callbacks == if list.activeIteratorCount == 0 then Compacted(old(list.callbacks)) else old(list.callbacks)
    {
      list.activeIteratorCount := list.activeIteratorCount - 1;
      if list.activeIteratorCount == 0 {
        list.Compact();
      }
    }

    method GetNext() returns (id: Option<Id>)
      requires OnList(list.callbacks, position)
      modifies `position
      ensures (id, position) == Advanced(list.callbacks, old(position))
    {
      while position.At? && list.callbacks[position.index] == None
        invariant OnList(list.callbacks, position)
        invariant Skip(list.callbacks, position) == Skip(list.callbacks, old(position))
        decreases if position.At? then |list.callbacks| - position.index else 0
      {
        position := if position.index + 1 < |list.callbacks| then At(position.index + 1) else End;
      }
      id := None;
      if position.At? {
        id := list.callbacks[position.index];
        position := if position.index + 1 < |list.callbacks| then At(position.index + 1) else End;
      }
    }
  }

  /** Compaction runs the removal callback exactly once just if the last node is the only reset one. */
  lemma RemovalRunsOnce(nodes: seq<Node>)
    ensures |nodes| - FirstReset(nodes) == 1
       <==> nodes != [] && nodes[|nodes| - 1] == None && None !in nodes[..|nodes| - 1]
  {
    var k := FirstReset(nodes);
    FirstResetIs(nodes);
    if nodes != [] {
      assert forall i :: 0 <= i < |nodes| - 1 ==> nodes[..|nodes| - 1][i] == nodes[i];
      if k < |nodes| - 1 {
        assert nodes[..|nodes| - 1][k] == None;
      }
    }
  }

  lemma FirstResetIs(nodes: seq<Node>)
    ensures forall i :: 0 <= i < FirstReset(nodes) ==> nodes[i].Some?
    ensures FirstReset(nodes) < |nodes| ==> nodes[FirstReset(nodes)] == None
  {
    forall i | 0 <= i < |nodes|
      ensures i < FirstReset(nodes) ==> nodes[i].Some?
      ensures i == FirstReset(nodes) ==> nodes[i] == None
    {
      FirstResetAt(nodes, i);
    }
  }

  /** One subscription destroyed in front of another one makes it run twice. */
  lemma RemovalRunsTwice()
    ensures var nodes := [None, Some(1)]; |Compacted(nodes)| == |nodes| - 1 && |nodes| - FirstReset(nodes) == 2
  {
    assert Present([Some(1)]) == [1] + Present([]);
    assert [None, Some(1)][1..] == [Some(1)];
    assert Present([None, Some(1)]) == [] + Present([Some(1)]);
  }

  /** What is behind position i, with its node or without. */
  lemma Around(nodes: seq<Node>, i: nat)
    requires i < |nodes|
    ensures nodes[..i + 1] == nodes[..i] + [nodes[i]] && nodes[i + 1..] == nodes[i..][1..]
    ensures var without := nodes[..i] + nodes[i + 1..];
            without[..i] == nodes[..i] && without[i..] == nodes[i..][1..]
  {
  }

  lemma CompactedStep(nodes: seq<Node>, i: nat)
    requires i < |nodes|
    ensures Compacted(nodes[..i + 1])
         == Compacted(nodes[..i]) + if nodes[i].Some? then [nodes[i]] else []
  {
    assert nodes[..i + 1] == nodes[..i] + [nodes[i]];
    ObserverLists.PresentConcat(nodes[..i], [nodes[i]]);
    assert Present([nodes[i]]) == ObserverLists.Contents(nodes[i]);
  }

  lemma {:induction false} FirstResetAt(nodes: seq<Node>, i: nat)
    requires i < |nodes|
    ensures i < FirstReset(nodes) ==> nodes[i].Some?
    ensures i == FirstReset(nodes) ==> nodes[i] == None
    ensures i > FirstReset(nodes) ==> FirstReset(nodes) < |nodes|
  {
    if i > 0 && nodes[0].Some? {
      FirstResetAt(nodes[1..], i - 1);
    }
  }

  // ---------------------------------------------------------------- every run of the list

  /** Nested passes are iterators that are alive at the same time; Duplicate is the copy constructor. */
  datatype Op =
    | Add
    | Destroy(id: Id)
    | Begin(it: nat)
    | Duplicate(of: nat, it: nat)
    | Next(it: nat)
    | Finish(it: nat)

  /**
   One pass as its caller sees it: the subscriptions at its start, those offered to it since, those
   destroyed before it reached them, what it delivered, and what it has still to deliver.
   */
  datatype Pass = Pass(start: seq<Id>, offered: seq<Id>, dropped: set<Id>, delivered: seq<Id>, todo: seq<Id>)

  /** The list and its iterators, the subscriptions alive in the order of Add, and the passes. */
  datatype World = World(nodes: seq<Node>, active: nat, positions: map<nat, Position>, nextId: Id,
                         subscribed: seq<Id>, passes: map<nat, Pass>)

  const EMPTY := World([], 0, map[], 0, [], map[])

  predicate Enabled(w: World, op: Op)
  {
    match op
    case Add => true
    case Destroy(id) => id in w.subscribed
    case Begin(it) => it !in w.positions
    case Duplicate(of, it) => of in w.positions && it !in w.positions
    case Next(it) => it in w.positions && OnList(w.nodes, w.positions[it])
    case Finish(it) => it in w.positions && w.active > 0
  }

  function Offered(p: Pass, id: Id): Pass { p.(offered := p.offered + [id], todo := p.todo + [id]) }

  function Withdrawn(p: Pass, id: Id): Pass
  {
    if id in p.todo then p.(dropped := p.dropped + {id}, todo := Without(p.todo, {id})) else p
  }

  function Served(p: Pass): Pass
  {
    if p.todo == [] then p else p.(delivered := p.delivered + [p.todo[0]], todo := p.todo[1..])
  }

  /** A new callback is offered to the passes whose iterator is not at the end. */
  function Step(w: World, op: Op): (w': World)
    requires Enabled(w, op)
  {
    match op
    case Add =>
      w.(nodes := w.nodes + [Some(w.nextId)], nextId := w.nextId + 1, subscribed := w.subscribed + [w.nextId],
         passes := map it | it in w.passes ::
           if it in w.positions && w.positions[it].At? then Offered(w.passes[it], w.nextId) else w.passes[it])
    case Destroy(id) =>
      w.(nodes := Ended(w.nodes, w.active, id), subscribed := Without(w.subscribed, {id}),
         passes := map it | it in w.passes :: Withdrawn(w.passes[it], id))
    case Begin(it) =>
      w.(active := w.active + 1, positions := w.positions[it := First(w.nodes)],
         passes := w.passes[it := Pass(w.subscribed, [], {}, [], w.subscribed)])
    case Duplicate(of, it) =>
      w.(active := w.active + 1, positions := w.positions[it := w.positions[of]],
         passes := if of in w.passes then w.passes[it := w.passes[of]] else w.passes)
    case Next(it) =>
      w.(positions := w.positions[it := Advanced(w.nodes, w.positions[it]).1],
         passes := if it in w.passes then w.passes[it := Served(w.passes[it])] else w.passes)
    case Finish(it) =>
      w.(active := w.active - 1, nodes := if w.active == 1 then Compacted(w.nodes) else w.nodes,
         positions := w.positions - {it}, passes := w.passes - {it})
  }

  /** What GetNext returns. */
  function Answer(w: World, it: nat): Option<Id>
    requires Enabled(w, Next(it))
  {
    Advanced(w.nodes, w.positions[it]).0
  }

  // ---------------------------------------------------------------- the invariant

  predicate Below(s: seq<Id>, bound: nat) { forall id :: id in s ==> id < bound }

  /** A pass delivers in order what it was started with and offered, less what was dropped. */
  predicate Faithful(p: Pass, nextId: Id)
  {
    && NoRepeats<Id>(p.start + p.offered) && Below(p.start + p.offered, nextId)
    && (forall id :: id in p.dropped ==> id < nextId)
    && p.delivered + p.todo == Without(p.start + p.offered, p.dropped)
  }

  /** It has delivered all of that. */
  predicate Complete(p: Pass)
  {
    p.delivered == Without(p.start + p.offered, p.dropped)
  }

  /** An iterator has just the rest of its pass ahead. */
  predicate Follows(nodes: seq<Node>, position: Position, p: Pass)
  {
    OnList(nodes, position) && Ahead(nodes, position) == p.todo
  }

  /**
   The callbacks on the list are, one for one and in the order of Add, those of the living
   subscriptions, and without iterators nothing else is on it.
   */
  ghost predicate Sound(w: World)
  {
    && NoRepeats<Id>(w.subscribed) && Below(w.subscribed, w.nextId)
    && ObserverLists.Distinct(w.nodes) && Present(w.nodes) == w.subscribed
    && w.active == |w.positions| && w.positions.Keys == w.passes.Keys
    && (w.active == 0 ==> None !in w.nodes)
    && (forall it :: it in w.positions ==> Follows(w.nodes, w.positions[it], w.passes[it]))
    && (forall it :: it in w.passes ==> Faithful(w.passes[it], w.nextId))
  }

  // ---------------------------------------------------------------- steps keep it

  lemma {:induction false} SkipFinds(nodes: seq<Node>, p: Position)
    requires OnList(nodes, p)
    ensures Ahead(nodes, Skip(nodes, p)) == Ahead(nodes, p)
    decreases if p.At? then |nodes| - p.index else 0
  {
    if p.At? && nodes[p.index] == None {
      SkipFinds(nodes, After(nodes, p.index));
      var rest := nodes[p.index..];
      assert rest[1..] == nodes[p.index + 1..];
      assert Present(rest) == ObserverLists.Contents(None) + Present(rest[1..]);
      ConcatEmpty(Present(rest[1..]));
    }
  }

  /** GetNext takes the head of what is ahead. */
  lemma AdvancedAhead(nodes: seq<Node>, p: Position)
    requires OnList(nodes, p)
    ensures var (id, q) := Advanced(nodes, p);
            Ahead(nodes, p) == if id.Some? then [id.value] + Ahead(nodes, q) else []
  {
    SkipFinds(nodes, p);
    var q := Skip(nodes, p);
    if q.At? {
      assert nodes[q.index..][1..] == nodes[q.index + 1..];
      ObserverLists.PresentFirst(nodes[q.index..]);
    }
  }

  lemma FollowsAppended(nodes: seq<Node>, position: Position, p: Pass, id: Id)
    requires Follows(nodes, position, p)
    ensures Follows(nodes + [Some(id)], position, if position.At? then Offered(p, id) else p)
  {
    if position.At? {
      assert (nodes + [Some(id)])[position.index..] == nodes[position.index..] + [Some(id)];
      ObserverLists.PresentConcat(nodes[position.index..], [Some(id)]);
      assert Present([Some(id)]) == [id];
    }
  }

  lemma FollowsEnded(nodes: seq<Node>, active: nat, position: Position, p: Pass, id: Id)
    requires Follows(nodes, position, p) && ObserverLists.Distinct(nodes) && Some(id) in nodes && active > 0
    ensures Follows(Ended(nodes, active, id), position, Withdrawn(p, id))
  {
    hide ObserverLists.Present, Without;
    if position.At? {
      ObserverLists.NulledStretch(nodes, id, position.index, |nodes|);
      assert nodes[position.index..|nodes|] == nodes[position.index..];
      var after := Ended(nodes, active, id);
      assert after[position.index..|nodes|] == after[position.index..];
    }
    if id !in p.todo {
      WithoutNone(p.todo, {id});
    }
  }

  lemma DistinctAppended(s: seq<Id>, id: Id)
    requires NoRepeats<Id>(s) && Below(s, id)
    ensures NoRepeats<Id>(s + [id]) && Below(s + [id], id + 1)
  {
    forall i, j | 0 <= i < j < |s + [id]|
      ensures (s + [id])[i] != (s + [id])[j]
    {
      assert s[i] in s;
    }
  }

  lemma FaithfulOffered(p: Pass, id: Id)
    requires Faithful(p, id)
    ensures Faithful(Offered(p, id), id + 1)
  {
    var all := p.start + p.offered;
    DistinctAppended(all, id);
    ConcatAssoc(p.start, p.offered, [id]);
    ConcatAssoc(p.delivered, p.todo, [id]);
    WithoutConcat(all, [id], p.dropped);
    assert Without([id], p.dropped) == [id];
  }

  lemma FaithfulWithdrawn(p: Pass, id: Id, nextId: Id)
    requires Faithful(p, nextId)
    ensures Faithful(Withdrawn(p, id), nextId)
  {
    if id in p.todo {
      WithoutRest<Id>(p.start + p.offered, p.dropped, p.delivered, p.todo, {id});
      assert Common<Id>(p.todo, {id}) == {id};
      WithoutHas<Id>(p.start + p.offered, p.dropped, id);
      assert id in p.delivered + p.todo;
      hide Without, NoRepeats;
    }
  }

  lemma FaithfulServed(p: Pass, nextId: Id)
    requires Faithful(p, nextId)
    ensures Faithful(Served(p), nextId)
  {
    if p.todo != [] {
      ConcatAssoc(p.delivered, [p.todo[0]], p.todo[1..]);
      assert [p.todo[0]] + p.todo[1..] == p.todo;
    }
  }

  lemma FaithfulStarted(subscribed: seq<Id>, nextId: Id)
    requires NoRepeats<Id>(subscribed) && Below(subscribed, nextId)
    ensures Faithful(Pass(subscribed, [], {}, [], subscribed), nextId)
  {
    ConcatEmpty(subscribed);
    WithoutNone(subscribed, {});
  }

  lemma AddSound(w: World)
    requires Sound(w)
    ensures Sound(Step(w, Add))
  {
    hide ObserverLists.Present, Without, Follows, Faithful;
    var after := Step(w, Add);
    DistinctAppended(w.subscribed, w.nextId);
    NodesAppended(w.nodes, w.nextId);
    forall it | it in w.positions
      ensures Follows(after.nodes, after.positions[it], after.passes[it])
    {
      FollowsAppended(w.nodes, w.positions[it], w.passes[it], w.nextId);
    }
    forall it | it in w.passes
      ensures Faithful(after.passes[it], after.nextId)
    {
      FaithfulOffered(w.passes[it], w.nextId);
      FaithfulLater(w.passes[it], w.nextId);
    }
  }

  lemma FaithfulLater(p: Pass, nextId: Id)
    requires Faithful(p, nextId)
    ensures Faithful(p, nextId + 1)
  {
  }

  lemma NodesAppended(nodes: seq<Node>, id: Id)
    requires ObserverLists.Distinct(nodes) && Below(Present(nodes), id)
    ensures ObserverLists.Distinct(nodes + [Some(id)]) && Present(nodes + [Some(id)]) == Present(nodes) + [id]
    ensures None !in nodes ==> None !in nodes + [Some(id)]
  {
    ObserverLists.PresentConcat(nodes, [Some(id)]);
    assert Present([Some(id)]) == [id];
    ObserverLists.PresentHas(nodes, id);
  }

  lemma DestroySound(w: World, id: Id)
    requires Sound(w) && Enabled(w, Destroy(id))
    ensures Sound(Step(w, Destroy(id)))
  {
    hide ObserverLists.Present, Without, Follows, Faithful;
    var after := Step(w, Destroy(id));
    var l := ObserverLists.List(w.nodes, w.active, ObserverLists.NotifyAll);
    ObserverLists.PresentHas(w.nodes, id);
    ObserverLists.RemovedPresent(l, id);
    ObserverLists.RemovedDistinct(l, id);
    WithoutStays(w.subscribed, id, w.nextId);
    forall it | it in w.positions
      ensures Follows(after.nodes, after.positions[it], after.passes[it])
    {
      assert w.positions.Keys != {};
      FollowsEnded(w.nodes, w.active, w.positions[it], w.passes[it], id);
    }
    forall it | it in w.passes
      ensures Faithful(after.passes[it], after.nextId)
    {
      FaithfulWithdrawn(w.passes[it], id, w.nextId);
    }
  }

  lemma WithoutStays(s: seq<Id>, id: Id, nextId: Id)
    requires NoRepeats<Id>(s) && Below(s, nextId)
    ensures NoRepeats<Id>(Without<Id>(s, {id})) && Below(Without<Id>(s, {id}), nextId)
  {
    WithoutDistinct<Id>(s, {id});
    forall x: Id | x in Without<Id>(s, {id})
      ensures x < nextId
    {
      WithoutHas<Id>(s, {id}, x);
    }
  }

  lemma BeginSound(w: World, it: nat)
    requires Sound(w) && Enabled(w, Begin(it))
    ensures Sound(Step(w, Begin(it)))
  {
    hide ObserverLists.Present, Without, Faithful;
    FaithfulStarted(w.subscribed, w.nextId);
    assert w.positions[it := First(w.nodes)].Keys == w.positions.Keys + {it};
    if w.nodes == [] {
      PresentNothing();
    } else {
      assert w.nodes[0..] == w.nodes;
    }
  }

  lemma PresentNothing()
    ensures Present([]) == []
  {
  }

  lemma DuplicateSound(w: World, of: nat, it: nat)
    requires Sound(w) && Enabled(w, Duplicate(of, it))
    ensures Sound(Step(w, Duplicate(of, it)))
  {
    hide ObserverLists.Present, Without, Faithful, Follows;
    assert w.positions[it := w.positions[of]].Keys == w.positions.Keys + {it};
  }

  /** GetNext takes the head of the queue of its pass and follows what is left of it. */
  lemma FollowsNext(nodes: seq<Node>, position: Position, p: Pass)
    requires Follows(nodes, position, p)
    ensures Follows(nodes, Advanced(nodes, position).1, Served(p))
    ensures Advanced(nodes, position).0 == if p.todo == [] then None else Some(p.todo[0])
  {
    hide ObserverLists.Present, Ahead, Advanced;
    AdvancedAhead(nodes, position);
    NothingAfterEnd(nodes, position);
  }

  /** What GetNext returns is the head of the queue of its pass. */
  lemma NextAnswers(w: World, it: nat)
    requires Sound(w) && Enabled(w, Next(it)) && it in w.passes
    ensures Answer(w, it) == if w.passes[it].todo == [] then None else Some(w.passes[it].todo[0])
  {
    hide Advanced, Follows, ObserverLists.Present, Faithful;
    assert Follows(w.nodes, w.positions[it], w.passes[it]);
    FollowsNext(w.nodes, w.positions[it], w.passes[it]);
  }

  lemma NextSound(w: World, it: nat)
    requires Sound(w) && Enabled(w, Next(it))
    ensures Sound(Step(w, Next(it)))
  {
    hide ObserverLists.Present, Without, Faithful, Ahead, Advanced, Served, Follows;
    assert Follows(w.nodes, w.positions[it], w.passes[it]);
    FollowsNext(w.nodes, w.positions[it], w.passes[it]);
    FaithfulServed(w.passes[it], w.nextId);
    assert w.positions[it := Advanced(w.nodes, w.positions[it]).1].Keys == w.positions.Keys;
  }

  lemma NothingAfterEnd(nodes: seq<Node>, p: Position)
    requires OnList(nodes, p)
    ensures Advanced(nodes, p).0 == None ==> Ahead(nodes, Advanced(nodes, p).1) == []
  {
  }

  lemma FinishSound(w: World, it: nat)
    requires Sound(w) && Enabled(w, Finish(it))
    ensures Sound(Step(w, Finish(it)))
  {
    hide ObserverLists.Present, Without, Faithful, Follows;
    assert (w.positions - {it}).Keys == w.positions.Keys - {it};
    assert |w.positions.Keys - {it}| == |w.positions| - 1;
    if w.active == 1 {
      ObserverLists.CompactedPresent(ObserverLists.List(w.nodes, 0, ObserverLists.NotifyAll));
      assert w.positions.Keys - {it} == {};
    }
  }

  lemma StepSound(w: World, op: Op)
    requires Sound(w) && Enabled(w, op)
    ensures Sound(Step(w, op))
  {
    match op
    case Add => AddSound(w);
    case Destroy(id) => DestroySound(w, id);
    case Begin(it) => BeginSound(w, it);
    case Duplicate(of, it) => DuplicateSound(w, of, it);
    case Next(it) => NextSound(w, it);
    case Finish(it) => FinishSound(w, it);
  }

  predicate Runs(w: World, ops: seq<Op>)
    decreases |ops|
  {
    ops != [] ==> Enabled(w, ops[0]) && Runs(Step(w, ops[0]), ops[1..])
  }

  function Final(w: World, ops: seq<Op>): World
    requires Runs(w, ops)
    decreases |ops|
  {
    if ops == [] then w else Final(Step(w, ops[0]), ops[1..])
  }

  lemma {:induction false} RunSound(w: World, ops: seq<Op>)
    requires Sound(w) && Runs(w, ops)
    ensures Sound(Final(w, ops))
    decreases |ops|
  {
    hide Sound, Step, Enabled;
    if ops != [] {
      StepSound(w, ops[0]);
      RunSound(Step(w, ops[0]), ops[1..]);
    }
  }

  lemma EmptySound()
    ensures Sound(EMPTY)
  {
  }

  /**
   Over every run the callbacks on the list are, in the order of Add, those of the living
   subscriptions, and nothing else is on it without iterators; GetNext returns only a living
   subscription's callback; a pass for which it returns null has delivered, in order, the callbacks
   present at its start or offered to it, except those whose subscription was destroyed before.
   */
  lemma EveryRun(ops: seq<Op>)
    requires Runs(EMPTY, ops)
    ensures var w := Final(EMPTY, ops);
            && Present(w.nodes) == w.subscribed && w.active == |w.positions|
            && (w.active == 0 ==> w.nodes == ObserverLists.Filled(w.subscribed))
            && (forall it :: it in w.positions ==> it in w.passes && Enabled(w, Next(it)))
            && (forall it :: it in w.positions && Answer(w, it).Some? ==> Answer(w, it).value in w.subscribed)
            && (forall it :: it in w.positions && Answer(w, it) == None ==> Complete(w.passes[it]))
  {
    hide Runs, Final, ObserverLists.Present, Without, Advanced;
    EmptySound();
    RunSound(EMPTY, ops);
    var w := Final(EMPTY, ops);
    if w.active == 0 {
      ObserverLists.NoNullsFilled(w.nodes);
    }
    forall it | it in w.positions
      ensures it in w.passes && Enabled(w, Next(it))
      ensures Answer(w, it).Some? ==> Answer(w, it).value in w.subscribed
      ensures Answer(w, it) == None ==> Complete(w.passes[it])
    {
      assert Follows(w.nodes, w.positions[it], w.passes[it]) && Faithful(w.passes[it], w.nextId);
      NextAnswers(w, it);
      if Answer(w, it).Some? {
        AnswerOnList(w.nodes, w.positions[it]);
        ObserverLists.PresentHas(w.nodes, Answer(w, it).value);
      } else {
        ConcatEmpty(w.passes[it].delivered);
      }
    }
  }

  lemma AnswerOnList(nodes: seq<Node>, p: Position)
    requires OnList(nodes, p) && Advanced(nodes, p).0.Some?
    ensures Advanced(nodes, p).0 in nodes
  {
  }

  // ---------------------------------------------------------------- callbacks added during a pass

  /** What a run that does not finish a pass leaves of its past: what is not new to it stays as it is. */
  lemma {:induction false} PassGoesOn(w: World, ops: seq<Op>, it: nat, id: Id)
    requires Sound(w) && Runs(w, ops) && it in w.positions && Finish(it) !in ops && id < w.nextId
    ensures var p, q := w.passes[it], Final(w, ops).passes;
            && it in Final(w, ops).positions && it in q
            && (id in q[it].start + q[it].offered <==> id in p.start + p.offered)
            && (id !in p.dropped && Destroy(id) !in ops ==> id !in q[it].dropped)
    decreases |ops|
  {
    assert it in w.passes;
    hide Sound, Step, Enabled;
    if ops != [] {
      assert ops[0] in ops && forall op :: op in ops[1..] ==> op in ops;
      StepSound(w, ops[0]);
      PassStepsOn(w, ops[0], it, id);
      PassGoesOn(Step(w, ops[0]), ops[1..], it, id);
    }
  }

  lemma PassStepsOn(w: World, op: Op, it: nat, id: Id)
    requires Sound(w) && Enabled(w, op) && it in w.positions && op != Finish(it) && id < w.nextId
    ensures var v := Step(w, op);
            && it in v.positions && it in v.passes && id < v.nextId
            && (id in v.passes[it].start + v.passes[it].offered <==> id in w.passes[it].start + w.passes[it].offered)
            && (id !in w.passes[it].dropped && op != Destroy(id) ==> id !in v.passes[it].dropped)
  {
    hide ObserverLists.Present, Without, Ended, Compacted, Advanced, Follows, Faithful;
    var p, q := w.passes[it], Step(w, op).passes[it];
    ConcatAssoc(p.start, p.offered, [w.nextId]);
    var all := p.start + p.offered;
    assert id in all + [w.nextId] <==> id in all;
    assert q.start + q.offered == all || q.start + q.offered == all + [w.nextId];
    if op.Destroy? {
      assert q.dropped == p.dropped || q.dropped == p.dropped + {op.id};
    } else {
      assert q.dropped == p.dropped;
    }
  }

  /** A position is moved only by its own iterator. */
  lemma {:induction false} PositionStays(w: World, ops: seq<Op>, it: nat)
    requires Sound(w) && Runs(w, ops) && it in w.positions && Next(it) !in ops && Finish(it) !in ops
    ensures it in Final(w, ops).positions && Final(w, ops).positions[it] == w.positions[it]
    decreases |ops|
  {
    hide Sound, Step, Enabled;
    if ops != [] {
      assert ops[0] in ops && forall op :: op in ops[1..] ==> op in ops;
      StepSound(w, ops[0]);
      PositionStepsOn(w, ops[0], it);
      PositionStays(Step(w, ops[0]), ops[1..], it);
    }
  }

  lemma PositionStepsOn(w: World, op: Op, it: nat)
    requires Enabled(w, op) && it in w.positions && op != Next(it) && op != Finish(it)
    ensures it in Step(w, op).positions && Step(w, op).positions[it] == w.positions[it]
  {
    hide ObserverLists.Present, Without, Ended, Compacted, Advanced;
  }

  /**
   A callback added while a pass is under way is delivered by it, if the pass comes to its end,
   exactly when the iterator was not at the end already and the subscription was not destroyed
   before it was reached.
   */
  lemma AddedIsDelivered(w: World, ops: seq<Op>, it: nat)
    requires Sound(w) && it in w.positions && Runs(Step(w, Add), ops) && Finish(it) !in ops
    requires var v := Final(Step(w, Add), ops); Enabled(v, Next(it)) && Answer(v, it) == None
    ensures var v := Final(Step(w, Add), ops);
            && it in v.passes
            && (w.nextId in v.passes[it].delivered <==> w.positions[it].At? && w.nextId !in v.passes[it].dropped)
            && (Destroy(w.nextId) !in ops ==> (w.nextId in v.passes[it].delivered <==> w.positions[it].At?))
  {
    var u := Step(w, Add);
    var p := w.passes[it];
    assert Faithful(p, w.nextId);
    assert u.passes[it] == if w.positions[it].At? then Offered(p, w.nextId) else p;
    assert w.nextId in u.passes[it].start + u.passes[it].offered <==> w.positions[it].At?;
    AddSound(w);
    hide Step, Sound, Runs, Final, Answer, Enabled, ObserverLists.Present;
    PassGoesOn(u, ops, it, w.nextId);
    RunSound(u, ops);
    FinishedIsComplete(Final(u, ops), it);
    var q := Final(u, ops).passes[it];
    WithoutHas<Id>(q.start + q.offered, q.dropped, w.nextId);
  }

  lemma FinishedIsComplete(w: World, it: nat)
    requires Sound(w) && Enabled(w, Next(it)) && Answer(w, it) == None
    ensures it in w.passes && Complete(w.passes[it])
  {
    hide ObserverLists.Present, Without, Advanced, Ahead;
    assert it in w.passes;
    NextAnswers(w, it);
    assert Faithful(w.passes[it], w.nextId);
    ConcatEmpty(w.passes[it].delivered);
  }

  /** A pass goes on, and ends, at any time; a subscription that is alive can be destroyed at any time. */
  lemma OpsEnabled(w: World, id: Id, it: nat)
    requires Sound(w)
    ensures it in w.positions ==> Enabled(w, Next(it)) && Enabled(w, Finish(it))
    ensures it in w.positions ==> forall other :: other !in w.positions ==> Enabled(w, Duplicate(it, other))
    ensures it !in w.positions ==> Enabled(w, Begin(it))
    ensures Enabled(w, Add) && (Enabled(w, Destroy(id)) <==> id in Present(w.nodes))
  {
    hide ObserverLists.Present, Faithful, Ahead;
    if it in w.positions {
      assert w.positions.Keys != {} && Follows(w.nodes, w.positions[it], w.passes[it]);
    }
  }

  /** A new pass has the callbacks of all living subscriptions ahead, in the order of Add. */
  lemma BeginStarts(w: World, it: nat)
    requires Sound(w) && Enabled(w, Begin(it))
    ensures var after := Step(w, Begin(it));
            && it in after.positions && OnList(after.nodes, after.positions[it])
            && after.nodes == w.nodes && Ahead(after.nodes, after.positions[it]) == w.subscribed == Present(w.nodes)
            && it in after.passes && after.passes[it] == Pass(w.subscribed, [], {}, [], w.subscribed)
  {
    hide Without, Faithful;
    BeginSound(w, it);
    assert Follows(w.nodes, First(w.nodes), Pass(w.subscribed, [], {}, [], w.subscribed)) by {
      var after := Step(w, Begin(it));
      assert it in after.positions && Follows(after.nodes, after.positions[it], after.passes[it]);
    }
  }

  predicate EndsWith(nodes: seq<Node>, node: Node) { nodes != [] && nodes[|nodes| - 1] == node }

  /**
   As a caller sees it: a callback added from a callback that the pass is running, with whatever
   else happens before and after, is delivered by the pass exactly when the running callback was
   not the last on the list when it was called, unless its own subscription is destroyed.
   */
  lemma AddedWhileRunning(w: World, before: seq<Op>, after: seq<Op>, it: nat)
    requires Sound(w) && Enabled(w, Next(it)) && Answer(w, it).Some?
    requires Runs(Step(w, Next(it)), before) && Next(it) !in before && Finish(it) !in before
    requires var u := Final(Step(w, Next(it)), before);
             && Runs(Step(u, Add), after) && Finish(it) !in after && Destroy(u.nextId) !in after
             && var v := Final(Step(u, Add), after); Enabled(v, Next(it)) && Answer(v, it) == None
    ensures var u := Final(Step(w, Next(it)), before); var v := Final(Step(u, Add), after);
            it in v.passes && (u.nextId in v.passes[it].delivered <==> !EndsWith(w.nodes, Answer(w, it)))
  {
    NextMoves(w, it);
    hide Runs, Final, Enabled, Answer, Step, Sound, EndsWith;
    var w1 := Step(w, Next(it));
    RunSound(w1, before);
    PositionStays(w1, before, it);
    AddedIsDelivered(Final(w1, before), after, it);
  }

  lemma NextMoves(w: World, it: nat)
    requires Sound(w) && Enabled(w, Next(it)) && Answer(w, it).Some?
    ensures var w1 := Step(w, Next(it));
            Sound(w1) && it in w1.positions && (w1.positions[it].At? <==> !EndsWith(w.nodes, Answer(w, it)))
  {
    NextSound(w, it);
    AtEndExactly(w, it);
    hide ObserverLists.Present, Follows, Faithful, Advanced;
  }

  /**
   The iterator is at the end already while the callback of the last node runs - not only once
   every callback has run: what that callback adds is not reached by the pass.
   */
  lemma AtEndExactly(w: World, it: nat)
    requires Enabled(w, Next(it)) && Answer(w, it).Some? && ObserverLists.Distinct(w.nodes)
    ensures Step(w, Next(it)).positions[it] == End <==> EndsWith(w.nodes, Answer(w, it))
  {
    var q := Skip(w.nodes, w.positions[it]);
    assert w.nodes[q.index] == Answer(w, it);
  }

  /** At the end an iterator stays until it dies: its pass is offered and delivers nothing more. */
  lemma EndIsFinal(w: World, op: Op, it: nat)
    requires Sound(w) && Enabled(w, op) && op != Finish(it)
    requires it in w.positions && w.positions[it] == End && it in w.passes
    ensures var after := Step(w, op);
            && it in after.positions && after.positions[it] == End && it in after.passes
            && after.passes[it].offered == w.passes[it].offered
            && after.passes[it].delivered == w.passes[it].delivered
  {
    hide ObserverLists.Present, Without, Ended, Compacted, Faithful;
    assert Follows(w.nodes, w.positions[it], w.passes[it]);
  }

  /** One callback, whose run adds a second one: the pass ends without having run the second. */
  lemma AddedByLastIsMissed()
    ensures var ops := [Add, Begin(0), Next(0), Add];
            Runs(EMPTY, ops) && var w := Final(EMPTY, ops);
            w.subscribed == [0, 1] && Enabled(w, Next(0)) && Answer(w, 0) == None && w.passes[0].delivered == [0]
  {
    var w1 := Step(EMPTY, Add);
    var w2 := Step(w1, Begin(0));
    var w3 := Step(w2, Next(0));
    var w4 := Step(w3, Add);
    assert [Add, Begin(0), Next(0), Add][1..] == [Begin(0), Next(0), Add];
    assert [Begin(0), Next(0), Add][1..] == [Next(0), Add];
    assert [Next(0), Add][1..] == [Add] && [Add][1..] == [];
    assert Runs(w4, []) && Final(w4, []) == w4;
    assert Runs(w3, [Add]) && Final(w3, [Add]) == w4;
    assert Runs(w2, [Next(0), Add]) && Final(w2, [Next(0), Add]) == w4;
  }
}
