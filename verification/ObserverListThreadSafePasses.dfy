/**
 What one run of NotifyWrapper in observer_list_threadsafe.h does for the observers of its context,
 however many other functions its thread runs inside the callbacks, on this context or on others.
 */
module ObserverListsThreadSafePasses {
  import opened Optional
  import opened ObserverListsThreadSafe
  import opened ObserverListsThreadSafeRuns
  import opened Sequences
  import L = ObserverLists

  // ---------------------------------------------------------------- a frame of a stack

  function Height(st: Stack): (n: nat)
  {
    if st.Idle? then 0 else 1 + Height(st.below)
  }

  /** Frame number d of the stack, counted from the bottom. */
  function FrameAt(st: Stack, d: nat): (f: Frame)
    requires 0 < d <= Height(st)
  {
    if Height(st) == d then st.top else FrameAt(st.below, d)
  }

  /** Frame d is a NotifyWrapper with an iterator on c. */
  predicate Notifying(st: Stack, d: nat, c: Address)
  {
    && 0 < d <= Height(st)
    && (FrameAt(st, d).Iterating? || FrameAt(st, d).Calling?) && FrameAt(st, d).ctx == c
  }

  /** Frame d is on top and has left the loop of NotifyWrapper over c. */
  predicate Finished(st: Stack, d: nat, c: Address)
  {
    Height(st) == d && d > 0 && st.top == Iterated(c)
  }

  lemma {:induction false} NotifyingIterates(st: Stack, d: nat, c: Address)
    requires Notifying(st, d, c)
    ensures Iterators(st, c) >= 1
  {
    if Height(st) > d {
      NotifyingIterates(st.below, d, c);
    }
  }

  lemma {:induction false} NotifyingPoints(heap: map<Address, ListContext>, t: ThreadId, st: Stack, d: nat, c: Address)
    requires Notifying(st, d, c) && Points(heap, t, st)
    ensures c in heap && heap[c].owner == t
  {
    if Height(st) > d {
      NotifyingPoints(heap, t, st.below, d, c);
    }
  }

  // ---------------------------------------------------------------- a step and the vectors

  /** The list that the next step of thread t leaves in the context it works on. */
  function NextList(s: State, t: ThreadId): (l': L.List)
    requires StackOf(s, t).Frames? && StackOf(s, t).top.ctx in s.heap
  {
    var l := s.heap[StackOf(s, t).top.ctx].list;
    match StackOf(s, t).top
    case AddLocked(_, o) => L.Added(l, o)
    case RemoveLocked(_, o) => L.Removed(l, o)
    case Checked(_) => L.Entered(l)
    case Iterating(_, cursor) =>
      if L.Advanced(l.slots, cursor).0.None? && l.depth > 0 then L.Left(l) else l
    case _ => l
  }

  lemma CallHeap(s: State, t: ThreadId)
    requires StackOf(s, t).Frames? && StackOf(s, t).top.ctx in s.heap
    requires StackOf(s, t).top.AddLocked? || StackOf(s, t).top.RemoveLocked? || StackOf(s, t).top.Checked?
    ensures var c := StackOf(s, t).top.ctx;
            ContinueStep(s, t).heap == s.heap[c := s.heap[c].(list := NextList(s, t))]
  {
    hide L.Added, L.Removed, L.Entered, L.Opened;
  }

  lemma IterationHeap(s: State, t: ThreadId)
    requires StackOf(s, t).Frames? && StackOf(s, t).top.ctx in s.heap && StackOf(s, t).top.Iterating?
    ensures var c := StackOf(s, t).top.ctx;
            ContinueStep(s, t).heap == s.heap[c := s.heap[c].(list := NextList(s, t))]
  {
    hide L.Left, L.Advanced;
    var c := StackOf(s, t).top.ctx;
    assert s.heap[c := s.heap[c].(list := s.heap[c].list)] == s.heap;
  }

  lemma ReturnHeap(s: State, t: ThreadId)
    requires StackOf(s, t).Frames? && StackOf(s, t).top.ctx in s.heap
    requires StackOf(s, t).top.Calling? || StackOf(s, t).top.Iterated? || StackOf(s, t).top.FoundEmpty?
          || StackOf(s, t).top.RemoveDone? || StackOf(s, t).top.Unmapped?
    ensures var c := StackOf(s, t).top.ctx;
            ContinueStep(s, t).heap == if Deletes(s, t, c) then s.heap - {c}
                                       else s.heap[c := s.heap[c].(list := NextList(s, t))]
  {
    var c := StackOf(s, t).top.ctx;
    assert s.heap[c := s.heap[c].(list := s.heap[c].list)] == s.heap;
  }

  /** A step touches the context it works on and no other. */
  lemma ContinueHeap(s: State, t: ThreadId)
    requires StackOf(s, t).Frames? && StackOf(s, t).top.ctx in s.heap
    ensures var c := StackOf(s, t).top.ctx;
            ContinueStep(s, t).heap == if Deletes(s, t, c) then s.heap - {c}
                                       else s.heap[c := s.heap[c].(list := NextList(s, t))]
  {
    hide ContinueStep, NextList;
    match StackOf(s, t).top
    case AddLocked(_, _) => CallHeap(s, t);
    case RemoveLocked(_, _) => CallHeap(s, t);
    case Checked(_) => CallHeap(s, t);
    case Iterating(_, _) => IterationHeap(s, t);
    case _ => ReturnHeap(s, t);
  }

  // ---------------------------------------------------------------- room in the vectors

  ghost predicate Fits(s: State)
  {
    forall c :: c in s.heap ==> |s.heap[c].list.slots| <= L.SIZE_MAX
  }

  lemma NextListFits(s: State, t: ThreadId)
    requires Fits(s) && Enabled(s, Continue(t)) && StackOf(s, t).top.ctx in s.heap
    ensures |NextList(s, t).slots| <= L.SIZE_MAX
  {
    hide L.Advanced, L.Find;
  }

  lemma ContinueFits(s: State, t: ThreadId)
    requires Fits(s) && Enabled(s, Continue(t))
    ensures Fits(ContinueStep(s, t))
  {
    if StackOf(s, t).top.ctx in s.heap {
      ContinueHeap(s, t);
      NextListFits(s, t);
      hide ContinueStep, NextList, Deletes;
    }
  }

  lemma AddFits(s: State, t: ThreadId, o: L.Observer, at: Address)
    requires Fits(s)
    ensures Fits(AddStep(s, t, o, at))
  {
    hide Push;
  }

  lemma RemoveFits(s: State, t: ThreadId, o: L.Observer)
    requires Fits(s)
    ensures Fits(RemoveStep(s, t, o))
  {
    hide Push, Unmap, IsLast, Fits;
    if t in s.contexts && s.contexts[t] in s.heap {
      assert Unmap(s, t).heap == s.heap;
    }
    SameFits(s, RemoveStep(s, t, o));
  }

  lemma StepFits(s: State, e: Event)
    requires Fits(s) && Enabled(s, e)
    ensures Fits(Step(s, e))
  {
    hide AddStep, RemoveStep, ContinueStep, Fits, MayCall, HasRoom, StackOf, Push;
    match e
    case AddObserver(t, o, at) => AddFits(s, t, o, at);
    case RemoveObserver(t, o) => RemoveFits(s, t, o);
    case Continue(t) => ContinueFits(s, t);
    case Destruct => SameFits(s, DestructStep(s));
    case Notify(_) => SameFits(s, NotifyStep(s));
    case Deliver(task) => SameFits(s, DeliverStep(s, task));
    case Drop(_) => SameFits(s, Step(s, e));
  }

  lemma SameFits(s: State, s': State)
    requires Fits(s) && s'.heap.Keys <= s.heap.Keys && forall c :: c in s'.heap ==> s'.heap[c] == s.heap[c]
    ensures Fits(s')
  {
  }

  lemma {:induction false} RunFits(s: State, es: seq<Event>)
    requires Fits(s) && Runs(s, es)
    ensures Fits(After(s, es))
    decreases |es|
  {
    hide Step, Enabled, Fits;
    if es != [] {
      StepFits(s, es[0]);
      RunFits(Step(s, es[0]), es[1..]);
    }
  }

  lemma ReachableFits(s: State)
    requires Reachable(s)
    ensures Fits(s)
  {
    var kind, loops, es :| Runs(NewState(kind, loops), es) && s == After(NewState(kind, loops), es);
    RunFits(NewState(kind, loops), es);
  }

  // ---------------------------------------------------------------- what the frame has called

  /**
   The calls of one NotifyWrapper: called are the observers it has called; left are those that were in
   its context when it began and that it has still to come to; later are those added since that it
   has still to come to; lost are those taken off while they were in left.
   */
  datatype Watch = Watch(called: seq<L.Observer>, left: seq<L.Observer>, later: seq<L.Observer>, lost: set<L.Observer>)

  function Begun(start: seq<L.Observer>): (w: Watch) { Watch([], start, [], {}) }

  function Called(w: Watch, o: L.Observer): (w': Watch)
  {
    if w.left != [] then w.(called := w.called + [o], left := w.left[1..])
    else if w.later != [] then w.(called := w.called + [o], later := w.later[1..])
    else w.(called := w.called + [o])
  }

  function Struck(w: Watch, o: L.Observer): (w': Watch)
  {
    Watch(w.called, Without(w.left, {o}), Without(w.later, {o}), if o in w.left then w.lost + {o} else w.lost)
  }

  /** A step that thread t makes, as frame d of its stack sees it. */
  function WatchContinue(s: State, t: ThreadId, d: nat, c: Address, w: Watch): (w': Watch)
    requires StackOf(s, t).Frames? && c in s.heap
  {
    var l := s.heap[c].list;
    match StackOf(s, t).top
    case AddLocked(c', o) =>
      if c' == c && l.kind.NotifyAll? && Some(o) !in l.slots then w.(later := w.later + [o]) else w
    case RemoveLocked(c', o) => if c' == c then Struck(w, o) else w
    case Iterating(_, _) =>
      var st' := StackOf(ContinueStep(s, t), t);
      if Height(StackOf(s, t)) == d && st'.Frames? && st'.top.Calling? then Called(w, st'.top.o) else w
    case _ => w
  }

  function WatchStep(s: State, e: Event, t: ThreadId, d: nat, c: Address, w: Watch): (w': Watch)
    requires Enabled(s, e)
  {
    if e == Continue(t) && c in s.heap then WatchContinue(s, t, d, c, w) else w
  }

  // ---------------------------------------------------------------- one step of any thread

  function Queue(w: Watch): (p: L.Pass) { L.Pass([], [], w.left + w.later, {}) }

  /** Frame d has exactly left and later ahead of its iterator. */
  ghost predicate Watching(s: State, t: ThreadId, d: nat, c: Address, w: Watch)
  {
    var st := StackOf(s, t);
    && Notifying(st, d, c)
    && c in s.heap && s.heap[c].owner == t
    && L.Follows(s.heap[c].list, FrameAt(st, d).cursor, Queue(w))
    && (s.heap[c].list.kind.NotifyExistingOnly? ==> w.later == [])
  }

  /** Nothing but a step of the thread itself touches its frames and the context. */
  lemma OtherEvents(s: State, e: Event, t: ThreadId, c: Address)
    requires Inv(s) && Enabled(s, e) && e != Continue(t) && StackOf(s, t).Frames?
    requires c in s.heap && s.heap[c].owner == t
    ensures c in Step(s, e).heap && Step(s, e).heap[c] == s.heap[c]
    ensures var st, st' := StackOf(s, t), StackOf(Step(s, e), t); st' == st || (st'.Frames? && st'.below == st)
  {
    if e.Continue? || e.RemoveObserver? || e.AddObserver? {
      if e.t != t {
        CallerKeeps(s, e);
      } else if e.RemoveObserver? {
        OwnRemove(s, t, e.o);
      } else {
        OwnAdd(s, t, e.o, e.at);
      }
    } else {
      hide Inv;
    }
  }

  lemma OwnAdd(s: State, t: ThreadId, o: L.Observer, at: Address)
    ensures var s' := AddStep(s, t, o, at);
            && (s'.heap == s.heap || s'.heap == s.heap[at := ListContext(t, L.List([], 0, s.kind), s.serials)])
            && (StackOf(s', t) == StackOf(s, t)
                || (StackOf(s', t).Frames? && StackOf(s', t).below == StackOf(s, t)))
  {
  }

  lemma OwnRemove(s: State, t: ThreadId, o: L.Observer)
    ensures var s' := RemoveStep(s, t, o);
            && s'.heap == s.heap
            && (StackOf(s', t) == StackOf(s, t)
                || (StackOf(s', t).Frames? && StackOf(s', t).below == StackOf(s, t)))
  {
    hide Unmap, IsLast;
    if t in s.contexts && s.contexts[t] in s.heap {
      assert Unmap(s, t) == s.(contexts := Unmap(s, t).contexts);
    }
  }

  /** The stack that the next step of thread t leaves, unless it faults. */
  function NextStack(s: State, t: ThreadId): (st: Stack)
    requires StackOf(s, t).Frames? && StackOf(s, t).top.ctx in s.heap
  {
    var st := StackOf(s, t);
    var c, l := st.top.ctx, s.heap[st.top.ctx].list;
    match st.top
    case AddLocked(_, _) => st.below
    case RemoveLocked(_, _) => Frames(RemoveDone(c), st.below)
    case Checked(_) => Frames(Iterating(c, L.Opened(l)), st.below)
    case Iterating(_, cursor) =>
      var (o, cursor') := L.Advanced(l.slots, cursor);
      Frames(if o.Some? then Calling(c, cursor', o.value) else Iterated(c), st.below)
    case Calling(_, cursor, _) => Frames(Iterating(c, cursor), st.below)
    case Iterated(_) => if |l.slots| == 0 then Frames(FoundEmpty(c), st.below) else st.below
    case FoundEmpty(_) => Frames(Unmapped(c), st.below)
    case _ => st.below
  }

  lemma CallStack(s: State, t: ThreadId)
    requires StackOf(s, t).Frames? && StackOf(s, t).top.ctx in s.heap
    requires StackOf(s, t).top.AddLocked? || StackOf(s, t).top.RemoveLocked? || StackOf(s, t).top.Checked?
    ensures StackOf(ContinueStep(s, t), t) == NextStack(s, t)
  {
    hide L.Added, L.Removed, L.Entered, L.Opened;
  }

  lemma IterationStack(s: State, t: ThreadId)
    requires StackOf(s, t).Frames? && StackOf(s, t).top.ctx in s.heap && StackOf(s, t).top.Iterating?
    requires s.heap[StackOf(s, t).top.ctx].list.depth > 0
    ensures StackOf(ContinueStep(s, t), t) == NextStack(s, t)
  {
    hide L.Left, L.Advanced;
  }

  lemma ReturnStack(s: State, t: ThreadId)
    requires StackOf(s, t).Frames? && StackOf(s, t).top.ctx in s.heap
    requires StackOf(s, t).top.Calling? || StackOf(s, t).top.Iterated? || StackOf(s, t).top.FoundEmpty?
          || StackOf(s, t).top.RemoveDone? || StackOf(s, t).top.Unmapped?
    ensures StackOf(ContinueStep(s, t), t) == NextStack(s, t)
  {
    hide L.Left, L.Advanced, L.Added, L.Removed, L.Entered, L.Opened;
  }

  lemma ContinueStack(s: State, t: ThreadId)
    requires Inv(s) && StackOf(s, t).Frames?
    ensures StackOf(s, t).top.ctx in s.heap && StackOf(ContinueStep(s, t), t) == NextStack(s, t)
  {
    hide ContinueStep, NextStack;
    assert ThreadOk(s, t) && ContextOk(s, StackOf(s, t).top.ctx);
    match StackOf(s, t).top
    case AddLocked(_, _) => CallStack(s, t);
    case RemoveLocked(_, _) => CallStack(s, t);
    case Checked(_) => CallStack(s, t);
    case Iterating(_, _) => IterationStack(s, t);
    case _ => ReturnStack(s, t);
  }

  lemma SoundContext(s: State, t: ThreadId, d: nat, c: Address)
    requires Inv(s) && Fits(s) && Notifying(StackOf(s, t), d, c)
    ensures c in s.heap && s.heap[c].owner == t && L.SoundList(s.heap[c].list)
    ensures s.heap[c].list.depth == Iterators(StackOf(s, t), c) >= 1 && s.heap[c].list.slots != []
  {
    assert ThreadOk(s, t);
    NotifyingPoints(s.heap, t, StackOf(s, t), d, c);
    NotifyingIterates(StackOf(s, t), d, c);
    assert ContextOk(s, c);
  }

  lemma InnerIterator(st: Stack, d: nat, c: Address)
    requires Notifying(st, d, c) && Height(st) > d
    ensures Notifying(st.below, d, c) && FrameAt(st.below, d) == FrameAt(st, d)
    ensures st.top.Iterating? && st.top.ctx == c ==> Iterators(st, c) >= 2
  {
    NotifyingIterates(st.below, d, c);
  }

  lemma SameSlots(l: L.List, l': L.List, cursor: L.Cursor, p: L.Pass)
    requires L.Follows(l, cursor, p) && l'.slots == l.slots && l'.kind == l.kind
    ensures L.Follows(l', cursor, p)
  {
  }

  lemma LaterAdded(l: L.List, cursor: L.Cursor, w: Watch, o: L.Observer)
    requires L.SoundList(l) && L.Follows(l, cursor, Queue(w)) && |l.slots| < L.SIZE_MAX
    requires l.kind.NotifyExistingOnly? ==> w.later == []
    ensures var w' := if l.kind.NotifyAll? && Some(o) !in l.slots then w.(later := w.later + [o]) else w;
            L.Follows(L.Added(l, o), cursor, Queue(w'))
  {
    if Some(o) !in l.slots {
      L.FollowsAdded(l, cursor, Queue(w), o);
      ConcatAssoc(w.left, w.later, [o]);
    }
  }

  lemma StruckFollows(l: L.List, cursor: L.Cursor, w: Watch, o: L.Observer)
    requires L.SoundList(l) && L.Follows(l, cursor, Queue(w)) && l.depth > 0
    ensures L.Follows(L.Removed(l, o), cursor, Queue(Struck(w, o))) && L.Removed(l, o).kind == l.kind
  {
    L.FollowsRemoved(l, cursor, Queue(w), o);
    WithoutConcat(w.left, w.later, {o});
  }

  /** Another function of the thread, inside a callback of frame d, works on the same context. */
  lemma InnerList(s: State, t: ThreadId, d: nat, c: Address, w: Watch)
    requires Inv(s) && Fits(s) && Enabled(s, Continue(t)) && Watching(s, t, d, c, w)
    requires Height(StackOf(s, t)) > d && StackOf(s, t).top.ctx == c
    ensures !Deletes(s, t, c)
    ensures var l', w' := NextList(s, t), WatchContinue(s, t, d, c, w);
            && L.Follows(l', FrameAt(StackOf(s, t), d).cursor, Queue(w'))
            && (l'.kind.NotifyExistingOnly? ==> w'.later == [])
  {
    hide ContinueStep;
    var st, l := StackOf(s, t), s.heap[c].list;
    var cursor := FrameAt(st, d).cursor;
    SoundContext(s, t, d, c);
    InnerIterator(st, d, c);
    assert ThreadOk(s, t) && ContextOk(s, c);
    hide L.Follows, L.Advanced, L.Removed, L.Opened, ContextOk;
    match st.top
    case AddLocked(_, o) => LaterAdded(l, cursor, w, o);
    case RemoveLocked(_, o) => StruckFollows(l, cursor, w, o);
    case FoundEmpty(_) =>
    case Unmapped(_) =>
    case _ => SameSlots(l, NextList(s, t), cursor, Queue(w));
  }

  lemma OtherFrame(st: Stack, st': Stack, d: nat, c: Address)
    requires Notifying(st, d, c) && Height(st) > d
    requires st' == st.below || (st'.Frames? && st'.below == st.below)
    ensures Notifying(st', d, c) && FrameAt(st', d) == FrameAt(st, d)
  {
  }

  lemma OtherList(s: State, t: ThreadId, d: nat, c: Address, w: Watch)
    requires StackOf(s, t).Frames? && StackOf(s, t).top.ctx in s.heap && c in s.heap
    requires Height(StackOf(s, t)) > d && StackOf(s, t).top.ctx != c
    ensures c in ContinueStep(s, t).heap && ContinueStep(s, t).heap[c] == s.heap[c]
    ensures WatchContinue(s, t, d, c, w) == w
  {
    ContinueHeap(s, t);
    hide ContinueStep;
  }

  /** A step of the thread inside a callback of frame d. */
  lemma InnerStep(s: State, t: ThreadId, d: nat, c: Address, w: Watch)
    requires Inv(s) && Fits(s) && Enabled(s, Continue(t)) && Watching(s, t, d, c, w) && Height(StackOf(s, t)) > d
    ensures Watching(ContinueStep(s, t), t, d, c, WatchContinue(s, t, d, c, w))
  {
    ContinueStack(s, t);
    OtherFrame(StackOf(s, t), NextStack(s, t), d, c);
    if StackOf(s, t).top.ctx == c {
      InnerList(s, t, d, c, w);
      ContinueHeap(s, t);
      hide ContinueStep, WatchContinue, L.Follows, NextStack, Inv, Fits, Notifying, NextList;
    } else {
      OtherList(s, t, d, c, w);
      hide ContinueStep, WatchContinue, L.Follows, NextStack, Inv, Fits, Notifying;
    }
  }

  lemma CalledQueue(w: Watch)
    requires w.left + w.later != []
    ensures var o := (w.left + w.later)[0];
            Called(w, o).left + Called(w, o).later == (w.left + w.later)[1..]
  {
  }

  lemma OwnQueue(l: L.List, cursor: L.Cursor, w: Watch)
    requires L.SoundList(l) && L.Follows(l, cursor, Queue(w)) && (l.kind.NotifyExistingOnly? ==> w.later == [])
    ensures var (o, cursor') := L.Advanced(l.slots, cursor);
            if o.None? then w.left == [] && w.later == []
            else && L.Follows(l, cursor', Queue(Called(w, o.value)))
                 && (l.kind.NotifyExistingOnly? ==> Called(w, o.value).later == [])
  {
    L.FollowsAdvanced(l, cursor, Queue(w));
    if w.left + w.later != [] {
      CalledQueue(w);
    }
    hide L.Advanced, L.SoundList;
  }

  /** A step of frame d itself: it goes on with what is ahead, or stops since nothing is. */
  lemma OwnStep(s: State, t: ThreadId, d: nat, c: Address, w: Watch)
    requires Inv(s) && Fits(s) && Watching(s, t, d, c, w) && Height(StackOf(s, t)) == d
    ensures var s' := ContinueStep(s, t);
            if Finished(StackOf(s', t), d, c)
            then w.left == [] && w.later == [] && WatchContinue(s, t, d, c, w) == w
            else Watching(s', t, d, c, WatchContinue(s, t, d, c, w))
  {
    ContinueStack(s, t);
    ContinueHeap(s, t);
    SoundContext(s, t, d, c);
    OwnQueue(s.heap[c].list, StackOf(s, t).top.cursor, w);
    hide ContinueStep, Called, Queue, L.Advanced, L.Left, L.Follows, Inv, Fits, L.SoundList;
  }

  lemma SameKind(s: State, t: ThreadId, c: Address)
    requires StackOf(s, t).Frames? && StackOf(s, t).top.ctx in s.heap
    requires c in s.heap && c in ContinueStep(s, t).heap
    ensures ContinueStep(s, t).heap[c].list.kind == s.heap[c].list.kind
  {
    ContinueHeap(s, t);
    hide ContinueStep, L.Advanced, L.Find;
  }

  /** No step of any thread comes between frame d and what is ahead of it, unless the frame is done. */
  lemma StepWatch(s: State, e: Event, t: ThreadId, d: nat, c: Address, w: Watch)
    requires Inv(s) && Fits(s) && Enabled(s, e) && Watching(s, t, d, c, w)
    ensures !e.Destruct?
    ensures var s', w' := Step(s, e), WatchStep(s, e, t, d, c, w);
            if e == Continue(t) && Finished(StackOf(s', t), d, c) && Height(StackOf(s, t)) == d
            then w.left == [] && w.later == [] && w' == w
            else Watching(s', t, d, c, w') && s'.heap[c].list.kind == s.heap[c].list.kind
  {
    hide ContinueStep, Inv, Fits, HasRoom, Watching, WatchContinue, Finished;
    if e == Continue(t) {
      ThreadWatch(s, t, d, c, w);
    } else {
      OtherWatch(s, e, t, d, c, w);
    }
  }

  /** A step of the thread itself. */
  lemma ThreadWatch(s: State, t: ThreadId, d: nat, c: Address, w: Watch)
    requires Inv(s) && Fits(s) && Enabled(s, Continue(t)) && Watching(s, t, d, c, w)
    ensures c in s.heap
    ensures var s', w' := ContinueStep(s, t), WatchContinue(s, t, d, c, w);
            if Finished(StackOf(s', t), d, c) && Height(StackOf(s, t)) == d
            then w.left == [] && w.later == [] && w' == w
            else Watching(s', t, d, c, w') && s'.heap[c].list.kind == s.heap[c].list.kind
  {
    hide ContinueStep, Inv, Fits, L.Follows, WatchContinue, Finished;
    if Height(StackOf(s, t)) > d {
      InnerStep(s, t, d, c, w);
    } else {
      OwnStep(s, t, d, c, w);
    }
    ContinueStack(s, t);
    if c in ContinueStep(s, t).heap {
      SameKind(s, t, c);
    }
    hide NextStack;
  }

  /** A step of another thread, or a call that the thread makes from a callback. */
  lemma OtherWatch(s: State, e: Event, t: ThreadId, d: nat, c: Address, w: Watch)
    requires Inv(s) && Enabled(s, e) && e != Continue(t) && Watching(s, t, d, c, w)
    ensures !e.Destruct?
    ensures Watching(Step(s, e), t, d, c, w) && Step(s, e).heap[c].list.kind == s.heap[c].list.kind
  {
    OtherEvents(s, e, t, c);
    PushedFrame(StackOf(s, t), StackOf(Step(s, e), t), d, c);
    hide Step, L.Follows, Inv, Notifying, FrameAt, StackOf, Enabled;
  }

  lemma PushedFrame(st: Stack, st': Stack, d: nat, c: Address)
    requires Notifying(st, d, c) && (st' == st || (st'.Frames? && st'.below == st))
    ensures Notifying(st', d, c) && FrameAt(st', d) == FrameAt(st, d)
  {
  }

  // ---------------------------------------------------------------- over a run

  /** At every state of the run but the last, frame d is at its notification. */
  ghost predicate Notifies(s: State, es: seq<Event>, t: ThreadId, d: nat, c: Address)
    requires Runs(s, es)
    decreases |es|
  {
    es != [] ==> Notifying(StackOf(s, t), d, c) && Notifies(Step(s, es[0]), es[1..], t, d, c)
  }

  ghost function Watched(s: State, es: seq<Event>, t: ThreadId, d: nat, c: Address, w: Watch): (w': Watch)
    requires Runs(s, es)
    decreases |es|
  {
    if es == [] then w else Watched(Step(s, es[0]), es[1..], t, d, c, WatchStep(s, es[0], t, d, c, w))
  }

  /** At some step of the run, o is taken out of context c by its thread. */
  ghost predicate RemovedIn(s: State, es: seq<Event>, t: ThreadId, c: Address, o: L.Observer)
    requires Runs(s, es)
    decreases |es|
  {
    es != [] && ((es[0] == Continue(t) && StackOf(s, t).top == RemoveLocked(c, o))
                 || RemovedIn(Step(s, es[0]), es[1..], t, c, o))
  }

  /** What was called and what is left make up the start less what was lost, followed by later ones. */
  ghost predicate Kept(start: seq<L.Observer>, kind: L.NotificationType, w: Watch)
  {
    && NoRepeats<L.Observer>(start)
    && Without(start, w.lost) <= w.called + w.left
    && (w.left != [] || kind.NotifyExistingOnly? ==> Without(start, w.lost) == w.called + w.left)
    && (kind.NotifyExistingOnly? ==> w.later == [])
  }

  lemma KeptStruck(start: seq<L.Observer>, kind: L.NotificationType, w: Watch, o: L.Observer)
    requires Kept(start, kind, w)
    ensures Kept(start, kind, Struck(w, o))
  {
    WithoutHas(w.left, {o}, o);
    if o in w.left {
      WithoutRest<L.Observer>(start, w.lost, w.called, w.left, {o});
      assert Common<L.Observer>(w.left, {o}) == {o};
    } else {
      WithoutNone(w.left, {o});
    }
  }

  lemma KeptCalled(start: seq<L.Observer>, kind: L.NotificationType, w: Watch, o: L.Observer)
    requires Kept(start, kind, w) && w.left + w.later != [] && o == (w.left + w.later)[0]
    ensures Kept(start, kind, Called(w, o))
  {
    if w.left != [] {
      assert w.called + w.left == w.called + [o] + w.left[1..];
    }
  }

  lemma CalledIsHead(s: State, t: ThreadId, d: nat, c: Address, w: Watch)
    requires Inv(s) && Fits(s) && Watching(s, t, d, c, w) && Height(StackOf(s, t)) == d && StackOf(s, t).top.Iterating?
    ensures StackOf(ContinueStep(s, t), t).Frames?
    ensures var f := StackOf(ContinueStep(s, t), t).top;
            f.Calling? ==> w.left + w.later != [] && f.o == (w.left + w.later)[0]
  {
    ContinueStack(s, t);
    SoundContext(s, t, d, c);
    L.FollowsAdvanced(s.heap[c].list, StackOf(s, t).top.cursor, Queue(w));
    hide ContinueStep, L.Advanced, L.Follows, Inv, Fits, L.SoundList;
  }

  lemma KeptStep(s: State, e: Event, t: ThreadId, d: nat, c: Address, start: seq<L.Observer>, w: Watch)
    requires Inv(s) && Fits(s) && Enabled(s, e) && Watching(s, t, d, c, w)
    requires Kept(start, s.heap[c].list.kind, w)
    ensures Kept(start, s.heap[c].list.kind, WatchStep(s, e, t, d, c, w))
  {
    hide ContinueStep, Kept, Inv, Fits, L.Follows, HasRoom;
    if e == Continue(t) {
      match StackOf(s, t).top
      case RemoveLocked(_, o) => KeptStruck(start, s.heap[c].list.kind, w, o);
      case AddLocked(_, o) => KeptLater(start, s.heap[c].list.kind, w, o);
      case Iterating(_, _) =>
        if Height(StackOf(s, t)) == d {
          CalledIsHead(s, t, d, c, w);
          if StackOf(ContinueStep(s, t), t).top.Calling? {
            KeptCalled(start, s.heap[c].list.kind, w, (w.left + w.later)[0]);
          }
        }
      case _ =>
    }
  }

  lemma KeptLater(start: seq<L.Observer>, kind: L.NotificationType, w: Watch, o: L.Observer)
    requires Kept(start, kind, w)
    ensures kind.NotifyAll? ==> Kept(start, kind, w.(later := w.later + [o]))
  {
  }

  /** From any state in which frame d is at its notification to the one in which it is done. */
  lemma {:induction false} WatchRun(s: State, es: seq<Event>, t: ThreadId, d: nat, c: Address,
                                    start: seq<L.Observer>, w: Watch)
    requires Inv(s) && !s.destroyed && Fits(s) && Runs(s, es) && Watching(s, t, d, c, w)
    requires Kept(start, s.heap[c].list.kind, w)
    requires Notifies(s, es, t, d, c) && Finished(StackOf(After(s, es), t), d, c)
    ensures var w' := Watched(s, es, t, d, c, w);
            w'.left == [] && w'.later == [] && Kept(start, s.heap[c].list.kind, w')
    decreases |es|
  {
    if es != [] {
      var e := es[0];
      var s', w' := Step(s, e), WatchStep(s, e, t, d, c, w);
      hide Step, WatchStep, Inv, Fits, Enabled, L.Follows, Kept;
      StepWatch(s, e, t, d, c, w);
      KeptStep(s, e, t, d, c, start, w);
      StepKeeps(s, e);
      StepGoesOn(s, e);
      StepFits(s, e);
      if es[1..] != [] {
        WatchRun(s', es[1..], t, d, c, start, w');
      }
    }
  }

  lemma BegunFollows(l: L.List)
    requires L.SoundList(l)
    ensures var start := L.Present(l.slots);
            L.Follows(L.Entered(l), L.Opened(l), Queue(Begun(start))) && Kept(start, l.kind, Begun(start))
  {
    var start := L.Present(l.slots);
    L.PresentDistinct(l.slots);
    L.FollowsOpened(l);
    WithoutNone(start, {});
    ConcatEmpty(start);
    assert L.Follows(L.Entered(l), L.Opened(l), L.Pass(start, [], start, {}));
  }

  /** Where NotifyWrapper makes its iterator, it has the observers of its context ahead. */
  lemma BegunWatches(s: State, t: ThreadId)
    requires Inv(s) && Fits(s) && Enabled(s, Continue(t)) && StackOf(s, t).top.Checked?
    ensures var c := StackOf(s, t).top.ctx;
            && c in s.heap
            && var start, s' := L.Present(s.heap[c].list.slots), ContinueStep(s, t);
            && Watching(s', t, Height(StackOf(s, t)), c, Begun(start))
            && s'.heap[c].list.kind == s.heap[c].list.kind
            && Kept(start, s.heap[c].list.kind, Begun(start))
  {
    ContinueStack(s, t);
    ContinueHeap(s, t);
    var c := StackOf(s, t).top.ctx;
    assert ThreadOk(s, t) && ContextOk(s, c);
    BegunFollows(s.heap[c].list);
    hide ContinueStep, Inv, Fits, ContextOk, L.Present, L.Follows, L.Opened, Kept;
  }

  lemma {:induction false} LostWasRemoved(s: State, es: seq<Event>, t: ThreadId, d: nat, c: Address, w: Watch, o: L.Observer)
    requires Runs(s, es) && o in Watched(s, es, t, d, c, w).lost
    ensures o in w.lost || RemovedIn(s, es, t, c, o)
    decreases |es|
  {
    hide Step, Enabled, ContinueStep;
    if es != [] {
      LostWasRemoved(Step(s, es[0]), es[1..], t, d, c, WatchStep(s, es[0], t, d, c, w), o);
    }
  }

  /**
   A NotifyWrapper that has come to the end of its loop has called, first and in order, every
   observer that was in its context when it began and was not taken out of it before being reached;
   on a NOTIFY_EXISTING_ONLY list it has called nothing else. In between, the callbacks may have
   added, removed and notified again, and other threads may have done anything.
   */
  lemma NotifyWrapperCalls(s: State, t: ThreadId, es: seq<Event>)
    requires Reachable(s) && Enabled(s, Continue(t)) && StackOf(s, t).top.Checked?
    requires Runs(Step(s, Continue(t)), es)
    requires var d, c := Height(StackOf(s, t)), StackOf(s, t).top.ctx;
             Notifies(Step(s, Continue(t)), es, t, d, c)
             && Finished(StackOf(After(Step(s, Continue(t)), es), t), d, c)
    ensures var d, c, s' := Height(StackOf(s, t)), StackOf(s, t).top.ctx, Step(s, Continue(t));
            && c in s.heap
            && var start := L.Present(s.heap[c].list.slots);
            && var w := Watched(s', es, t, d, c, Begun(start));
            && Without(start, w.lost) <= w.called
            && (s.heap[c].list.kind.NotifyExistingOnly? ==> w.called == Without(start, w.lost))
            && forall o :: o in w.lost ==> RemovedIn(s', es, t, c, o)
  {
    ReachableInv(s);
    ReachableFits(s);
    var d, c, s' := Height(StackOf(s, t)), StackOf(s, t).top.ctx, Step(s, Continue(t));
    BegunWatches(s, t);
    StepKeeps(s, Continue(t));
    StepGoesOn(s, Continue(t));
    StepFits(s, Continue(t));
    var start := L.Present(s.heap[c].list.slots);
    hide ContinueStep, Inv, Fits, HasRoom, Watching, RemovedIn, L.Present, Reachable;
    WatchRun(s', es, t, d, c, start, Begun(start));
    var w := Watched(s', es, t, d, c, Begun(start));
    forall o | o in w.lost
      ensures RemovedIn(s', es, t, c, o)
    {
      LostWasRemoved(s', es, t, d, c, Begun(start), o);
    }
  }

  /** So an observer that was there when it began and is never removed in between is called. */
  lemma StayingIsCalled(s: State, t: ThreadId, es: seq<Event>, o: L.Observer)
    requires Reachable(s) && Enabled(s, Continue(t)) && StackOf(s, t).top.Checked?
    requires Runs(Step(s, Continue(t)), es)
    requires var d, c := Height(StackOf(s, t)), StackOf(s, t).top.ctx;
             && Notifies(Step(s, Continue(t)), es, t, d, c)
             && Finished(StackOf(After(Step(s, Continue(t)), es), t), d, c)
             && Holds(s, t, c, o) && !RemovedIn(Step(s, Continue(t)), es, t, c, o)
    ensures var d, c := Height(StackOf(s, t)), StackOf(s, t).top.ctx;
            o in Watched(Step(s, Continue(t)), es, t, d, c, Begun(L.Present(s.heap[c].list.slots))).called
  {
    hide Step, Runs, Notifies, Finished, After, Watched, RemovedIn, Reachable, L.Present;
    NotifyWrapperCalls(s, t, es);
    var d, c := Height(StackOf(s, t)), StackOf(s, t).top.ctx;
    var start := L.Present(s.heap[c].list.slots);
    var w := Watched(Step(s, Continue(t)), es, t, d, c, Begun(start));
    L.PresentHas(s.heap[c].list.slots, o);
    WithoutHas(start, w.lost, o);
  }
}
