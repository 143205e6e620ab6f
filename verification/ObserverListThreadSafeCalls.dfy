/**
 What each call of observer_list_threadsafe.h does when it runs to its end: adding registers,
 removing unregisters, notifying posts one task for each context, and a task that passes the check
 goes through the observers of its context. Inside a callback it is the same.
 */
module ObserverListsThreadSafeCalls {
  import opened ObserverListsThreadSafe
  import opened ObserverListsThreadSafePasses
  import opened ObserverListsThreadSafeRuns
  import opened Optional
  import opened Sequences
  import L = ObserverLists

  /** The observers in the context that is in the map for thread t. */
  function Mine(s: State, t: ThreadId): (observers: seq<L.Observer>)
  {
    if t in s.contexts && s.contexts[t] in s.heap then L.Present(s.heap[s.contexts[t]].list.slots) else []
  }

  // ---------------------------------------------------------------- AddObserver

  /** The vector that an observer of thread t is appended to, if there is one, has room. */
  predicate MayGrow(s: State, t: ThreadId)
  {
    t in s.contexts && s.contexts[t] in s.heap ==> |s.heap[s.contexts[t]].list.slots| < L.SIZE_MAX
  }

  lemma AddBegins(s: State, t: ThreadId, o: L.Observer, at: Address)
    requires Inv(s) && Enabled(s, AddObserver(t, o, at)) && t in s.loops && MayGrow(s, t)
    ensures var s1 := Step(s, AddObserver(t, o, at));
            && t in s1.contexts && Mine(s1, t) == Mine(s, t)
            && StackOf(s1, t) == Frames(AddLocked(s1.contexts[t], o), StackOf(s, t))
            && s1.contexts == (if t in s.contexts then s.contexts else s.contexts[t := at])
            && s1.tasks == s.tasks && s1.registered == s.registered && Enabled(s1, Continue(t))
  {
    assert ThreadOk(s, t);
  }

  lemma AddEnds(s: State, t: ThreadId, o: L.Observer)
    requires Inv(s) && Enabled(s, Continue(t)) && t in s.contexts && StackOf(s, t).top == AddLocked(s.contexts[t], o)
    ensures var s2 := Step(s, Continue(t));
            && s2.contexts == s.contexts && s2.tasks == s.tasks && s2.registered == s.registered + {(t, o)}
            && StackOf(s2, t) == StackOf(s, t).below && Holds(s2, t, s2.contexts[t], o)
            && Mine(s2, t) == if o in Mine(s, t) then Mine(s, t) else Mine(s, t) + [o]
  {
    var c := s.contexts[t];
    assert ThreadOk(s, t) && ContextOk(s, c);
    AddedHas(s.heap[c].list, o);
    L.AddedPresent(s.heap[c].list, o);
    hide L.Added, L.Present, ContextOk, FramesOk;
  }

  /**
   AddObserver on a thread with a message loop, whether it has observers already or not: o comes
   last in the context that the thread has in the map from then on, and is registered.
   */
  lemma AddRegisters(s: State, t: ThreadId, o: L.Observer, at: Address)
    requires Reachable(s) && Enabled(s, AddObserver(t, o, at)) && t in s.loops && MayGrow(s, t)
    ensures var s1 := Step(s, AddObserver(t, o, at));
            Enabled(s1, Continue(t)) && var s2 := Step(s1, Continue(t));
            && t in s2.contexts && Holds(s2, t, s2.contexts[t], o)
            && s2.contexts == (if t in s.contexts then s.contexts else s.contexts[t := at])
            && Mine(s2, t) == (if o in Mine(s, t) then Mine(s, t) else Mine(s, t) + [o])
            && s2.registered == s.registered + {(t, o)} && s2.tasks == s.tasks && StackOf(s2, t) == StackOf(s, t)
  {
    ReachableInv(s);
    AddBegins(s, t, o, at);
    StepKeeps(s, AddObserver(t, o, at));
    AddEnds(Step(s, AddObserver(t, o, at)), t, o);
    hide Inv, Step, Enabled, Holds, Mine;
  }

  /** Without a message loop it does nothing. */
  lemma AddNeedsLoop(s: State, t: ThreadId, o: L.Observer, at: Address)
    requires Enabled(s, AddObserver(t, o, at)) && t !in s.loops
    ensures Step(s, AddObserver(t, o, at)) == s
  {
  }

  // ---------------------------------------------------------------- RemoveObserver

  lemma RemoveBegins(s: State, t: ThreadId, o: L.Observer)
    requires Inv(s) && Enabled(s, RemoveObserver(t, o)) && t in s.contexts
    ensures s.contexts[t] in s.heap
    ensures var c, s1 := s.contexts[t], Step(s, RemoveObserver(t, o));
            && StackOf(s1, t) == Frames(RemoveLocked(c, o), StackOf(s, t)) && Enabled(s1, Continue(t))
            && s1.heap == s.heap && s1.tasks == s.tasks && s1.registered == s.registered
            && s1.contexts == if s.heap[c].list.slots == [Some(o)] then s.contexts - {t} else s.contexts
  {
    assert ThreadOk(s, t);
    var slots := s.heap[s.contexts[t]].list.slots;
    assert IsLast(slots, o) <==> slots == [Some(o)];
  }

  lemma RemoveStrikes(s: State, t: ThreadId, c: Address, o: L.Observer)
    requires Inv(s) && Enabled(s, Continue(t)) && StackOf(s, t).top == RemoveLocked(c, o)
    ensures c in s.heap && s.heap[c].owner == t
    ensures var s2 := Step(s, Continue(t));
            && StackOf(s2, t) == Frames(RemoveDone(c), StackOf(s, t).below) && Enabled(s2, Continue(t))
            && s2.contexts == s.contexts && s2.tasks == s.tasks && s2.registered == s.registered - {(t, o)}
            && c in s2.heap && s2.heap == s.heap[c := s2.heap[c]] && s2.heap[c].owner == t
            && L.Present(s2.heap[c].list.slots) == Without(L.Present(s.heap[c].list.slots), {o})
  {
    assert ThreadOk(s, t) && ContextOk(s, c);
    L.RemovedPresent(s.heap[c].list, o);
    hide L.Removed, L.Present, ContextOk, FramesOk;
  }

  lemma RemoveEnds(s: State, t: ThreadId, c: Address)
    requires Inv(s) && Enabled(s, Continue(t)) && StackOf(s, t).top == RemoveDone(c)
    ensures c in s.heap
    ensures var s3 := Step(s, Continue(t));
            && StackOf(s3, t) == StackOf(s, t).below
            && s3.contexts == s.contexts && s3.tasks == s.tasks && s3.registered == s.registered
            && s3.heap == if s.heap[c].list.slots == [] then s.heap - {c} else s.heap
  {
    assert ThreadOk(s, t);
  }

  /**
   RemoveObserver on a thread that has a context: o is struck from it and no longer registered, and
   on no list of the thread. The context leaves the map if o was its only slot, and is deleted if no
   slot is left, which is the same unless an iterator keeps the slots.
   */
  lemma RemoveUnregisters(s: State, t: ThreadId, o: L.Observer)
    requires Reachable(s) && Enabled(s, RemoveObserver(t, o)) && t in s.contexts
    ensures s.contexts[t] in s.heap
    ensures var c, s1 := s.contexts[t], Step(s, RemoveObserver(t, o));
            Enabled(s1, Continue(t)) && var s2 := Step(s1, Continue(t));
            Enabled(s2, Continue(t)) && var s3 := Step(s2, Continue(t));
            && s3.registered == s.registered - {(t, o)} && s3.tasks == s.tasks && StackOf(s3, t) == StackOf(s, t)
            && (forall d :: !Holds(s3, t, d, o))
            && s3.contexts == (if s.heap[c].list.slots == [Some(o)] then s.contexts - {t} else s.contexts)
            && (forall d :: d != c ==> (d in s3.heap <==> d in s.heap) && (d in s.heap ==> s3.heap[d] == s.heap[d]))
            && (c in s3.heap ==> L.Present(s3.heap[c].list.slots) == Without(L.Present(s.heap[c].list.slots), {o}))
            && (c in s3.heap <==> s.heap[c].list.slots != [Some(o)] || s.heap[c].list.depth > 0)
  {
    ReachableInv(s);
    RemoveBegins(s, t, o);
    var c, s1 := s.contexts[t], Step(s, RemoveObserver(t, o));
    StepKeeps(s, RemoveObserver(t, o));
    RemoveStrikes(s1, t, c, o);
    var s2 := Step(s1, Continue(t));
    StepKeeps(s1, Continue(t));
    RemoveEnds(s2, t, c);
    var s3 := Step(s2, Continue(t));
    StepKeeps(s2, Continue(t));
    RemovedFrom(s3, t, o);
    SlotsLeft(s1, t, c, o);
    hide Inv, Step, Enabled, Holds, L.Present, Without;
  }

  lemma RemovedFrom(s: State, t: ThreadId, o: L.Observer)
    requires Inv(s) && (t, o) !in s.registered
    ensures forall d :: !Holds(s, t, d, o)
  {
    assert ThreadOk(s, t);
  }

  lemma SlotsLeft(s: State, t: ThreadId, c: Address, o: L.Observer)
    requires Inv(s) && Enabled(s, Continue(t)) && StackOf(s, t).top == RemoveLocked(c, o) && c in s.heap
    ensures var s2 := Step(s, Continue(t));
            c in s2.heap && (s2.heap[c].list.slots == [] <==> s.heap[c].list.slots == [Some(o)] && s.heap[c].list.depth == 0)
  {
    assert ThreadOk(s, t) && ContextOk(s, c);
  }

  /** On a thread without a context, where nothing is registered either, it does nothing. */
  lemma RemoveNeedsContext(s: State, t: ThreadId, o: L.Observer)
    requires Reachable(s) && Enabled(s, RemoveObserver(t, o)) && t !in s.contexts
    ensures Step(s, RemoveObserver(t, o)) == s
  {
    ReachableInv(s);
    RemoveUnmapped(s, t, o);
  }

  // ---------------------------------------------------------------- the kind of list

  ghost predicate KindsAgree(s: State) { forall c :: c in s.heap ==> s.heap[c].list.kind == s.kind }

  lemma NextListKind(s: State, t: ThreadId)
    requires StackOf(s, t).Frames? && StackOf(s, t).top.ctx in s.heap
    ensures NextList(s, t).kind == s.heap[StackOf(s, t).top.ctx].list.kind
  {
    hide L.Advanced, L.Find, L.Present, L.Filled, StackOf;
  }

  lemma ContinueKinds(s: State, t: ThreadId)
    requires StackOf(s, t).Frames? && KindsAgree(s)
    ensures KindsAgree(ContinueStep(s, t)) && ContinueStep(s, t).kind == s.kind
  {
    ContinueQuiet(s, t);
    if StackOf(s, t).top.ctx in s.heap {
      ContinueHeap(s, t);
      NextListKind(s, t);
    } else {
      assert ContinueStep(s, t) == Fault(s);
    }
    hide ContinueStep, NextList, StackOf, Deletes;
  }

  lemma RemoveKinds(s: State, t: ThreadId, o: L.Observer)
    requires KindsAgree(s)
    ensures KindsAgree(RemoveStep(s, t, o)) && RemoveStep(s, t, o).kind == s.kind
  {
    hide Push, Unmap, IsLast;
    RemoveKeepsHeap(s, t, o);
    if t in s.contexts && s.contexts[t] in s.heap {
      assert Unmap(s, t).kind == s.kind;
    }
  }

  lemma AddKinds(s: State, t: ThreadId, o: L.Observer, at: Address)
    requires KindsAgree(s)
    ensures KindsAgree(AddStep(s, t, o, at)) && AddStep(s, t, o, at).kind == s.kind
  {
    hide StackOf;
  }

  lemma NotifyTouches(s: State)
    ensures NotifyStep(s).heap == s.heap && NotifyStep(s).kind == s.kind
  {
  }

  lemma DeliverTouches(s: State, task: Task)
    ensures DeliverStep(s, task).heap == s.heap && DeliverStep(s, task).kind == s.kind
  {
    hide StackOf;
  }

  lemma StepKinds(s: State, e: Event)
    requires Enabled(s, e) && KindsAgree(s)
    ensures KindsAgree(Step(s, e)) && Step(s, e).kind == s.kind
  {
    hide ContinueStep, RemoveStep, AddStep, NotifyStep, DeliverStep, MayCall, HasRoom, Push;
    match e
    case RemoveObserver(t, o) => RemoveKinds(s, t, o);
    case Continue(t) => ContinueKinds(s, t);
    case AddObserver(t, o, at) => AddKinds(s, t, o, at);
    case Notify(_) => NotifyTouches(s);
    case Deliver(task) => DeliverTouches(s, task);
    case _ =>
  }

  lemma {:induction false} RunKinds(s: State, es: seq<Event>)
    requires KindsAgree(s) && Runs(s, es)
    ensures KindsAgree(After(s, es)) && After(s, es).kind == s.kind
    decreases |es|
  {
    hide Step, Enabled, KindsAgree;
    if es != [] {
      StepKinds(s, es[0]);
      RunKinds(Step(s, es[0]), es[1..]);
    }
  }

  /** So every context of a run has a list of the kind that the whole list was made with. */
  lemma EveryKindAgrees(kind: L.NotificationType, loops: set<ThreadId>, es: seq<Event>)
    requires Runs(NewState(kind, loops), es)
    ensures var s := After(NewState(kind, loops), es); forall c :: c in s.heap ==> s.heap[c].list.kind == kind
  {
    RunKinds(NewState(kind, loops), es);
  }

  // ---------------------------------------------------------------- Notify and its tasks

  /** The task that a Notify posts for the context of its thread. */
  predicate IsFor(s: State, task: Task)
  {
    && task.thread in s.contexts && s.contexts[task.thread] == task.ctx
    && task.ctx in s.heap && s.heap[task.ctx].serial == task.serial
  }

  /** Notify posts exactly one task for each context in the map, and does nothing else. */
  lemma NotifyPostsOnce(s: State, caller: ThreadId)
    requires Reachable(s) && Enabled(s, Notify(caller))
    ensures var s1 := Step(s, Notify(caller));
            && s1 == s.(tasks := s1.tasks)
            && forall task :: s1.tasks[task] == s.tasks[task] + if IsFor(s, task) then 1 else 0
  {
    ReachableInv(s);
    forall t | t in s.contexts
      ensures s.contexts[t] in s.heap && s.heap[s.contexts[t]].owner == t
    {
      assert ThreadOk(s, t);
    }
    var posted := set t | t in s.contexts ::
      Task(s.heap[s.contexts[t]].owner, s.contexts[t], s.heap[s.contexts[t]].serial);
    forall task
      ensures task in posted <==> IsFor(s, task)
    {
      if IsFor(s, task) {
        assert task.thread in s.contexts;
      }
    }
  }

  /**
   A thread may call in while the list exists and the thread runs nothing of it, or a callback; a running
   function goes on whatever the others do; the destructor needs that nothing runs and no task is left.
   */
  lemma CallsAllowed(s: State, t: ThreadId, o: L.Observer, at: Address)
    ensures var free := !s.destroyed && (StackOf(s, t).Idle? || StackOf(s, t).top.Calling?);
            && (Enabled(s, AddObserver(t, o, at)) <==> free && at !in s.heap)
            && (Enabled(s, RemoveObserver(t, o)) <==> free) && (Enabled(s, Notify(t)) <==> free)
    ensures StackOf(s, t).Frames? && !StackOf(s, t).top.AddLocked? ==> (Enabled(s, Continue(t)) <==> !s.destroyed)
    ensures Enabled(s, Destruct)
       <==> !s.destroyed && s.tasks == multiset{} && forall u :: u in s.stacks ==> s.stacks[u] == Idle
  {
  }

  /** A message loop that is shut down drops a task, and nothing else happens. */
  lemma TaskIsDropped(s: State, task: Task)
    requires Enabled(s, Drop(task))
    ensures !s.destroyed && task in s.tasks
    ensures Step(s, Drop(task)) == s.(tasks := s.tasks[task := s.tasks[task] - 1])
  {
  }

  /** A task can be taken whenever its thread runs nothing of the list, or a callback of it. */
  lemma TaskIsTaken(s: State, task: Task)
    ensures Enabled(s, Deliver(task))
       <==> !s.destroyed && task in s.tasks && (StackOf(s, task.thread).Idle? || StackOf(s, task.thread).top.Calling?)
  {
  }

  /**
   It is gone then, and NotifyWrapper goes on with its context, on top of what the thread is in, if
   that is the one in the map for the thread; else nothing more happens.
   */
  lemma DeliverStarts(s: State, task: Task)
    requires Enabled(s, Deliver(task))
    ensures var s1 := Step(s, Deliver(task));
            && s1 == s.(tasks := s.tasks - multiset{task}, stacks := s1.stacks)
            && (forall u :: u != task.thread ==> StackOf(s1, u) == StackOf(s, u))
            && StackOf(s1, task.thread)
               == (if task.thread in s.contexts && s.contexts[task.thread] == task.ctx
                   then Frames(Checked(task.ctx), StackOf(s, task.thread)) else StackOf(s, task.thread))
  {
  }

  // ---------------------------------------------------------------- the loop of NotifyWrapper

  /** The check passed, the iterator has the observers of the context ahead, which is kept from then on. */
  lemma LoopStarts(s: State, t: ThreadId)
    requires Reachable(s) && Enabled(s, Continue(t)) && StackOf(s, t).top.Checked?
    ensures var c, s1 := StackOf(s, t).top.ctx, Step(s, Continue(t));
            && c in s.heap && c in s1.heap && s1.heap[c].list.slots == s.heap[c].list.slots
            && StackOf(s1, t).Frames? && StackOf(s1, t).below == StackOf(s, t).below
            && StackOf(s1, t).top.Iterating? && StackOf(s1, t).top.ctx == c
            && L.Ahead(s1.heap[c].list.slots, StackOf(s1, t).top.cursor) == L.Present(s.heap[c].list.slots)
  {
    ReachableInv(s);
    ReachableFits(s);
    BegunWatches(s, t);
    ContinueStack(s, t);
    ContinueHeap(s, t);
    hide Inv, Fits, ContinueStep, L.Present, L.Ahead, L.Opened, L.SoundList;
  }

  /** A step of the loop calls the next observer ahead, or ends the loop exactly if there is none. */
  lemma LoopCalls(s: State, t: ThreadId)
    requires Reachable(s) && Enabled(s, Continue(t)) && StackOf(s, t).top.Iterating?
    ensures StackOf(s, t).top.ctx in s.heap
    ensures var c, s1 := StackOf(s, t).top.ctx, Step(s, Continue(t));
            var slots, ahead := s.heap[c].list.slots, L.Ahead(s.heap[c].list.slots, StackOf(s, t).top.cursor);
            && StackOf(s1, t).Frames? && StackOf(s1, t).below == StackOf(s, t).below && StackOf(s1, t).top.ctx == c
            && (if ahead == [] then StackOf(s1, t).top.Iterated?
                else && StackOf(s1, t).top.Calling? && StackOf(s1, t).top.o == ahead[0] && s1.heap == s.heap
                     && L.Ahead(slots, StackOf(s1, t).top.cursor) == ahead[1..])
  {
    ReachableInv(s);
    ContinueStack(s, t);
    ContinueHeap(s, t);
    assert ThreadOk(s, t) && ContextOk(s, StackOf(s, t).top.ctx);
    L.AdvancedAhead(s.heap[StackOf(s, t).top.ctx].list.slots, StackOf(s, t).top.cursor);
    hide Inv, ContinueStep, L.Advanced, L.Ahead, L.Left, ContextOk, FramesOk;
    assert s.heap[StackOf(s, t).top.ctx := s.heap[StackOf(s, t).top.ctx]] == s.heap;
  }

  /** After a callback the loop goes on where it was. */
  lemma CallReturns(s: State, t: ThreadId)
    requires Reachable(s) && Enabled(s, Continue(t)) && StackOf(s, t).top.Calling?
    ensures var f := StackOf(s, t).top;
            Step(s, Continue(t)) == s.(stacks := s.stacks[t := Frames(Iterating(f.ctx, f.cursor), StackOf(s, t).below)])
  {
    ReachableInv(s);
    assert ThreadOk(s, t);
  }

  /** NotifyWrapper behind its loop: a context with slots stays; one without leaves the map and is deleted. */
  lemma WrapperEnds(s: State, t: ThreadId)
    requires Reachable(s) && Enabled(s, Continue(t)) && StackOf(s, t).top.Iterated?
    ensures StackOf(s, t).top.ctx in s.heap
    ensures var c, s1 := StackOf(s, t).top.ctx, Step(s, Continue(t));
            if s.heap[c].list.slots != [] then s1 == s.(stacks := s.stacks[t := StackOf(s, t).below])
            else Enabled(s1, Continue(t)) && var s2 := Step(s1, Continue(t));
                 Enabled(s2, Continue(t)) && var s3 := Step(s2, Continue(t));
                 && StackOf(s3, t) == StackOf(s, t).below && s3.heap == s.heap - {c} && s3.registered == s.registered
                 && s3.contexts == if t in s.contexts && s.contexts[t] == c then s.contexts - {t} else s.contexts
  {
    ReachableInv(s);
    assert ThreadOk(s, t) && ContextOk(s, StackOf(s, t).top.ctx);
  }

  // ---------------------------------------------------------------- between calls

  /**
   A thread that runs nothing of the list has a context exactly if it has observers, just that one,
   and in it just its observers.
   */
  lemma IdleThread(s: State, t: ThreadId)
    requires Reachable(s) && !s.destroyed && StackOf(s, t).Idle?
    ensures t in s.contexts <==> exists o: L.Observer :: (t, o) in s.registered
    ensures forall c :: c in s.heap && s.heap[c].owner == t ==> t in s.contexts && s.contexts[t] == c
    ensures forall o: L.Observer :: (t, o) in s.registered <==> o in Mine(s, t)
  {
    ReachableInv(s);
    assert ThreadOk(s, t);
    forall c | c in s.heap && s.heap[c].owner == t
      ensures t in s.contexts && s.contexts[t] == c
    {
      assert ContextOk(s, c);
    }
    if t in s.contexts {
      var c := s.contexts[t];
      assert ContextOk(s, c);
      var o := s.heap[c].list.slots[0].value;
      assert Holds(s, t, c, o) && (t, o) in s.registered;
    }
    forall o: L.Observer
      ensures (t, o) in s.registered <==> o in Mine(s, t)
    {
      if t in s.contexts {
        L.PresentHas(s.heap[s.contexts[t]].list.slots, o);
        assert Holds(s, t, s.contexts[t], o) <==> o in Mine(s, t);
      }
      if (t, o) in s.registered {
        var c :| Holds(s, t, c, o);
        assert t in s.contexts;
      }
    }
  }
}
