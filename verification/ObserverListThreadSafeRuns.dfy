/**
 What the protocol of observer_list_threadsafe.h guarantees over every run, and a run that shows
 what reusing the address of a context leads to.
 */
module ObserverListsThreadSafeRuns {
  import opened Optional
  import opened ObserverListsThreadSafe
  import L = ObserverLists

  ghost predicate Runs(s: State, es: seq<Event>)
    decreases |es|
  {
    es != [] ==> Enabled(s, es[0]) && Runs(Step(s, es[0]), es[1..])
  }

  ghost function After(s: State, es: seq<Event>): (s': State)
    requires Runs(s, es)
    decreases |es|
  {
    if es == [] then s else After(Step(s, es[0]), es[1..])
  }

  /** Some frame of the stack has a pointer to c. */
  predicate PointsAt(st: Stack, c: Address)
  {
    st.Frames? && (st.top.ctx == c || PointsAt(st.below, c))
  }

  /** A context that the event deletes is left without a pointer to it in any frame of any thread. */
  ghost predicate LeavesNoPointer(s: State, e: Event)
    requires Enabled(s, e)
  {
    forall c, t :: c in s.heap && c !in Step(s, e).heap ==> !PointsAt(StackOf(Step(s, e), t), c)
  }

  /** That holds at every step of the run, so an address that is handed out again has no old pointer to it. */
  ghost predicate NeverStale(s: State, es: seq<Event>)
    requires Runs(s, es)
    decreases |es|
  {
    es != [] ==> LeavesNoPointer(s, es[0]) && NeverStale(Step(s, es[0]), es[1..])
  }

  lemma {:induction false} PointsAtAllocated(heap: map<Address, ListContext>, t: ThreadId, st: Stack, c: Address)
    requires Points(heap, t, st) && c !in heap
    ensures !PointsAt(st, c)
  {
    if st.Frames? {
      PointsAtAllocated(heap, t, st.below, c);
    }
  }

  lemma NoPointerLeft(s: State, e: Event)
    requires Inv(s) && Enabled(s, e)
    ensures LeavesNoPointer(s, e)
  {
    if e.Destruct? {
      hide Inv, PointsAt;
      NoFrameLeft(s);
    } else {
      StepKeeps(s, e);
      hide Step, Enabled, PointsAt;
      forall c, t | c !in Step(s, e).heap
        ensures !PointsAt(StackOf(Step(s, e), t), c)
      {
        assert ThreadOk(Step(s, e), t);
        PointsAtAllocated(Step(s, e).heap, t, StackOf(Step(s, e), t), c);
      }
    }
  }

  lemma NoFrameLeft(s: State)
    requires Enabled(s, Destruct)
    ensures forall t, c :: !PointsAt(StackOf(Step(s, Destruct), t), c)
  {
  }

  lemma {:induction false} RunKeeps(s: State, es: seq<Event>)
    requires Inv(s) && !s.destroyed && Runs(s, es)
    ensures var s' := After(s, es);
            if s'.destroyed then !s'.fault && s'.heap == map[] else Inv(s')
    ensures NeverStale(s, es)
    decreases |es|
  {
    hide LeavesNoPointer;
    if es != [] {
      NoPointerLeft(s, es[0]);
      if es[0].Destruct? {
        DestructFreesAll(s);
      } else {
        StepKeeps(s, es[0]);
        StepGoesOn(s, es[0]);
        RunKeeps(Step(s, es[0]), es[1..]);
      }
    }
  }

  ghost predicate Reachable(s: State)
  {
    exists kind, loops, es :: Runs(NewState(kind, loops), es) && s == After(NewState(kind, loops), es)
  }

  lemma ReachableInv(s: State)
    requires Reachable(s) && !s.destroyed
    ensures Inv(s)
  {
    var kind, loops, es :| Runs(NewState(kind, loops), es) && s == After(NewState(kind, loops), es);
    RunKeeps(NewState(kind, loops), es);
  }

  /**
   In every interleaving no context is used after it was deleted and none is deleted twice, even
   if the allocator hands addresses out again, since no pointer to a deleted one stays behind; and
   once the list is destroyed no context is left over.
   */
  lemma EveryRunIsSafe(kind: L.NotificationType, loops: set<ThreadId>, es: seq<Event>)
    requires Runs(NewState(kind, loops), es)
    ensures !After(NewState(kind, loops), es).fault && NeverStale(NewState(kind, loops), es)
    ensures After(NewState(kind, loops), es).destroyed ==> After(NewState(kind, loops), es).heap == map[]
  {
    RunKeeps(NewState(kind, loops), es);
  }

  /**
   A context that is not in the map belongs to a function running on its own thread: one that has
   an iterator on it, or is about to delete it, or has taken it out of the map and goes on.
   */
  lemma UnmappedIsOwned(s: State, c: Address)
    requires Reachable(s) && !s.destroyed && c in s.heap && !Mapped(s, c)
    ensures var st := StackOf(s, s.heap[c].owner);
            st.Frames? && (st.top.ctx == c || Iterators(st, c) > 0)
  {
    ReachableInv(s);
    assert ThreadOk(s, s.heap[c].owner) && ContextOk(s, c);
  }

  /** A context is deleted only by its thread, out of the map, empty, and with no iterator on it. */
  lemma DeletedWhenUnused(s: State, e: Event, c: Address)
    requires Reachable(s) && Enabled(s, e) && !e.Destruct?
    requires c in s.heap && c !in Step(s, e).heap
    ensures e == Continue(s.heap[c].owner)
    ensures !Mapped(s, c) && s.heap[c].list.slots == [] && s.heap[c].list.depth == 0
    ensures forall t :: Iterators(StackOf(s, t), c) == 0
  {
    ReachableInv(s);
    OnlyContinueDeletes(s, e, c);
    hide Reachable;
    var t := s.heap[c].owner;
    assert ThreadOk(s, e.t);
    ContinueQuiet(s, e.t);
    assert Deletes(s, e.t, c);
    assert ContextOk(s, c);
    forall u
      ensures Iterators(StackOf(s, u), c) == 0
    {
      assert ThreadOk(s, u);
      if u != t {
        OthersHaveNone(s.heap, u, StackOf(s, u), c);
      }
    }
  }

  lemma OnlyContinueDeletes(s: State, e: Event, c: Address)
    requires Enabled(s, e) && !e.Destruct? && c in s.heap && c !in Step(s, e).heap
    ensures e.Continue?
  {
    hide ContinueStep, MayCall, HasRoom, RemoveStep, Push;
    if e.RemoveObserver? {
      RemoveKeepsHeap(s, e.t, e.o);
    }
  }

  lemma RemoveKeepsHeap(s: State, t: ThreadId, o: L.Observer)
    ensures RemoveStep(s, t, o).heap == s.heap
  {
    hide Push, Unmap, IsLast;
    if t in s.contexts && s.contexts[t] in s.heap {
      assert Unmap(s, t).heap == s.heap;
    }
  }

  lemma {:induction false} OthersHaveNone(heap: map<Address, ListContext>, t: ThreadId, st: Stack, c: Address)
    requires Points(heap, t, st) && (c in heap ==> heap[c].owner != t)
    ensures Iterators(st, c) == 0
  {
    if st.Frames? {
      OthersHaveNone(heap, t, st.below, c);
    }
  }

  /** A callback reaches o only on the thread that added it, and only while it is registered there. */
  lemma CallsRegistered(s: State, t: ThreadId)
    requires Reachable(s) && Enabled(s, Continue(t)) && StackOf(s, t).top.Iterating?
    requires StackOf(Step(s, Continue(t)), t).top.Calling?
    ensures (t, StackOf(Step(s, Continue(t)), t).top.o) in s.registered
    ensures StackOf(s, t).top.ctx in s.heap && s.heap[StackOf(s, t).top.ctx].owner == t
  {
    ReachableInv(s);
    var c := StackOf(s, t).top.ctx;
    assert ThreadOk(s, t) && ContextOk(s, c);
    assert Holds(s, t, c, StackOf(Step(s, Continue(t)), t).top.o);
  }

  /** Thread t has just taken its context out of the map, to remove the last observer from it. */
  predicate Emptying(s: State, t: ThreadId)
  {
    var st := StackOf(s, t);
    st.Frames? && st.top.RemoveLocked? && st.top.ctx in s.heap && IsLast(s.heap[st.top.ctx].list.slots, st.top.o)
  }

  /**
   Notify posts a task for the current context of every registered observer's thread, except for
   a thread that is just removing its last observer, whose context is out of the map.
   */
  lemma NotifyReachesRegistered(s: State, caller: ThreadId, t: ThreadId, o: L.Observer)
    requires Reachable(s) && Enabled(s, Notify(caller)) && (t, o) in s.registered
    ensures t in s.contexts <==> !Emptying(s, t)
    ensures t in s.contexts ==> Holds(s, t, s.contexts[t], o)
                                && Task(t, s.contexts[t], s.heap[s.contexts[t]].serial) in Step(s, Notify(caller)).tasks
  {
    ReachableInv(s);
    assert ThreadOk(s, t);
    var c :| Holds(s, t, c, o);
    assert ContextOk(s, c);
    if t in s.contexts {
      assert ContextOk(s, s.contexts[t]);
    }
    NotifyKeeps(s);
  }

  // ---------------------------------------------------------------- which context a task is for

  /** The event makes a new context, and the allocator gives it address c. */
  predicate Allocates(s: State, e: Event, c: Address)
  {
    e.AddObserver? && e.at == c && e.t in s.loops && e.t !in s.contexts
  }

  ghost predicate AllocatedIn(s: State, es: seq<Event>, c: Address)
    requires Runs(s, es)
    decreases |es|
  {
    es != [] && (Allocates(s, es[0], c) || AllocatedIn(Step(s, es[0]), es[1..], c))
  }

  ghost predicate BornBefore(s: State) { forall c :: c in s.born ==> s.born[c] < s.serials }

  lemma AddBorn(s: State, t: ThreadId, o: L.Observer, at: Address)
    ensures var v := AddStep(s, t, o, at);
            if t in s.loops && t !in s.contexts
            then v.born == s.born[at := s.serials] && v.serials == s.serials + 1
            else v.born == s.born && v.serials == s.serials
  {
    hide StackOf;
  }

  lemma RemoveBorn(s: State, t: ThreadId, o: L.Observer)
    ensures RemoveStep(s, t, o).born == s.born && RemoveStep(s, t, o).serials == s.serials
  {
    hide Push, Unmap, IsLast;
    if t in s.contexts && s.contexts[t] in s.heap {
      assert Unmap(s, t).born == s.born && Unmap(s, t).serials == s.serials;
    }
  }

  lemma NotifyBorn(s: State)
    ensures NotifyStep(s).born == s.born && NotifyStep(s).serials == s.serials
  {
  }

  lemma DeliverBorn(s: State, task: Task)
    ensures DeliverStep(s, task).born == s.born && DeliverStep(s, task).serials == s.serials
  {
    hide Push;
  }

  /** Only a new context takes a serial number, and only its address gets one. */
  lemma StepBorn(s: State, e: Event)
    requires Enabled(s, e)
    ensures var v := Step(s, e);
            if e.AddObserver? && Allocates(s, e, e.at)
            then v.born == s.born[e.at := s.serials] && v.serials == s.serials + 1
            else v.born == s.born && v.serials == s.serials
  {
    hide AddStep, RemoveStep, NotifyStep, DeliverStep, ContinueStep, MayCall, HasRoom;
    match e
    case AddObserver(t, o, at) => AddBorn(s, t, o, at);
    case RemoveObserver(t, o) => RemoveBorn(s, t, o);
    case Notify(_) => NotifyBorn(s);
    case Deliver(task) => DeliverBorn(s, task);
    case Continue(t) => ContinueQuiet(s, t);
    case Drop(_) =>
    case Destruct =>
  }

  lemma {:induction false} RunBornBefore(s: State, es: seq<Event>)
    requires BornBefore(s) && Runs(s, es)
    ensures BornBefore(After(s, es))
    decreases |es|
  {
    hide Step, Enabled;
    if es != [] {
      StepBorn(s, es[0]);
      RunBornBefore(Step(s, es[0]), es[1..]);
    }
  }

  /** Over a run an address keeps its serial number exactly if nothing is allocated there. */
  lemma {:induction false} RunBorn(s: State, es: seq<Event>, c: Address)
    requires BornBefore(s) && c in s.born && Runs(s, es)
    ensures c in After(s, es).born
    ensures if AllocatedIn(s, es, c) then After(s, es).born[c] >= s.serials else After(s, es).born[c] == s.born[c]
    decreases |es|
  {
    hide Step, Enabled;
    if es != [] {
      StepBorn(s, es[0]);
      RunBorn(Step(s, es[0]), es[1..], c);
    }
  }

  lemma ReachableBorn(s: State)
    requires Reachable(s)
    ensures BornBefore(s)
  {
    hide Step, Enabled;
    var kind, loops, es :| Runs(NewState(kind, loops), es) && s == After(NewState(kind, loops), es);
    RunBornBefore(NewState(kind, loops), es);
  }

  /**
   A task posted for the context of thread t that later passes the check of NotifyWrapper finds that
   very context exactly if, since it was posted, no context was made at its address.
   */
  lemma PassedTaskIsCurrent(s: State, caller: ThreadId, t: ThreadId, es: seq<Event>)
    requires Reachable(s) && Enabled(s, Notify(caller)) && t in s.contexts && s.contexts[t] in s.heap
    requires Runs(Step(s, Notify(caller)), es)
    requires var v, task := After(Step(s, Notify(caller)), es), Task(t, s.contexts[t], s.heap[s.contexts[t]].serial);
             Enabled(v, Deliver(task)) && t in v.contexts && v.contexts[t] == task.ctx
    ensures var v, c := After(Step(s, Notify(caller)), es), s.contexts[t];
            && c in v.heap && v.heap[c].owner == t
            && (v.heap[c].serial == s.heap[c].serial <==> !AllocatedIn(Step(s, Notify(caller)), es, c))
  {
    ReachableInv(s);
    ReachableBorn(s);
    StepKeeps(s, Notify(caller));
    StepBorn(s, Notify(caller));
    var u, c := Step(s, Notify(caller)), s.contexts[t];
    assert u.born == s.born && u.serials == s.serials && !u.destroyed;
    hide Step;
    RunKeeps(u, es);
    RunBorn(u, es, c);
    assert ThreadOk(After(u, es), t);
  }

  // ---------------------------------------------------------------- an address used twice

  /** One more step at the end of a run. */
  lemma {:induction false} RunExtends(s: State, es: seq<Event>, e: Event)
    requires Runs(s, es) && Enabled(After(s, es), e)
    ensures Runs(s, es + [e]) && After(s, es + [e]) == Step(After(s, es), e)
    decreases |es|
  {
    if es != [] {
      RunExtends(Step(s, es[0]), es[1..], e);
      assert (es + [e])[1..] == es[1..] + [e];
    }
  }

  function OneObserver(o: L.Observer, born: nat, tasks: multiset<Task>, reused: bool): (s: State)
  {
    State(L.NotifyAll, {1}, map[1 := 100], map[100 := ListContext(1, L.List([Some(o)], 0, L.NotifyAll), born)],
          map[1 := Idle], tasks, {(1, o)}, map[100 := born], born + 1, reused, false, false)
  }

  /** The events lead from a new list that thread 1 can use to s. */
  ghost predicate Leads(es: seq<Event>, s: State)
  {
    Runs(NewState(L.NotifyAll, {1}), es) && After(NewState(L.NotifyAll, {1}), es) == s
  }

  lemma LeadsOn(es: seq<Event>, s: State, e: Event)
    requires Leads(es, s) && Enabled(s, e)
    ensures Leads(es + [e], Step(s, e))
  {
    RunExtends(NewState(L.NotifyAll, {1}), es, e);
  }

  /** The end of AddObserver for the first observer of thread 1. */
  lemma FirstAdded(s: State, o: L.Observer, s1: State)
    requires !s.destroyed && s.kind == L.NotifyAll && s.loops == {1}
    requires s.contexts == map[] && s.heap == map[] && s.registered == {} && StackOf(s, 1) == Idle
    requires s.stacks.Keys <= {1} && s.born.Keys <= {100}
    requires s1 == AddStep(s, 1, o, 100)
    ensures ContinueStep(s1, 1)
         == OneObserver(o, s.serials, s.tasks, s.reused || 100 in s.born).(fault := s.fault)
  {
    var s2 := ContinueStep(s1, 1);
    assert s1.heap[100].list == L.List([], 0, L.NotifyAll);
    assert L.Added(L.List([], 0, L.NotifyAll), o).slots == [Some(o)];
    assert s2.heap == map[100 := ListContext(1, L.List([Some(o)], 0, L.NotifyAll), s.serials)];
    assert s2.stacks == map[1 := Idle];
    assert s2.registered == {(1, o)};
    assert s2.born == map[100 := s.serials];
    assert s2.contexts == map[1 := 100];
  }

  lemma PostsOne(o: L.Observer)
    ensures NotifyStep(OneObserver(o, 0, multiset{}, false)) == OneObserver(o, 0, multiset{Task(1, 100, 0)}, false)
  {
    var s := OneObserver(o, 0, multiset{}, false);
    var posted := set t | t in s.contexts ::
      Task(s.heap[s.contexts[t]].owner, s.contexts[t], s.heap[s.contexts[t]].serial);
    assert 1 in s.contexts && Task(1, 100, 0) in posted;
    assert posted == {Task(1, 100, 0)};
  }

  // Thread 1 adds observer 7 and thread 2 notifies; thread 1 removes 7, which deletes its context,
  // and adds 8, whose context gets the same address; then the task of the notification comes in.
  const SEVEN_POSTED: seq<Event> := [] + [AddObserver(1, 7, 100)] + [Continue(1)] + [Notify(2)]
  const SEVEN_REMOVED: seq<Event> := SEVEN_POSTED + [RemoveObserver(1, 7)] + [Continue(1)] + [Continue(1)]
  const EIGHT_ADDED: seq<Event> := SEVEN_REMOVED + [AddObserver(1, 8, 100)] + [Continue(1)]
  const OLD_TASK_RUN: seq<Event> := EIGHT_ADDED + [Deliver(Task(1, 100, 0))] + [Continue(1)] + [Continue(1)]

  const NOTHING_LEFT := State(L.NotifyAll, {1}, map[], map[], map[1 := Idle], multiset{Task(1, 100, 0)}, {},
                              map[100 := 0], 1, false, false, false)

  lemma PostForSeven()
    ensures Leads(SEVEN_POSTED, OneObserver(7, 0, multiset{Task(1, 100, 0)}, false))
  {
    var s0 := NewState(L.NotifyAll, {1});
    var s1 := AddStep(s0, 1, 7, 100);
    assert Leads([], s0);
    hide Leads;
    LeadsOn([], s0, AddObserver(1, 7, 100));
    FirstAdded(s0, 7, s1);
    LeadsOn([] + [AddObserver(1, 7, 100)], s1, Continue(1));
    PostsOne(7);
    LeadsOn([] + [AddObserver(1, 7, 100)] + [Continue(1)], OneObserver(7, 0, multiset{}, false), Notify(2));
  }

  /** The three steps of RemoveObserver for the only observer of thread 1. */
  lemma RemovesOne(s: State, o: L.Observer)
    requires s == OneObserver(o, 0, multiset{Task(1, 100, 0)}, false)
    ensures Enabled(RemoveStep(s, 1, o), Continue(1))
    ensures Enabled(ContinueStep(RemoveStep(s, 1, o), 1), Continue(1))
    ensures ContinueStep(ContinueStep(RemoveStep(s, 1, o), 1), 1)
         == s.(contexts := map[], heap := map[], registered := {}, stacks := map[1 := Idle])
  {
    var s1 := s.(contexts := map[], stacks := map[1 := Frames(RemoveLocked(100, o), Idle)]);
    assert s.contexts - {1} == map[];
    assert RemoveStep(s, 1, o) == s1;
    var s2 := s1.(heap := map[100 := ListContext(1, L.List([], 0, L.NotifyAll), 0)], registered := {},
                  stacks := map[1 := Frames(RemoveDone(100), Idle)]);
    assert L.Removed(L.List([Some(o)], 0, L.NotifyAll), o).slots == [];
    assert s1.registered - {(1, o)} == {};
    assert ContinueStep(s1, 1) == s2;
    assert s2.heap - {100} == map[];
  }

  lemma RemoveSeven(es: seq<Event>, s: State)
    requires s == OneObserver(7, 0, multiset{Task(1, 100, 0)}, false) && Leads(es, s)
    ensures Leads(es + [RemoveObserver(1, 7)] + [Continue(1)] + [Continue(1)], NOTHING_LEFT)
  {
    hide Leads, ContinueStep, RemoveStep;
    RemovesOne(s, 7);
    LeadsOn(es, s, RemoveObserver(1, 7));
    LeadsOn(es + [RemoveObserver(1, 7)], RemoveStep(s, 1, 7), Continue(1));
    LeadsOn(es + [RemoveObserver(1, 7)] + [Continue(1)], ContinueStep(RemoveStep(s, 1, 7), 1), Continue(1));
  }

  lemma AddEight(es: seq<Event>)
    requires Leads(es, NOTHING_LEFT)
    ensures Leads(es + [AddObserver(1, 8, 100)] + [Continue(1)], OneObserver(8, 1, multiset{Task(1, 100, 0)}, true))
  {
    hide Leads;
    var s := AddStep(NOTHING_LEFT, 1, 8, 100);
    FirstAdded(NOTHING_LEFT, 8, s);
    LeadsOn(es, NOTHING_LEFT, AddObserver(1, 8, 100));
    LeadsOn(es + [AddObserver(1, 8, 100)], s, Continue(1));
  }

  lemma TaskCallsEight(es: seq<Event>, s: State)
    requires s == OneObserver(8, 1, multiset{Task(1, 100, 0)}, true) && Leads(es, s)
    ensures var s3 := ContinueStep(ContinueStep(DeliverStep(s, Task(1, 100, 0)), 1), 1);
            && Leads(es + [Deliver(Task(1, 100, 0))] + [Continue(1)] + [Continue(1)], s3)
            && StackOf(s3, 1).Frames? && StackOf(s3, 1).top.Calling? && StackOf(s3, 1).top.o == 8
            && StackOf(s3, 1).top.ctx == 100 && 100 in s3.heap && s3.heap[100].serial == 1
  {
    hide Leads, ContinueStep, DeliverStep;
    CallsEight(s);
    var s1 := DeliverStep(s, Task(1, 100, 0));
    LeadsOn(es, s, Deliver(Task(1, 100, 0)));
    LeadsOn(es + [Deliver(Task(1, 100, 0))], s1, Continue(1));
    LeadsOn(es + [Deliver(Task(1, 100, 0))] + [Continue(1)], ContinueStep(s1, 1), Continue(1));
  }

  /**
   The comment at the check says that a context removed and added again is not notified by an old
   task. If the allocator hands the same address out again, it is: here the task that was posted for
   the first context calls 8, which was added to the second one.
   */
  lemma OldTaskReachesNewContext()
    ensures Runs(NewState(L.NotifyAll, {1}), OLD_TASK_RUN)
    ensures var s := After(NewState(L.NotifyAll, {1}), OLD_TASK_RUN);
            && StackOf(s, 1).Frames? && StackOf(s, 1).top.Calling? && StackOf(s, 1).top.o == 8
            && StackOf(s, 1).top.ctx == 100 && 100 in s.heap && s.heap[100].serial != 0
    ensures Notify(2) in OLD_TASK_RUN && Deliver(Task(1, 100, 0)) in OLD_TASK_RUN
  {
    assert OLD_TASK_RUN[2] == Notify(2) && OLD_TASK_RUN[8] == Deliver(Task(1, 100, 0));
    hide Runs, After, ContinueStep, DeliverStep;
    PostForSeven();
    RemoveSeven(SEVEN_POSTED, OneObserver(7, 0, multiset{Task(1, 100, 0)}, false));
    AddEight(SEVEN_REMOVED);
    TaskCallsEight(EIGHT_ADDED, OneObserver(8, 1, multiset{Task(1, 100, 0)}, true));
  }

  lemma CallsEight(s: State)
    requires s == OneObserver(8, 1, multiset{Task(1, 100, 0)}, true)
    ensures var s1 := DeliverStep(s, Task(1, 100, 0));
            Enabled(s1, Continue(1)) && var s2 := ContinueStep(s1, 1);
            Enabled(s2, Continue(1)) && var s3 := ContinueStep(s2, 1);
            StackOf(s3, 1).Frames? && StackOf(s3, 1).top.Calling? && StackOf(s3, 1).top.o == 8
            && StackOf(s3, 1).top.ctx == 100 && 100 in s3.heap && s3.heap[100].serial == 1
  {
    var s2 := ContinueStep(DeliverStep(s, Task(1, 100, 0)), 1);
    assert s2.heap[100].list.slots == [Some(8)];
    assert L.SkipNulls([Some(8)], 0, 1) == 0;
  }
}
