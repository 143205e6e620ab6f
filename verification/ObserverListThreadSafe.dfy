/**
 The protocol of observer_list_threadsafe.h: one list context per thread, a map of contexts
 under a lock, notification tasks, and the rules by which a context is deleted.

 A step is a locked section, or a piece of code that touches only the list of its own thread.
 Threads interleave freely; a callback may use the list again, or run a nested message loop.
 Using or deleting a context that is not allocated sets fault.
 */
module ObserverListsThreadSafe {
  import opened Optional
  import opened ObserverLists
  import opened Sequences

  type ThreadId = nat
  type Address = nat  // of an ObserverListContext; the allocator may hand one out again

  /** owner stands for the message loop of the thread that made the context. */
  datatype ListContext = ListContext(owner: ThreadId, list: List, serial: nat)

  /** Where a running member function has got to; ctx is its pointer to a context. */
  datatype Frame =
    | AddLocked(ctx: Address, o: Observer)
    | RemoveLocked(ctx: Address, o: Observer)
    | RemoveDone(ctx: Address)
    | Checked(ctx: Address)
    | Iterating(ctx: Address, cursor: Cursor)
    | Calling(ctx: Address, cursor: Cursor, o: Observer)
    | Iterated(ctx: Address)
    | FoundEmpty(ctx: Address)
    | Unmapped(ctx: Address)

  datatype Stack = Idle | Frames(top: Frame, below: Stack)

  /** A posted NotifyWrapper; serial says which allocation of ctx it was posted for. */
  datatype Task = Task(thread: ThreadId, ctx: Address, serial: nat)

  datatype State = State(
    kind: NotificationType,
    loops: set<ThreadId>,
    contexts: map<ThreadId, Address>,
    heap: map<Address, ListContext>,
    stacks: map<ThreadId, Stack>,
    tasks: multiset<Task>,
    registered: set<(ThreadId, Observer)>,
    born: map<Address, nat>,
    serials: nat,
    reused: bool,
    fault: bool,
    destroyed: bool)

  datatype Event =
    | AddObserver(t: ThreadId, o: Observer, at: Address)
    | RemoveObserver(t: ThreadId, o: Observer)
    | Notify(t: ThreadId)
    | Deliver(task: Task)
    | Drop(task: Task)
    | Continue(t: ThreadId)
    | Destruct

  function NewState(kind: NotificationType, loops: set<ThreadId>): (s: State)
  {
    State(kind, loops, map[], map[], map[], multiset{}, {}, map[], 0, false, false, false)
  }

  function StackOf(s: State, t: ThreadId): (st: Stack)
  {
    if t in s.stacks then s.stacks[t] else Idle
  }

  predicate Mapped(s: State, c: Address)
    requires c in s.heap
  {
    var t := s.heap[c].owner;
    t in s.contexts && s.contexts[t] == c
  }

  /** A thread may call in, or take a task, when it runs nothing here or is inside a callback. */
  predicate MayCall(s: State, t: ThreadId)
  {
    StackOf(s, t).Frames? ==> StackOf(s, t).top.Calling?
  }

  /** The vector that the frame is about to append to has fewer slots than a size_t can count. */
  predicate HasRoom(s: State, f: Frame)
  {
    f.AddLocked? && f.ctx in s.heap ==> |s.heap[f.ctx].list.slots| < SIZE_MAX
  }

  predicate Enabled(s: State, e: Event)
  {
    && !s.destroyed
    && match e
       case AddObserver(t, o, at) => MayCall(s, t) && at !in s.heap
       case RemoveObserver(t, o) => MayCall(s, t)
       case Notify(t) => MayCall(s, t)
       case Deliver(task) => task in s.tasks && MayCall(s, task.thread)
       case Drop(task) => task in s.tasks
       case Continue(t) => StackOf(s, t).Frames? && HasRoom(s, StackOf(s, t).top)
       case Destruct => (forall t :: t in s.stacks ==> s.stacks[t].Idle?) && s.tasks == multiset{}
  }

  // ---------------------------------------------------------------- steps

  function Fault(s: State): State { s.(fault := true) }

  function Push(s: State, t: ThreadId, f: Frame): (s': State)
    ensures s' == s.(stacks := s'.stacks)
  {
    s.(stacks := s.stacks[t := Frames(f, StackOf(s, t))])
  }

  function Pop(s: State, t: ThreadId): (s': State)
    requires StackOf(s, t).Frames?
  {
    s.(stacks := s.stacks[t := StackOf(s, t).below])
  }

  function Goto(s: State, t: ThreadId, f: Frame): (s': State)
    requires StackOf(s, t).Frames?
  {
    s.(stacks := s.stacks[t := Frames(f, StackOf(s, t).below)])
  }

  function SetList(s: State, c: Address, l: List): (s': State)
    requires c in s.heap
  {
    s.(heap := s.heap[c := s.heap[c].(list := l)])
  }

  function Free(s: State, c: Address): (s': State)
  {
    if c in s.heap then s.(heap := s.heap - {c}) else Fault(s)
  }

  function Unmap(s: State, t: ThreadId): (s': State)
    ensures s' == s.(contexts := s'.contexts)
  {
    s.(contexts := s.contexts - {t})
  }

  /** What RemoveObserver asks under the lock: is o the last observer, going by the slots? */
  predicate IsLast(slots: seq<Slot>, o: Observer)
  {
    Some(o) in slots && |slots| == 1
  }

  /** The locked section of AddObserver. */
  function AddStep(s: State, t: ThreadId, o: Observer, at: Address): (s': State)
  {
    if t !in s.loops then s
    else if t in s.contexts then Push(s, t, AddLocked(s.contexts[t], o))
    else
      Push(s.(contexts := s.contexts[t := at],
              heap := s.heap[at := ListContext(t, List([], 0, s.kind), s.serials)],
              born := s.born[at := s.serials],
              serials := s.serials + 1,
              reused := s.reused || at in s.born), t, AddLocked(at, o))
  }

  /** The locked section of RemoveObserver. */
  function RemoveStep(s: State, t: ThreadId, o: Observer): (s': State)
  {
    if t !in s.contexts then s.(registered := s.registered - {(t, o)})
    else
      var c := s.contexts[t];
      if c !in s.heap then Fault(s)
      else
        Push(if IsLast(s.heap[c].list.slots, o) then Unmap(s, t) else s, t, RemoveLocked(c, o))
  }

  /** Notify: under the lock, a task for every context in the map. */
  function NotifyStep(s: State): (s': State)
  {
    if exists t :: t in s.contexts && s.contexts[t] !in s.heap then Fault(s)
    else
      s.(tasks := s.tasks + multiset(set t | t in s.contexts ::
           Task(s.heap[s.contexts[t]].owner, s.contexts[t], s.heap[s.contexts[t]].serial)))
  }

  /** The check at the head of NotifyWrapper. */
  function DeliverStep(s: State, task: Task): (s': State)
  {
    var s' := s.(tasks := s.tasks - multiset{task});
    if task.thread in s.contexts && s.contexts[task.thread] == task.ctx
    then Push(s', task.thread, Checked(task.ctx)) else s'
  }

  /** The next step of the function that thread t is running. */
  function ContinueStep(s: State, t: ThreadId): (s': State)
    requires StackOf(s, t).Frames?
  {
    var f := StackOf(s, t).top;
    var c := f.ctx;
    if c !in s.heap then Fault(s)
    else
      var l := s.heap[c].list;
      match f
      case AddLocked(_, o) =>
        Pop(SetList(s, c, Added(l, o)), t).(registered := s.registered + {(t, o)})
      case RemoveLocked(_, o) =>
        Goto(SetList(s, c, Removed(l, o)), t, RemoveDone(c)).(registered := s.registered - {(t, o)})
      case RemoveDone(_) =>
        if |l.slots| == 0 then Free(Pop(s, t), c) else Pop(s, t)
      case Checked(_) =>
        Goto(SetList(s, c, Entered(l)), t, Iterating(c, Opened(l)))
      case Iterating(_, cursor) =>
        var (o, cursor') := Advanced(l.slots, cursor);
        if o.Some? then Goto(s, t, Calling(c, cursor', o.value))
        else if l.depth == 0 then Fault(s)
        else Goto(SetList(s, c, Left(l)), t, Iterated(c))
      case Calling(_, cursor, _) => Goto(s, t, Iterating(c, cursor))
      case Iterated(_) =>
        if |l.slots| == 0 then Goto(s, t, FoundEmpty(c)) else Pop(s, t)
      case FoundEmpty(_) =>
        Goto(if t in s.contexts && s.contexts[t] == c then Unmap(s, t) else s, t, Unmapped(c))
      case Unmapped(_) => Free(Pop(s, t), c)
  }

  /** The destructor, once no task and no caller holds a reference: it deletes what is in the map. */
  function DestructStep(s: State): (s': State)
  {
    if exists t :: t in s.contexts && s.contexts[t] !in s.heap then Fault(s)
    else s.(heap := s.heap - s.contexts.Values, contexts := map[], destroyed := true)
  }

  function Step(s: State, e: Event): (s': State)
    requires Enabled(s, e)
  {
    match e
    case AddObserver(t, o, at) => AddStep(s, t, o, at)
    case RemoveObserver(t, o) => RemoveStep(s, t, o)
    case Notify(t) => NotifyStep(s)
    case Deliver(task) => DeliverStep(s, task)
    case Drop(task) => s.(tasks := s.tasks - multiset{task})
    case Continue(t) => ContinueStep(s, t)
    case Destruct => DestructStep(s)
  }

  // ---------------------------------------------------------------- the invariant

  /** How many iterators the frames of a stack hold on c. */
  function Iterators(st: Stack, c: Address): (n: nat)
  {
    if st.Idle? then 0
    else (if (st.top.Iterating? || st.top.Calling?) && st.top.ctx == c then 1 else 0)
         + Iterators(st.below, c)
  }

  ghost predicate AllCalling(st: Stack)
  {
    st.Frames? ==> st.top.Calling? && AllCalling(st.below)
  }

  /** Every frame of thread t points to a context that is allocated and made by t. */
  ghost predicate Points(heap: map<Address, ListContext>, t: ThreadId, st: Stack)
  {
    st.Frames? ==> st.top.ctx in heap && heap[st.top.ctx].owner == t && Points(heap, t, st.below)
  }

  /**
   What keeps a context that no function is in the middle of changing: the map, with something in
   the list; or an iterator of a running NotifyWrapper, with everything nulled.
   */
  ghost predicate Settled(mapped: bool, l: List)
  {
    if mapped then |l.slots| > 0 else NoneLeft(l.slots) && l.depth > 0
  }

  /** What holds of the context that the top frame f of its thread works on. */
  ghost predicate Working(f: Frame, mapped: bool, l: List)
  {
    match f
    case AddLocked(_, _) => mapped
    case RemoveLocked(_, o) =>
      |l.slots| > 0 && (mapped <==> !IsLast(l.slots, o))
    case RemoveDone(_) => if mapped then |l.slots| > 0 else NoneLeft(l.slots)
    case Checked(_) => mapped && |l.slots| > 0
    case Iterated(_) => if mapped then |l.slots| > 0 || l.depth == 0 else NoneLeft(l.slots)
    case FoundEmpty(_) => |l.slots| == 0
    case Unmapped(_) => |l.slots| == 0 && !mapped
    case _ => Settled(mapped, l)
  }

  ghost predicate ContextOk(s: State, c: Address)
    requires c in s.heap
  {
    var st := StackOf(s, s.heap[c].owner);
    var l := s.heap[c].list;
    && Distinct(l.slots)
    && l.depth == Iterators(st, c)
    && (l.depth == 0 ==> NoNulls(l.slots))
    && (l.depth > 0 ==> |l.slots| > 0)
    && (if st.Frames? && st.top.ctx == c then Working(st.top, Mapped(s, c), l)
        else Settled(Mapped(s, c), l))
  }

  ghost predicate Holds(s: State, t: ThreadId, c: Address, o: Observer)
  {
    c in s.heap && s.heap[c].owner == t && Some(o) in s.heap[c].list.slots
  }

  /** The frames of thread t and its map entry point to contexts that are allocated. */
  ghost predicate FramesOk(s: State, t: ThreadId)
  {
    && Points(s.heap, t, StackOf(s, t))
    && (StackOf(s, t).Frames? ==> AllCalling(StackOf(s, t).below))
    && (t in s.contexts ==> s.contexts[t] in s.heap && s.heap[s.contexts[t]].owner == t)
    && (StackOf(s, t).Frames? && StackOf(s, t).top.RemoveLocked? && t in s.contexts ==>
          s.contexts[t] == StackOf(s, t).top.ctx)
  }

  ghost predicate ContextsOk(s: State, t: ThreadId)
  {
    forall c :: c in s.heap && s.heap[c].owner == t ==> ContextOk(s, c)
  }

  /** registered is, for thread t, what its lists hold. */
  ghost predicate RegistrationOk(s: State, t: ThreadId)
  {
    forall o: Observer :: (t, o) in s.registered <==> exists c :: Holds(s, t, c, o)
  }

  ghost predicate ThreadOk(s: State, t: ThreadId)
  {
    FramesOk(s, t) && ContextsOk(s, t) && RegistrationOk(s, t)
  }

  ghost predicate SerialsOk(s: State)
  {
    && (forall c :: c in s.heap ==> c in s.born && s.heap[c].serial == s.born[c])
    && (forall task :: task in s.tasks ==> task.ctx in s.born)
    && (!s.reused ==> forall task :: task in s.tasks ==> task.serial == s.born[task.ctx])
  }

  ghost predicate Inv(s: State)
  {
    && !s.fault
    && (forall t :: ThreadOk(s, t))
    && SerialsOk(s)
  }

  // ---------------------------------------------------------------- every step keeps it

  /** A stack with no iterator on c, all inside callbacks, does not point to c at all. */
  lemma {:induction false} NoIteratorNoPointer(heap: map<Address, ListContext>, t: ThreadId, st: Stack, c: Address)
    requires AllCalling(st) && Iterators(st, c) == 0 && Points(heap, t, st)
    ensures Points(heap - {c}, t, st)
  {
    if st.Frames? {
      NoIteratorNoPointer(heap, t, st.below, c);
    }
  }

  /** Contexts that are not t's may come, go and change without t's frames noticing. */
  lemma {:induction false} PointsFrame(heap: map<Address, ListContext>, heap': map<Address, ListContext>, t: ThreadId, st: Stack)
    requires Points(heap, t, st)
    requires forall c :: c in heap && heap[c].owner == t ==> c in heap' && heap'[c].owner == t
    ensures Points(heap', t, st)
  {
    if st.Frames? {
      PointsFrame(heap, heap', t, st.below);
    }
  }

  /** s' differs from s in nothing that concerns a thread other than t. */
  ghost predicate OnlyThread(s: State, s': State, t: ThreadId)
  {
    && (forall u :: u != t ==> StackOf(s', u) == StackOf(s, u))
    && (forall u :: u != t ==> (u in s'.contexts <==> u in s.contexts))
    && (forall u :: u != t && u in s.contexts ==> s'.contexts[u] == s.contexts[u])
    && (forall c :: c in s.heap && s.heap[c].owner != t ==> c in s'.heap && s'.heap[c] == s.heap[c])
    && (forall c :: c in s'.heap && s'.heap[c].owner != t ==> c in s.heap && s'.heap[c] == s.heap[c])
    && (forall u, o :: u != t ==> ((u, o) in s'.registered <==> (u, o) in s.registered))
  }

  /** No list of t gained or lost an observer. */
  ghost predicate SameHoldings(s: State, s': State, t: ThreadId)
  {
    forall c, o :: Holds(s', t, c, o) <==> Holds(s, t, c, o)
  }

  lemma SameRegistration(s: State, s': State, t: ThreadId)
    requires RegistrationOk(s, t) && SameHoldings(s, s', t) && s'.registered == s.registered
    ensures RegistrationOk(s', t)
  {
    forall o: Observer
      ensures (t, o) in s'.registered <==> exists c :: Holds(s', t, c, o)
    {
      if (t, o) in s'.registered {
        var c :| Holds(s, t, c, o);
        assert Holds(s', t, c, o);
      }
    }
  }

  lemma OtherThreads(s: State, s': State, t: ThreadId, u: ThreadId)
    requires OnlyThread(s, s', t) && u != t && ThreadOk(s, u)
    ensures ThreadOk(s', u)
  {
    PointsFrame(s.heap, s'.heap, u, StackOf(s, u));
    forall c | c in s'.heap && s'.heap[c].owner == u
      ensures ContextOk(s', c)
    {
      assert ContextOk(s, c);
    }
    forall o: Observer
      ensures (u, o) in s'.registered <==> exists c :: Holds(s', u, c, o)
    {
      if (u, o) in s'.registered {
        var c :| Holds(s, u, c, o);
        assert Holds(s', u, c, o);
      }
      if c :| Holds(s', u, c, o) {
        assert Holds(s, u, c, o);
      }
    }
  }

  // ---------------------------------------------------------------- the calls

  lemma {:induction false} NoPointerNoIterator(heap: map<Address, ListContext>, t: ThreadId, st: Stack, c: Address)
    requires Points(heap, t, st) && c !in heap
    ensures Iterators(st, c) == 0
  {
    if st.Frames? {
      NoPointerNoIterator(heap, t, st.below, c);
    }
  }

  lemma AddKnown(s: State, t: ThreadId, o: Observer, at: Address)
    requires Inv(s) && Enabled(s, AddObserver(t, o, at)) && t in s.loops && t in s.contexts
    ensures var s' := AddStep(s, t, o, at); OnlyThread(s, s', t) && ThreadOk(s', t)
  {
    var s' := AddStep(s, t, o, at);
    assert ThreadOk(s, t);
    forall c | c in s'.heap && s'.heap[c].owner == t
      ensures ContextOk(s', c)
    {
      assert ContextOk(s, c);
    }
    SameRegistration(s, s', t);
  }

  /** The first observer of a thread: a context is made for it. */
  lemma AddNew(s: State, t: ThreadId, o: Observer, at: Address)
    requires Inv(s) && Enabled(s, AddObserver(t, o, at)) && t in s.loops && t !in s.contexts
    ensures var s' := AddStep(s, t, o, at); OnlyThread(s, s', t) && ThreadOk(s', t)
  {
    var s' := AddStep(s, t, o, at);
    assert ThreadOk(s, t);
    PointsFrame(s.heap, s'.heap, t, StackOf(s, t));
    assert FramesOk(s', t);
    NoPointerNoIterator(s.heap, t, StackOf(s, t), at);
    forall c | c in s'.heap && s'.heap[c].owner == t
      ensures ContextOk(s', c)
    {
      assert c != at ==> ContextOk(s, c);
    }
    SameRegistration(s, s', t);
  }

  lemma AddKeeps(s: State, t: ThreadId, o: Observer, at: Address)
    requires Inv(s) && Enabled(s, AddObserver(t, o, at))
    ensures var s' := AddStep(s, t, o, at); OnlyThread(s, s', t) && ThreadOk(s', t) && !s'.fault
  {
    assert ThreadOk(s, t);
    if t !in s.loops {
    } else if t in s.contexts {
      AddKnown(s, t, o, at);
    } else {
      AddNew(s, t, o, at);
    }
  }

  lemma RemoveUnmapped(s: State, t: ThreadId, o: Observer)
    requires Inv(s) && Enabled(s, RemoveObserver(t, o)) && t !in s.contexts
    ensures RemoveStep(s, t, o) == s
  {
    assert ThreadOk(s, t);
    forall c
      ensures !Holds(s, t, c, o)
    {
      assert c in s.heap && s.heap[c].owner == t ==> ContextOk(s, c);
    }
    assert s.registered - {(t, o)} == s.registered;
  }

  lemma RemoveMapped(s: State, t: ThreadId, o: Observer)
    requires Inv(s) && Enabled(s, RemoveObserver(t, o)) && t in s.contexts
    ensures var s' := RemoveStep(s, t, o); OnlyThread(s, s', t) && ThreadOk(s', t) && !s'.fault
  {
    var s' := RemoveStep(s, t, o);
    assert ThreadOk(s, t);
    assert ContextOk(s, s.contexts[t]);
    if IsLast(s.heap[s.contexts[t]].list.slots, o) {
      assert s' == Push(Unmap(s, t), t, RemoveLocked(s.contexts[t], o));
      RemoveContexts(s, s', t, o);
    } else {
      assert s' == Push(s, t, RemoveLocked(s.contexts[t], o));
      RemoveContexts(s, s', t, o);
    }
  }

  lemma RemoveContexts(s: State, s': State, t: ThreadId, o: Observer)
    requires ThreadOk(s, t) && MayCall(s, t) && t in s.contexts
    requires var last := IsLast(s.heap[s.contexts[t]].list.slots, o);
             s' == Push(if last then Unmap(s, t) else s, t, RemoveLocked(s.contexts[t], o))
    ensures OnlyThread(s, s', t) && ThreadOk(s', t)
  {
    assert ContextOk(s, s.contexts[t]);
    assert FramesOk(s', t);
    forall c | c in s.heap && s.heap[c].owner == t
      ensures ContextOk(s', c)
    {
      assert ContextOk(s, c);
    }
    SameRegistration(s, s', t);
  }

  lemma RemoveKeeps(s: State, t: ThreadId, o: Observer)
    requires Inv(s) && Enabled(s, RemoveObserver(t, o))
    ensures var s' := RemoveStep(s, t, o); !s'.fault && OnlyThread(s, s', t) && ThreadOk(s', t)
  {
    assert ThreadOk(s, t);
    if t in s.contexts {
      RemoveMapped(s, t, o);
    } else {
      RemoveUnmapped(s, t, o);
    }
  }

  // ---------------------------------------------------------------- the steps inside a call

  /** A context of t other than the one its top frame works on. */
  lemma OtherContext(s: State, s': State, t: ThreadId, c: Address)
    requires StackOf(s, t).Frames? && StackOf(s, t).top.ctx != c
    requires c in s.heap && c in s'.heap && s'.heap[c] == s.heap[c] && s.heap[c].owner == t
    requires ContextOk(s, c) && Mapped(s', c) == Mapped(s, c)
    requires Iterators(StackOf(s', t), c) == Iterators(StackOf(s, t), c)
    requires StackOf(s', t).Frames? ==> StackOf(s', t).top.ctx != c || StackOf(s', t).top.Calling?
    ensures ContextOk(s', c)
  {
  }

  /** The conclusion of a step of t that works on c: c itself is fine, and nothing else changed. */
  ghost predicate OneContext(s: State, s': State, t: ThreadId, c: Address)
  {
    && StackOf(s, t).Frames? && StackOf(s, t).top.ctx == c
    && (forall c' :: c' != c ==> (c' in s'.heap <==> c' in s.heap))
    && (forall c' :: c' != c && c' in s.heap ==> s'.heap[c'] == s.heap[c'])
    && (forall c' :: c' in s.heap && c' != c && s.heap[c'].owner == t ==>
          && Mapped(s', c') == Mapped(s, c')
          && Iterators(StackOf(s', t), c') == Iterators(StackOf(s, t), c'))
    && (StackOf(s', t).Frames? ==> StackOf(s', t).top.ctx == c || StackOf(s', t).top.Calling?)
    && (c in s'.heap ==> ContextOk(s', c))
  }

  lemma OneContextOk(s: State, s': State, t: ThreadId, c: Address)
    requires ContextsOk(s, t) && OneContext(s, s', t, c)
    ensures ContextsOk(s', t)
  {
    forall c' | c' in s'.heap && s'.heap[c'].owner == t
      ensures ContextOk(s', c')
    {
      if c' != c {
        assert ContextOk(s, c');
        OtherContext(s, s', t, c');
      }
    }
  }

  /** A step of t that works on c and leaves every list of t with the observers it had. */
  lemma OneContextSame(s: State, s': State, t: ThreadId, c: Address)
    requires ThreadOk(s, t) && FramesOk(s', t) && OneContext(s, s', t, c)
    requires s'.registered == s.registered && SameHoldings(s, s', t)
    ensures ThreadOk(s', t)
  {
    OneContextOk(s, s', t, c);
    SameRegistration(s, s', t);
  }

  lemma ListStepOnly(s: State, t: ThreadId, c: Address, l: List, f: Frame, o: Observer)
    requires FramesOk(s, t) && StackOf(s, t).Frames? && c in s.heap && s.heap[c].owner == t
    ensures OnlyThread(s, Pop(SetList(s, c, l), t).(registered := s.registered + {(t, o)}), t)
    ensures OnlyThread(s, Goto(SetList(s, c, l), t, f).(registered := s.registered - {(t, o)}), t)
    ensures OnlyThread(s, Goto(SetList(s, c, l), t, f), t)
  {
    hide OnlyThread, FramesOk;
    var s1 := SetList(s, c, l);
    ThreadStepOnly(s, Pop(s1, t).(registered := s.registered + {(t, o)}), t, c, l, o);
    ThreadStepOnly(s, Goto(s1, t, f).(registered := s.registered - {(t, o)}), t, c, l, o);
    ThreadStepOnly(s, Goto(s1, t, f), t, c, l, o);
  }

  /** A change of the thread's own stack, of one list of its own, and of its own registrations. */
  lemma ThreadStepOnly(s: State, s': State, t: ThreadId, c: Address, l: List, o: Observer)
    requires c in s.heap && s.heap[c].owner == t && t in s'.stacks
    requires s'.stacks == s.stacks[t := s'.stacks[t]] && s'.contexts == s.contexts
    requires s'.heap == s.heap[c := s.heap[c].(list := l)]
    requires s'.registered == s.registered || s'.registered == s.registered + {(t, o)}
          || s'.registered == s.registered - {(t, o)}
    ensures OnlyThread(s, s', t)
  {
  }

  lemma FrameStepOnly(s: State, t: ThreadId, c: Address, f: Frame)
    requires FramesOk(s, t) && StackOf(s, t).Frames? && c in s.heap && s.heap[c].owner == t
    ensures OnlyThread(s, Pop(s, t), t)
    ensures OnlyThread(s, Goto(s, t, f), t)
    ensures OnlyThread(s, Goto(Unmap(s, t), t, f), t)
  {
  }

  lemma FreeStepOnly(s: State, t: ThreadId, c: Address)
    requires FramesOk(s, t) && StackOf(s, t).Frames? && c in s.heap && s.heap[c].owner == t
    ensures OnlyThread(s, Free(Pop(s, t), c), t)
  {
  }

  lemma ContinueOnly(s: State, t: ThreadId)
    requires FramesOk(s, t) && StackOf(s, t).Frames?
    ensures OnlyThread(s, ContinueStep(s, t), t)
  {
    var f := StackOf(s, t).top;
    var c, l := f.ctx, s.heap[f.ctx].list;
    match f
    case AddLocked(_, o) => ListStepOnly(s, t, c, Added(l, o), f, o);
    case RemoveLocked(_, o) => ListStepOnly(s, t, c, Removed(l, o), RemoveDone(c), o);
    case RemoveDone(_) =>
      FrameStepOnly(s, t, c, f);
      FreeStepOnly(s, t, c);
    case Checked(_) => ListStepOnly(s, t, c, Entered(l), Iterating(c, Opened(l)), 0);
    case Iterating(_, cursor) =>
      var (o, cursor') := Advanced(l.slots, cursor);
      if o.Some? {
        FrameStepOnly(s, t, c, Calling(c, cursor', o.value));
      } else if l.depth > 0 {
        ListStepOnly(s, t, c, Left(l), Iterated(c), 0);
      }
    case Calling(_, cursor, _) => FrameStepOnly(s, t, c, Iterating(c, cursor));
    case Iterated(_) => FrameStepOnly(s, t, c, FoundEmpty(c));
    case FoundEmpty(_) => FrameStepOnly(s, t, c, Unmapped(c));
    case Unmapped(_) => FreeStepOnly(s, t, c);
  }

  /** A step inside a call posts nothing, and at most deletes contexts. */
  ghost predicate Quiet(s: State, s': State)
  {
    && s'.tasks == s.tasks && s'.born == s.born && s'.serials == s.serials && s'.reused == s.reused
    && s'.destroyed == s.destroyed && s'.kind == s.kind
    && (forall c :: c in s'.heap ==> c in s.heap && s'.heap[c].serial == s.heap[c].serial)
  }

  /** Whether this step of t is the one that deletes its context. */
  ghost predicate Deletes(s: State, t: ThreadId, c: Address)
  {
    && StackOf(s, t).Frames? && StackOf(s, t).top.ctx == c && c in s.heap
    && (StackOf(s, t).top.Unmapped?
        || (StackOf(s, t).top.RemoveDone? && |s.heap[c].list.slots| == 0))
  }

  /** A step that changes the list of c in place, as all but the deleting ones do. */
  ghost predicate InPlace(s: State, s': State)
  {
    Quiet(s, s') && s'.heap.Keys == s.heap.Keys
  }

  lemma ListStepInPlace(s: State, t: ThreadId, c: Address, l: List, f: Frame, r: set<(ThreadId, Observer)>)
    requires StackOf(s, t).Frames? && c in s.heap
    ensures InPlace(s, Pop(SetList(s, c, l), t).(registered := r))
    ensures InPlace(s, Goto(SetList(s, c, l), t, f).(registered := r))
    ensures InPlace(s, Goto(SetList(s, c, l), t, f))
  {
  }

  lemma CallInPlace(s: State, t: ThreadId)
    requires StackOf(s, t).Frames? && StackOf(s, t).top.ctx in s.heap
    requires StackOf(s, t).top.AddLocked? || StackOf(s, t).top.RemoveLocked? || StackOf(s, t).top.Checked?
    ensures InPlace(s, ContinueStep(s, t))
  {
    var f := StackOf(s, t).top;
    var c, l := f.ctx, s.heap[f.ctx].list;
    match f
    case AddLocked(_, o) => ListStepInPlace(s, t, c, Added(l, o), f, s.registered + {(t, o)});
    case RemoveLocked(_, o) => ListStepInPlace(s, t, c, Removed(l, o), RemoveDone(c), s.registered - {(t, o)});
    case Checked(_) => ListStepInPlace(s, t, c, Entered(l), Iterating(c, Opened(l)), {});
  }

  lemma IterationInPlace(s: State, t: ThreadId)
    requires StackOf(s, t).Frames? && StackOf(s, t).top.ctx in s.heap && StackOf(s, t).top.Iterating?
    ensures InPlace(s, ContinueStep(s, t))
  {
    var f := StackOf(s, t).top;
    var c, l := f.ctx, s.heap[f.ctx].list;
    var (o, cursor') := Advanced(l.slots, f.cursor);
    if o.Some? {
      assert ContinueStep(s, t) == Goto(s, t, Calling(c, cursor', o.value));
    } else if l.depth > 0 {
      ListStepInPlace(s, t, c, Left(l), Iterated(c), {});
    }
  }

  lemma ReturnInPlace(s: State, t: ThreadId)
    requires StackOf(s, t).Frames? && StackOf(s, t).top.ctx in s.heap
    requires StackOf(s, t).top.Calling? || StackOf(s, t).top.Iterated? || StackOf(s, t).top.FoundEmpty?
    ensures InPlace(s, ContinueStep(s, t))
  {
  }

  lemma DeletingQuiet(s: State, t: ThreadId)
    requires StackOf(s, t).Frames? && (StackOf(s, t).top.RemoveDone? || StackOf(s, t).top.Unmapped?)
    requires StackOf(s, t).top.ctx in s.heap
    ensures Quiet(s, ContinueStep(s, t))
    ensures forall c :: c in s.heap && c !in ContinueStep(s, t).heap ==> Deletes(s, t, c)
  {
    var c := StackOf(s, t).top.ctx;
    if StackOf(s, t).top.Unmapped? {
      assert ContinueStep(s, t) == Free(Pop(s, t), c);
    } else if |s.heap[c].list.slots| == 0 {
      assert ContinueStep(s, t) == Free(Pop(s, t), c);
    } else {
      assert ContinueStep(s, t) == Pop(s, t);
    }
  }

  lemma ContinueQuiet(s: State, t: ThreadId)
    requires StackOf(s, t).Frames?
    ensures Quiet(s, ContinueStep(s, t))
    ensures forall c :: c in s.heap && c !in ContinueStep(s, t).heap ==> Deletes(s, t, c)
  {
    var f := StackOf(s, t).top;
    if f.ctx in s.heap {
      if f.RemoveDone? || f.Unmapped? {
        DeletingQuiet(s, t);
        return;
      }
      if f.AddLocked? || f.RemoveLocked? || f.Checked? {
        CallInPlace(s, t);
      } else if f.Iterating? {
        IterationInPlace(s, t);
      } else {
        ReturnInPlace(s, t);
      }
      assert InPlace(s, ContinueStep(s, t));
    }
  }

  lemma AddedHas(l: List, o: Observer)
    ensures forall x: Observer :: Some(x) in Added(l, o).slots <==> Some(x) in l.slots || x == o
    ensures Added(l, o).depth == l.depth && Added(l, o).slots != []
    ensures Distinct(l.slots) ==> Distinct(Added(l, o).slots)
    ensures NoNulls(l.slots) ==> NoNulls(Added(l, o).slots)
  {
  }

  lemma AddLockedContext(s: State, t: ThreadId)
    requires Inv(s) && StackOf(s, t).Frames? && StackOf(s, t).top.AddLocked?
    ensures var c := StackOf(s, t).top.ctx;
            c in ContinueStep(s, t).heap && ContextOk(ContinueStep(s, t), c)
  {
    var c, o := StackOf(s, t).top.ctx, StackOf(s, t).top.o;
    assert ThreadOk(s, t) && ContextOk(s, c);
    AddedHas(s.heap[c].list, o);
    hide Added, Distinct, NoNulls;
  }

  lemma AddLockedHolds(s: State, t: ThreadId, c': Address, x: Observer)
    requires Inv(s) && StackOf(s, t).Frames? && StackOf(s, t).top.AddLocked?
    ensures var (c, o) := (StackOf(s, t).top.ctx, StackOf(s, t).top.o);
            Holds(ContinueStep(s, t), t, c', x) <==> Holds(s, t, c', x) || (c' == c && x == o)
  {
    assert ThreadOk(s, t);
    AddedHas(s.heap[StackOf(s, t).top.ctx].list, StackOf(s, t).top.o);
    hide Added;
  }

  lemma AddLockedKeeps(s: State, t: ThreadId)
    requires Inv(s) && StackOf(s, t).Frames? && StackOf(s, t).top.AddLocked?
    ensures ThreadOk(ContinueStep(s, t), t)
  {
    hide Added;
    var s' := ContinueStep(s, t);
    var c, o := StackOf(s, t).top.ctx, StackOf(s, t).top.o;
    assert ThreadOk(s, t);
    PointsFrame(s.heap, s'.heap, t, StackOf(s, t).below);
    assert FramesOk(s', t);
    AddLockedContext(s, t);
    OneContextOk(s, s', t, c);
    assert RegistrationOk(s', t) by {
      hide ContinueStep;
      forall c', x: Observer
        ensures Holds(s', t, c', x) <==> Holds(s, t, c', x) || (c' == c && x == o)
      {
        AddLockedHolds(s, t, c', x);
      }
      GainedOne(s, s', t, c, o);
    }
  }

  lemma GainedOne(s: State, s': State, t: ThreadId, c: Address, o: Observer)
    requires RegistrationOk(s, t) && s'.registered == s.registered + {(t, o)}
    requires forall c', x: Observer :: Holds(s', t, c', x) <==> Holds(s, t, c', x) || (c' == c && x == o)
    ensures RegistrationOk(s', t)
  {
    hide Holds;
    forall x: Observer
      ensures (t, x) in s'.registered <==> exists c' :: Holds(s', t, c', x)
    {
      if (t, x) in s.registered {
        var c' :| Holds(s, t, c', x);
        assert Holds(s', t, c', x);
      } else if x == o {
        assert Holds(s', t, c, o);
      }
    }
  }

  lemma LostOne(s: State, s': State, t: ThreadId, o: Observer)
    requires RegistrationOk(s, t) && s'.registered == s.registered - {(t, o)}
    requires forall c', x: Observer :: Holds(s', t, c', x) <==> Holds(s, t, c', x) && x != o
    ensures RegistrationOk(s', t)
  {
    hide Holds;
    forall x: Observer
      ensures (t, x) in s'.registered <==> exists c' :: Holds(s', t, c', x)
    {
      if (t, x) in s'.registered {
        var c' :| Holds(s, t, c', x);
        assert Holds(s', t, c', x);
      }
    }
  }

  lemma RemovedHas(l: List, o: Observer)
    requires Distinct(l.slots)
    ensures forall x: Observer :: Some(x) in Removed(l, o).slots <==> Some(x) in l.slots && x != o
  {
    RemovedPresent(l, o);
    forall x: Observer
      ensures Some(x) in Removed(l, o).slots <==> Some(x) in l.slots && x != o
    {
      PresentHas(Removed(l, o).slots, x);
      PresentHas(l.slots, x);
      WithoutHas(Present(l.slots), {o}, x);
    }
  }

  lemma RemovedShape(l: List, o: Observer)
    ensures Removed(l, o).depth == l.depth && Removed(l, o).kind == l.kind
    ensures |Removed(l, o).slots| >= |l.slots| - 1
    ensures l.depth > 0 ==> |Removed(l, o).slots| == |l.slots|
    ensures Some(o) !in l.slots ==> Removed(l, o) == l
    ensures IsLast(l.slots, o) ==> NoneLeft(Removed(l, o).slots)
  {
    var i := Find(l.slots, o);
    assert i < |l.slots| ==> l.slots[i] in l.slots;
  }

  lemma RemoveLockedHolds(s: State, t: ThreadId, c': Address, x: Observer)
    requires Inv(s) && StackOf(s, t).Frames? && StackOf(s, t).top.RemoveLocked?
    ensures Holds(ContinueStep(s, t), t, c', x) <==> Holds(s, t, c', x) && x != StackOf(s, t).top.o
  {
    var c, o := StackOf(s, t).top.ctx, StackOf(s, t).top.o;
    assert ThreadOk(s, t) && ContextOk(s, c);
    RemovedHas(s.heap[c].list, o);
    if c' in s.heap && s.heap[c'].owner == t {
      assert ContextOk(s, c');
    }
  }

  lemma RemoveLockedContext(s: State, t: ThreadId)
    requires Inv(s) && StackOf(s, t).Frames? && StackOf(s, t).top.RemoveLocked?
    ensures var c := StackOf(s, t).top.ctx;
            c in ContinueStep(s, t).heap && ContextOk(ContinueStep(s, t), c)
  {
    var c, o := StackOf(s, t).top.ctx, StackOf(s, t).top.o;
    assert ThreadOk(s, t) && ContextOk(s, c);
    RemovedDistinct(s.heap[c].list, o);
    RemovedShape(s.heap[c].list, o);
    hide Removed, Find, IsLast, Distinct;
    assert StackOf(ContinueStep(s, t), t) == Frames(RemoveDone(c), StackOf(s, t).below);
  }

  lemma RemoveLockedKeeps(s: State, t: ThreadId)
    requires Inv(s) && StackOf(s, t).Frames? && StackOf(s, t).top.RemoveLocked?
    ensures ThreadOk(ContinueStep(s, t), t)
  {
    hide Removed;
    var s' := ContinueStep(s, t);
    var c, o := StackOf(s, t).top.ctx, StackOf(s, t).top.o;
    assert ThreadOk(s, t);
    PointsFrame(s.heap, s'.heap, t, StackOf(s, t).below);
    assert FramesOk(s', t);
    RemoveLockedContext(s, t);
    OneContextOk(s, s', t, c);
    assert RegistrationOk(s', t) by {
      forall c', x: Observer
        ensures Holds(s', t, c', x) <==> Holds(s, t, c', x) && x != o
      {
        hide Holds;
        RemoveLockedHolds(s, t, c', x);
      }
      LostOne(s, s', t, o);
    }
  }

  /** A list that holds only nulls still has an iterator, or it would have been compacted. */
  lemma NoNullsSettled(l: List)
    requires l.depth == 0 ==> NoNulls(l.slots)
    ensures NoneLeft(l.slots) && |l.slots| > 0 ==> l.depth > 0
  {
    if NoneLeft(l.slots) && |l.slots| > 0 {
      assert l.slots[0] in l.slots;
    }
  }

  lemma PopKeeps(s: State, t: ThreadId)
    requires Inv(s) && StackOf(s, t).Frames? && (StackOf(s, t).top.RemoveDone? || StackOf(s, t).top.Iterated?)
    requires StackOf(s, t).top.ctx in s.heap && s.heap[StackOf(s, t).top.ctx].list.slots != []
    ensures ThreadOk(ContinueStep(s, t), t)
  {
    var s' := ContinueStep(s, t);
    var c := StackOf(s, t).top.ctx;
    assert ThreadOk(s, t) && ContextOk(s, c);
    NoNullsSettled(s.heap[c].list);
    assert FramesOk(s', t);
    OneContextSame(s, s', t, c);
  }

  lemma FreeKeeps(s: State, t: ThreadId)
    requires Inv(s) && StackOf(s, t).Frames? && (StackOf(s, t).top.RemoveDone? || StackOf(s, t).top.Unmapped?)
    requires StackOf(s, t).top.ctx in s.heap && s.heap[StackOf(s, t).top.ctx].list.slots == []
    ensures ThreadOk(ContinueStep(s, t), t)
  {
    var s' := ContinueStep(s, t);
    var c := StackOf(s, t).top.ctx;
    assert ThreadOk(s, t) && ContextOk(s, c);
    NoIteratorNoPointer(s.heap, t, StackOf(s, t).below, c);
    assert FramesOk(s', t);
    OneContextSame(s, s', t, c);
  }

  lemma CheckedKeeps(s: State, t: ThreadId)
    requires Inv(s) && StackOf(s, t).Frames? && StackOf(s, t).top.Checked?
    ensures ThreadOk(ContinueStep(s, t), t)
  {
    var s' := ContinueStep(s, t);
    var c := StackOf(s, t).top.ctx;
    assert ThreadOk(s, t) && ContextOk(s, c);
    PointsFrame(s.heap, s'.heap, t, StackOf(s, t).below);
    assert FramesOk(s', t);
    OneContextSame(s, s', t, c);
  }

  lemma LeftHas(l: List)
    requires Distinct(l.slots) && l.depth > 0
    ensures forall x: Observer :: Some(x) in Left(l).slots <==> Some(x) in l.slots
    ensures Distinct(Left(l).slots)
    ensures NoneLeft(l.slots) ==> NoneLeft(Left(l).slots)
    ensures l.depth == 1 ==> NoNulls(Left(l).slots)
    ensures l.depth > 1 ==> Left(l).slots == l.slots
  {
    CompactedPresent(l);
    forall x: Observer
      ensures Some(x) in Compacted(l).slots <==> Some(x) in l.slots
    {
      PresentHas(l.slots, x);
      PresentHas(Compacted(l).slots, x);
    }
    if NoneLeft(l.slots) {
      PresentAllNulled(l.slots);
    }
  }

  /** A NotifyWrapper stays at its iterator. */
  lemma SameIterator(s: State, t: ThreadId, f: Frame)
    requires ThreadOk(s, t) && StackOf(s, t).Frames? && f.ctx == StackOf(s, t).top.ctx
    requires StackOf(s, t).top.Calling? || StackOf(s, t).top.Iterating?
    requires f.Calling? || f.Iterating?
    ensures ThreadOk(Goto(s, t, f), t)
  {
    var s' := Goto(s, t, f);
    assert ContextOk(s, f.ctx);
    assert FramesOk(s', t);
    OneContextSame(s, s', t, f.ctx);
  }

  lemma CalledKeeps(s: State, t: ThreadId)
    requires Inv(s) && StackOf(s, t).Frames? && (StackOf(s, t).top.Calling? || StackOf(s, t).top.Iterating?)
    requires !ContinueStep(s, t).fault
    requires StackOf(s, t).top.Iterating? ==> !StackOf(ContinueStep(s, t), t).top.Iterated?
    ensures ThreadOk(ContinueStep(s, t), t)
  {
    hide Advanced, Left;
    assert ThreadOk(s, t);
    var f := StackOf(ContinueStep(s, t), t).top;
    assert ContinueStep(s, t) == Goto(s, t, f);
    SameIterator(s, t, f);
  }

  /** The iterator is gone and l' is what it left behind. */
  lemma LeavingContext(s: State, t: ThreadId, l': List)
    requires Inv(s) && StackOf(s, t).Frames? && StackOf(s, t).top.Iterating?
    requires StackOf(s, t).top.ctx in s.heap
    requires var l := s.heap[StackOf(s, t).top.ctx].list;
             && l'.depth == l.depth - 1 && Distinct(l'.slots)
             && (forall x: Observer :: Some(x) in l'.slots <==> Some(x) in l.slots)
             && (NoneLeft(l.slots) ==> NoneLeft(l'.slots))
             && (if l'.depth == 0 then NoNulls(l'.slots) else l'.slots == l.slots)
    ensures var c := StackOf(s, t).top.ctx;
            ThreadOk(Goto(SetList(s, c, l'), t, Iterated(c)), t)
  {
    var c := StackOf(s, t).top.ctx;
    var s' := Goto(SetList(s, c, l'), t, Iterated(c));
    assert ThreadOk(s, t) && ContextOk(s, c);
    NoNullsSettled(l');
    PointsFrame(s.heap, s'.heap, t, StackOf(s, t).below);
    assert FramesOk(s', t);
    assert ContextOk(s', c);
    OneContextSame(s, s', t, c);
  }

  lemma LeavingKeeps(s: State, t: ThreadId)
    requires Inv(s) && StackOf(s, t).Frames? && StackOf(s, t).top.Iterating?
    requires !ContinueStep(s, t).fault && StackOf(ContinueStep(s, t), t).top.Iterated?
    ensures ThreadOk(ContinueStep(s, t), t)
  {
    var c := StackOf(s, t).top.ctx;
    assert ThreadOk(s, t) && ContextOk(s, c);
    LeftHas(s.heap[c].list);
    LeavingContext(s, t, Left(s.heap[c].list));
  }

  lemma EmptyFrame(s: State, s': State, t: ThreadId, f: Frame)
    requires ThreadOk(s, t) && StackOf(s, t).Frames? && f.ctx == StackOf(s, t).top.ctx
    requires if f.Unmapped? then StackOf(s, t).top.FoundEmpty? else StackOf(s, t).top.Iterated? && f.FoundEmpty?
    requires |s.heap[f.ctx].list.slots| == 0
    requires s' == Goto(if f.Unmapped? && Mapped(s, f.ctx) then Unmap(s, t) else s, t, f)
    ensures ThreadOk(s', t)
  {
    var c := f.ctx;
    assert ContextOk(s, c);
    assert FramesOk(s', t);
    OneContextSame(s, s', t, c);
  }

  lemma EmptyKeeps(s: State, t: ThreadId)
    requires Inv(s) && StackOf(s, t).Frames?
    requires StackOf(s, t).top.FoundEmpty?
          || (StackOf(s, t).top.Iterated? && StackOf(s, t).top.ctx in s.heap
              && s.heap[StackOf(s, t).top.ctx].list.slots == [])
    ensures ThreadOk(ContinueStep(s, t), t)
  {
    var c := StackOf(s, t).top.ctx;
    assert ThreadOk(s, t) && ContextOk(s, c);
    hide Goto, Unmap, ThreadOk;
    EmptyFrame(s, ContinueStep(s, t), t, if StackOf(s, t).top.FoundEmpty? then Unmapped(c) else FoundEmpty(c));
  }

  lemma ContinueKeeps(s: State, t: ThreadId)
    requires Inv(s) && StackOf(s, t).Frames?
    ensures var s' := ContinueStep(s, t); !s'.fault && OnlyThread(s, s', t) && ThreadOk(s', t)
  {
    var f := StackOf(s, t).top;
    assert ThreadOk(s, t) && ContextOk(s, f.ctx);
    ContinueOnly(s, t);
    match f
    case AddLocked(_, _) => AddLockedKeeps(s, t);
    case RemoveLocked(_, _) => RemoveLockedKeeps(s, t);
    case Checked(_) => CheckedKeeps(s, t);
    case Calling(_, _, _) => CalledKeeps(s, t);
    case Iterating(_, _) =>
      if StackOf(ContinueStep(s, t), t).top.Iterated? {
        LeavingKeeps(s, t);
      } else {
        CalledKeeps(s, t);
      }
    case FoundEmpty(_) => EmptyKeeps(s, t);
    case Unmapped(_) => FreeKeeps(s, t);
    case RemoveDone(_) =>
      if s.heap[f.ctx].list.slots == [] {
        FreeKeeps(s, t);
      } else {
        PopKeeps(s, t);
      }
    case Iterated(_) =>
      if s.heap[f.ctx].list.slots == [] {
        EmptyKeeps(s, t);
      } else {
        PopKeeps(s, t);
      }
  }

  // ---------------------------------------------------------------- the tasks and the destructor

  /** What Notify posts: a task for every context in the map, none of which is missing. */
  lemma NotifyPosts(s: State)
    requires forall t :: t in s.contexts ==> s.contexts[t] in s.heap
    ensures NotifyStep(s) == s.(tasks := NotifyStep(s).tasks)
    ensures forall t :: t in s.contexts ==>
              Task(s.heap[s.contexts[t]].owner, s.contexts[t], s.heap[s.contexts[t]].serial) in NotifyStep(s).tasks
    ensures forall task :: task in NotifyStep(s).tasks ==>
              task in s.tasks || (task.ctx in s.heap && task.serial == s.heap[task.ctx].serial)
  {
    var posted := set t | t in s.contexts ::
      Task(s.heap[s.contexts[t]].owner, s.contexts[t], s.heap[s.contexts[t]].serial);
    assert forall task :: task in NotifyStep(s).tasks <==> task in s.tasks || task in posted;
  }

  lemma NotifyKeeps(s: State)
    requires Inv(s)
    ensures Inv(NotifyStep(s))
    ensures forall t :: t in s.contexts ==>
              Task(t, s.contexts[t], s.heap[s.contexts[t]].serial) in NotifyStep(s).tasks
  {
    hide NotifyStep;
    forall t | t in s.contexts
      ensures s.contexts[t] in s.heap && s.heap[s.contexts[t]].owner == t
    {
      assert ThreadOk(s, t);
    }
    NotifyPosts(s);
    forall t
      ensures ThreadOk(NotifyStep(s), t)
    {
      SameState(s, NotifyStep(s), t);
    }
    hide ThreadOk;
  }

  /** What is no concern of a thread: the tasks. */
  lemma SameState(s: State, s': State, t: ThreadId)
    requires ThreadOk(s, t)
    requires s'.heap == s.heap && s'.contexts == s.contexts && s'.stacks == s.stacks && s'.registered == s.registered
    ensures ThreadOk(s', t)
  {
    forall c | c in s.heap && s.heap[c].owner == t
      ensures ContextOk(s', c)
    {
      assert ContextOk(s, c);
    }
    SameRegistration(s, s', t);
  }

  /** A task that passes the check: NotifyWrapper starts on the context of its thread. */
  lemma PassedKeeps(s: State, s': State, t: ThreadId)
    requires ThreadOk(s, t) && MayCall(s, t) && t in s.contexts
    requires s' == Push(s, t, Checked(s.contexts[t]))
    ensures OnlyThread(s, s', t) && ThreadOk(s', t)
  {
    assert ContextOk(s, s.contexts[t]);
    assert FramesOk(s', t);
    forall c | c in s.heap && s.heap[c].owner == t
      ensures ContextOk(s', c)
    {
      assert ContextOk(s, c);
    }
    SameRegistration(s, s', t);
  }

  lemma DeliverKeeps(s: State, task: Task, u: ThreadId)
    requires Inv(s) && Enabled(s, Deliver(task))
    ensures ThreadOk(DeliverStep(s, task), u)
  {
    var t := task.thread;
    var s1 := s.(tasks := s.tasks - multiset{task});
    SameState(s, s1, t);
    SameState(s, s1, u);
    if t in s.contexts && s.contexts[t] == task.ctx {
      PassedKeeps(s1, DeliverStep(s, task), t);
      if u != t {
        OtherThreads(s1, DeliverStep(s, task), t, u);
      }
    }
  }

  lemma QuietSerials(s: State, s': State)
    requires SerialsOk(s) && Quiet(s, s')
    ensures SerialsOk(s')
  {
  }

  lemma SerialsKept(s: State, e: Event)
    requires Inv(s) && Enabled(s, e) && !e.Notify? && !e.Destruct?
    ensures SerialsOk(Step(s, e))
  {
    hide ContinueStep, AddStep, RemoveStep, DeliverStep, SerialsOk, Quiet, ThreadOk;
    if e.AddObserver? {
      AddSerials(s, e.t, e.o, e.at);
    } else if e.Continue? {
      ContinueQuiet(s, e.t);
      QuietSerials(s, Step(s, e));
    } else if e.RemoveObserver? {
      RemoveSerials(s, e.t, e.o);
    } else if e.Deliver? {
      DeliverSerials(s, e.task);
    } else {
      FewerTasks(s, Step(s, e));
    }
  }

  lemma RemoveSerials(s: State, t: ThreadId, o: Observer)
    requires SerialsOk(s)
    ensures SerialsOk(RemoveStep(s, t, o))
  {
    hide SerialsOk, Push, Unmap, IsLast;
    if t !in s.contexts {
      FewerTasks(s, RemoveStep(s, t, o));
    } else if s.contexts[t] !in s.heap {
      FewerTasks(s, RemoveStep(s, t, o));
    } else {
      FewerTasks(s, RemoveStep(s, t, o));
    }
  }

  lemma DeliverSerials(s: State, task: Task)
    requires SerialsOk(s)
    ensures SerialsOk(DeliverStep(s, task))
  {
    hide SerialsOk, Push;
    FewerTasks(s, DeliverStep(s, task));
  }

  lemma FewerTasks(s: State, s': State)
    requires SerialsOk(s) && s'.heap == s.heap && s'.born == s.born && s'.reused == s.reused
    requires forall task :: task in s'.tasks ==> task in s.tasks
    ensures SerialsOk(s')
  {
  }

  lemma AddSerials(s: State, t: ThreadId, o: Observer, at: Address)
    requires SerialsOk(s)
    ensures SerialsOk(AddStep(s, t, o, at))
  {
    hide Push, SerialsOk;
    var s' := AddStep(s, t, o, at);
    if t !in s.loops {
    } else if t in s.contexts {
      FewerTasks(s, s');
    } else {
      NewSerial(s, s', at, ListContext(t, List([], 0, s.kind), s.serials));
    }
  }

  lemma NewSerial(s: State, s': State, at: Address, made: ListContext)
    requires SerialsOk(s) && s'.tasks == s.tasks && made.serial == s.serials
    requires s'.heap == s.heap[at := made] && s'.born == s.born[at := s.serials]
    requires s'.reused == (s.reused || at in s.born)
    ensures SerialsOk(s')
  {
  }

  /** The thread a call or a step is made on, and what it leaves of that thread. */
  lemma CallerKeeps(s: State, e: Event)
    requires Inv(s) && Enabled(s, e) && (e.AddObserver? || e.RemoveObserver? || e.Continue?)
    ensures !Step(s, e).fault && OnlyThread(s, Step(s, e), e.t) && ThreadOk(Step(s, e), e.t)
  {
    match e
    case AddObserver(t, o, at) => AddKeeps(s, t, o, at);
    case RemoveObserver(t, o) => RemoveKeeps(s, t, o);
    case Continue(t) => ContinueKeeps(s, t);
  }

  lemma StepKeeps(s: State, e: Event)
    requires Inv(s) && Enabled(s, e) && !e.Destruct?
    ensures Inv(Step(s, e))
  {
    var s' := Step(s, e);
    if e.Notify? {
      NotifyKeeps(s);
    } else {
      SerialsKept(s, e);
      if e.AddObserver? || e.RemoveObserver? || e.Continue? {
        CallerKeeps(s, e);
      }
      forall u
        ensures ThreadOk(s', u)
      {
        if e.Deliver? {
          DeliverKeeps(s, e.task, u);
        } else if e.Drop? {
          SameState(s, s', u);
        } else if u != e.t {
          OtherThreads(s, s', e.t, u);
        }
      }
    }
  }

  lemma StepGoesOn(s: State, e: Event)
    requires Inv(s) && Enabled(s, e) && !e.Destruct?
    ensures !Step(s, e).destroyed
  {
    if e.Continue? {
      ContinueQuiet(s, e.t);
    }
  }

  /** With nothing running, every context is in the map: the destructor frees all of them. */
  lemma DestructFreesAll(s: State)
    requires Inv(s) && Enabled(s, Destruct)
    ensures !Step(s, Destruct).fault && Step(s, Destruct).heap == map[] && Step(s, Destruct).destroyed
  {
    forall t | t in s.contexts
      ensures s.contexts[t] in s.heap
    {
      assert ThreadOk(s, t);
    }
    forall c | c in s.heap
      ensures c in s.contexts.Values
    {
      assert ThreadOk(s, s.heap[c].owner) && ContextOk(s, c);
    }
  }
}
