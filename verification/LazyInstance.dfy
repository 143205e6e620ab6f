/**
 lazy_instance.h and lazy_instance.cc: threads that call Pointer() at the same time, interleaved at
 their accesses to the shared word, and the OnExit that runs when no thread is inside.
 */
module LazyInstances {
  import opened Optional

  type Word = bv64
  type Thread = nat

  const CREATING: Word := 1

  /** The fast-path test: some bit of the created mask is set. */
  predicate Created(value: Word) { value & !CREATING != 0 }

  /** The test is true of exactly the words that are neither of the two states, 0 and 1. */
  lemma MaskSound(value: Word)
    ensures Created(value) <==> value != 0 && value != CREATING
    ensures CREATING == 1
  {
    assert value & !CREATING == 0 <==> value == 0 || value == CREATING;
  }

  /** Where a thread stands between two accesses to the shared word. */
  datatype Place =
    | Outside
    | BeforeSwap
    | Spinning
    | BeforeNew
    | BeforeStore(instance: Word)
    | BeforeRegister
    | BeforeReturn

  /** What can be seen from outside: construction, registration, returned pointers, destruction. */
  datatype Effect =
    | Constructed(instance: Word)
    | Registered
    | Returned(thread: Thread, instance: Word)
    | Destroyed(instance: Word)

  /** leaky is the negation of kRegisterOnExit, which Leaky instances have false. */
  datatype State = State(leaky: bool, word: Word, places: map<Thread, Place>, registered: bool, effects: seq<Effect>)

  function Initial(leaky: bool): State { State(leaky, 0, map[], false, []) }

  function At(s: State, t: Thread): Place { if t in s.places then s.places[t] else Outside }

  function Moved(s: State, t: Thread, place: Place): State { s.(places := s.places[t := place]) }

  function Did(s: State, effect: Effect): State { s.(effects := s.effects + [effect]) }

  /**
   Load: the acquire load on entry; Swap: the compare-and-swap; Spin: one load of the loop;
   New: Traits::New, which may give any pointer; Store, Register: CompleteLazyInstance;
   Return: the load in instance(); Exit: OnExit.
   */
  datatype Event =
    | Load(thread: Thread)
    | Swap(thread: Thread)
    | Spin(thread: Thread)
    | New(thread: Thread, instance: Word)
    | Store(thread: Thread)
    | Register(thread: Thread)
    | Return(thread: Thread)
    | Exit

  predicate Enabled(s: State, e: Event)
  {
    match e
    case Load(t) => At(s, t) == Outside
    case Swap(t) => At(s, t) == BeforeSwap
    case Spin(t) => At(s, t) == Spinning
    case New(t, _) => At(s, t) == BeforeNew
    case Store(t) => At(s, t).BeforeStore?
    case Register(t) => At(s, t) == BeforeRegister
    case Return(t) => At(s, t) == BeforeReturn
    case Exit => s.registered && forall t :: t in s.places ==> s.places[t] == Outside
  }

  function Step(s: State, e: Event): State
    requires Enabled(s, e)
  {
    match e
    case Load(t) => Moved(s, t, if Created(s.word) then BeforeReturn else BeforeSwap)
    case Swap(t) => if s.word == 0 then Moved(s.(word := CREATING), t, BeforeNew) else Moved(s, t, Spinning)
    case Spin(t) => if s.word == CREATING then s else Moved(s, t, BeforeReturn)
    case New(t, p) => Did(Moved(s, t, BeforeStore(p)), Constructed(p))
    case Store(t) => Moved(s.(word := At(s, t).instance), t, BeforeRegister)
    case Register(t) =>
      if s.leaky then Moved(s, t, BeforeReturn) else Did(Moved(s.(registered := true), t, BeforeReturn), Registered)
    case Return(t) => Did(Moved(s, t, Outside), Returned(t, s.word))
    case Exit => Did(s.(word := 0, registered := false), Destroyed(s.word))
  }

  predicate IsRun(s: State, events: seq<Event>)
    decreases |events|
  {
    events == [] || (Enabled(s, events[0]) && IsRun(Step(s, events[0]), events[1..]))
  }

  function Final(s: State, events: seq<Event>): State
    requires IsRun(s, events)
    decreases |events|
  {
    if events == [] then s else Final(Step(s, events[0]), events[1..])
  }

  /** Whether New returned an address that an object can have. */
  predicate RealPointers(events: seq<Event>)
  {
    forall e :: e in events && e.New? ==> e.instance != 0 && e.instance != CREATING
  }

  // ---------------------------------------------------------------- what the effects may be

  /** The instance that exists, and whether its destruction is registered. */
  datatype Life = Absent | Alive(instance: Word, registered: bool)

  /** An effect that may follow, and the life after it. */
  function Lived(life: Life, e: Effect): Option<Life>
  {
    match e
    case Constructed(p) => if life == Absent then Some(Alive(p, false)) else None
    case Registered => if life.Alive? && !life.registered then Some(life.(registered := true)) else None
    case Returned(_, p) => if life.Alive? && p == life.instance then Some(life) else None
    case Destroyed(p) => if life == Alive(p, true) then Some(Absent) else None
  }

  /**
   The life after all effects, if they are proper: nothing is constructed while an instance exists,
   it is registered once, only its address is returned, and just it is destroyed, once registered.
   */
  function LifeAfter(effects: seq<Effect>): Option<Life>
  {
    if effects == [] then Some(Absent)
    else
      var before := LifeAfter(effects[..|effects| - 1]);
      if before.None? then None else Lived(before.value, effects[|effects| - 1])
  }

  lemma OneMoreEffect(effects: seq<Effect>, e: Effect)
    ensures LifeAfter(effects + [e])
         == if LifeAfter(effects).None? then None else Lived(LifeAfter(effects).value, e)
  {
    assert (effects + [e])[..|effects|] == effects;
  }

  // ---------------------------------------------------------------- the invariant

  predicate IsCreator(place: Place) { place == BeforeNew || place.BeforeStore? }

  predicate IsInside(place: Place) { place == BeforeRegister || place == BeforeReturn }

  /** How the word, the places of the threads and the life of the instance go together. */
  ghost predicate Consistent(s: State, creator: Thread)
  {
    var life := LifeAfter(s.effects);
    && life.Some?
    && (s.registered <==> life.value.Alive? && life.value.registered)
    && (forall t :: IsCreator(At(s, t)) ==> s.word == CREATING && t == creator)
    && (s.word == CREATING ==> IsCreator(At(s, creator)) && !s.registered)
    && (s.word == 0 ==> life.value == Absent && forall t :: At(s, t) != Spinning)
    && (s.word == CREATING && At(s, creator) == BeforeNew ==> life.value == Absent)
    && (s.word == CREATING && At(s, creator).BeforeStore? ==>
          life.value == Alive(At(s, creator).instance, false)
          && At(s, creator).instance != 0 && At(s, creator).instance != CREATING)
    && (forall t :: IsInside(At(s, t)) ==> s.word != 0 && s.word != CREATING)
    && (s.word != 0 && s.word != CREATING ==> life.value.Alive? && life.value.instance == s.word)
    && (forall t :: At(s, t) == BeforeRegister ==> t == creator && !s.registered)
    && (s.word != 0 && s.word != CREATING && !s.registered && !s.leaky ==> At(s, creator) == BeforeRegister)
    && (s.leaky ==> !s.registered)
  }

  /** The thread that is creating the instance after an event. */
  function CreatorAfter(s: State, e: Event, creator: Thread): Thread
  {
    if e.Swap? && s.word == 0 then e.thread else creator
  }

  /** Moving one thread leaves the others where they are. */
  lemma OthersStay(s: State, e: Event)
    requires Enabled(s, e)
    ensures forall t :: (e.Exit? || t != e.thread) ==> At(Step(s, e), t) == At(s, t)
  {
    hide Created;
  }

  lemma SilentStepConsistent(s: State, e: Event, creator: Thread)
    requires Consistent(s, creator) && Enabled(s, e) && (e.Load? || e.Swap? || e.Spin? || e.Store?)
    ensures Consistent(Step(s, e), CreatorAfter(s, e, creator))
  {
    hide Created, LifeAfter;
    MaskSound(s.word);
    OthersStay(s, e);
  }

  lemma NewConsistent(s: State, t: Thread, p: Word, creator: Thread)
    requires Consistent(s, creator) && Enabled(s, New(t, p)) && p != 0 && p != CREATING
    ensures Consistent(Step(s, New(t, p)), creator)
  {
    hide Created, LifeAfter;
    OthersStay(s, New(t, p));
    OneMoreEffect(s.effects, Constructed(p));
  }

  lemma RegisterConsistent(s: State, t: Thread, creator: Thread)
    requires Consistent(s, creator) && Enabled(s, Register(t))
    ensures Consistent(Step(s, Register(t)), creator)
  {
    hide Created, LifeAfter;
    OthersStay(s, Register(t));
    OneMoreEffect(s.effects, Registered);
  }

  lemma ReturnConsistent(s: State, e: Event, creator: Thread)
    requires Consistent(s, creator) && Enabled(s, e) && (e.Return? || e.Exit?)
    ensures Consistent(Step(s, e), creator)
  {
    hide Created, LifeAfter;
    OthersStay(s, e);
    OneMoreEffect(s.effects, if e.Exit? then Destroyed(s.word) else Returned(e.thread, s.word));
  }

  lemma StepConsistent(s: State, e: Event, creator: Thread)
    requires Consistent(s, creator) && Enabled(s, e)
    requires e.New? ==> e.instance != 0 && e.instance != CREATING
    ensures Consistent(Step(s, e), CreatorAfter(s, e, creator))
  {
    hide Created, LifeAfter, Consistent, Step, Enabled;
    match e
    case New(t, p) => NewConsistent(s, t, p, creator);
    case Register(t) => RegisterConsistent(s, t, creator);
    case Return(_) => ReturnConsistent(s, e, creator);
    case Exit => ReturnConsistent(s, e, creator);
    case _ => SilentStepConsistent(s, e, creator);
  }

  /**
   In every run in which New gives real addresses, at most one instance exists at a time, every
   call returns its address after it was constructed, and OnExit destroys it and starts over, if
   there is one.
   */
  lemma EveryRunIsProper(leaky: bool, events: seq<Event>)
    requires IsRun(Initial(leaky), events) && RealPointers(events)
    ensures LifeAfter(Final(Initial(leaky), events).effects).Some?
  {
    RunConsistent(Initial(leaky), events, 0);
  }

  /** The word only goes from 0 to creating, from creating to an address, and back to 0 at exit. */
  lemma WordMoves(s: State, e: Event, creator: Thread)
    requires Consistent(s, creator) && Enabled(s, e)
    ensures var word := Step(s, e).word;
            || word == s.word
            || (s.word == 0 && word == CREATING && e.Swap?)
            || (s.word == CREATING && word != 0 && word != CREATING && e == Store(creator))
            || (s.word != 0 && s.word != CREATING && word == 0 && e.Exit?)
  {
    hide Created, LifeAfter;
  }

  predicate NeverEnds(effects: seq<Effect>)
  {
    forall i :: 0 <= i < |effects| ==> effects[i].Constructed? || effects[i].Returned?
  }

  /** A leaky instance is never registered, so OnExit never comes: it is constructed once and for all. */
  lemma LeakyStays(events: seq<Event>)
    requires IsRun(Initial(true), events) && RealPointers(events)
    ensures var effects := Final(Initial(true), events).effects;
            NeverEnds(effects) && forall j :: 0 < j < |effects| ==> !effects[j].Constructed?
  {
    hide IsRun, Final, LifeAfter;
    EveryRunIsProper(true, events);
    LeakyRun(Initial(true), events);
    OnceWithoutEnd(Final(Initial(true), events).effects);
  }

  lemma {:induction false} LeakyRun(s: State, events: seq<Event>)
    requires IsRun(s, events) && s.leaky && !s.registered
    requires NeverEnds(s.effects)
    ensures NeverEnds(Final(s, events).effects)
    decreases |events|
  {
    hide NeverEnds;
    if events != [] {
      LeakyStep(s, events[0]);
      hide Step, Enabled;
      LeakyRun(Step(s, events[0]), events[1..]);
    }
  }

  lemma LeakyStep(s: State, e: Event)
    requires Enabled(s, e) && s.leaky && !s.registered
    requires NeverEnds(s.effects)
    ensures var v := Step(s, e); v.leaky && !v.registered && NeverEnds(v.effects)
  {
    hide Created;
  }

  /** Proper effects without an end have a construction only at their start. */
  lemma {:induction false} OnceWithoutEnd(effects: seq<Effect>)
    requires LifeAfter(effects).Some?
    requires NeverEnds(effects)
    ensures forall j :: 0 < j < |effects| ==> !effects[j].Constructed?
    ensures effects != [] ==> LifeAfter(effects).value.Alive?
  {
    if effects != [] {
      OnceWithoutEnd(effects[..|effects| - 1]);
      assert forall j :: 0 <= j < |effects| - 1 ==> effects[..|effects| - 1][j] == effects[j];
    }
  }

  lemma {:induction false} RunConsistent(s: State, events: seq<Event>, creator: Thread)
    requires IsRun(s, events) && RealPointers(events) && Consistent(s, creator)
    ensures LifeAfter(Final(s, events).effects).Some?
    decreases |events|
  {
    hide Step, LifeAfter, Enabled;
    if events == [] {
      assert Consistent(s, creator);
    } else {
      assert events[0] in events;
      hide Consistent;
      StepConsistent(s, events[0], creator);
      RunConsistent(Step(s, events[0]), events[1..], CreatorAfter(s, events[0], creator));
    }
  }

  // ---------------------------------------------------------------- what proper effects mean

  /** Since the last destruction before position i, or the start. */
  function EpochStart(effects: seq<Effect>, i: nat): (k: nat)
    requires i <= |effects|
    ensures k <= i
    ensures forall j :: k <= j < i ==> !effects[j].Destroyed?
  {
    if i == 0 || effects[i - 1].Destroyed? then i else EpochStart(effects, i - 1)
  }

  /** From position from on, before position to, instance is constructed and nothing else is. */
  ghost predicate OnlyConstruction(effects: seq<Effect>, from: nat, to: nat, instance: Word)
    requires to <= |effects|
  {
    exists j :: from <= j < to && effects[j] == Constructed(instance)
                && forall k :: from <= k < to && effects[k].Constructed? ==> k == j
  }

  ghost predicate NoConstruction(effects: seq<Effect>, from: nat, to: nat)
    requires to <= |effects|
  {
    forall k :: from <= k < to ==> !effects[k].Constructed?
  }

  /** Every returned pointer is that of the one construction since the last destruction. */
  lemma ReturnedIsConstructed(effects: seq<Effect>, i: nat)
    requires i < |effects| && effects[i].Returned? && LifeAfter(effects).Some?
    ensures OnlyConstruction(effects, EpochStart(effects, i), i, effects[i].instance)
  {
    hide LifeAfter, EpochStart, OnlyConstruction, NoConstruction;
    PrefixProper(effects, i + 1);
    OneLessEffect(effects, i + 1);
    EpochConstructs(effects, i);
  }

  /** In a run, two calls that return with no destruction in between return the same pointer. */
  lemma CallsAgree(leaky: bool, events: seq<Event>, i: nat, j: nat)
    requires IsRun(Initial(leaky), events) && RealPointers(events)
    requires var effects := Final(Initial(leaky), events).effects;
             && i < j < |effects| && effects[i].Returned? && effects[j].Returned?
             && forall k :: i < k < j ==> !effects[k].Destroyed?
    ensures var effects := Final(Initial(leaky), events).effects; effects[i].instance == effects[j].instance
  {
    hide IsRun, RealPointers, LifeAfter;
    var effects := Final(Initial(leaky), events).effects;
    hide Final;
    EveryRunIsProper(leaky, events);
    ReturnedIsConstructed(effects, i);
    ReturnedIsConstructed(effects, j);
    SameEpoch(effects, i, j);
    var a :| EpochStart(effects, i) <= a < i && effects[a] == Constructed(effects[i].instance);
    assert effects[a].Constructed?;
  }

  lemma {:induction false} SameEpoch(effects: seq<Effect>, i: nat, j: nat)
    requires i <= j <= |effects| && forall k :: i <= k < j ==> !effects[k].Destroyed?
    ensures EpochStart(effects, j) == EpochStart(effects, i)
    decreases j
  {
    if i < j {
      SameEpoch(effects, i, j - 1);
    }
  }

  lemma {:induction false} PrefixProper(effects: seq<Effect>, i: nat)
    requires i <= |effects| && LifeAfter(effects).Some?
    ensures LifeAfter(effects[..i]).Some?
    decreases |effects|
  {
    if i < |effects| {
      var front := effects[..|effects| - 1];
      PrefixProper(front, i);
      assert front[..i] == effects[..i];
    } else {
      assert effects[..i] == effects;
    }
  }

  /** Within an epoch the instance that exists is the only one that was constructed. */
  lemma {:induction false} EpochConstructs(effects: seq<Effect>, i: nat)
    requires i <= |effects| && LifeAfter(effects[..i]).Some?
    ensures match LifeAfter(effects[..i]).value
            case Absent => NoConstruction(effects, EpochStart(effects, i), i)
            case Alive(p, _) => OnlyConstruction(effects, EpochStart(effects, i), i, p)
    decreases i
  {
    hide LifeAfter, OnlyConstruction, NoConstruction;
    if i == 0 {
      NothingBefore(effects);
    } else {
      OneLessEffect(effects, i);
      EpochConstructs(effects, i - 1);
      var before, k := LifeAfter(effects[..i - 1]).value, EpochStart(effects, i - 1);
      assert EpochStart(effects, i) == if effects[i - 1].Destroyed? then i else k;
      hide EpochStart;
      match effects[i - 1] {
        case Constructed(p) => FirstConstruction(effects, k, i, p);
        case Destroyed(_) => NothingYet(effects, i);
        case _ => NoMoreConstruction(effects, k, i, before.instance);
      }
    }
  }

  lemma NothingBefore(effects: seq<Effect>)
    ensures LifeAfter(effects[..0]) == Some(Absent) && NoConstruction(effects, EpochStart(effects, 0), 0)
  {
  }

  lemma OneLessEffect(effects: seq<Effect>, i: nat)
    requires 0 < i <= |effects| && LifeAfter(effects[..i]).Some?
    ensures LifeAfter(effects[..i - 1]).Some?
    ensures LifeAfter(effects[..i]) == Lived(LifeAfter(effects[..i - 1]).value, effects[i - 1])
  {
    assert effects[..i] == effects[..i - 1] + [effects[i - 1]];
    OneMoreEffect(effects[..i - 1], effects[i - 1]);
  }

  lemma FirstConstruction(effects: seq<Effect>, from: nat, i: nat, p: Word)
    requires from < i <= |effects| && NoConstruction(effects, from, i - 1) && effects[i - 1] == Constructed(p)
    ensures OnlyConstruction(effects, from, i, p)
  {
    assert effects[i - 1] == Constructed(p);
  }

  lemma NothingYet(effects: seq<Effect>, i: nat)
    requires i <= |effects|
    ensures NoConstruction(effects, i, i)
  {
  }

  lemma NoMoreConstruction(effects: seq<Effect>, from: nat, i: nat, p: Word)
    requires from < i <= |effects| && OnlyConstruction(effects, from, i - 1, p) && !effects[i - 1].Constructed?
    ensures OnlyConstruction(effects, from, i, p)
  {
    var j :| from <= j < i - 1 && effects[j] == Constructed(p)
             && forall k :: from <= k < i - 1 && effects[k].Constructed? ==> k == j;
    assert effects[j] == Constructed(p);
  }

  // ---------------------------------------------------------------- calls from their start to their end

  lemma CreatingRun(s: State, t: Thread, p: Word)
    requires s.word == 0 && At(s, t) == Outside
    ensures var events := [Load(t)] + ([Swap(t)] + ([New(t, p)] + []));
            IsRun(s, events) && Final(s, events)
              == State(s.leaky, 1, s.places[t := BeforeStore(p)], s.registered, s.effects + [Constructed(p)])
  {
    MaskSound(0);
    hide Created;
    var s1 := Step(s, Load(t));
    var s2 := Step(s1, Swap(t));
    RunHead(s2, New(t, p), []);
    RunHead(s1, Swap(t), [New(t, p)] + []);
    RunHead(s, Load(t), [Swap(t)] + ([New(t, p)] + []));
    hide IsRun, Final;
    assert s.places[t := BeforeSwap][t := BeforeNew][t := BeforeStore(p)] == s.places[t := BeforeStore(p)];
  }

  lemma CreatedRun(s: State, t: Thread, p: Word)
    requires At(s, t) == BeforeStore(p)
    ensures var events := [Store(t)] + ([Register(t)] + ([Return(t)] + []));
            IsRun(s, events) && Final(s, events)
              == State(s.leaky, p, s.places[t := Outside], s.registered || !s.leaky,
                       s.effects + (if s.leaky then [] else [Registered]) + [Returned(t, p)])
  {
    var s1 := Step(s, Store(t));
    var s2 := Step(s1, Register(t));
    RunHead(s2, Return(t), []);
    RunHead(s1, Register(t), [Return(t)] + []);
    RunHead(s, Store(t), [Register(t)] + ([Return(t)] + []));
    hide IsRun, Final;
    assert s.places[t := BeforeRegister][t := BeforeReturn][t := Outside] == s.places[t := Outside];
  }

  /** The first call constructs the instance, registers its destruction unless it is leaky, and returns it. */
  lemma FirstCall(s: State, t: Thread, p: Word)
    requires s.word == 0 && At(s, t) == Outside
    ensures var events := ([Load(t)] + ([Swap(t)] + ([New(t, p)] + [])))
                          + ([Store(t)] + ([Register(t)] + ([Return(t)] + [])));
            IsRun(s, events) && Final(s, events)
              == State(s.leaky, p, s.places[t := Outside], s.registered || !s.leaky,
                       s.effects + [Constructed(p)] + (if s.leaky then [] else [Registered]) + [Returned(t, p)])
  {
    CreatingRun(s, t, p);
    var first := [Load(t)] + ([Swap(t)] + ([New(t, p)] + []));
    CreatedRun(Final(s, first), t, p);
    RunsJoin(s, first, [Store(t)] + ([Register(t)] + ([Return(t)] + [])));
    hide IsRun, Final, Step, Enabled;
    assert s.places[t := BeforeStore(p)][t := Outside] == s.places[t := Outside];
  }

  /** Once it is there, a call returns it at once. */
  lemma LaterCall(s: State, t: Thread)
    requires s.word != 0 && s.word != 1 && At(s, t) == Outside
    ensures var events := [Load(t)] + ([Return(t)] + []);
            IsRun(s, events) && var after := Final(s, events);
            after == s.(places := after.places, effects := s.effects + [Returned(t, s.word)]) && At(after, t) == Outside
  {
    MaskSound(s.word);
    var s1 := Step(s, Load(t));
    RunHead(s1, Return(t), []);
    RunHead(s, Load(t), [Return(t)] + []);
    hide IsRun, Final;
  }

  /** While it is being constructed, a call waits and does nothing; afterwards it returns it. */
  lemma WaitingCall(s: State, t: Thread)
    requires At(s, t) == (if s.word == 1 then Outside else Spinning) && s.word != 0
    ensures s.word == 1 ==>
              var events := [Load(t)] + ([Swap(t)] + ([Spin(t)] + []));
              IsRun(s, events) && var after := Final(s, events);
              after == s.(places := after.places) && At(after, t) == Spinning
    ensures s.word != 1 ==>
              var events := [Spin(t)] + ([Return(t)] + []);
              IsRun(s, events) && var after := Final(s, events);
              after == s.(places := after.places, effects := s.effects + [Returned(t, s.word)]) && At(after, t) == Outside
  {
    MaskSound(s.word);
    if s.word == 1 {
      var s1 := Step(s, Load(t));
      var s2 := Step(s1, Swap(t));
      RunHead(s2, Spin(t), []);
      RunHead(s1, Swap(t), [Spin(t)] + []);
      RunHead(s, Load(t), [Swap(t)] + ([Spin(t)] + []));
    } else {
      var s1 := Step(s, Spin(t));
      RunHead(s1, Return(t), []);
      RunHead(s, Spin(t), [Return(t)] + []);
    }
    hide IsRun, Final;
  }

  /** OnExit destroys the instance and leaves the word as it was at first. */
  lemma ExitDestroys(s: State)
    requires Enabled(s, Exit)
    ensures Step(s, Exit) == State(s.leaky, 0, s.places, false, s.effects + [Destroyed(s.word)])
  {
  }

  // ---------------------------------------------------------------- why the address must be real

  /** If New could give 0, a second thread would construct again. */
  lemma NullConstructsTwice()
    ensures var events := [Load(0), Swap(0), New(0, 0), Store(0)] + [Load(1), Swap(1), New(1, 0)];
            IsRun(Initial(false), events) && LifeAfter(Final(Initial(false), events).effects) == None
  {
    hide Step, Enabled, IsRun, Final;
    FirstThread();
    SecondThread();
    RunsJoin(Initial(false), [Load(0), Swap(0), New(0, 0), Store(0)], [Load(1), Swap(1), New(1, 0)]);
    OneMoreEffect([Constructed(0)], Constructed(0));
    OneMoreEffect([], Constructed(0));
    assert [] + [Constructed(0)] == [Constructed(0)];
  }

  /** Thread 0 about to swap, to construct, to store the 0 it constructed, and to register it. */
  const SWAPPING := State(false, 0, map[0 := BeforeSwap], false, [])
  const CONSTRUCTING := State(false, CREATING, map[0 := BeforeNew], false, [])
  const STORING := State(false, CREATING, map[0 := BeforeStore(0)], false, [Constructed(0)])
  const STORED := State(false, 0, map[0 := BeforeRegister], false, [Constructed(0)])

  lemma FirstSteps()
    ensures Enabled(Initial(false), Load(0)) && Step(Initial(false), Load(0)) == SWAPPING
    ensures Enabled(SWAPPING, Swap(0)) && Step(SWAPPING, Swap(0)) == CONSTRUCTING
    ensures Enabled(CONSTRUCTING, New(0, 0)) && Step(CONSTRUCTING, New(0, 0)) == STORING
    ensures Enabled(STORING, Store(0)) && Step(STORING, Store(0)) == STORED
  {
    MaskSound(0);
    hide Created;
  }

  lemma FirstThread()
    ensures IsRun(Initial(false), [Load(0), Swap(0), New(0, 0), Store(0)])
    ensures Final(Initial(false), [Load(0), Swap(0), New(0, 0), Store(0)]) == STORED
  {
    hide Step, Enabled, IsRun, Final;
    FirstSteps();
    RunStops(STORED);
    assert [Store(0)] + [] == [Store(0)] && [New(0, 0)] + [Store(0)] == [New(0, 0), Store(0)];
    assert [Swap(0)] + [New(0, 0), Store(0)] == [Swap(0), New(0, 0), Store(0)];
    assert [Load(0)] + [Swap(0), New(0, 0), Store(0)] == [Load(0), Swap(0), New(0, 0), Store(0)];
    RunHead(STORING, Store(0), []);
    RunHead(CONSTRUCTING, New(0, 0), [Store(0)]);
    RunHead(SWAPPING, Swap(0), [New(0, 0), Store(0)]);
    RunHead(Initial(false), Load(0), [Swap(0), New(0, 0), Store(0)]);
  }

  lemma SecondThread()
    ensures IsRun(STORED, [Load(1), Swap(1), New(1, 0)])
    ensures Final(STORED, [Load(1), Swap(1), New(1, 0)]).effects == [Constructed(0)] + [Constructed(0)]
  {
    MaskSound(0);
    hide LifeAfter, Created, IsRun, Final;
    var s1 := Step(STORED, Load(1));
    var s2 := Step(s1, Swap(1));
    var s3 := Step(s2, New(1, 0));
    assert s3.effects == [Constructed(0)] + [Constructed(0)];
    hide Step, Enabled;
    RunStops(s3);
    assert [New(1, 0)] + [] == [New(1, 0)] && [Swap(1)] + [New(1, 0)] == [Swap(1), New(1, 0)];
    assert [Load(1)] + [Swap(1), New(1, 0)] == [Load(1), Swap(1), New(1, 0)];
    RunHead(s2, New(1, 0), []);
    RunHead(s1, Swap(1), [New(1, 0)]);
    RunHead(STORED, Load(1), [Swap(1), New(1, 0)]);
  }

  lemma RunStops(s: State)
    ensures IsRun(s, []) && Final(s, []) == s
  {
  }

  lemma RunHead(s: State, e: Event, rest: seq<Event>)
    requires Enabled(s, e) && IsRun(Step(s, e), rest)
    ensures IsRun(s, [e] + rest) && Final(s, [e] + rest) == Final(Step(s, e), rest)
  {
    assert ([e] + rest)[1..] == rest;
  }

  lemma {:induction false} RunsJoin(s: State, a: seq<Event>, b: seq<Event>)
    requires IsRun(s, a) && IsRun(Final(s, a), b)
    ensures IsRun(s, a + b) && Final(s, a + b) == Final(Final(s, a), b)
    decreases |a|
  {
    hide Step, Enabled;
    if a == [] {
      assert a + b == b;
    } else {
      RunsJoin(Step(s, a[0]), a[1..], b);
      assert (a + b)[1..] == a[1..] + b;
    }
  }
}
