/**
 The list of observers of observer_list.h, its slot vector and its iterators.

 The vector operations are functions on slot sequences; the class applies them in place, and the
 state machine at the end runs them in any order, with any number of iterators alive at once.
 */
module ObserverLists {
  import opened Optional
  import opened Sequences

  // An ObserverType* other than NULL; a nulled slot is None.
  type Observer = nat
  type Slot = Option<Observer>

  datatype NotificationType = NotifyAll | NotifyExistingOnly

  const SIZE_MAX: nat := 0xFFFF_FFFF_FFFF_FFFF

  // ---------------------------------------------------------------- slot vectors

  /** The observers in a slot vector, in slot order. */
  function Present(slots: seq<Slot>): (r: seq<Observer>)
    ensures |r| <= |slots|
  {
    if slots == [] then [] else Contents(slots[0]) + Present(slots[1..])
  }

  function Contents(slot: Slot): (r: seq<Observer>)
    ensures |r| <= 1
  {
    if slot.Some? then [slot.value] else []
  }

  function Filled(observers: seq<Observer>): (slots: seq<Slot>)
    ensures |slots| == |observers|
  {
    seq(|observers|, i requires 0 <= i < |observers| => Some(observers[i]))
  }

  function AllNulled(slots: seq<Slot>): (r: seq<Slot>)
    ensures |r| == |slots|
  {
    seq(|slots|, _ => None)
  }

  predicate Distinct(slots: seq<Slot>)
  {
    forall i, j :: 0 <= i < j < |slots| && slots[i].Some? ==> slots[i] != slots[j]
  }

  predicate NoneLeft(slots: seq<Slot>)
  {
    forall i :: 0 <= i < |slots| ==> slots[i] == None
  }

  predicate NoNulls(slots: seq<Slot>)
  {
    None !in slots
  }

  /** The first index at which std::find stops: that of the slot holding o, or the size. */
  function Find(slots: seq<Slot>, o: Observer): (i: nat)
    ensures i <= |slots|
    ensures i < |slots| ==> slots[i] == Some(o)
    ensures forall k :: 0 <= k < i ==> slots[k] != Some(o)
  {
    if slots == [] || slots[0] == Some(o) then 0 else 1 + Find(slots[1..], o)
  }

  datatype List = List(slots: seq<Slot>, depth: nat, kind: NotificationType)

  function Added(l: List, o: Observer): (r: List)
  {
    if Some(o) in l.slots then l else l.(slots := l.slots + [Some(o)])
  }

  function Removed(l: List, o: Observer): (r: List)
  {
    var i := Find(l.slots, o);
    if i == |l.slots| then l
    else if l.depth > 0 then l.(slots := l.slots[i := None])
    else l.(slots := l.slots[..i] + l.slots[i + 1..])
  }

  function Cleared(l: List): (r: List)
  {
    if l.depth > 0 then l.(slots := AllNulled(l.slots)) else l.(slots := [])
  }

  function Compacted(l: List): (r: List)
  {
    l.(slots := Filled(Present(l.slots)))
  }

  function Entered(l: List): (r: List)
  {
    l.(depth := l.depth + 1)
  }

  /** The end of an iterator: the last one to go compacts the vector. */
  function Left(l: List): (r: List)
    requires l.depth > 0
  {
    var l' := l.(depth := l.depth - 1);
    if l'.depth == 0 then Compacted(l') else l'
  }

  datatype Cursor = Cursor(index: nat, maxIndex: nat)

  function Opened(l: List): (c: Cursor)
  {
    Cursor(0, if l.kind.NotifyAll? then SIZE_MAX else |l.slots|)
  }

  function Min(a: nat, b: nat): nat { if a < b then a else b }

  /** The first index from i on that is at least max or holds an observer. */
  function SkipNulls(slots: seq<Slot>, i: nat, max: nat): (j: nat)
    requires max <= |slots|
    ensures i <= j && (j < max ==> slots[j].Some?) && (j > i ==> j <= max)
    ensures forall k :: i <= k < j ==> slots[k] == None
    decreases max - i
  {
    if i < max && slots[i] == None then SkipNulls(slots, i + 1, max) else i
  }

  /** GetNext on a list that is still alive. */
  function Advanced(slots: seq<Slot>, c: Cursor): (r: (Option<Observer>, Cursor))
  {
    var max := Min(c.maxIndex, |slots|);
    var j := SkipNulls(slots, c.index, max);
    if j < max then (slots[j], c.(index := j + 1)) else (None, c.(index := j))
  }

  /** The observers an iterator has still to come to. */
  function Ahead(slots: seq<Slot>, c: Cursor): (r: seq<Observer>)
  {
    var max := Min(c.maxIndex, |slots|);
    if c.index <= max then Present(slots[c.index..max]) else []
  }

  // ---------------------------------------------------------------- lemmas about slot vectors

  lemma {:induction false} PresentConcat(a: seq<Slot>, b: seq<Slot>)
    ensures Present(a + b) == Present(a) + Present(b)
  {
    if a == [] {
      ConcatEmpty(b);
    } else {
      PresentConcat(a[1..], b);
      ConcatTail(a, b);
      ConcatAssoc(Contents(a[0]), Present(a[1..]), Present(b));
    }
  }

  lemma {:induction false} PresentHas(slots: seq<Slot>, o: Observer)
    ensures o in Present(slots) <==> Some(o) in slots
  {
    if slots != [] {
      PresentHas(slots[1..], o);
      assert slots == [slots[0]] + slots[1..];
    }
  }

  lemma {:induction false} PresentDistinct(slots: seq<Slot>)
    requires Distinct(slots)
    ensures NoRepeats<Observer>(Present(slots))
  {
    if slots != [] {
      PresentDistinct(slots[1..]);
      if slots[0].Some? {
        PresentHas(slots[1..], slots[0].value);
      }
    }
  }

  lemma {:induction false} PresentFilled(observers: seq<Observer>)
    ensures Present(Filled(observers)) == observers
  {
    if observers != [] {
      assert Filled(observers)[1..] == Filled(observers[1..]);
      PresentFilled(observers[1..]);
    }
  }

  lemma {:induction false} PresentAllNulled(slots: seq<Slot>)
    requires NoneLeft(slots)
    ensures Present(slots) == []
  {
    if slots != [] {
      PresentAllNulled(slots[1..]);
    }
  }

  lemma {:induction false} NoNullsFilled(slots: seq<Slot>)
    requires NoNulls(slots)
    ensures Filled(Present(slots)) == slots
  {
    if slots != [] {
      assert slots == [slots[0]] + slots[1..];
      NoNullsFilled(slots[1..]);
    }
  }

  lemma PresentBetween(before: seq<Slot>, slot: Slot, after: seq<Slot>)
    ensures Present(before + [slot] + after) == Present(before) + Contents(slot) + Present(after)
  {
    assert Present([slot]) == Contents(slot);
    PresentConcat(before, [slot]);
    PresentConcat(before + [slot], after);
  }

  /** o is struck out between stretches that do not hold it. */
  lemma {:induction false} WithoutBetween(before: seq<Observer>, o: Observer, after: seq<Observer>)
    requires o !in before && o !in after
    ensures Without(before + [o] + after, {o}) == before + after
  {
    assert Without([o], {o}) == [];
    WithoutConcat(before, [o], {o});
    WithoutConcat(before + [o], after, {o});
    WithoutNone(before, {o});
    WithoutNone(after, {o});
  }

  /** The slot of o between two stretches without o: emptied, nulled or erased, the rest stays. */
  lemma StruckOut(before: seq<Slot>, after: seq<Slot>, o: Observer)
    requires Some(o) !in before && Some(o) !in after
    ensures Without(Present(before + [Some(o)] + after), {o}) == Present(before) + Present(after)
    ensures Present(before + [None] + after) == Present(before) + Present(after)
    ensures Present(before + after) == Present(before) + Present(after)
  {
    hide Present, Without;
    PresentBetween(before, Some(o), after);
    PresentBetween(before, None, after);
    PresentConcat(before, after);
    PresentHas(before, o);
    PresentHas(after, o);
    WithoutBetween(Present(before), o, Present(after));
    ConcatEmpty(Present(before));
  }

  /** Nulling o at the one slot that holds it strikes o out of every stretch of the vector. */
  lemma NulledStretch(slots: seq<Slot>, o: Observer, lo: nat, hi: nat)
    requires Distinct(slots) && lo <= hi <= |slots| && Find(slots, o) < |slots|
    ensures Present(slots[Find(slots, o) := None][lo..hi]) == Without(Present(slots[lo..hi]), {o})
  {
    hide Present, Without, Find;
    var i := Find(slots, o);
    var nulled := slots[i := None];
    if lo <= i < hi {
      var before, after := slots[lo..i], slots[i + 1..hi];
      StruckOut(before, after, o);
      assert slots[lo..hi] == before + [Some(o)] + after;
      assert nulled[lo..hi] == before + [None] + after;
    } else {
      assert nulled[lo..hi] == slots[lo..hi];
      PresentHas(slots[lo..hi], o);
      WithoutNone(Present(slots[lo..hi]), {o});
    }
  }

  /** Removal strikes o out of the observers present, whether it nulls the slot or erases it. */
  lemma RemovedPresent(l: List, o: Observer)
    requires Distinct(l.slots)
    ensures Present(Removed(l, o).slots) == Without(Present(l.slots), {o})
  {
    hide Present, Without, Find;
    var i := Find(l.slots, o);
    if i == |l.slots| {
      PresentHas(l.slots, o);
      WithoutNone(Present(l.slots), {o});
    } else {
      var before, after := l.slots[..i], l.slots[i + 1..];
      StruckOut(before, after, o);
      assert l.slots == before + [Some(o)] + after;
      assert l.slots[i := None] == before + [None] + after;
    }
  }

  lemma RemovedDistinct(l: List, o: Observer)
    requires Distinct(l.slots)
    ensures Distinct(Removed(l, o).slots) && Some(o) !in Removed(l, o).slots
    ensures NoNulls(l.slots) && l.depth == 0 ==> NoNulls(Removed(l, o).slots)
  {
  }

  lemma AppendedDistinct(slots: seq<Slot>, o: Observer)
    requires Distinct(slots) && Some(o) !in slots
    ensures Distinct(slots + [Some(o)])
  {
  }

  lemma AddedPresent(l: List, o: Observer)
    requires Distinct(l.slots)
    ensures Present(Added(l, o).slots)
         == if o in Present(l.slots) then Present(l.slots) else Present(l.slots) + [o]
    ensures Distinct(Added(l, o).slots)
  {
    assert Present([Some(o)]) == [o];
    hide Present, Distinct;
    PresentHas(l.slots, o);
    if Some(o) !in l.slots {
      PresentConcat(l.slots, [Some(o)]);
      AppendedDistinct(l.slots, o);
    }
  }

  lemma CompactedPresent(l: List)
    requires Distinct(l.slots)
    ensures Present(Compacted(l).slots) == Present(l.slots)
    ensures Distinct(Compacted(l).slots) && NoNulls(Compacted(l).slots)
  {
    PresentFilled(Present(l.slots));
    PresentDistinct(l.slots);
  }

  /** GetNext takes the head of what is ahead, and leaves the tail ahead. */
  lemma AdvancedAhead(slots: seq<Slot>, c: Cursor)
    ensures var (o, c') := Advanced(slots, c);
            Ahead(slots, c) == match o case Some(x) => [x] + Ahead(slots, c') case None => []
    ensures Advanced(slots, c).0.None? ==> Ahead(slots, Advanced(slots, c).1) == []
  {
    hide Present, SkipNulls;
    var max := Min(c.maxIndex, |slots|);
    if c.index <= max {
      var j := SkipNulls(slots, c.index, max);
      SkippedAhead(slots, c.index, j, max);
      SkippedAhead(slots, j, j, max);
    }
  }

  /** The stretch from i on, of which everything before j is null. */
  lemma SkippedAhead(slots: seq<Slot>, i: nat, j: nat, max: nat)
    requires i <= j <= max <= |slots| && (j < max ==> slots[j].Some?)
    requires forall k :: i <= k < j ==> slots[k] == None
    ensures Present(slots[i..max])
         == if j < max then [slots[j].value] + Present(slots[j + 1..max]) else []
  {
    hide Present;
    PresentAllNulled(slots[i..j]);
    PresentConcat(slots[i..j], slots[j..max]);
    assert slots[i..max] == slots[i..j] + slots[j..max];
    if j < max {
      PresentFirst(slots[j..max]);
      assert slots[j..max][1..] == slots[j + 1..max];
    } else {
      PresentAllNulled(slots[j..max]);
    }
  }

  lemma PresentFirst(slots: seq<Slot>)
    requires slots != [] && slots[0].Some?
    ensures Present(slots) == [slots[0].value] + Present(slots[1..])
  {
  }

  // ---------------------------------------------------------------- the class and its iterators

  class ObserverList {
    var observers: seq<Slot>
    var notifyDepth: nat
    var alive: bool  // what an iterator's weak pointer sees: false once the list is destroyed
    const kind: NotificationType

    ghost function Model(): (l: List)
      reads this
    {
      List(observers, notifyDepth, kind)
    }

    constructor (kind: NotificationType)
      ensures Model() == List([], 0, kind) && alive
    {
      this.kind := kind;
      observers, notifyDepth, alive := [], 0, true;
    }

    /** The destructor; iterators still on the list see that it is gone. */
    method Destroy()
      requires alive
      modifies `alive
      ensures !alive && Model() == old(Model())
    {
      alive := false;
    }

    method FindSlot(o: Observer) returns (i: nat)
      ensures i == Find(observers, o)
    {
      i := 0;
      while i < |observers| && observers[i] != Some(o)
        invariant i <= |observers|
        invariant Find(observers, o) == i + Find(observers[i..], o)
      {
        assert observers[i..][1..] == observers[i + 1..];
        i := i + 1;
      }
    }

    method HasObserver(o: Observer) returns (found: bool)
      ensures found <==> o in Present(observers)
    {
      PresentHas(observers, o);
      for i := 0 to |observers|
        invariant Some(o) !in observers[..i]
      {
        if observers[i] == Some(o) {
          return true;
        }
      }
      assert observers[..|observers|] == observers;
      return false;
    }

    method AddObserver(o: Observer)
      requires alive && |observers| < SIZE_MAX
      modifies `observers
      ensures Model() == Added(old(Model()), o)
    {
      var i := FindSlot(o);
      if i != |observers| {
        return;
      }
      observers := observers + [Some(o)];
    }

    method RemoveObserver(o: Observer)
      requires alive
      modifies `observers
      ensures Model() == Removed(old(Model()), o)
    {
      var i := FindSlot(o);
      if i != |observers| {
        if notifyDepth != 0 {
          observers := observers[i := None];
        } else {
          observers := observers[..i] + observers[i + 1..];
        }
      }
    }

    method Clear()
      requires alive
      modifies `observers
      ensures Model() == Cleared(old(Model()))
    {
      if notifyDepth != 0 {
        for i := 0 to |observers|
          invariant |observers| == |old(observers)|
          invariant observers[..i] == AllNulled(old(observers))[..i]
        {
          observers := observers[i := None];
        }
        assert observers == observers[..|observers|];
      } else {
        observers := [];
      }
    }

    method Compact()
      requires alive
      modifies `observers
      ensures Model() == Compacted(old(Model()))
    {
      var kept: seq<Slot> := [];
      for i := 0 to |observers|
        invariant observers == old(observers)
        invariant kept == Filled(Present(observers[..i]))
      {
        assert observers[..i + 1] == observers[..i] + [observers[i]];
        PresentConcat(observers[..i], [observers[i]]);
        if observers[i].Some? {
          kept := kept + [observers[i]];
        }
      }
      assert observers[..|observers|] == observers;
      observers := kept;
    }
  }

  class Iterator {
    const list: ObserverList
    var index: nat
    const maxIndex: nat

    ghost function Model(): (c: Cursor)
      reads this
    {
      Cursor(index, maxIndex)
    }

    constructor (list: ObserverList)
      requires list.alive
      modifies list`notifyDepth
      ensures this.list == list
      ensures Model() == Opened(old(list.Model())) && list.Model() == Entered(old(list.Model()))
    {
      this.list := list;
      index := 0;
      maxIndex := if list.kind == NotifyAll then SIZE_MAX else |list.observers|;
      new;
      list.notifyDepth := list.notifyDepth + 1;
    }

    /** The destructor. */
    method End()
      requires list.alive ==> list.notifyDepth > 0
      modifies list
      ensures list.alive == old(list.alive)
      ensures list.Model() == if list.alive then Left(old(list.Model())) else old(list.Model())
    {
      if list.alive {
        list.notifyDepth := list.notifyDepth - 1;
        if list.notifyDepth == 0 {
          list.Compact();
        }
      }
    }

    method GetNext() returns (o: Option<Observer>)
      modifies `index
      ensures (o, Model())
           == if list.alive then Advanced(list.observers, old(Model())) else (None, old(Model()))
    {
      if !list.alive {
        return None;
      }
      var max := Min(maxIndex, |list.observers|);
      while index < max && list.observers[index] == None
        invariant SkipNulls(list.observers, index, max) == SkipNulls(list.observers, old(index), max)
        invariant index < max || index == SkipNulls(list.observers, old(index), max)
        modifies `index
      {
        index := index + 1;
      }
      if index < max {
        o := list.observers[index];
        index := index + 1;
      } else {
        o := None;
      }
    }
  }

  // ---------------------------------------------------------------- every run of the list

  datatype Op =
    | Add(o: Observer)
    | Remove(o: Observer)
    | Clear
    | Open(id: nat)
    | Next(id: nat)
    | Close(id: nat)
    | Destroy

  /** The list, whether it still exists, and the iterators alive on it. */
  datatype World = World(alive: bool, list: List, cursors: map<nat, Cursor>)

  predicate Enabled(w: World, op: Op)
  {
    match op
    case Add(_) => w.alive && |w.list.slots| < SIZE_MAX
    case Remove(_) => w.alive
    case Clear => w.alive
    case Destroy => w.alive
    case Open(id) => w.alive && id !in w.cursors
    case Next(id) => id in w.cursors
    case Close(id) => id in w.cursors && (w.alive ==> w.list.depth > 0)
  }

  function Step(w: World, op: Op): (w': World)
    requires Enabled(w, op)
  {
    match op
    case Add(o) => w.(list := Added(w.list, o))
    case Remove(o) => w.(list := Removed(w.list, o))
    case Clear => w.(list := Cleared(w.list))
    case Destroy => w.(alive := false)
    case Open(id) => w.(list := Entered(w.list), cursors := w.cursors[id := Opened(w.list)])
    case Next(id) =>
      if w.alive then w.(cursors := w.cursors[id := Advanced(w.list.slots, w.cursors[id]).1]) else w
    case Close(id) =>
      World(w.alive, if w.alive then Left(w.list) else w.list, w.cursors - {id})
  }

  /** What GetNext returns, and nothing for the other operations. */
  function Answer(w: World, op: Op): (r: Option<Observer>)
    requires Enabled(w, op)
  {
    if op.Next? && w.alive then Advanced(w.list.slots, w.cursors[op.id]).0 else None
  }

  // ---------------------------------------------------------------- what the list is for

  /**
   One iteration as a caller sees it: a queue of observers still to come, which GetNext takes
   from the front of. dropped collects those that left the list before they were reached.
   */
  datatype Pass = Pass(start: seq<Observer>, delivered: seq<Observer>, todo: seq<Observer>,
                       dropped: set<Observer>)

  datatype Ideal = Ideal(alive: bool, kind: NotificationType, registered: seq<Observer>,
                         passes: map<nat, Pass>)

  function Offered(p: Pass, o: Observer): (r: Pass)
  {
    p.(todo := p.todo + [o])
  }

  function Withdrawn(p: Pass, gone: set<Observer>): (r: Pass)
  {
    p.(todo := Without(p.todo, gone), dropped := p.dropped + Common<Observer>(p.todo, gone))
  }

  function Served(p: Pass): (r: Pass)
  {
    if p.todo == [] then p else p.(delivered := p.delivered + [p.todo[0]], todo := p.todo[1..])
  }

  function Members(s: seq<Observer>): set<Observer> { set o | o in s }

  function Emptied(s: Ideal): (r: Ideal)
  {
    s.(registered := [],
       passes := map id | id in s.passes :: Withdrawn(s.passes[id], Members(s.passes[id].todo)))
  }

  function IdealStep(s: Ideal, op: Op): (s': Ideal)
  {
    match op
    case Add(o) =>
      if o in s.registered then s
      else s.(registered := s.registered + [o],
              passes := if s.kind.NotifyExistingOnly? then s.passes
                        else map id | id in s.passes :: Offered(s.passes[id], o))
    case Remove(o) =>
      s.(registered := Without(s.registered, {o}),
         passes := map id | id in s.passes :: Withdrawn(s.passes[id], {o}))
    case Clear => Emptied(s)
    case Destroy => Emptied(s).(alive := false)
    case Open(id) => s.(passes := s.passes[id := Pass(s.registered, [], s.registered, {})])
    case Next(id) => if id in s.passes then s.(passes := s.passes[id := Served(s.passes[id])]) else s
    case Close(id) => s.(passes := s.passes - {id})
  }

  function IdealAnswer(s: Ideal, op: Op): (r: Option<Observer>)
  {
    if op.Next? && op.id in s.passes && s.passes[op.id].todo != []
    then Some(s.passes[op.id].todo[0]) else None
  }

  // ---------------------------------------------------------------- refinement

  /** The invariant of a slot vector. */
  ghost predicate SoundList(l: List)
  {
    && Distinct(l.slots)
    && |l.slots| <= SIZE_MAX
    && (l.depth == 0 ==> NoNulls(l.slots))
  }

  /** An iterator on l is in bounds, and has exactly the queue of p ahead of it. */
  ghost predicate Follows(l: List, c: Cursor, p: Pass)
  {
    && c.index <= |l.slots|
    && (l.kind.NotifyAll? ==> c.maxIndex == SIZE_MAX)
    && (l.kind.NotifyExistingOnly? ==> c.index <= c.maxIndex <= |l.slots|)
    && p.todo == Ahead(l.slots, c)
  }

  ghost predicate Refines(w: World, s: Ideal)
  {
    && w.alive == s.alive
    && w.list.kind == s.kind
    && w.cursors.Keys == s.passes.Keys
    && (w.alive ==>
          && SoundList(w.list)
          && w.list.depth == |w.cursors|
          && Present(w.list.slots) == s.registered
          && forall id :: id in w.cursors ==> Follows(w.list, w.cursors[id], s.passes[id]))
    && (!w.alive ==>
          && s.registered == []
          && forall id :: id in w.cursors ==> s.passes[id].todo == [])
  }

  lemma FollowsAdded(l: List, c: Cursor, p: Pass, o: Observer)
    requires SoundList(l) && Follows(l, c, p) && |l.slots| < SIZE_MAX && Some(o) !in l.slots
    ensures Follows(Added(l, o), c, if l.kind.NotifyAll? then Offered(p, o) else p)
  {
    var max := Min(c.maxIndex, |l.slots|);
    var before := l.slots[c.index..max];
    if l.kind.NotifyAll? {
      PresentConcat(before, [Some(o)]);
      assert (l.slots + [Some(o)])[c.index..max + 1] == before + [Some(o)];
    } else {
      assert (l.slots + [Some(o)])[c.index..max] == before;
    }
  }

  lemma FollowsRemoved(l: List, c: Cursor, p: Pass, o: Observer)
    requires SoundList(l) && Follows(l, c, p) && l.depth > 0
    ensures Follows(Removed(l, o), c, Withdrawn(p, {o}))
  {
    var max := Min(c.maxIndex, |l.slots|);
    if Find(l.slots, o) < |l.slots| {
      NulledStretch(l.slots, o, c.index, max);
    } else {
      PresentHas(l.slots[c.index..max], o);
      WithoutNone(Present(l.slots[c.index..max]), {o});
    }
  }

  lemma FollowsCleared(l: List, c: Cursor, p: Pass)
    requires SoundList(l) && Follows(l, c, p) && l.depth > 0
    ensures Follows(Cleared(l), c, Withdrawn(p, Members(p.todo)))
  {
    WithoutAll(p.todo, Members(p.todo));
    PresentAllNulled(Cleared(l).slots[c.index..Min(c.maxIndex, |l.slots|)]);
  }

  lemma FollowsAdvanced(l: List, c: Cursor, p: Pass)
    requires SoundList(l) && Follows(l, c, p)
    ensures Follows(l, Advanced(l.slots, c).1, Served(p))
    ensures Advanced(l.slots, c).0 == if p.todo == [] then None else Some(p.todo[0])
  {
    AdvancedAhead(l.slots, c);
  }

  lemma RefinesAdd(w: World, s: Ideal, o: Observer)
    requires Refines(w, s) && Enabled(w, Add(o))
    ensures Refines(Step(w, Add(o)), IdealStep(s, Add(o)))
  {
    hide Present, Without, Find, Ahead, Advanced, SkipNulls;
    AddedPresent(w.list, o);
    PresentHas(w.list.slots, o);
    if Some(o) !in w.list.slots {
      forall id | id in w.cursors
        ensures Follows(Added(w.list, o), w.cursors[id], IdealStep(s, Add(o)).passes[id])
      {
        FollowsAdded(w.list, w.cursors[id], s.passes[id], o);
      }
    }
  }

  lemma RefinesRemove(w: World, s: Ideal, o: Observer)
    requires Refines(w, s) && Enabled(w, Remove(o))
    ensures Refines(Step(w, Remove(o)), IdealStep(s, Remove(o)))
  {
    hide Present, Without, Find, Ahead, Advanced, SkipNulls;
    RemovedPresent(w.list, o);
    RemovedDistinct(w.list, o);
    forall id | id in w.cursors
      ensures Follows(Removed(w.list, o), w.cursors[id], Withdrawn(s.passes[id], {o}))
    {
      assert w.cursors.Keys != {};
      FollowsRemoved(w.list, w.cursors[id], s.passes[id], o);
    }
  }

  lemma RefinesClear(w: World, s: Ideal)
    requires Refines(w, s) && Enabled(w, Clear)
    ensures Refines(Step(w, Clear), IdealStep(s, Clear))
  {
    hide Present, Without, Find, Ahead, Advanced, SkipNulls;
    PresentAllNulled(Cleared(w.list).slots);
    forall id | id in w.cursors
      ensures Follows(Cleared(w.list), w.cursors[id], Emptied(s).passes[id])
    {
      assert w.cursors.Keys != {};
      FollowsCleared(w.list, w.cursors[id], s.passes[id]);
    }
  }

  lemma RefinesDestroy(w: World, s: Ideal)
    requires Refines(w, s) && Enabled(w, Destroy)
    ensures Refines(Step(w, Destroy), IdealStep(s, Destroy))
  {
    hide Present, Without, Find, Ahead, Advanced, SkipNulls;
    forall id | id in s.passes
      ensures Emptied(s).passes[id].todo == []
    {
      WithoutAll(s.passes[id].todo, Members(s.passes[id].todo));
    }
  }

  lemma FollowsOpened(l: List)
    requires SoundList(l)
    ensures Follows(l, Opened(l), Pass(Present(l.slots), [], Present(l.slots), {}))
    ensures forall c, p :: Follows(l, c, p) ==> Follows(Entered(l), c, p)
  {
    assert l.slots[0..|l.slots|] == l.slots;
  }

  lemma RefinesOpen(w: World, s: Ideal, id: nat)
    requires Refines(w, s) && Enabled(w, Open(id))
    ensures Refines(Step(w, Open(id)), IdealStep(s, Open(id)))
  {
    hide Present, Without, Find, Ahead, Advanced, SkipNulls;
    FollowsOpened(w.list);
    assert w.cursors[id := Opened(w.list)].Keys == w.cursors.Keys + {id};
  }

  lemma RefinesNext(w: World, s: Ideal, id: nat)
    requires Refines(w, s) && Enabled(w, Next(id))
    ensures Refines(Step(w, Next(id)), IdealStep(s, Next(id)))
    ensures Answer(w, Next(id)) == IdealAnswer(s, Next(id))
  {
    hide Present, Without, Find, Ahead, Advanced, SkipNulls;
    if w.alive {
      FollowsAdvanced(w.list, w.cursors[id], s.passes[id]);
      assert w.cursors[id := Advanced(w.list.slots, w.cursors[id]).1].Keys == w.cursors.Keys;
    }
  }

  lemma RefinesClose(w: World, s: Ideal, id: nat)
    requires Refines(w, s) && Enabled(w, Close(id))
    ensures Refines(Step(w, Close(id)), IdealStep(s, Close(id)))
  {
    hide Present, Without, Find, Ahead, Advanced, SkipNulls;
    assert (w.cursors - {id}).Keys == w.cursors.Keys - {id};
    if w.alive {
      CompactedPresent(w.list);
      assert |w.cursors.Keys - {id}| == |w.cursors| - 1;
      if w.list.depth == 1 {
        assert w.cursors.Keys - {id} == {};
      }
    }
  }

  /** One operation on the real list does what the queues say, and GetNext gives the same answer. */
  lemma StepRefines(w: World, s: Ideal, op: Op)
    requires Refines(w, s) && Enabled(w, op)
    ensures Refines(Step(w, op), IdealStep(s, op))
    ensures Answer(w, op) == IdealAnswer(s, op)
  {
    match op
    case Add(o) => RefinesAdd(w, s, o);
    case Remove(o) => RefinesRemove(w, s, o);
    case Clear => RefinesClear(w, s);
    case Destroy => RefinesDestroy(w, s);
    case Open(id) => RefinesOpen(w, s, id);
    case Next(id) => RefinesNext(w, s, id);
    case Close(id) => RefinesClose(w, s, id);
  }

  ghost predicate Runs(w: World, ops: seq<Op>)
    decreases |ops|
  {
    ops != [] ==> Enabled(w, ops[0]) && Runs(Step(w, ops[0]), ops[1..])
  }

  ghost function After(w: World, ops: seq<Op>): (w': World)
    requires Runs(w, ops)
    decreases |ops|
  {
    if ops == [] then w else After(Step(w, ops[0]), ops[1..])
  }

  ghost function Answers(w: World, ops: seq<Op>): (r: seq<Option<Observer>>)
    requires Runs(w, ops)
    decreases |ops|
  {
    if ops == [] then [] else [Answer(w, ops[0])] + Answers(Step(w, ops[0]), ops[1..])
  }

  ghost function IdealAfter(s: Ideal, ops: seq<Op>): (s': Ideal)
    decreases |ops|
  {
    if ops == [] then s else IdealAfter(IdealStep(s, ops[0]), ops[1..])
  }

  ghost function IdealAnswers(s: Ideal, ops: seq<Op>): (r: seq<Option<Observer>>)
    decreases |ops|
  {
    if ops == [] then [] else [IdealAnswer(s, ops[0])] + IdealAnswers(IdealStep(s, ops[0]), ops[1..])
  }

  function NewWorld(kind: NotificationType): (w: World) { World(true, List([], 0, kind), map[]) }

  function NewIdeal(kind: NotificationType): (s: Ideal) { Ideal(true, kind, [], map[]) }

  lemma {:induction false} RunRefines(w: World, s: Ideal, ops: seq<Op>)
    requires Refines(w, s) && Runs(w, ops)
    ensures Refines(After(w, ops), IdealAfter(s, ops))
    ensures Answers(w, ops) == IdealAnswers(s, ops)
    decreases |ops|
  {
    if ops != [] {
      StepRefines(w, s, ops[0]);
      RunRefines(Step(w, ops[0]), IdealStep(s, ops[0]), ops[1..]);
    }
  }

  /**
   Over every run of a new list - additions, removals, clearing, iterations nested or
   overlapping, destruction in the middle of them - GetNext answers as the queues do; the vector
   holds the registered observers in order, each once, and no null once no iterator is alive.
   */
  lemma EveryRunRefines(kind: NotificationType, ops: seq<Op>)
    requires Runs(NewWorld(kind), ops)
    ensures Refines(After(NewWorld(kind), ops), IdealAfter(NewIdeal(kind), ops))
    ensures Answers(NewWorld(kind), ops) == IdealAnswers(NewIdeal(kind), ops)
  {
    RunRefines(NewWorld(kind), NewIdeal(kind), ops);
  }

  /** While an iterator is alive no slot moves: one is at most nulled, and new ones go at the end. */
  lemma SlotsPinned(w: World, op: Op)
    requires w.alive && Enabled(w, op) && w.list.depth > 0 && Step(w, op).list.depth > 0
    ensures |w.list.slots| <= |Step(w, op).list.slots|
    ensures forall i :: 0 <= i < |w.list.slots| ==>
              Step(w, op).list.slots[i] == w.list.slots[i] || Step(w, op).list.slots[i] == None
  {
  }

  /** After any run, GetNext returns only an observer registered at that moment. */
  lemma AnswersAreRegistered(kind: NotificationType, ops: seq<Op>, id: nat)
    requires Runs(NewWorld(kind), ops) && Enabled(After(NewWorld(kind), ops), Next(id))
    ensures var o := Answer(After(NewWorld(kind), ops), Next(id));
            o.Some? ==> o.value in IdealAfter(NewIdeal(kind), ops).registered
  {
    hide Runs, After, IdealAfter, Present;
    EveryRunRefines(kind, ops);
    var w := After(NewWorld(kind), ops);
    var o := Answer(w, Next(id));
    if o.Some? {
      PresentHas(w.list.slots, o.value);
    }
  }

  /** While the list exists it can be used at any time; an iterator goes on, and ends, also when it does not. */
  lemma OpsEnabled(kind: NotificationType, ops: seq<Op>, o: Observer, id: nat)
    requires Runs(NewWorld(kind), ops)
    ensures var w := After(NewWorld(kind), ops);
            && (id in w.cursors ==> Enabled(w, Next(id)) && Enabled(w, Close(id)))
            && (w.alive ==> Enabled(w, Remove(o)) && Enabled(w, Clear) && Enabled(w, Destroy))
            && (w.alive && id !in w.cursors ==> Enabled(w, Open(id)))
            && (w.alive && |w.list.slots| < 0xFFFF_FFFF_FFFF_FFFF ==> Enabled(w, Add(o)))
  {
    hide Runs, After, IdealAfter, Answers, IdealAnswers, Present;
    EveryRunRefines(kind, ops);
    assert id in After(NewWorld(kind), ops).cursors ==> After(NewWorld(kind), ops).cursors.Keys != {};
  }

  /** Nothing is present after Clear. */
  lemma ClearedPresent(l: List)
    ensures Present(Cleared(l).slots) == [] && (l.depth > 0 ==> |Cleared(l).slots| == |l.slots|)
  {
    PresentAllNulled(Cleared(l).slots);
  }

  /** An iterator that has got as far as any in a run. */
  ghost predicate InBounds(w: World, id: nat)
  {
    && w.alive && id in w.cursors && SoundList(w.list) && w.cursors[id].index <= |w.list.slots|
    && (w.list.kind.NotifyAll? ==> w.cursors[id].maxIndex == SIZE_MAX)
    && (w.list.kind.NotifyExistingOnly? ==> w.cursors[id].index <= w.cursors[id].maxIndex <= |w.list.slots|)
    && w.list.depth > 0
  }

  lemma CursorsInBounds(kind: NotificationType, ops: seq<Op>, id: nat)
    requires Runs(NewWorld(kind), ops)
    requires After(NewWorld(kind), ops).alive && id in After(NewWorld(kind), ops).cursors
    ensures InBounds(After(NewWorld(kind), ops), id)
  {
    hide Runs, After, IdealAfter, Present, Ahead;
    EveryRunRefines(kind, ops);
    assert After(NewWorld(kind), ops).cursors.Keys != {};
  }

  /** How an operation changes what is ahead of an iterator. */
  ghost predicate AheadFollows(w: World, op: Op, id: nat)
    requires Enabled(w, op) && id in Step(w, op).cursors
  {
    var ahead' := Ahead(Step(w, op).list.slots, Step(w, op).cursors[id]);
    if op == Open(id) then ahead' == Present(w.list.slots)
    else id in w.cursors && var ahead := Ahead(w.list.slots, w.cursors[id]);
         match op
         case Add(o) => ahead' == if Some(o) in w.list.slots || w.list.kind.NotifyExistingOnly? then ahead else ahead + [o]
         case Remove(o) => ahead' == Without(ahead, {o})
         case Clear => ahead' == []
         case Next(k) => ahead' == if k == id && ahead != [] then ahead[1..] else ahead
         case _ => ahead' == ahead
  }

  lemma AheadStep(w: World, op: Op, id: nat)
    requires InBounds(w, id) && Enabled(w, op) && op != Destroy && op != Open(id) && op != Close(id)
    requires op.Close? ==> w.list.depth > 1
    ensures id in Step(w, op).cursors && AheadFollows(w, op, id)
  {
    var l, c := w.list, w.cursors[id];
    var p := Pass([], [], Ahead(l.slots, c), {});
    match op
    case Add(o) =>
      if Some(o) !in l.slots {
        FollowsAdded(l, c, p, o);
      }
    case Remove(o) => FollowsRemoved(l, c, p, o);
    case Clear =>
      FollowsCleared(l, c, p);
      WithoutAll(p.todo, Members(p.todo));
    case Next(k) =>
      if k == id {
        FollowsAdvanced(l, c, p);
      }
    case _ =>
  }

  lemma AheadOpened(w: World, id: nat)
    requires w.alive && SoundList(w.list) && Enabled(w, Open(id))
    ensures AheadFollows(w, Open(id), id)
  {
    assert w.list.slots[0..|w.list.slots|] == w.list.slots;
  }

  /**
   After any run, what is ahead of an iterator: all that is present when it is made; one more at the end
   under NOTIFY_ALL for a new observer; less what is removed or cleared; the tail when it moves on; and
   nothing else changes it.
   */
  lemma AheadChanges(kind: NotificationType, ops: seq<Op>, op: Op, id: nat)
    requires Runs(NewWorld(kind), ops) && Enabled(After(NewWorld(kind), ops), op) && op != Destroy
    requires var w := After(NewWorld(kind), ops); w.alive && id in Step(w, op).cursors
    ensures AheadFollows(After(NewWorld(kind), ops), op, id)
  {
    hide Runs, After, IdealAfter, AheadFollows, Present, Answers, IdealAnswers;
    EveryRunRefines(kind, ops);
    var w := After(NewWorld(kind), ops);
    if op == Open(id) {
      AheadOpened(w, id);
    } else {
      CursorsInBounds(kind, ops, id);
      if op.Close? {
        assert w.cursors.Keys == (w.cursors.Keys - {id, op.id}) + {id, op.id};
        assert w.list.depth >= |{id, op.id}|;
      }
      AheadStep(w, op, id);
    }
  }

  // ---------------------------------------------------------------- a pass over existing observers

  /**
   What the passes of a NOTIFY_EXISTING_ONLY list keep: what they delivered and have still to
   deliver is, in order, what they started with less what was withdrawn.
   */
  ghost predicate Faithful(p: Pass)
  {
    && NoRepeats<Observer>(p.start)
    && p.delivered + p.todo == Without(p.start, p.dropped)
  }

  lemma FaithfulWithdrawn(p: Pass, gone: set<Observer>)
    requires Faithful(p)
    ensures Faithful(Withdrawn(p, gone))
  {
    WithoutRest<Observer>(p.start, p.dropped, p.delivered, p.todo, gone);
    hide Without, NoRepeats;
  }

  ghost predicate AllFaithful(s: Ideal)
  {
    && s.kind.NotifyExistingOnly?
    && NoRepeats<Observer>(s.registered)
    && forall id :: id in s.passes ==> Faithful(s.passes[id])
  }

  lemma FaithfulServed(p: Pass)
    requires Faithful(p)
    ensures Faithful(Served(p))
  {
    hide Without, NoRepeats;
    if p.todo != [] {
      ConcatAssoc(p.delivered, [p.todo[0]], p.todo[1..]);
      assert [p.todo[0]] + p.todo[1..] == p.todo;
    }
  }

  lemma FaithfulEmptied(s: Ideal)
    requires AllFaithful(s)
    ensures AllFaithful(Emptied(s))
  {
    forall id | id in s.passes
      ensures Faithful(Emptied(s).passes[id])
    {
      FaithfulWithdrawn(s.passes[id], Members(s.passes[id].todo));
    }
  }

  /** Each operation leaves every pass faithful and the registered observers distinct. */
  lemma StepFaithful(s: Ideal, op: Op)
    requires AllFaithful(s)
    ensures AllFaithful(IdealStep(s, op))
  {
    hide Without, Faithful, Emptied;
    match op
    case Add(o) => FaithfulAdd(s, o);
    case Remove(o) =>
      WithoutDistinct(s.registered, {o});
      forall id | id in s.passes ensures Faithful(Withdrawn(s.passes[id], {o})) {
        FaithfulWithdrawn(s.passes[id], {o});
      }
    case Clear => FaithfulEmptied(s);
    case Destroy => FaithfulEmptied(s);
    case Open(id) => FaithfulOpened(s.registered);
    case Next(id) => if id in s.passes { FaithfulServed(s.passes[id]); }
    case Close(_) =>
  }

  lemma FaithfulAdd(s: Ideal, o: Observer)
    requires AllFaithful(s)
    ensures AllFaithful(IdealStep(s, Add(o)))
  {
    hide Faithful;
  }

  lemma FaithfulOpened(registered: seq<Observer>)
    requires NoRepeats<Observer>(registered)
    ensures Faithful(Pass(registered, [], registered, {}))
  {
    WithoutNone(registered, {});
  }

  /** An observer enters dropped only when an operation takes it off the list. */
  lemma DroppedWasWithdrawn(s: Ideal, op: Op, id: nat, o: Observer)
    requires id in s.passes && id in IdealStep(s, op).passes && !op.Open?
    requires o in IdealStep(s, op).passes[id].dropped && o !in s.passes[id].dropped
    ensures op == Remove(o) || op == Clear || op == Destroy
    ensures o in s.passes[id].todo && o !in IdealStep(s, op).passes[id].todo
    ensures op.Remove? ==> o !in IdealStep(s, op).registered
  {
    var todo := s.passes[id].todo;
    WithoutHas(todo, Members(todo), o);
    if op.Remove? {
      WithoutHas(todo, {op.o}, o);
      WithoutHas(s.registered, {op.o}, o);
    }
  }

  lemma {:induction false} RunFaithful(s: Ideal, ops: seq<Op>)
    requires AllFaithful(s)
    ensures AllFaithful(IdealAfter(s, ops))
    decreases |ops|
  {
    if ops != [] {
      StepFaithful(s, ops[0]);
      RunFaithful(IdealStep(s, ops[0]), ops[1..]);
    }
  }

  /**
   A NOTIFY_EXISTING_ONLY pass that is over - nothing is ahead of its iterator, so GetNext returns
   NULL - has delivered, in order, exactly the observers present at its start that were not taken
   off the list before it reached them; so it ends after at most as many calls.
   */
  lemma ExistingOnlyPass(ops: seq<Op>, id: nat)
    requires Runs(NewWorld(NotifyExistingOnly), ops)
    requires id in After(NewWorld(NotifyExistingOnly), ops).cursors
    ensures var w := After(NewWorld(NotifyExistingOnly), ops);
            var s := IdealAfter(NewIdeal(NotifyExistingOnly), ops);
            && id in s.passes
            && |s.passes[id].delivered| <= |s.passes[id].start|
            && Enabled(w, Next(id))
            && (Answer(w, Next(id)) == None <==> s.passes[id].todo == [])
            && (Answer(w, Next(id)) == None ==>
                  s.passes[id].delivered == Without(s.passes[id].start, s.passes[id].dropped))
  {
    var w0, s0 := NewWorld(NotifyExistingOnly), NewIdeal(NotifyExistingOnly);
    RunRefines(w0, s0, ops);
    StepRefines(After(w0, ops), IdealAfter(s0, ops), Next(id));
    RunFaithful(s0, ops);
    var p := IdealAfter(s0, ops).passes[id];
    WithoutDistinct(p.start, p.dropped);
  }
}
