/**
 id_map.h: a hash table from ids to pointers that may be owned, in which removal waits until no
 iterator is alive. The order of the table is whatever insertion makes it.
 */
module IdMaps {
  import opened Optional
  import opened Sequences

  type Id = int
  type Pointer = nat

  const INT32_MAX: int := 0x7FFF_FFFF

  datatype Entry = Entry(id: Id, data: Pointer)

  datatype Table = Table(owns: bool, entries: seq<Entry>, removedIds: set<Id>, iterationDepth: nat,
                         nextId: Id, deleted: multiset<Pointer>)

  function Keys(entries: seq<Entry>): (ids: seq<Id>)
    ensures |ids| == |entries|
    ensures forall i :: 0 <= i < |entries| ==> ids[i] == entries[i].id
  {
    if entries == [] then [] else [entries[0].id] + Keys(entries[1..])
  }

  function IdSet(entries: seq<Entry>): set<Id> { set id | id in Keys(entries) }

  /** The ids that are not waiting to be removed. */
  function Live(t: Table): (ids: seq<Id>)
  {
    Without<Id>(Keys(t.entries), t.removedIds)
  }

  /** The entries whose ids are not in gone, and the pointers of the others. */
  function Keep(entries: seq<Entry>, gone: set<Id>): (kept: seq<Entry>)
  {
    if entries == [] then []
    else (if entries[0].id in gone then [] else [entries[0]]) + Keep(entries[1..], gone)
  }

  function PointersOf(entries: seq<Entry>, ids: set<Id>): (pointers: multiset<Pointer>)
  {
    if entries == [] then multiset{}
    else (if entries[0].id in ids then multiset{entries[0].data} else multiset{}) + PointersOf(entries[1..], ids)
  }

  function AllPointers(entries: seq<Entry>): (pointers: multiset<Pointer>)
  {
    if entries == [] then multiset{} else multiset{entries[0].data} + AllPointers(entries[1..])
  }

  /** The index at which find stops. */
  function Find(entries: seq<Entry>, id: Id): (i: nat)
    ensures i <= |entries| && (i < |entries| ==> entries[i].id == id)
    ensures forall k :: 0 <= k < i ==> entries[k].id != id
  {
    if entries == [] || entries[0].id == id then 0 else 1 + Find(entries[1..], id)
  }

  /** Insertion at the place where the hash table puts the id. */
  function Inserted(t: Table, e: Entry, at: nat): Table
    requires at <= |t.entries|
  {
    t.(entries := t.entries[..at] + [e] + t.entries[at..])
  }

  function Erased(t: Table, ids: set<Id>): Table
  {
    t.(entries := Keep(t.entries, ids),
       deleted := t.deleted + if t.owns then PointersOf(t.entries, ids) else multiset{})
  }

  function Removed(t: Table, id: Id): Table
  {
    if id !in Keys(t.entries) then t
    else if t.iterationDepth == 0 then Erased(t, {id})
    else t.(removedIds := t.removedIds + {id})
  }

  function Replaced(t: Table, id: Id, data: Pointer): (r: (Table, Pointer))
  {
    var i := Find(t.entries, id);
    if i == |t.entries| then (t, 0) else (t.(entries := t.entries[i := Entry(id, data)]), t.entries[i].data)
  }

  function Cleared(t: Table): Table
  {
    if t.iterationDepth > 0 then t.(removedIds := t.removedIds + IdSet(t.entries))
    else if t.owns then Emptied(t)
    else t
  }

  /** release_all of an owning map. */
  function Emptied(t: Table): Table
  {
    t.(entries := [], deleted := t.deleted + AllPointers(t.entries))
  }

  function Compacted(t: Table): Table { Erased(t, t.removedIds).(removedIds := {}) }

  function Closed(t: Table): Table
    requires t.iterationDepth > 0
  {
    var u := t.(iterationDepth := t.iterationDepth - 1);
    if u.iterationDepth == 0 then Compacted(u) else u
  }

  /** SkipRemovedEntries */
  function Skip(t: Table, i: nat): (j: nat)
    requires i <= |t.entries|
    ensures i <= j <= |t.entries| && (j < |t.entries| ==> t.entries[j].id !in t.removedIds)
    ensures forall k :: i <= k < j ==> t.entries[k].id in t.removedIds
    decreases |t.entries| - i
  {
    if i < |t.entries| && t.entries[i].id in t.removedIds then Skip(t, i + 1) else i
  }

  // ---------------------------------------------------------------- lemmas about entries

  lemma {:induction false} KeepKeys(entries: seq<Entry>, gone: set<Id>)
    ensures Keys(Keep(entries, gone)) == Without<Id>(Keys(entries), gone)
  {
    if entries != [] {
      KeepKeys(entries[1..], gone);
      assert Keys(entries)[1..] == Keys(entries[1..]);
      assert Keys(Keep(entries, gone))
          == (if entries[0].id in gone then [] else [entries[0].id]) + Keys(Keep(entries[1..], gone));
    }
  }

  lemma {:induction false} KeepSplits(entries: seq<Entry>, gone: set<Id>)
    ensures AllPointers(entries) == AllPointers(Keep(entries, gone)) + PointersOf(entries, gone)
  {
    if entries != [] {
      KeepSplits(entries[1..], gone);
      var rest := Keep(entries[1..], gone);
      assert entries[0].id !in gone ==> ([entries[0]] + rest)[1..] == rest;
      assert entries[0].id in gone ==> [] + rest == rest;
    }
  }

  lemma {:induction false} KeepTwice(entries: seq<Entry>, a: set<Id>, b: set<Id>)
    requires a !! b
    ensures Keep(Keep(entries, a), b) == Keep(entries, a + b)
    ensures PointersOf(entries, a) + PointersOf(Keep(entries, a), b) == PointersOf(entries, a + b)
  {
    if entries != [] {
      KeepTwice(entries[1..], a, b);
      var rest := Keep(entries[1..], a);
      assert entries[0].id !in a ==> ([entries[0]] + rest)[0] == entries[0] && ([entries[0]] + rest)[1..] == rest;
      assert entries[0].id in a ==> [] + rest == rest;
    }
  }

  lemma {:induction false} KeepNone(entries: seq<Entry>)
    ensures Keep(entries, {}) == entries && PointersOf(entries, {}) == multiset{}
  {
    if entries != [] {
      KeepNone(entries[1..]);
    }
  }

  lemma {:induction false} PointersConcat(a: seq<Entry>, b: seq<Entry>)
    ensures AllPointers(a + b) == AllPointers(a) + AllPointers(b)
  {
    if a == [] {
      ConcatEmpty(b);
    } else {
      ConcatTail(a, b);
      PointersConcat(a[1..], b);
    }
  }

  lemma IdSetGrows(entries: seq<Entry>, i: nat)
    requires i < |entries|
    ensures IdSet(entries[..i + 1]) == IdSet(entries[..i]) + {entries[i].id}
  {
    assert Keys(entries[..i + 1]) == Keys(entries[..i]) + [entries[i].id];
  }

  lemma NoIds()
    ensures IdSet([]) == {}
  {
  }

  lemma SameKeys(a: seq<Entry>, b: seq<Entry>)
    requires |a| == |b| && forall i :: 0 <= i < |a| ==> a[i].id == b[i].id
    ensures Keys(a) == Keys(b)
  {
  }

  lemma PointersFrom(entries: seq<Entry>, i: nat)
    requires i < |entries|
    ensures AllPointers(entries[i..]) == multiset{entries[i].data} + AllPointers(entries[i + 1..])
  {
    assert entries[i..][1..] == entries[i + 1..];
  }

  /** One entry at index i, taken out or put in. */
  lemma {:induction false} PointersAt(entries: seq<Entry>, i: nat)
    requires i < |entries|
    ensures AllPointers(entries)
         == AllPointers(entries[..i]) + multiset{entries[i].data} + AllPointers(entries[i + 1..])
  {
    assert entries == entries[..i] + ([entries[i]] + entries[i + 1..]);
    PointersConcat(entries[..i], [entries[i]] + entries[i + 1..]);
    PointersConcat([entries[i]], entries[i + 1..]);
    assert AllPointers([entries[i]]) == multiset{entries[i].data};
  }

  lemma {:induction false} KeepConcat(a: seq<Entry>, b: seq<Entry>, gone: set<Id>)
    ensures Keep(a + b, gone) == Keep(a, gone) + Keep(b, gone)
    ensures PointersOf(a + b, gone) == PointersOf(a, gone) + PointersOf(b, gone)
  {
    if a == [] {
      ConcatEmpty(b);
    } else {
      ConcatTail(a, b);
      KeepConcat(a[1..], b, gone);
      ConcatAssoc(if a[0].id in gone then [] else [a[0]], Keep(a[1..], gone), Keep(b, gone));
    }
  }

  /** Erasing one distinct key is cutting out its entry. */
  lemma {:induction false} KeepCuts(entries: seq<Entry>, i: nat)
    requires NoRepeats<Id>(Keys(entries)) && i < |entries|
    ensures Keep(entries, {entries[i].id}) == entries[..i] + entries[i + 1..]
    ensures PointersOf(entries, {entries[i].id}) == multiset{entries[i].data}
  {
    hide Keep, PointersOf;
    var e, before, after := entries[i], entries[..i], entries[i + 1..];
    assert entries == before + ([e] + after);
    KeepConcat(before, [e] + after, {e.id});
    KeepConcat([e], after, {e.id});
    KeepOne(e);
    forall k | 0 <= k < |entries| && k != i
      ensures entries[k].id != e.id
    {
      assert Keys(entries)[k] != Keys(entries)[i];
    }
    KeepOthers(before, e.id);
    KeepOthers(after, e.id);
    ConcatEmpty(after);
  }

  lemma KeepOne(e: Entry)
    ensures Keep([e], {e.id}) == [] && PointersOf([e], {e.id}) == multiset{e.data}
  {
  }

  lemma {:induction false} KeepOthers(entries: seq<Entry>, id: Id)
    requires forall k :: 0 <= k < |entries| ==> entries[k].id != id
    ensures Keep(entries, {id}) == entries && PointersOf(entries, {id}) == multiset{}
  {
    if entries != [] {
      KeepOthers(entries[1..], id);
    }
  }

  /** How many ids are live: size() subtracts one for each that waits to be removed. */
  lemma {:induction false} WithoutSize(ids: seq<Id>, gone: set<Id>)
    requires NoRepeats<Id>(ids) && forall id :: id in gone ==> id in ids
    ensures |Without<Id>(ids, gone)| + |gone| == |ids|
    decreases |ids|
  {
    if ids == [] {
      assert forall id :: id in gone ==> id in ids;
      assert |gone| == 0;
    } else {
      var rest := gone - {ids[0]};
      forall id | id in rest
        ensures id in ids[1..]
      {
        assert id in [ids[0]] + ids[1..];
      }
      WithoutSize(ids[1..], rest);
      WithoutSame<Id>(ids[1..], rest, gone);
    }
  }

  // ---------------------------------------------------------------- the class and its iterators

  class IDMap {
    const owns: bool
    var data: seq<Entry>
    var removedIds: set<Id>
    var iterationDepth: nat
    var nextId: Id
    ghost var deleted: multiset<Pointer>  // the arguments that delete was called with

    ghost function Model(): Table
      reads this
    {
      Table(owns, data, removedIds, iterationDepth, nextId, deleted)
    }

    constructor (owns: bool)
      ensures Model() == Table(owns, [], {}, 0, 1, multiset{})
    {
      this.owns := owns;
      data, removedIds, iterationDepth, nextId, deleted := [], {}, 0, 1, multiset{};
    }

    method FindEntry(id: Id) returns (i: nat)
      ensures i == Find(data, id)
    {
      i := 0;
      while i < |data| && data[i].id != id
        invariant i <= |data| && Find(data, id) == i + Find(data[i..], id)
      {
        assert data[i..][1..] == data[i + 1..];
        i := i + 1;
      }
    }

    method AddWithID(pointer: Pointer, id: Id, at: nat)
      requires id !in Keys(data) && at <= |data|
      modifies `data
      ensures Model() == Inserted(old(Model()), Entry(id, pointer), at)
    {
      data := data[..at] + [Entry(id, pointer)] + data[at..];
    }

    method Add(pointer: Pointer, at: nat) returns (id: Id)
      requires nextId !in Keys(data) && at <= |data| && nextId < INT32_MAX
      modifies `data, `nextId
      ensures id == old(nextId)
      ensures Model() == Inserted(old(Model()), Entry(id, pointer), at).(nextId := id + 1)
    {
      id := nextId;
      AddWithID(pointer, id, at);
      nextId := nextId + 1;
    }

    method Remove(id: Id)
      requires NoRepeats<Id>(Keys(data))
      modifies `data, `removedIds, `deleted
      ensures Model() == Removed(old(Model()), id)
    {
      hide Keep, PointersOf, NoRepeats;
      var i := FindEntry(id);
      if i == |data| {
        NotAmong(data, id);
        return;
      }
      assert Keys(data)[i] == id;
      if iterationDepth == 0 {
        KeepCuts(data, i);
        if owns {
          deleted := deleted + multiset{data[i].data};
        }
        data := data[..i] + data[i + 1..];
      } else {
        removedIds := removedIds + {id};
      }
    }

    method Replace(id: Id, newData: Pointer) returns (previous: Pointer)
      modifies `data
      ensures (Model(), previous) == Replaced(old(Model()), id, newData)
    {
      var i := FindEntry(id);
      if i == |data| {
        return 0;
      }
      previous := data[i].data;
      data := data[i := Entry(id, newData)];
    }

    method Clear()
      modifies `data, `removedIds, `deleted
      ensures Model() == Cleared(old(Model()))
    {
      hide AllPointers, IdSet;
      if iterationDepth == 0 {
        ReleaseAll();
      } else {
        var i := 0;
        NoIds();
        while i < |data|
          invariant i <= |data| && data == old(data) && deleted == old(deleted)
          invariant removedIds == old(removedIds) + IdSet(data[..i])
        {
          IdSetGrows(data, i);
          removedIds := removedIds + {data[i].id};
          i := i + 1;
        }
        assert data[..i] == data;
      }
    }

    /** Deletes every pointer and clears the table, in an owning map; also the destructor. */
    method ReleaseAll()
      modifies `data, `deleted
      ensures Model() == if owns then Emptied(old(Model())) else old(Model())
    {
      hide AllPointers;
      if owns {
        var i := 0;
        assert data[0..] == data;
        while i < |data|
          invariant i <= |data| && data == old(data)
          invariant deleted + AllPointers(data[i..]) == old(deleted) + AllPointers(data)
        {
          PointersFrom(data, i);
          deleted := deleted + multiset{data[i].data};
          i := i + 1;
        }
        assert data[i..] == [];
        NoPointers();
        data := [];
      }
    }

    method Lookup(id: Id) returns (pointer: Option<Pointer>)
      ensures pointer.Some? <==> id in Keys(data)
      ensures pointer.Some? ==> Entry(id, pointer.value) in data
    {
      var i := FindEntry(id);
      if i == |data| {
        NotAmong(data, id);
        return None;
      }
      assert Keys(data)[i] == id && data[i] in data;
      pointer := Some(data[i].data);
    }

    method Size() returns (n: nat)
      requires NoRepeats<Id>(Keys(data)) && Among(removedIds, data)
      ensures n == |Live(Model())|
    {
      WithoutSize(Keys(data), removedIds);
      n := |data| - |removedIds|;
    }

    /** Removes the ids that wait, in any order. */
    method Compact()
      requires iterationDepth == 0 && NoRepeats<Id>(Keys(data)) && Among(removedIds, data)
      modifies `data, `removedIds, `deleted
      ensures Model() == Compacted(old(Model()))
    {
      hide Erased, Removed, Keys, Among;
      var left, done := removedIds, {};
      ghost var table := Model();
      ErasedNothing(table);
      while left != {}
        invariant left + done == table.removedIds && left !! done
        invariant Model() == Erased(table, done) && iterationDepth == 0
        invariant NoRepeats<Id>(Keys(data)) && Among(left, data)
        decreases |left|
      {
        var id := AnyOf(left);
        CompactStep(table, done, left, id);
        Remove(id);
        left, done := left - {id}, done + {id};
      }
      removedIds := {};
    }
  }

  method AnyOf(ids: set<Id>) returns (id: Id)
    requires ids != {}
    ensures id in ids
  {
    NotEmpty(ids);
    id :| id in ids;
  }

  lemma NotEmpty(ids: set<Id>)
    requires ids != {}
    ensures exists id :: id in ids
  {
    if forall id :: id !in ids {
      assert false;
    }
  }

  predicate Among(ids: set<Id>, entries: seq<Entry>) { forall id :: id in ids ==> id in Keys(entries) }

  lemma ErasedNothing(t: Table)
    ensures Erased(t, {}) == t
  {
    KeepNone(t.entries);
  }

  /** Removing one more waiting id. */
  lemma CompactStep(t: Table, done: set<Id>, left: set<Id>, id: Id)
    requires t.iterationDepth == 0 && id in left && id !in done
    requires NoRepeats<Id>(Keys(Erased(t, done).entries)) && Among(left, Erased(t, done).entries)
    ensures Removed(Erased(t, done), id) == Erased(t, done + {id})
    ensures NoRepeats<Id>(Keys(Erased(t, done + {id}).entries))
    ensures Among(left - {id}, Erased(t, done + {id}).entries)
  {
    hide Keep, PointersOf, Keys;
    var entries := Erased(t, done).entries;
    KeepTwice(t.entries, done, {id});
    KeepKeys(entries, {id});
    WithoutDistinct<Id>(Keys(entries), {id});
    forall x | x in left - {id}
      ensures x in Keys(Keep(entries, {id}))
    {
      WithoutHas<Id>(Keys(entries), {id}, x);
    }
  }

  class Iterator {
    const map_: IDMap
    var index: nat

    predicate Valid()
      reads this, map_
    {
      map_.iterationDepth > 0 && index <= |map_.data|
    }

    constructor (map_: IDMap)
      modifies map_`iterationDepth
      ensures this.map_ == map_ && Valid()
      ensures map_.Model() == old(map_.Model()).(iterationDepth := old(map_.iterationDepth) + 1)
      ensures index == Skip(map_.Model(), 0)
    {
      this.map_ := map_;
      index := 0;
      new;
      map_.iterationDepth := map_.iterationDepth + 1;
      SkipRemovedEntries();
    }

    /** The copy constructor. */
    constructor CopyOf(other: Iterator)
      requires other.Valid()
      modifies other.map_`iterationDepth
      ensures map_ == other.map_ && Valid()
      ensures map_.Model() == old(other.map_.Model()).(iterationDepth := old(other.map_.iterationDepth) + 1)
      ensures index == Skip(map_.Model(), other.index)
    {
      map_, index := other.map_, other.index;
      new;
      map_.iterationDepth := map_.iterationDepth + 1;
      SkipRemovedEntries();
    }

    method SkipRemovedEntries()
      requires index <= |map_.data|
      modifies this
      ensures index == Skip(map_.Model(), old(index))
    {
      while index < |map_.data| && map_.data[index].id in map_.removedIds
        invariant index <= |map_.data| && Skip(map_.Model(), index) == Skip(map_.Model(), old(index))
        modifies this
      {
        index := index + 1;
      }
    }

    method Advance()
      requires Valid() && index < |map_.data|
      modifies this
      ensures Valid() && index == Skip(map_.Model(), old(index) + 1)
    {
      index := index + 1;
      SkipRemovedEntries();
    }

    /** The destructor. */
    method Close()
      requires map_.iterationDepth > 0 && NoRepeats<Id>(Keys(map_.data)) && Among(map_.removedIds, map_.data)
      modifies map_
      ensures map_.Model() == Closed(old(map_.Model()))
    {
      map_.iterationDepth := map_.iterationDepth - 1;
      if map_.iterationDepth == 0 {
        map_.Compact();
      }
    }
  }

  lemma NotAmong(entries: seq<Entry>, id: Id)
    requires Find(entries, id) == |entries|
    ensures id !in Keys(entries)
  {
  }

  // ---------------------------------------------------------------- every run of the map

  /** Additions only while no iterator is alive: an insertion may invalidate those of a hash table. */
  datatype Op =
    | Add(pointer: Pointer, at: nat)
    | AddWithId(pointer: Pointer, id: Id, at: nat)
    | Remove(id: Id)
    | Replace(id: Id, pointer: Pointer)
    | Clear
    | Open(it: nat)
    | Duplicate(of: nat, it: nat)
    | Advance(it: nat)
    | Close(it: nat)

  /**
   One iteration as its caller sees it: the ids live at its start, those visited, the one it stands
   on among them, those removed before they were visited, and those still to be visited.
   */
  datatype Pass = Pass(start: seq<Id>, visited: seq<Id>, dropped: set<Id>, todo: seq<Id>)

  /** given and takenBack count the pointers that came in, and went out again through Replace. */
  datatype World = World(table: Table, positions: map<nat, nat>, passes: map<nat, Pass>,
                         given: multiset<Pointer>, takenBack: multiset<Pointer>)

  function Empty(owns: bool): World
  {
    World(Table(owns, [], {}, 0, 1, multiset{}), map[], map[], multiset{}, multiset{})
  }

  predicate Enabled(w: World, op: Op)
  {
    match op
    case Add(_, at) =>
      w.table.iterationDepth == 0 && w.table.nextId !in Keys(w.table.entries) && at <= |w.table.entries|
      && w.table.nextId < INT32_MAX
    case AddWithId(_, id, at) =>
      w.table.iterationDepth == 0 && id !in Keys(w.table.entries) && at <= |w.table.entries|
    case Remove(_) => true
    case Replace(_, _) => true
    case Clear => true
    case Open(it) => it !in w.positions
    case Duplicate(of, it) => of in w.positions && it !in w.positions && w.positions[of] <= |w.table.entries|
    case Advance(it) => it in w.positions && w.positions[it] < |w.table.entries|
    case Close(it) => it in w.positions && w.table.iterationDepth > 0
  }

  function Visited(p: Pass): Pass
  {
    if p.todo == [] then p else p.(visited := p.visited + [p.todo[0]], todo := p.todo[1..])
  }

  function Dropped(p: Pass, ids: set<Id>): Pass
  {
    p.(dropped := p.dropped + Common<Id>(p.todo, ids), todo := Without<Id>(p.todo, ids))
  }

  function Started(ids: seq<Id>): Pass { Visited(Pass(ids, [], {}, ids)) }

  function Step(w: World, op: Op): World
    requires Enabled(w, op)
  {
    match op
    case Add(p, at) =>
      w.(table := Inserted(w.table, Entry(w.table.nextId, p), at).(nextId := w.table.nextId + 1),
         given := w.given + multiset{p})
    case AddWithId(p, id, at) => w.(table := Inserted(w.table, Entry(id, p), at), given := w.given + multiset{p})
    case Remove(id) =>
      w.(table := Removed(w.table, id), passes := map it | it in w.passes :: Dropped(w.passes[it], {id}))
    case Replace(id, p) =>
      var (table, previous) := Replaced(w.table, id, p);
      if id in Keys(w.table.entries) then
        w.(table := table, given := w.given + multiset{p}, takenBack := w.takenBack + multiset{previous})
      else w
    case Clear =>
      w.(table := Cleared(w.table), passes := map it | it in w.passes :: Dropped(w.passes[it], IdSet(w.table.entries)))
    case Open(it) =>
      w.(table := w.table.(iterationDepth := w.table.iterationDepth + 1),
         positions := w.positions[it := Skip(w.table, 0)], passes := w.passes[it := Started(Live(w.table))])
    case Duplicate(of, it) =>
      w.(table := w.table.(iterationDepth := w.table.iterationDepth + 1),
         positions := w.positions[it := Skip(w.table, w.positions[of])],
         passes := if of !in w.passes then w.passes
                   else if Skip(w.table, w.positions[of]) == w.positions[of] then w.passes[it := w.passes[of]]
                   else w.passes[it := Visited(w.passes[of])])
    case Advance(it) =>
      w.(positions := w.positions[it := Skip(w.table, w.positions[it] + 1)],
         passes := if it in w.passes then w.passes[it := Visited(w.passes[it])] else w.passes)
    case Close(it) =>
      w.(table := Closed(w.table), positions := w.positions - {it}, passes := w.passes - {it})
  }

  // ---------------------------------------------------------------- the invariant

  predicate SoundTable(t: Table)
  {
    && NoRepeats<Id>(Keys(t.entries))
    && Among(t.removedIds, t.entries)
    && (t.iterationDepth == 0 ==> t.removedIds == {})
    && (!t.owns ==> t.deleted == multiset{})
  }

  /** The pass at an iterator: the ids behind the one it stands on that are not waiting for removal. */
  predicate Follows(t: Table, index: nat, p: Pass)
  {
    && index <= |t.entries|
    && p.todo == if index < |t.entries| then Without<Id>(Keys(t.entries[index + 1..]), t.removedIds) else []
  }

  predicate Faithful(p: Pass)
  {
    NoRepeats<Id>(p.start) && p.visited + p.todo == Without<Id>(p.start, p.dropped)
  }

  /** Every pointer that came in is in the map, was deleted, or was handed back, each time it came. */
  predicate Conserved(w: World)
  {
    w.table.owns ==> w.given == AllPointers(w.table.entries) + w.table.deleted + w.takenBack
  }

  ghost predicate Sound(w: World)
  {
    && SoundTable(w.table) && Conserved(w)
    && w.table.iterationDepth == |w.positions| && w.positions.Keys == w.passes.Keys
    && (forall it :: it in w.positions ==> Follows(w.table, w.positions[it], w.passes[it]))
    && (forall it :: it in w.passes ==> Faithful(w.passes[it]))
  }

  // ---------------------------------------------------------------- passes

  lemma FaithfulVisited(p: Pass)
    requires Faithful(p)
    ensures Faithful(Visited(p))
  {
    if p.todo != [] {
      ConcatAssoc(p.visited, [p.todo[0]], p.todo[1..]);
      assert [p.todo[0]] + p.todo[1..] == p.todo;
    }
  }

  lemma FaithfulDropped(p: Pass, ids: set<Id>)
    requires Faithful(p)
    ensures Faithful(Dropped(p, ids))
  {
    WithoutRest<Id>(p.start, p.dropped, p.visited, p.todo, ids);
    hide Without, NoRepeats;
  }

  lemma LiveDistinct(t: Table)
    requires SoundTable(t)
    ensures NoRepeats<Id>(Live(t)) && Faithful(Started(Live(t)))
  {
    WithoutDistinct<Id>(Keys(t.entries), t.removedIds);
    WithoutNone<Id>(Live(t), {});
    var p := Pass(Live(t), [], {}, Live(t));
    assert p.visited + p.todo == p.todo;
    FaithfulVisited(p);
  }

  /** What lies from index i on, less what waits, starts with the entry that Skip finds. */
  lemma {:induction false} SkipFinds(t: Table, i: nat)
    requires i <= |t.entries|
    ensures var j, rest := Skip(t, i), Without<Id>(Keys(t.entries[i..]), t.removedIds);
            if j < |t.entries| then
              rest == [t.entries[j].id] + Without<Id>(Keys(t.entries[j + 1..]), t.removedIds)
            else rest == []
    decreases |t.entries| - i
  {
    hide Keys;
    if i < |t.entries| {
      KeysBehind(t.entries, i, t.removedIds);
      if t.entries[i].id in t.removedIds {
        SkipFinds(t, i + 1);
      }
    }
  }

  lemma KeysBehind(entries: seq<Entry>, i: nat, gone: set<Id>)
    requires i < |entries|
    ensures var behind := Without<Id>(Keys(entries[i + 1..]), gone);
            Without<Id>(Keys(entries[i..]), gone)
              == if entries[i].id in gone then behind else [entries[i].id] + behind
  {
    assert Keys(entries[i..])[1..] == Keys(entries[i + 1..]);
  }

  lemma FollowsSkip(t: Table, i: nat, p: Pass)
    requires i <= |t.entries| && p.todo == Without<Id>(Keys(t.entries[i..]), t.removedIds)
    ensures Follows(t, Skip(t, i), Visited(p))
  {
    SkipFinds(t, i);
  }

  /** Ids that start waiting leave what is ahead of every iterator. */
  lemma FollowsWaiting(t: Table, index: nat, p: Pass, ids: set<Id>)
    requires Follows(t, index, p)
    ensures Follows(t.(removedIds := t.removedIds + ids), index, Dropped(p, ids))
  {
    if index < |t.entries| {
      WithoutUnion<Id>(Keys(t.entries[index + 1..]), t.removedIds, ids);
    }
  }

  /** An id that is not on the map is not ahead of an iterator either. */
  lemma FollowsAbsent(t: Table, index: nat, p: Pass, id: Id)
    requires Follows(t, index, p) && id !in Keys(t.entries)
    ensures Dropped(p, {id}) == p
  {
    if index < |t.entries| {
      var rest := Keys(t.entries[index + 1..]);
      assert rest == Keys(t.entries)[index + 1..];
      assert id !in rest;
      WithoutHas<Id>(rest, t.removedIds, id);
    }
    WithoutNone<Id>(p.todo, {id});
    assert Common<Id>(p.todo, {id}) == {};
  }

  // ---------------------------------------------------------------- steps keep it

  lemma InsertSound(w: World, e: Entry, at: nat, nextId: Id)
    requires Sound(w) && w.table.iterationDepth == 0 && e.id !in Keys(w.table.entries) && at <= |w.table.entries|
    ensures Sound(w.(table := Inserted(w.table, e, at).(nextId := nextId), given := w.given + multiset{e.data}))
  {
    hide Faithful, Follows, AllPointers, Keys;
    InsertedDistinct(w.table.entries, e, at);
    InsertedPointers(w.table.entries, e, at);
    assert w.positions.Keys == {};
  }

  lemma InsertedPointers(entries: seq<Entry>, e: Entry, at: nat)
    requires at <= |entries|
    ensures AllPointers(entries[..at] + [e] + entries[at..]) == AllPointers(entries) + multiset{e.data}
  {
    hide AllPointers;
    var after := entries[..at] + [e] + entries[at..];
    PointersAt(after, at);
    PointersConcat(entries[..at], entries[at..]);
    assert after[..at] == entries[..at] && after[at + 1..] == entries[at..] && entries == entries[..at] + entries[at..];
  }

  lemma {:induction false} InsertedDistinct(entries: seq<Entry>, e: Entry, at: nat)
    requires NoRepeats<Id>(Keys(entries)) && e.id !in Keys(entries) && at <= |entries|
    ensures NoRepeats<Id>(Keys(entries[..at] + [e] + entries[at..]))
  {
    var after := entries[..at] + [e] + entries[at..];
    hide Keys;
    forall i, j | 0 <= i < j < |after|
      ensures Keys(after)[i] != Keys(after)[j]
    {
      InsertedKey(entries, e, at, i);
      InsertedKey(entries, e, at, j);
    }
  }

  lemma InsertedKey(entries: seq<Entry>, e: Entry, at: nat, i: nat)
    requires at <= |entries| && i <= |entries|
    ensures Keys(entries[..at] + [e] + entries[at..])[i]
         == if i < at then Keys(entries)[i] else if i == at then e.id else Keys(entries)[i - 1]
    ensures i < at ==> Keys(entries)[i] in Keys(entries)
    ensures i > at ==> Keys(entries)[i - 1] in Keys(entries)
  {
    hide Keys;
    var after := entries[..at] + [e] + entries[at..];
    assert after[i] == if i < at then entries[i] else if i == at then e else entries[i - 1];
  }

  lemma ErasedSound(t: Table, ids: set<Id>)
    requires SoundTable(t) && forall id :: id in t.removedIds ==> id in ids
    ensures var u := Erased(t, ids).(removedIds := {});
            && SoundTable(u) && Keys(u.entries) == Without<Id>(Keys(t.entries), ids)
            && (t.owns ==> AllPointers(u.entries) + u.deleted == AllPointers(t.entries) + t.deleted)
  {
    hide Keep, PointersOf, AllPointers;
    KeepKeys(t.entries, ids);
    KeepSplits(t.entries, ids);
    WithoutDistinct<Id>(Keys(t.entries), ids);
  }

  lemma RemoveSound(w: World, id: Id)
    requires Sound(w)
    ensures Sound(Step(w, Remove(id)))
  {
    hide Faithful, Follows, AllPointers, SoundTable, Erased, Dropped, Keys;
    var after := Step(w, Remove(id));
    var t := w.table;
    forall it | it in w.passes
      ensures Faithful(after.passes[it])
    {
      FaithfulDropped(w.passes[it], {id});
    }
    if id !in Keys(t.entries) {
      forall it | it in w.positions
        ensures Dropped(w.passes[it], {id}) == w.passes[it]
      {
        FollowsAbsent(t, w.positions[it], w.passes[it], id);
      }
    } else if t.iterationDepth == 0 {
      assert w.positions.Keys == {};
      RemoveNow(t, id);
    } else {
      WaitingSound(t, {id});
      forall it | it in w.positions
        ensures Follows(after.table, after.positions[it], after.passes[it])
      {
        FollowsWaiting(t, w.positions[it], w.passes[it], {id});
      }
    }
  }

  lemma RemoveNow(t: Table, id: Id)
    requires SoundTable(t) && t.iterationDepth == 0
    ensures var u := Erased(t, {id});
            && SoundTable(u) && u.owns == t.owns && u.iterationDepth == 0
            && (t.owns ==> AllPointers(u.entries) + u.deleted == AllPointers(t.entries) + t.deleted)
  {
    ErasedSound(t, {id});
    assert Erased(t, {id}) == Erased(t, {id}).(removedIds := {});
  }

  lemma WaitingSound(t: Table, ids: set<Id>)
    requires SoundTable(t) && t.iterationDepth > 0 && Among(ids, t.entries)
    ensures SoundTable(t.(removedIds := t.removedIds + ids))
  {
  }

  lemma ReplaceSound(w: World, id: Id, p: Pointer)
    requires Sound(w)
    ensures Sound(Step(w, Replace(id, p)))
  {
    hide Faithful, Follows, AllPointers, Keys, Find;
    var t := w.table;
    if id in Keys(t.entries) {
      var i := Find(t.entries, id);
      if i == |t.entries| {
        NotAmong(t.entries, id);
      }
      var after := t.entries[i := Entry(id, p)];
      assert t.entries[i].id == id;
      ReplacedPointers(t.entries, i, Entry(id, p));
      assert Conserved(Step(w, Replace(id, p))) by {
        Exchanged(w.given, AllPointers(t.entries), AllPointers(after), t.deleted, w.takenBack, p, t.entries[i].data);
      }
      forall it | it in w.positions
        ensures Follows(t.(entries := t.entries[i := Entry(id, p)]), w.positions[it], w.passes[it])
      {
        FollowsReplaced(t, w.positions[it], w.passes[it], i, p);
      }
    }
  }

  lemma Exchanged(given: multiset<Pointer>, before: multiset<Pointer>, after: multiset<Pointer>,
                  deleted: multiset<Pointer>, back: multiset<Pointer>, p: Pointer, previous: Pointer)
    requires after + multiset{previous} == before + multiset{p}
    ensures given == before + deleted + back
        ==> given + multiset{p} == after + deleted + (back + multiset{previous})
  {
    assert after + deleted + (back + multiset{previous}) == (after + multiset{previous}) + deleted + back;
    assert before + deleted + back + multiset{p} == (before + multiset{p}) + deleted + back;
  }

  lemma ReplacedPointers(entries: seq<Entry>, i: nat, e: Entry)
    requires i < |entries| && entries[i].id == e.id
    ensures AllPointers(entries[i := e]) + multiset{entries[i].data} == AllPointers(entries) + multiset{e.data}
    ensures Keys(entries[i := e]) == Keys(entries)
  {
    hide AllPointers;
    var after := entries[i := e];
    PointersAt(entries, i);
    PointersAt(after, i);
    assert after[..i] == entries[..i] && after[i + 1..] == entries[i + 1..];
  }

  lemma FollowsReplaced(t: Table, index: nat, p: Pass, i: nat, data: Pointer)
    requires Follows(t, index, p) && i < |t.entries|
    ensures Follows(t.(entries := t.entries[i := Entry(t.entries[i].id, data)]), index, p)
  {
    hide Keys;
    var after := t.entries[i := Entry(t.entries[i].id, data)];
    if index < |t.entries| {
      SameKeys(after[index + 1..], t.entries[index + 1..]);
    }
  }

  lemma ClearSound(w: World)
    requires Sound(w)
    ensures Sound(Step(w, Clear))
  {
    hide Faithful, Follows, AllPointers, SoundTable, Dropped, Keys;
    var after := Step(w, Clear);
    var t := w.table;
    forall it | it in w.passes
      ensures Faithful(after.passes[it])
    {
      FaithfulDropped(w.passes[it], IdSet(t.entries));
    }
    if t.iterationDepth == 0 {
      assert w.positions.Keys == {};
      EmptiedSound(t);
    } else {
      WaitingSound(t, IdSet(t.entries));
      forall it | it in w.positions
        ensures Follows(after.table, after.positions[it], after.passes[it])
      {
        FollowsWaiting(t, w.positions[it], w.passes[it], IdSet(t.entries));
      }
    }
  }

  lemma EmptiedSound(t: Table)
    requires SoundTable(t) && t.iterationDepth == 0
    ensures t.owns ==> SoundTable(Emptied(t))
    ensures AllPointers(Emptied(t).entries) + Emptied(t).deleted == AllPointers(t.entries) + t.deleted
  {
    NoPointers();
  }

  lemma NoPointers()
    ensures AllPointers([]) == multiset{}
  {
  }

  lemma DeeperSound(t: Table)
    requires SoundTable(t)
    ensures SoundTable(t.(iterationDepth := t.iterationDepth + 1))
  {
  }

  lemma OpenSound(w: World, it: nat)
    requires Sound(w) && Enabled(w, Open(it))
    ensures Sound(Step(w, Open(it)))
  {
    hide Faithful, Follows, SoundTable, AllPointers, Skip, Keys, Started, Live;
    var after := Step(w, Open(it));
    LiveDistinct(w.table);
    FollowsStarted(w.table);
    DeeperSound(w.table);
    assert after.positions.Keys == w.positions.Keys + {it};
    forall i | i in after.positions
      ensures Follows(after.table, after.positions[i], after.passes[i])
    {
      FollowsSameTable(w.table, after.table, after.positions[i], after.passes[i]);
    }
  }

  lemma FollowsStarted(t: Table)
    ensures Follows(t, Skip(t, 0), Started(Live(t)))
  {
    hide Visited;
    assert t.entries[0..] == t.entries;
    FollowsSkip(t, 0, Pass(Live(t), [], {}, Live(t)));
  }

  lemma DuplicateSound(w: World, of: nat, it: nat)
    requires Sound(w) && Enabled(w, Duplicate(of, it))
    ensures Sound(Step(w, Duplicate(of, it)))
  {
    hide Faithful, Follows, SoundTable, AllPointers, Keys, Visited, Skip;
    var i, p, after := w.positions[of], w.passes[of], Step(w, Duplicate(of, it));
    assert Follows(w.table, i, p);
    FaithfulVisited(p);
    FollowsCopied(w.table, i, p);
    DeeperSound(w.table);
    assert after.positions.Keys == w.positions.Keys + {it};
    forall i | i in after.positions
      ensures Follows(after.table, after.positions[i], after.passes[i])
    {
      FollowsSameTable(w.table, after.table, after.positions[i], after.passes[i]);
    }
  }

  lemma FollowsCopied(t: Table, i: nat, p: Pass)
    requires Follows(t, i, p)
    ensures Follows(t, Skip(t, i), if Skip(t, i) == i then p else Visited(p))
  {
    hide Visited;
    if Skip(t, i) != i {
      assert Skip(t, i) == Skip(t, i + 1);
      FollowsSkip(t, i + 1, p);
    }
  }

  lemma AdvanceSound(w: World, it: nat)
    requires Sound(w) && Enabled(w, Advance(it))
    ensures Sound(Step(w, Advance(it)))
  {
    hide Faithful, Follows, SoundTable, AllPointers, Keys, Visited, Skip;
    var i, p := w.positions[it], w.passes[it];
    assert Follows(w.table, i, p);
    FollowsAdvanced(w.table, i, p);
    FaithfulVisited(p);
    assert w.positions[it := Skip(w.table, i + 1)].Keys == w.positions.Keys;
  }

  lemma FollowsAdvanced(t: Table, i: nat, p: Pass)
    requires Follows(t, i, p) && i < |t.entries|
    ensures Follows(t, Skip(t, i + 1), Visited(p))
  {
    hide Visited;
    FollowsSkip(t, i + 1, p);
  }

  lemma CloseSound(w: World, it: nat)
    requires Sound(w) && Enabled(w, Close(it))
    ensures Sound(Step(w, Close(it)))
  {
    hide Faithful, AllPointers, Follows, Keep, PointersOf;
    assert (w.positions - {it}).Keys == w.positions.Keys - {it};
    assert |w.positions.Keys - {it}| == |w.positions| - 1;
    if w.table.iterationDepth == 1 {
      assert w.positions.Keys - {it} == {};
      ErasedSound(w.table, w.table.removedIds);
      assert Step(w, Close(it)).table == Erased(w.table, w.table.removedIds).(removedIds := {}, iterationDepth := 0);
    } else {
      var after := Step(w, Close(it));
      forall i | i in after.positions
        ensures Follows(after.table, after.positions[i], after.passes[i])
      {
        FollowsSameTable(w.table, after.table, after.positions[i], after.passes[i]);
      }
    }
  }

  lemma FollowsSameTable(t: Table, u: Table, i: nat, p: Pass)
    requires t.entries == u.entries && t.removedIds == u.removedIds
    ensures Follows(t, i, p) == Follows(u, i, p)
  {
  }

  lemma StepSound(w: World, op: Op)
    requires Sound(w) && Enabled(w, op)
    ensures Sound(Step(w, op))
  {
    match op
    case Add(p, at) => InsertSound(w, Entry(w.table.nextId, p), at, w.table.nextId + 1);
    case AddWithId(p, id, at) => InsertSound(w, Entry(id, p), at, w.table.nextId);
    case Remove(id) => RemoveSound(w, id);
    case Replace(id, p) => ReplaceSound(w, id, p);
    case Clear => ClearSound(w);
    case Open(it) => OpenSound(w, it);
    case Duplicate(of, it) => DuplicateSound(w, of, it);
    case Advance(it) => AdvanceSound(w, it);
    case Close(it) => CloseSound(w, it);
  }

  predicate Runs(w: World, ops: seq<Op>)
    decreases |ops|
  {
    ops != [] ==> Enabled(w, ops[0]) && Runs(Step(w, ops[0]), ops[1..])
  }

  function Final(w: World, ops: seq<Op>): World
    requires Runs(w, ops)
    decreases |ops|
  {
    if ops == [] then w else Final(Step(w, ops[0]), ops[1..])
  }

  lemma {:induction false} RunSound(w: World, ops: seq<Op>)
    requires Sound(w) && Runs(w, ops)
    ensures Sound(Final(w, ops))
    decreases |ops|
  {
    hide Sound, Step, Enabled;
    if ops != [] {
      StepSound(w, ops[0]);
      RunSound(Step(w, ops[0]), ops[1..]);
    }
  }

  lemma EmptySound(owns: bool)
    ensures Sound(Empty(owns))
  {
  }

  /**
   Over every run: the depth counts the iterators; size() does not underflow and counts the ids not
   waiting for removal, none of which wait at depth 0; an iteration that is at the end has visited,
   in table order and once each, the ids live at its start and not removed before; and in an owning
   map what came in is on the map, deleted or handed back.
   */
  lemma EveryRun(owns: bool, ops: seq<Op>)
    requires Runs(Empty(owns), ops)
    ensures var w := Final(Empty(owns), ops); var t := w.table;
            && t.iterationDepth == |w.positions|
            && |t.entries| - |t.removedIds| == |Live(t)|
            && (t.iterationDepth == 0 ==> Live(t) == Keys(t.entries))
            && Conserved(w)
            && forall it :: it in w.positions && w.positions[it] == |t.entries| ==>
                 it in w.passes && w.passes[it].visited == Without<Id>(w.passes[it].start, w.passes[it].dropped)
  {
    hide Runs, Final;
    EmptySound(owns);
    RunSound(Empty(owns), ops);
    var w := Final(Empty(owns), ops);
    WithoutSize(Keys(w.table.entries), w.table.removedIds);
    WithoutNone<Id>(Keys(w.table.entries), {});
    forall it | it in w.positions && w.positions[it] == |w.table.entries|
      ensures it in w.passes && w.passes[it].visited == Without<Id>(w.passes[it].start, w.passes[it].dropped)
    {
      assert Follows(w.table, w.positions[it], w.passes[it]) && Faithful(w.passes[it]);
      ConcatEmpty(w.passes[it].visited);
    }
  }

  /** The last iterator takes away exactly the entries that waited, and leaves the others in order. */
  lemma LastCloseCompacts(w: World, it: nat)
    requires Sound(w) && Enabled(w, Close(it)) && w.table.iterationDepth == 1
    ensures var u := Step(w, Close(it)).table;
            u.entries == Keep(w.table.entries, w.table.removedIds) && Keys(u.entries) == Live(w.table)
  {
    KeepKeys(w.table.entries, w.table.removedIds);
  }

  /** A pointer given to an owning map once and not taken back is deleted once when the map is gone. */
  lemma DeletedOnce(ops: seq<Op>, pointer: Pointer)
    requires Runs(Empty(true), ops)
    ensures var w := Final(Empty(true), ops);
            Emptied(w.table).deleted[pointer] + w.takenBack[pointer] == w.given[pointer]
  {
    hide Runs, Final, AllPointers;
    EveryRun(true, ops);
    OwnsForever(Empty(true), ops);
  }

  lemma {:induction false} OwnsForever(w: World, ops: seq<Op>)
    requires Runs(w, ops)
    ensures Final(w, ops).table.owns == w.table.owns
    decreases |ops|
  {
    if ops != [] {
      OwnsForever(Step(w, ops[0]), ops[1..]);
    }
  }

  // ---------------------------------------------------------------- what each call does to the entries

  /** A new entry is there; the others are as they were, in their order. */
  lemma InsertedExactly(t: Table, e: Entry, at: nat)
    requires SoundTable(t) && e.id !in Keys(t.entries) && at <= |t.entries|
    ensures e in Inserted(t, e, at).entries && Keep(Inserted(t, e, at).entries, {e.id}) == t.entries
    ensures Inserted(t, e, at) == t.(entries := Inserted(t, e, at).entries)
  {
    hide Keys, Keep;
    var before, after := t.entries[..at], t.entries[at..];
    assert (before + [e] + after)[at] == e;
    KeepAbsent(before, t.entries, e.id);
    KeepAbsent(after, t.entries, e.id);
    KeepConcat(before + [e], after, {e.id});
    KeepConcat(before, [e], {e.id});
    KeepOne(e);
    assert t.entries == before + after && before + [] == before;
  }

  lemma KeepAbsent(some: seq<Entry>, all: seq<Entry>, id: Id)
    requires (forall e :: e in some ==> e in all) && id !in Keys(all)
    ensures Keep(some, {id}) == some
  {
    forall k | 0 <= k < |some|
      ensures some[k].id != id
    {
      assert some[k] in all;
      var i :| 0 <= i < |all| && all[i] == some[k];
      assert Keys(all)[i] == some[k].id;
    }
    KeepOthers(some, id);
  }

  /**
   After Remove the id is not live and the other live ids are, in order. Without iterators its entry is
   gone, and an owned pointer deleted; with iterators the entries stay until the last one dies.
   */
  lemma RemovedExactly(t: Table, id: Id)
    requires SoundTable(t)
    ensures Live(Removed(t, id)) == Without<Id>(Live(t), {id})
    ensures id !in Keys(t.entries) ==> Removed(t, id) == t
    ensures t.iterationDepth > 0 ==> Removed(t, id) == t.(removedIds := Removed(t, id).removedIds)
    ensures t.iterationDepth == 0 ==> Removed(t, id).entries == Keep(t.entries, {id}) && Removed(t, id).removedIds == {}
    ensures t.iterationDepth == 0 ==> forall e :: e in t.entries && e.id == id ==>
              Removed(t, id).deleted == t.deleted + if t.owns then multiset{e.data} else multiset{}
  {
    hide Keys, Keep, PointersOf;
    if id !in Keys(t.entries) {
      forall x | x in Live(t)
        ensures x != id
      {
        WithoutHas<Id>(Keys(t.entries), t.removedIds, x);
      }
      WithoutNone<Id>(Live(t), {id});
      KeepAbsent(t.entries, t.entries, id);
    } else if t.iterationDepth > 0 {
      WithoutUnion<Id>(Keys(t.entries), t.removedIds, {id});
    } else {
      KeepKeys(t.entries, {id});
      WithoutNone<Id>(Keys(t.entries), {});
      WithoutNone<Id>(Without<Id>(Keys(t.entries), {id}), {});
    }
    forall e | e in t.entries && e.id == id
      ensures id in Keys(t.entries) && PointersOf(t.entries, {id}) == multiset{e.data}
    {
      PointerOfOne(t.entries, e);
    }
  }

  lemma PointerOfOne(entries: seq<Entry>, e: Entry)
    requires NoRepeats<Id>(Keys(entries)) && e in entries
    ensures e.id in Keys(entries) && PointersOf(entries, {e.id}) == multiset{e.data}
  {
    var i :| 0 <= i < |entries| && entries[i] == e;
    assert Keys(entries)[i] == e.id;
    KeepCuts(entries, i);
  }

  /** Replace exchanges the pointer of the id for the one it returns, deletes nothing, and ignores other ids. */
  lemma ReplacedExactly(t: Table, id: Id, data: Pointer)
    requires SoundTable(t)
    ensures var (u, previous) := Replaced(t, id, data);
            && u == t.(entries := u.entries) && Keys(u.entries) == Keys(t.entries)
            && (if id in Keys(t.entries) then Entry(id, previous) in t.entries && Entry(id, data) in u.entries
                else u == t && previous == 0)
            && forall e: Entry :: e.id != id ==> (e in u.entries <==> e in t.entries)
  {
    var i := Find(t.entries, id);
    if i == |t.entries| {
      NotAmong(t.entries, id);
    } else {
      assert Keys(t.entries)[i] == id && t.entries[i] == Entry(id, t.entries[i].data);
      var after := t.entries[i := Entry(id, data)];
      assert after[i] == Entry(id, data);
      SameKeys(after, t.entries);
      forall e: Entry | e.id != id
        ensures e in after <==> e in t.entries
      {
        if e in after {
          var j :| 0 <= j < |after| && after[j] == e;
          assert t.entries[j] == e;
        }
        if e in t.entries {
          var j :| 0 <= j < |after| && t.entries[j] == e;
          assert after[j] == e;
        }
      }
    }
  }

  /** Add takes the next id, and the one after it comes next; an id that the caller gives leaves that alone. */
  lemma AddTakesNextId(w: World, p: Pointer, id: Id, at: nat)
    requires at <= |w.table.entries|
    ensures Enabled(w, Add(p, at)) ==>
              var after := Step(w, Add(p, at));
              Entry(w.table.nextId, p) in after.table.entries && after.table.nextId == w.table.nextId + 1
    ensures Enabled(w, AddWithId(p, id, at)) ==>
              var after := Step(w, AddWithId(p, id, at));
              Entry(id, p) in after.table.entries && after.table.nextId == w.table.nextId
  {
    assert (w.table.entries[..at] + [Entry(id, p)] + w.table.entries[at..])[at] == Entry(id, p);
    var next := Entry(w.table.nextId, p);
    assert (w.table.entries[..at] + [next] + w.table.entries[at..])[at] == next;
  }

  /** Nothing but iterators keeps an entry from being put anywhere in the table, as long as ids are left. */
  lemma EntriesCanBeAdded(w: World, p: Pointer, id: Id, at: nat)
    requires Sound(w) && w.positions == map[] && at <= |w.table.entries|
    ensures id !in Keys(w.table.entries) ==> Enabled(w, AddWithId(p, id, at))
    ensures w.table.nextId !in Keys(w.table.entries) ==> (Enabled(w, Add(p, at)) <==> w.table.nextId <= 0x7FFF_FFFE)
  {
    hide Keys, Faithful, SoundTable, AllPointers;
  }

  lemma IteratorInTable(w: World, it: nat)
    requires Sound(w) && it in w.positions
    ensures w.table.iterationDepth > 0 && w.positions[it] <= |w.table.entries|
  {
    hide Keys, Faithful, SoundTable, AllPointers, Conserved;
    assert it in w.positions.Keys;
    assert Follows(w.table, w.positions[it], w.passes[it]);
  }

  /** An iterator is closed at any time, and goes on unless it is at the end. */
  lemma IteratorsGoOn(w: World, it: nat)
    requires Sound(w) && it in w.positions
    ensures Enabled(w, Close(it)) && (Enabled(w, Advance(it)) <==> w.positions[it] != |w.table.entries|)
  {
    hide Sound, Keys, NoRepeats, Live;
    IteratorInTable(w, it);
    assert it in w.positions && w.table.iterationDepth > 0;
  }

  /** It can be copied, and another one made, at any time. */
  lemma IteratorsCanBeMade(w: World, it: nat, other: nat)
    requires Sound(w) && other !in w.positions
    ensures Enabled(w, Open(other)) && (it in w.positions ==> Enabled(w, Duplicate(it, other)))
  {
    hide Sound, Keys;
    if it in w.positions {
      IteratorInTable(w, it);
    }
  }

  /** A new iterator is at the first live id, and has all of them to visit. */
  lemma OpenStarts(w: World, it: nat)
    requires Sound(w) && Enabled(w, Open(it))
    ensures var live, entries, after := Live(w.table), w.table.entries, Step(w, Open(it));
            && it in after.positions && it in after.passes && after.table.entries == entries
            && after.passes[it].start == live && after.passes[it].visited + after.passes[it].todo == live
            && (if live == [] then after.positions[it] == |entries|
                else after.positions[it] < |entries| && entries[after.positions[it]].id == live[0]
                     && after.passes[it].visited == [live[0]])
  {
    hide Keys, Without, Faithful, Follows, SoundTable, AllPointers;
    SkipFinds(w.table, 0);
    assert w.table.entries[0..] == w.table.entries;
  }

  /** Clear leaves no live id, except in a map of external pointers that no iterator is alive on. */
  lemma ClearsExactly(t: Table)
    requires SoundTable(t)
    ensures Live(Cleared(t)) == [] <==> t.entries == [] || t.owns || t.iterationDepth > 0
    ensures t.iterationDepth == 0 && !t.owns ==> Cleared(t) == t
  {
    WithoutAll<Id>(Keys(t.entries), t.removedIds + IdSet(t.entries));
    WithoutNone<Id>(Keys(t.entries), {});
  }

  /** Such a map, with one pointer in it. */
  lemma ExternalPointerStays()
    ensures var t := Table(false, [Entry(1, 5)], {}, 0, 2, multiset{}); SoundTable(t) && Live(Cleared(t)) == [1]
  {
    assert Keys([Entry(1, 5)]) == [1];
  }
}
