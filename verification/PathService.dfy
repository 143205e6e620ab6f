/**
 path_service.cc: paths by key from overrides and a list of providers, which may ask the service
 for other keys themselves, behind a cache. The cache is judged by the lookup without one.
 */
module PathServices {
  import opened Optional

  type Key = nat
  type Path = string
  type Answer = Option<Path>  // what Get returns: None for false

  const DIR_CURRENT: Key := 1

  /** What a provider does next: give up, find a path, or call Get itself. */
  datatype Action = Failed | Found(path: Path) | Ask(key: Key)

  /** A provider acts on the key it was called for and the answers its calls of Get had so far. */
  type Provider = (Key, seq<Answer>) -> Action

  /** The providers in list order, and what the file system answers. */
  datatype System = System(providers: seq<Provider>, currentDirectory: Answer,
                           referencesParent: Path -> bool, makeAbsolute: Path -> Path)

  /** What Get makes of the path that the providers found, which is empty if none did. */
  function Finished(sys: System, path: Path): Answer
  {
    if path == "" then None
    else if !sys.referencesParent(path) then Some(path)
    else if sys.makeAbsolute(path) == "" then None
    else Some(sys.makeAbsolute(path))
  }

  // ---------------------------------------------------------------- the lookup without a cache

  /** The answer for key, or None if more than fuel calls of Get were nested or in sequence. */
  function Lookup(sys: System, overrides: map<Key, Path>, key: Key, fuel: nat): (r: Option<Answer>)
    decreases fuel, 2, 0
  {
    if key == DIR_CURRENT then Some(sys.currentDirectory)
    else if key in overrides then Some(Some(overrides[key]))
    else Search(sys, overrides, key, 0, fuel)
  }

  /** From the i-th provider on, until one returns true. */
  function Search(sys: System, overrides: map<Key, Path>, key: Key, i: nat, fuel: nat): (r: Option<Answer>)
    requires i <= |sys.providers|
    decreases fuel, 1, |sys.providers| - i
  {
    if i == |sys.providers| then Some(Finished(sys, ""))
    else
      var path := Provided(sys, overrides, key, i, [], fuel);
      if path.None? then None
      else if path.value.None? then Search(sys, overrides, key, i + 1, fuel)
      else Some(Finished(sys, path.value.value))
  }

  /** The rest of a provider's run after the answers it has had: the path it found, if it did. */
  function Provided(sys: System, overrides: map<Key, Path>, key: Key, i: nat, answers: seq<Answer>, fuel: nat)
    : (r: Option<Option<Path>>)
    requires i < |sys.providers|
    decreases fuel, 0, 0
  {
    match sys.providers[i](key, answers)
    case Failed => Some(None)
    case Found(path) => Some(Some(path))
    case Ask(k) =>
      if fuel == 0 then None
      else
        var answer := Lookup(sys, overrides, k, fuel - 1);
        if answer.None? then None else Provided(sys, overrides, key, i, answers + [answer.value], fuel - 1)
  }

  /** The one answer that the lookup gives, if its providers come to an end. */
  ghost predicate Answers(sys: System, overrides: map<Key, Path>, key: Key, answer: Answer)
  {
    exists fuel: nat :: Lookup(sys, overrides, key, fuel) == Some(answer)
  }

  lemma {:induction false} LookupMoreFuel(sys: System, overrides: map<Key, Path>, key: Key, fuel: nat, more: nat)
    requires fuel <= more && Lookup(sys, overrides, key, fuel).Some?
    ensures Lookup(sys, overrides, key, more) == Lookup(sys, overrides, key, fuel)
    decreases fuel, 2, 0
  {
    if key != DIR_CURRENT && key !in overrides {
      SearchMoreFuel(sys, overrides, key, 0, fuel, more);
    }
  }

  lemma {:induction false} SearchMoreFuel(sys: System, overrides: map<Key, Path>, key: Key, i: nat, fuel: nat, more: nat)
    requires fuel <= more && i <= |sys.providers| && Search(sys, overrides, key, i, fuel).Some?
    ensures Search(sys, overrides, key, i, more) == Search(sys, overrides, key, i, fuel)
    decreases fuel, 1, |sys.providers| - i
  {
    if i < |sys.providers| {
      ProvidedMoreFuel(sys, overrides, key, i, [], fuel, more);
      if Provided(sys, overrides, key, i, [], fuel).value.None? {
        SearchMoreFuel(sys, overrides, key, i + 1, fuel, more);
      }
    }
  }

  lemma {:induction false} ProvidedMoreFuel(sys: System, overrides: map<Key, Path>, key: Key, i: nat,
                                            answers: seq<Answer>, fuel: nat, more: nat)
    requires fuel <= more && i < |sys.providers| && Provided(sys, overrides, key, i, answers, fuel).Some?
    ensures Provided(sys, overrides, key, i, answers, more) == Provided(sys, overrides, key, i, answers, fuel)
    decreases fuel, 0, 0
  {
    match sys.providers[i](key, answers)
    case Ask(k) =>
      LookupMoreFuel(sys, overrides, k, fuel - 1, more - 1);
      var answer := Lookup(sys, overrides, k, fuel - 1);
      ProvidedMoreFuel(sys, overrides, key, i, answers + [answer.value], fuel - 1, more - 1);
    case _ =>
  }

  /** A key has at most one answer, and it is what every lookup with enough fuel gives. */
  lemma OneAnswer(sys: System, overrides: map<Key, Path>, key: Key, answer: Answer, fuel: nat)
    requires Answers(sys, overrides, key, answer) && Lookup(sys, overrides, key, fuel).Some?
    ensures Lookup(sys, overrides, key, fuel) == Some(answer)
  {
    var other :| Lookup(sys, overrides, key, other) == Some(answer);
    if fuel <= other {
      LookupMoreFuel(sys, overrides, key, fuel, other);
    } else {
      LookupMoreFuel(sys, overrides, key, other, fuel);
    }
  }

  // ---------------------------------------------------------------- which answer that is

  /** The current directory is asked for each time; an override decides; nothing else is looked at then. */
  lemma DecidedAtOnce(sys: System, overrides: map<Key, Path>, key: Key)
    ensures DIR_CURRENT == 1 && (key == DIR_CURRENT ==> Answers(sys, overrides, key, sys.currentDirectory))
    ensures key != DIR_CURRENT && key in overrides ==> Answers(sys, overrides, key, Some(overrides[key]))
  {
    assert key == DIR_CURRENT || key in overrides ==> Lookup(sys, overrides, key, 0).Some?;
  }

  /** The path of the first provider that finds one decides, made absolute if it has a ".." in it. */
  lemma FirstFoundDecides(sys: System, overrides: map<Key, Path>, key: Key, i: nat, path: Path)
    requires key != DIR_CURRENT && key !in overrides && i < |sys.providers|
    requires (forall j :: 0 <= j < i ==> sys.providers[j](key, []) == Failed) && sys.providers[i](key, []) == Found(path)
    ensures path == "" ==> Answers(sys, overrides, key, None)
    ensures path != "" && !sys.referencesParent(path) ==> Answers(sys, overrides, key, Some(path))
    ensures path != "" && sys.referencesParent(path) ==>
              Answers(sys, overrides, key, if sys.makeAbsolute(path) == "" then None else Some(sys.makeAbsolute(path)))
  {
    SearchFails(sys, overrides, key, 0, i);
    assert Lookup(sys, overrides, key, 0) == Some(Finished(sys, path));
  }

  lemma {:induction false} SearchFails(sys: System, overrides: map<Key, Path>, key: Key, j: nat, i: nat)
    requires j <= i <= |sys.providers| && forall k :: j <= k < i ==> sys.providers[k](key, []) == Failed
    ensures Search(sys, overrides, key, j, 0) == Search(sys, overrides, key, i, 0)
    decreases i - j
  {
    if j < i {
      SearchFails(sys, overrides, key, j + 1, i);
    }
  }

  /** If none does, Get fails. */
  lemma NoneFoundFails(sys: System, overrides: map<Key, Path>, key: Key)
    requires key != DIR_CURRENT && key !in overrides
    requires forall j :: 0 <= j < |sys.providers| ==> sys.providers[j](key, []) == Failed
    ensures Answers(sys, overrides, key, None)
  {
    SearchFails(sys, overrides, key, 0, |sys.providers|);
    assert Lookup(sys, overrides, key, 0) == Some(None);
  }

  /** A provider that asks for another key goes on with just the answer to that. */
  lemma AskedIsAnswered(sys: System, overrides: map<Key, Path>, key: Key, k: Key, a: Answer, path: Path)
    requires key != DIR_CURRENT && key !in overrides && sys.providers != []
    requires sys.providers[0](key, []) == Ask(k) && Answers(sys, overrides, k, a)
    requires sys.providers[0](key, [a]) == Found(path) && path != "" && !sys.referencesParent(path)
    ensures Answers(sys, overrides, key, Some(path))
  {
    var fuel: nat :| Lookup(sys, overrides, k, fuel) == Some(a);
    assert [] + [a] == [a];
    assert Provided(sys, overrides, key, 0, [a], fuel) == Some(Some(path));
    assert Provided(sys, overrides, key, 0, [], fuel + 1) == Some(Some(path));
    assert Lookup(sys, overrides, key, fuel + 1) == Some(Some(path));
  }

  /** No path that providers found is returned empty or with a ".." in it, if absolute paths have none. */
  lemma NoParentIsLeft(sys: System, overrides: map<Key, Path>, key: Key, path: Path)
    requires key != DIR_CURRENT && key !in overrides && Answers(sys, overrides, key, Some(path))
    requires forall p :: !sys.referencesParent(sys.makeAbsolute(p))
    ensures path != "" && !sys.referencesParent(path)
  {
    var fuel: nat :| Lookup(sys, overrides, key, fuel) == Some(Some(path));
    SearchFinishes(sys, overrides, key, 0, fuel, path);
  }

  lemma {:induction false} SearchFinishes(sys: System, overrides: map<Key, Path>, key: Key, i: nat, fuel: nat, path: Path)
    requires i <= |sys.providers| && Search(sys, overrides, key, i, fuel) == Some(Some(path))
    requires forall p :: !sys.referencesParent(sys.makeAbsolute(p))
    ensures path != "" && !sys.referencesParent(path)
    decreases |sys.providers| - i
  {
    hide Provided;
    if i < |sys.providers| && Provided(sys, overrides, key, i, [], fuel) == Some(None) {
      SearchFinishes(sys, overrides, key, i + 1, fuel, path);
    }
  }

  // ---------------------------------------------------------------- the service

  /** Every cached path is the one that the lookup gives, and nothing is cached once that is disabled. */
  ghost predicate Coherent(sys: System, cache: map<Key, Path>, overrides: map<Key, Path>, disabled: bool)
  {
    && (forall key :: key in cache ==> Answers(sys, overrides, key, Some(cache[key])))
    && (disabled ==> cache == map[])
  }

  /** Nothing is lost from the cache or changed in it, and the current directory does not come into it. */
  ghost predicate Extends(cache: map<Key, Path>, before: map<Key, Path>)
  {
    && (forall key :: key in before ==> key in cache && cache[key] == before[key])
    && (DIR_CURRENT in cache ==> DIR_CURRENT in before)
  }

  class PathData {
    const sys: System
    var cache: map<Key, Path>
    var overrides: map<Key, Path>
    var cacheDisabled: bool

    ghost predicate Valid()
      reads this
    {
      Coherent(sys, cache, overrides, cacheDisabled)
    }

    constructor (sys: System)
      ensures this.sys == sys && Valid() && cache == map[] && overrides == map[] && !cacheDisabled
    {
      this.sys := sys;
      cache, overrides, cacheDisabled := map[], map[], false;
    }

    /**
     Get, which leaves result alone when it returns false. fuel bounds the calls that providers make;
     returned is false if they made more.
     */
    method Get(key: Key, previous: Path, fuel: nat) returns (returned: bool, ok: bool, result: Path)
      requires Valid()
      modifies `cache
      ensures Valid()
      ensures returned ==> Answers(sys, overrides, key, if ok then Some(result) else None)
      ensures Lookup(sys, overrides, key, fuel).Some? ==> returned
      ensures !ok ==> result == previous
      ensures Extends(cache, old(cache))
      ensures returned && ok && key != DIR_CURRENT && !cacheDisabled ==> key in cache && cache[key] == result
      ensures key == DIR_CURRENT ==> returned && cache == old(cache)
      ensures key != DIR_CURRENT && key in old(cache) ==> returned && ok && result == old(cache)[key] && cache == old(cache)
      ensures key != DIR_CURRENT && key !in old(cache) && key in overrides ==>
                returned && ok && result == overrides[key]
                && cache == if cacheDisabled then old(cache) else old(cache)[key := result]
      decreases fuel, 2, 0
    {
      returned, ok, result := true, false, previous;
      if key == DIR_CURRENT {
        AnsweredWith(sys, overrides, key, 0);
        if sys.currentDirectory.Some? {
          ok, result := true, sys.currentDirectory.value;
        }
        return;
      }
      if !cacheDisabled && key in cache {
        return true, true, cache[key];
      }
      if key in overrides {
        AnsweredWith(sys, overrides, key, 0);
        ok, result := true, overrides[key];
        Remember(key, result);
        return;
      }
      var path: Path;
      returned, path := AskProviders(key, fuel);
      if !returned {
        return;
      }
      if path == "" {
        return;
      }
      if sys.referencesParent(path) {
        path := sys.makeAbsolute(path);
        if path == "" {
          return;
        }
      }
      ok, result := true, path;
      Remember(key, path);
    }

    /**
     OverrideAndCreateIfNeeded. available says whether the directory exists or could be created;
     it counts only if create is set.
     */
    method Override(key: Key, path: Path, isAbsolute: bool, create: bool, available: bool) returns (ok: bool)
      requires Valid() && key > DIR_CURRENT
      modifies this
      ensures Valid() && cacheDisabled == old(cacheDisabled)
      ensures ok <==> (create ==> available) && (isAbsolute || sys.makeAbsolute(path) != "")
      ensures ok ==> cache == map[]
      ensures ok ==> overrides == old(overrides)[key := if isAbsolute then path else sys.makeAbsolute(path)]
      ensures !ok ==> cache == old(cache) && overrides == old(overrides)
    {
      if create && !available {
        return false;
      }
      var filePath := path;
      if !isAbsolute {
        filePath := sys.makeAbsolute(path);
        if filePath == "" {
          return false;
        }
      }
      cache := map[];
      overrides := overrides[key := filePath];
      return true;
    }

    method RemoveOverride(key: Key) returns (ok: bool)
      requires Valid()
      modifies this
      ensures Valid() && cacheDisabled == old(cacheDisabled)
      ensures ok <==> key in old(overrides)
      ensures overrides == old(overrides) - {key} && cache == if ok then map[] else old(cache)
    {
      if key !in overrides {
        assert overrides - {key} == overrides;
        return false;
      }
      cache := map[];
      overrides := overrides - {key};
      return true;
    }

    method DisableCache()
      requires Valid()
      modifies this
      ensures Valid() && cache == map[] && cacheDisabled && overrides == old(overrides)
    {
      cache, cacheDisabled := map[], true;
    }

    method Remember(key: Key, path: Path)
      requires Valid() && Answers(sys, overrides, key, Some(path))
      modifies `cache
      ensures Valid()
      ensures cache == if cacheDisabled then old(cache) else old(cache)[key := path]
    {
      if !cacheDisabled {
        cache := cache[key := path];
      }
    }

    /** The loop over the providers: the path of the first that returns true, or an empty one. */
    method AskProviders(key: Key, fuel: nat) returns (returned: bool, path: Path)
      requires Valid() && key != DIR_CURRENT && key !in overrides
      modifies `cache
      ensures Valid()
      ensures returned ==> Answers(sys, overrides, key, Finished(sys, path))
      ensures Lookup(sys, overrides, key, fuel).Some? ==> returned
      ensures Extends(cache, old(cache))
      decreases fuel, 1, 0
    {
      var i, enough := 0, fuel;
      ghost var spent: nat := 0;
      while i < |sys.providers|
        invariant i <= |sys.providers| && Valid() && Extends(cache, old(cache))
        invariant Search(sys, overrides, key, 0, fuel).Some? ==> Search(sys, overrides, key, i, fuel).Some?
        invariant forall f: nat :: f >= spent ==> Search(sys, overrides, key, 0, f) == Search(sys, overrides, key, i, f)
      {
        var answered, found, p := RunProvider(key, i, fuel);
        if !answered {
          return false, "";
        }
        ghost var f: nat :| Provided(sys, overrides, key, i, [], f) == Some(if found then Some(p) else None);
        ProviderDecides(sys, overrides, key, i, f, if found then Some(p) else None);
        if found {
          ghost var enoughFuel := if f < spent then spent else f;
          assert Search(sys, overrides, key, 0, enoughFuel) == Some(Finished(sys, p));
          assert Lookup(sys, overrides, key, enoughFuel) == Some(Finished(sys, p));
          return true, p;
        }
        i, spent := i + 1, if f < spent then spent else f;
      }
      assert Search(sys, overrides, key, 0, spent) == Some(Finished(sys, ""));
      assert Lookup(sys, overrides, key, spent) == Some(Finished(sys, ""));
      return true, "";
    }

    /** One call of the i-th provider, with the calls of Get that it makes. */
    method RunProvider(key: Key, i: nat, fuel: nat) returns (returned: bool, found: bool, path: Path)
      requires Valid() && i < |sys.providers|
      modifies `cache
      ensures Valid()
      ensures returned ==>
        exists f: nat :: Provided(sys, overrides, key, i, [], f) == Some(if found then Some(path) else None)
      ensures Provided(sys, overrides, key, i, [], fuel).Some? ==> returned
      ensures Extends(cache, old(cache))
      decreases fuel, 0, 0
    {
      hide Provided, Lookup, Coherent, Reduces, Answers;
      var answers: seq<Answer> := [];
      var left: nat := fuel;
      ghost var spent: nat := 0;
      ReducesAtOnce(sys, overrides, key, i);
      while true
        invariant Valid() && left <= fuel && Extends(cache, old(cache))
        invariant Provided(sys, overrides, key, i, [], fuel).Some? ==> Provided(sys, overrides, key, i, answers, left).Some?
        invariant Reduces(sys, overrides, key, i, answers, spent)
        decreases left
      {
        match sys.providers[i](key, answers) {
          case Failed =>
            ReducedToEnd(sys, overrides, key, i, answers, spent);
            return true, false, "";
          case Found(p) =>
            ReducedToEnd(sys, overrides, key, i, answers, spent);
            return true, true, p;
          case Ask(k) =>
            if left == 0 {
              AskNeedsFuel(sys, overrides, key, i, answers);
              return false, false, "";
            }
            AskDecided(sys, overrides, key, i, answers, k, left);
            var answered, ok, answer := Get(k, "", left - 1);
            if !answered {
              return false, false, "";
            }
            spent := ReducesFurther(sys, overrides, key, i, answers, spent, k, if ok then Some(answer) else None, left);
            answers := answers + [if ok then Some(answer) else None];
            left := left - 1;
        }
      }
    }
  }

  /** With spent or more fuel left, a provider's whole run gives what its run after answers gives. */
  ghost predicate Reduces(sys: System, overrides: map<Key, Path>, key: Key, i: nat, answers: seq<Answer>, spent: nat)
    requires i < |sys.providers|
  {
    forall f: nat :: f >= spent ==>
      Provided(sys, overrides, key, i, [], f + |answers|) == Provided(sys, overrides, key, i, answers, f)
  }

  lemma ReducesAtOnce(sys: System, overrides: map<Key, Path>, key: Key, i: nat)
    requires i < |sys.providers|
    ensures Reduces(sys, overrides, key, i, [], 0)
  {
    hide Provided;
  }

  lemma ReducedToEnd(sys: System, overrides: map<Key, Path>, key: Key, i: nat, answers: seq<Answer>, spent: nat)
    requires i < |sys.providers| && Reduces(sys, overrides, key, i, answers, spent)
    requires !sys.providers[i](key, answers).Ask?
    ensures var action := sys.providers[i](key, answers);
            exists f: nat :: Provided(sys, overrides, key, i, [], f) == Some(if action.Found? then Some(action.path) else None)
    ensures forall f: nat :: Provided(sys, overrides, key, i, answers, f).Some?
  {
    assert Provided(sys, overrides, key, i, answers, spent) == Provided(sys, overrides, key, i, [], spent + |answers|);
  }

  lemma AskNeedsFuel(sys: System, overrides: map<Key, Path>, key: Key, i: nat, answers: seq<Answer>)
    requires i < |sys.providers| && sys.providers[i](key, answers).Ask?
    ensures Provided(sys, overrides, key, i, answers, 0) == None
  {
  }

  lemma AskDecided(sys: System, overrides: map<Key, Path>, key: Key, i: nat, answers: seq<Answer>,
                   k: Key, left: nat)
    requires i < |sys.providers| && sys.providers[i](key, answers) == Ask(k) && left > 0
    ensures Provided(sys, overrides, key, i, answers, left).Some? ==> Lookup(sys, overrides, k, left - 1).Some?
  {
    hide Lookup;
  }

  lemma ReducesFurther(sys: System, overrides: map<Key, Path>, key: Key, i: nat, answers: seq<Answer>,
                       spent: nat, k: Key, a: Answer, left: nat) returns (more: nat)
    requires i < |sys.providers| && Reduces(sys, overrides, key, i, answers, spent)
    requires sys.providers[i](key, answers) == Ask(k) && Answers(sys, overrides, k, a) && left > 0
    ensures Reduces(sys, overrides, key, i, answers + [a], more)
    ensures Provided(sys, overrides, key, i, answers, left).Some?
        ==> Provided(sys, overrides, key, i, answers + [a], left - 1).Some?
  {
    hide Lookup;
    var fuel: nat :| Lookup(sys, overrides, k, fuel) == Some(a);
    more := if fuel < spent then spent else fuel;
    AskDecides(sys, overrides, key, i, answers, k, fuel, a);
    if Lookup(sys, overrides, k, left - 1).Some? {
      OneAnswer(sys, overrides, k, a, left - 1);
    }
    hide Provided;
    forall f: nat | f >= more
      ensures Provided(sys, overrides, key, i, [], f + |answers + [a]|) == Provided(sys, overrides, key, i, answers + [a], f)
    {
      assert Provided(sys, overrides, key, i, [], f + 1 + |answers|) == Provided(sys, overrides, key, i, answers, f + 1);
    }
  }

  lemma AnsweredWith(sys: System, overrides: map<Key, Path>, key: Key, fuel: nat)
    requires Lookup(sys, overrides, key, fuel).Some?
    ensures Answers(sys, overrides, key, Lookup(sys, overrides, key, fuel).value)
  {
  }

  /** Once a provider's result is known for some fuel, it decides the search for all larger ones. */
  lemma ProviderDecides(sys: System, overrides: map<Key, Path>, key: Key, i: nat, fuel: nat, p: Option<Path>)
    requires i < |sys.providers| && Provided(sys, overrides, key, i, [], fuel) == Some(p)
    ensures forall f: nat :: f >= fuel ==>
      Search(sys, overrides, key, i, f)
        == (if p.Some? then Some(Finished(sys, p.value)) else Search(sys, overrides, key, i + 1, f))
    ensures forall f: nat :: Search(sys, overrides, key, i, f).Some? && p.None? ==> Search(sys, overrides, key, i + 1, f).Some?
  {
    forall f: nat | f >= fuel
      ensures Provided(sys, overrides, key, i, [], f) == Some(p)
    {
      ProvidedMoreFuel(sys, overrides, key, i, [], fuel, f);
    }
    forall f: nat | Provided(sys, overrides, key, i, [], f).Some? && f < fuel
      ensures Provided(sys, overrides, key, i, [], f) == Some(p)
    {
      ProvidedMoreFuel(sys, overrides, key, i, [], f, fuel);
    }
  }

  /** The same for the answer to a call of Get that a provider makes. */
  lemma AskDecides(sys: System, overrides: map<Key, Path>, key: Key, i: nat, answers: seq<Answer>,
                   k: Key, fuel: nat, a: Answer)
    requires i < |sys.providers| && sys.providers[i](key, answers) == Ask(k) && Lookup(sys, overrides, k, fuel) == Some(a)
    ensures forall f: nat :: f >= fuel ==>
      Provided(sys, overrides, key, i, answers, f + 1) == Provided(sys, overrides, key, i, answers + [a], f)
  {
    forall f: nat | f >= fuel
      ensures Provided(sys, overrides, key, i, answers, f + 1) == Provided(sys, overrides, key, i, answers + [a], f)
    {
      LookupMoreFuel(sys, overrides, k, fuel, f);
    }
  }

  // ---------------------------------------------------------------- calls that overlap

  type Overrides = map<Key, Path>

  datatype Change = Set(key: Key, path: Path) | Drop(key: Key)

  /**
   A call of Get that has given up the lock: the overrides as it left them and what changed them since,
   the provider it is at, and the answers that the provider's own calls of Get have had.
   */
  datatype Frame = Frame(key: Key, left: Overrides, changes: seq<Change>, i: nat, answers: seq<Answer>)

  /** The calls that a thread is in, innermost first. */
  datatype Stack = Idle | Frames(top: Frame, below: Stack)

  datatype Shared = Shared(cache: map<Key, Path>, overrides: Overrides, disabled: bool, stacks: map<nat, Stack>)

  const UNUSED := Shared(map[], map[], false, map[])

  /** Continue goes on with the innermost call of a thread; a call that its provider makes is part of that. */
  datatype Event =
    | Call(t: nat, key: Key)
    | Continue(t: nat)
    | Override(change: Change)
    | Disable

  function StackOf(s: Shared, t: nat): (st: Stack) { if t in s.stacks then s.stacks[t] else Idle }

  predicate Enabled(s: Shared, e: Event)
  {
    match e
    case Call(t, _) => StackOf(s, t).Idle?
    case Continue(t) => StackOf(s, t).Frames?
    case Override(c) => Proper(c)
    case Disable => true
  }

  /** Override is only for keys above that of the current directory. */
  predicate Proper(c: Change) { c.Set? ==> c.key > DIR_CURRENT }

  predicate AllProper(o: Overrides) { forall key :: key in o ==> key > DIR_CURRENT }

  function Put(s: Shared, t: nat, st: Stack): (s': Shared) { s.(stacks := s.stacks[t := st]) }

  /** The second section of Get, and the end of the first one for an override. */
  function Remembered(s: Shared, key: Key, path: Path): (s': Shared)
  {
    if s.disabled then s else s.(cache := s.cache[key := path])
  }

  /** A call of the thread returns: to the provider that made it, if there is one. */
  function Delivered(s: Shared, t: nat, answer: Answer): (s': Shared)
  {
    match StackOf(s, t)
    case Idle => s
    case Frames(f, below) => Put(s, t, Frames(f.(answers := f.answers + [answer]), below))
  }

  /** The first section of Get: the cache, then the overrides, or else the providers without the lock. */
  function Entered(sys: System, s: Shared, t: nat, key: Key): (s': Shared)
  {
    if key == DIR_CURRENT then Delivered(s, t, sys.currentDirectory)
    else if !s.disabled && key in s.cache then Delivered(s, t, Some(s.cache[key]))
    else if key in s.overrides then Delivered(Remembered(s, key, s.overrides[key]), t, Some(s.overrides[key]))
    else Put(s, t, Frames(Frame(key, s.overrides, [], 0, []), StackOf(s, t)))
  }

  /** What the innermost call of the thread does next; it is over with an answer, or goes on. */
  datatype Move = Over(answer: Answer) | Next | Nested(key: Key)

  function MoveOf(sys: System, f: Frame): (m: Move)
  {
    if f.i >= |sys.providers| then Over(Finished(sys, ""))
    else
      match sys.providers[f.i](f.key, f.answers)
      case Failed => Next
      case Found(path) => Over(Finished(sys, path))
      case Ask(k) => Nested(k)
  }

  function Continued(sys: System, s: Shared, t: nat): (s': Shared)
    requires StackOf(s, t).Frames?
  {
    var Frames(f, below) := StackOf(s, t);
    match MoveOf(sys, f)
    case Next => Put(s, t, Frames(f.(i := f.i + 1, answers := []), below))
    case Nested(k) => Entered(sys, s, t, k)
    case Over(answer) =>
      var u := Put(s, t, below);
      Delivered(if answer.Some? then Remembered(u, f.key, answer.value) else u, t, answer)
  }

  function Applied(o: Overrides, c: Change): (o': Overrides)
  {
    match c
    case Set(key, path) => o[key := path]
    case Drop(key) => o - {key}
  }

  function AllApplied(o: Overrides, changes: seq<Change>): (o': Overrides)
  {
    if changes == [] then o
    else Applied(AllApplied(o, changes[..|changes| - 1]), changes[|changes| - 1])
  }

  function Noted(st: Stack, c: Change): (st': Stack)
  {
    if st.Idle? then Idle else Frames(st.top.(changes := st.top.changes + [c]), Noted(st.below, c))
  }

  function Changed(s: Shared, c: Change): (s': Shared)
  {
    Shared(if c.Drop? && c.key !in s.overrides then s.cache else map[], Applied(s.overrides, c), s.disabled,
           map t | t in s.stacks :: Noted(s.stacks[t], c))
  }

  function Step(sys: System, s: Shared, e: Event): (s': Shared)
    requires Enabled(s, e)
  {
    match e
    case Call(t, key) => Entered(sys, s, t, key)
    case Continue(t) => Continued(sys, s, t)
    case Override(c) => Changed(s, c)
    case Disable => s.(cache := map[], disabled := true)
  }

  ghost predicate Runs(sys: System, s: Shared, events: seq<Event>)
    decreases |events|
  {
    events != [] ==> Enabled(s, events[0]) && Runs(sys, Step(sys, s, events[0]), events[1..])
  }

  ghost function After(sys: System, s: Shared, events: seq<Event>): (s': Shared)
    requires Runs(sys, s, events)
    decreases |events|
  {
    if events == [] then s else After(sys, Step(sys, s, events[0]), events[1..])
  }

  ghost predicate Right(sys: System, s: Shared) { Coherent(sys, s.cache, s.overrides, s.disabled) }

  /** In every state of the run the cache is right. */
  ghost predicate AlwaysRight(sys: System, s: Shared, events: seq<Event>)
    requires Runs(sys, s, events)
    decreases |events|
  {
    Right(sys, s) && (events != [] ==> AlwaysRight(sys, Step(sys, s, events[0]), events[1..]))
  }

  // ---------------------------------------------------------------- what a call may see between its sections

  /** In every state since the call left the lock, the overrides are those that it left. */
  predicate Steady(o: Overrides, changes: seq<Change>)
  {
    forall n :: 0 <= n <= |changes| ==> AllApplied(o, changes[..n]) == o
  }

  /** The event is the second section of a call, which stores what the providers found. */
  predicate Stores(sys: System, s: Shared, e: Event)
  {
    && e.Continue? && StackOf(s, e.t).Frames? && !s.disabled
    && var m := MoveOf(sys, StackOf(s, e.t).top); m.Over? && m.answer.Some?
  }

  /** A rule about the key of a call, the overrides that it leaves, and their changes until it stores. */
  type Rule = (Key, Overrides, seq<Change>) -> bool

  /** What can be: the call looks for a key that has no override, and not for the current directory. */
  predicate CanBe(key: Key, o: Overrides, changes: seq<Change>)
  {
    key != DIR_CURRENT && key !in o && AllProper(o) && forall c :: c in changes ==> Proper(c)
  }

  /** Every call that stores what it found, nested or not, keeps the rule. */
  ghost predicate Keeps(sys: System, s: Shared, events: seq<Event>, rule: Rule)
    requires Runs(sys, s, events)
    decreases |events|
  {
    events != [] ==>
      && (Stores(sys, s, events[0]) ==>
            var f := StackOf(s, events[0].t).top; rule(f.key, f.left, f.changes))
      && Keeps(sys, Step(sys, s, events[0]), events[1..], rule)
  }

  lemma AppliedMore(o: Overrides, changes: seq<Change>, c: Change)
    ensures AllApplied(o, changes + [c]) == Applied(AllApplied(o, changes), c)
  {
    assert (changes + [c])[..|changes|] == changes;
  }

  /** Steady before one more change, and through it. */
  lemma SteadyMore(o: Overrides, changes: seq<Change>, c: Change)
    ensures Steady(o, changes + [c]) <==> Steady(o, changes) && Applied(o, c) == o
  {
    hide AllApplied, Applied;
    var all := changes + [c];
    SteadyNow(o, changes);
    AppliedMore(o, changes, c);
    assert all[..|all|] == all;
    forall n | 0 <= n <= |changes|
      ensures all[..n] == changes[..n]
    {
    }
    if Steady(o, all) {
      forall n | 0 <= n <= |changes|
        ensures AllApplied(o, changes[..n]) == o
      {
        assert AllApplied(o, all[..n]) == o;
      }
      assert AllApplied(o, all[..|all|]) == o;
    } else if Steady(o, changes) && Applied(o, c) == o {
      forall n | 0 <= n <= |all|
        ensures AllApplied(o, all[..n]) == o
      {
        assert n <= |changes| ==> AllApplied(o, changes[..n]) == o;
      }
    }
  }

  lemma SteadyNow(o: Overrides, changes: seq<Change>)
    ensures Steady(o, changes) ==> AllApplied(o, changes) == o
    ensures Steady(o, []) && AllApplied(o, []) == o
  {
    assert changes[..|changes|] == changes;
  }

  // ---------------------------------------------------------------- the invariant

  /** The lookup for key comes down to the rest of the i-th provider's run after the answers it has had. */
  ghost predicate OnTrack(sys: System, o: Overrides, key: Key, i: nat, answers: seq<Answer>)
    requires i <= |sys.providers|
  {
    exists spent: nat :: Tracks(sys, o, key, i, answers, spent)
  }

  ghost predicate Tracks(sys: System, o: Overrides, key: Key, i: nat, answers: seq<Answer>, spent: nat)
    requires i <= |sys.providers|
  {
    && (forall f: nat :: f >= spent ==> Search(sys, o, key, 0, f) == Search(sys, o, key, i, f))
    && (i < |sys.providers| ==> Reduces(sys, o, key, i, answers, spent))
  }

  /** As long as the overrides stay what they were, the call is on the way to the right answer. */
  ghost predicate FrameOk(sys: System, o: Overrides, f: Frame)
  {
    && AllApplied(f.left, f.changes) == o
    && f.i <= |sys.providers| && CanBe(f.key, f.left, f.changes)
    && (Steady(f.left, f.changes) ==> OnTrack(sys, f.left, f.key, f.i, f.answers))
  }

  /** The provider of the outer call waits for the inner one, which has seen no more changes. */
  ghost predicate WaitsFor(sys: System, outer: Frame, inner: Frame)
  {
    && outer.i < |sys.providers| && sys.providers[outer.i](outer.key, outer.answers) == Ask(inner.key)
    && (Steady(outer.left, outer.changes) ==> Steady(inner.left, inner.changes) && inner.left == outer.left)
  }

  ghost predicate StackOk(sys: System, o: Overrides, st: Stack)
  {
    st.Frames? ==>
      && FrameOk(sys, o, st.top) && StackOk(sys, o, st.below)
      && (st.below.Frames? ==> WaitsFor(sys, st.below.top, st.top))
  }

  ghost predicate Inv(sys: System, s: Shared)
  {
    Right(sys, s) && AllProper(s.overrides) && forall t :: StackOk(sys, s.overrides, StackOf(s, t))
  }

  // ---------------------------------------------------------------- every step keeps it

  lemma TrackStarts(sys: System, o: Overrides, key: Key)
    ensures OnTrack(sys, o, key, 0, [])
  {
    if 0 < |sys.providers| {
      ReducesAtOnce(sys, o, key, 0);
    }
    assert Tracks(sys, o, key, 0, [], 0);
  }

  lemma TrackFails(sys: System, o: Overrides, key: Key, i: nat, answers: seq<Answer>)
    requires i < |sys.providers| && OnTrack(sys, o, key, i, answers) && sys.providers[i](key, answers) == Failed
    ensures OnTrack(sys, o, key, i + 1, [])
  {
    hide Search, Provided, Reduces;
    var spent: nat :| Tracks(sys, o, key, i, answers, spent);
    ReducedToEnd(sys, o, key, i, answers, spent);
    var f: nat :| Provided(sys, o, key, i, [], f) == Some(None);
    ProviderDecides(sys, o, key, i, f, None);
    var more := if f < spent then spent else f;
    if i + 1 < |sys.providers| {
      ReducesAtOnce(sys, o, key, i + 1);
      ReducesLater(sys, o, key, i + 1, [], 0, more);
    }
    assert Tracks(sys, o, key, i + 1, [], more);
  }

  lemma ReducesLater(sys: System, o: Overrides, key: Key, i: nat, answers: seq<Answer>, spent: nat, more: nat)
    requires i < |sys.providers| && Reduces(sys, o, key, i, answers, spent) && spent <= more
    ensures Reduces(sys, o, key, i, answers, more)
  {
    hide Provided;
  }

  lemma TrackGoesOn(sys: System, o: Overrides, key: Key, i: nat, answers: seq<Answer>, k: Key, a: Answer)
    requires i < |sys.providers| && OnTrack(sys, o, key, i, answers)
    requires sys.providers[i](key, answers) == Ask(k) && Answers(sys, o, k, a)
    ensures OnTrack(sys, o, key, i, answers + [a])
  {
    hide Search, Provided, Reduces, Answers;
    var spent: nat :| Tracks(sys, o, key, i, answers, spent);
    var more := ReducesFurther(sys, o, key, i, answers, spent, k, a, 1);
    var enough := if more < spent then spent else more;
    ReducesLater(sys, o, key, i, answers + [a], more, enough);
    assert Tracks(sys, o, key, i, answers + [a], enough);
  }

  /** A call that is over and on track has the right answer. */
  lemma TrackEnds(sys: System, o: Overrides, f: Frame)
    requires f.i <= |sys.providers| && OnTrack(sys, o, f.key, f.i, f.answers)
    requires f.key != DIR_CURRENT && f.key !in o && MoveOf(sys, f).Over?
    ensures Answers(sys, o, f.key, MoveOf(sys, f).answer)
  {
    hide Provided, Reduces;
    var key, i := f.key, f.i;
    var spent: nat :| Tracks(sys, o, key, i, f.answers, spent);
    if i == |sys.providers| {
      assert Lookup(sys, o, key, spent) == Some(MoveOf(sys, f).answer);
    } else {
      ReducedToEnd(sys, o, key, i, f.answers, spent);
      var p := sys.providers[i](key, f.answers).path;
      var fuel: nat :| Provided(sys, o, key, i, [], fuel) == Some(Some(p));
      ProviderDecides(sys, o, key, i, fuel, Some(p));
      var enough := if fuel < spent then spent else fuel;
      assert Lookup(sys, o, key, enough) == Some(MoveOf(sys, f).answer);
    }
  }

  lemma {:induction false} NotedKeeps(sys: System, o: Overrides, st: Stack, c: Change)
    requires StackOk(sys, o, st) && Proper(c)
    ensures StackOk(sys, Applied(o, c), Noted(st, c))
  {
    hide OnTrack, Steady, AllApplied;
    if st.Frames? {
      NotedKeeps(sys, o, st.below, c);
      AppliedMore(st.top.left, st.top.changes, c);
      SteadyMore(st.top.left, st.top.changes, c);
      if st.below.Frames? {
        SteadyMore(st.below.top.left, st.below.top.changes, c);
      }
    }
  }

  /** An answer to the provider that asked for key, which is right if nothing has changed for it. */
  lemma DeliveredKeeps(sys: System, s: Shared, t: nat, key: Key, answer: Answer)
    requires StackOk(sys, s.overrides, StackOf(s, t))
    requires StackOf(s, t).Frames? ==>
               var f := StackOf(s, t).top;
               && f.i < |sys.providers| && sys.providers[f.i](f.key, f.answers) == Ask(key)
               && (Steady(f.left, f.changes) ==> Answers(sys, f.left, key, answer))
    ensures var s' := Delivered(s, t, answer);
            && s'.overrides == s.overrides && s'.cache == s.cache && s'.disabled == s.disabled
            && StackOk(sys, s.overrides, StackOf(s', t))
            && forall u :: u != t ==> StackOf(s', u) == StackOf(s, u)
  {
    hide OnTrack, Answers, Steady, AllApplied;
    if StackOf(s, t).Frames? {
      var f := StackOf(s, t).top;
      if Steady(f.left, f.changes) {
        TrackGoesOn(sys, f.left, f.key, f.i, f.answers, key, answer);
      }
    }
  }

  lemma SteadyFrame(sys: System, s: Shared, t: nat)
    requires StackOk(sys, s.overrides, StackOf(s, t)) && StackOf(s, t).Frames?
    ensures var f := StackOf(s, t).top; Steady(f.left, f.changes) ==> f.left == s.overrides
  {
    SteadyNow(StackOf(s, t).top.left, StackOf(s, t).top.changes);
    hide AllApplied, OnTrack, Steady;
  }

  lemma RememberedRight(sys: System, s: Shared, key: Key, path: Path)
    requires Right(sys, s) && (!s.disabled ==> Answers(sys, s.overrides, key, Some(path)))
    ensures Right(sys, Remembered(s, key, path))
  {
    hide Answers;
  }

  /** The first section of Get, called from outside or by the provider of the innermost call. */
  lemma EnteredKeeps(sys: System, s: Shared, t: nat, key: Key)
    requires Inv(sys, s)
    requires StackOf(s, t).Frames? ==>
               var f := StackOf(s, t).top; f.i < |sys.providers| && sys.providers[f.i](f.key, f.answers) == Ask(key)
    ensures Inv(sys, Entered(sys, s, t, key))
  {
    assert StackOk(sys, s.overrides, StackOf(s, t));
    if StackOf(s, t).Frames? {
      SteadyFrame(sys, s, t);
    }
    if key == DIR_CURRENT {
      AnsweredWith(sys, s.overrides, key, 0);
      AnsweredKeeps(sys, s, s, t, key, sys.currentDirectory);
    } else if !s.disabled && key in s.cache {
      AnsweredKeeps(sys, s, s, t, key, Some(s.cache[key]));
    } else if key in s.overrides {
      AnsweredWith(sys, s.overrides, key, 0);
      RememberedRight(sys, s, key, s.overrides[key]);
      AnsweredKeeps(sys, s, Remembered(s, key, s.overrides[key]), t, key, Some(s.overrides[key]));
    } else {
      PushedKeeps(sys, s, t, key);
    }
  }

  /** u is s, with one more path in the cache or not; the answer is right now. */
  lemma AnsweredKeeps(sys: System, s: Shared, u: Shared, t: nat, key: Key, answer: Answer)
    requires Inv(sys, s) && Right(sys, u) && u == s.(cache := u.cache)
    requires Answers(sys, s.overrides, key, answer)
    requires StackOf(s, t).Frames? ==>
               var f := StackOf(s, t).top; f.i < |sys.providers| && sys.providers[f.i](f.key, f.answers) == Ask(key)
    ensures Inv(sys, Delivered(u, t, answer))
  {
    assert StackOk(sys, s.overrides, StackOf(s, t));
    if StackOf(s, t).Frames? {
      SteadyFrame(sys, s, t);
    }
    hide Answers, Coherent, StackOk, Delivered, Steady;
    DeliveredKeeps(sys, u, t, key, answer);
    forall v
      ensures StackOk(sys, u.overrides, StackOf(Delivered(u, t, answer), v))
    {
      assert StackOk(sys, s.overrides, StackOf(s, v));
    }
  }

  lemma PushedKeeps(sys: System, s: Shared, t: nat, key: Key)
    requires Inv(sys, s) && key != DIR_CURRENT && key !in s.overrides
    requires StackOf(s, t).Frames? ==>
               var f := StackOf(s, t).top; f.i < |sys.providers| && sys.providers[f.i](f.key, f.answers) == Ask(key)
    ensures Inv(sys, Put(s, t, Frames(Frame(key, s.overrides, [], 0, []), StackOf(s, t))))
  {
    assert StackOk(sys, s.overrides, StackOf(s, t));
    if StackOf(s, t).Frames? {
      SteadyFrame(sys, s, t);
    }
    TrackStarts(sys, s.overrides, key);
    SteadyNow(s.overrides, []);
    hide Coherent, OnTrack, Steady, AllApplied;
    var s' := Put(s, t, Frames(Frame(key, s.overrides, [], 0, []), StackOf(s, t)));
    assert StackOk(sys, s.overrides, StackOf(s', t));
    hide StackOk;
    forall v
      ensures StackOk(sys, s.overrides, StackOf(s', v))
    {
      assert StackOk(sys, s.overrides, StackOf(s, v));
    }
  }

  lemma NextKeeps(sys: System, s: Shared, t: nat)
    requires Inv(sys, s) && StackOf(s, t).Frames? && MoveOf(sys, StackOf(s, t).top).Next?
    ensures Inv(sys, Continued(sys, s, t))
  {
    var s' := Continued(sys, s, t);
    var f := StackOf(s, t).top;
    assert StackOk(sys, s.overrides, StackOf(s, t));
    if Steady(f.left, f.changes) {
      TrackFails(sys, f.left, f.key, f.i, f.answers);
    }
    hide Coherent, OnTrack, Steady, AllApplied;
    assert StackOk(sys, s.overrides, StackOf(s', t));
    hide StackOk;
    forall v
      ensures StackOk(sys, s.overrides, StackOf(s', v))
    {
      assert StackOk(sys, s.overrides, StackOf(s, v));
    }
  }

  /** The second section: what is stored is right, and so is what the provider that asked is told. */
  lemma OverKeeps(sys: System, s: Shared, t: nat)
    requires Inv(sys, s) && StackOf(s, t).Frames? && MoveOf(sys, StackOf(s, t).top).Over?
    requires Stores(sys, s, Continue(t)) ==> var f := StackOf(s, t).top; Steady(f.left, f.changes)
    ensures Inv(sys, Continued(sys, s, t))
  {
    var Frames(f, below) := StackOf(s, t);
    var answer := MoveOf(sys, f).answer;
    var u := Put(s, t, below);
    var v := if answer.Some? then Remembered(u, f.key, answer.value) else u;
    assert StackOk(sys, s.overrides, StackOf(s, t));
    SteadyFrame(sys, s, t);
    if Steady(f.left, f.changes) {
      TrackEnds(sys, f.left, f);
    }
    assert Right(sys, v) by {
      hide Answers, StackOk;
      if answer.Some? {
        RememberedRight(sys, u, f.key, answer.value);
      }
    }
    assert StackOk(sys, s.overrides, below);
    hide Answers, Coherent, Steady, OnTrack, MoveOf;
    DeliveredKeeps(sys, v, t, f.key, answer);
    hide StackOk, Delivered;
    forall x
      ensures StackOk(sys, s.overrides, StackOf(Delivered(v, t, answer), x))
    {
      assert StackOk(sys, s.overrides, StackOf(s, x));
    }
  }

  lemma ChangedKeeps(sys: System, s: Shared, c: Change)
    requires Inv(sys, s) && Proper(c)
    ensures Inv(sys, Changed(s, c))
  {
    assert AllProper(Applied(s.overrides, c));
    var s' := Changed(s, c);
    assert Right(sys, s') by {
      hide Answers;
      assert c.Drop? && c.key !in s.overrides ==> s'.overrides == s.overrides;
    }
    hide Coherent, StackOk, Applied;
    forall t
      ensures StackOk(sys, s'.overrides, StackOf(s', t))
    {
      assert StackOk(sys, s.overrides, StackOf(s, t));
      NotedKeeps(sys, s.overrides, StackOf(s, t), c);
    }
  }

  lemma StepKeeps(sys: System, s: Shared, e: Event)
    requires Inv(sys, s) && Enabled(s, e)
    requires Stores(sys, s, e) ==> var f := StackOf(s, e.t).top; Steady(f.left, f.changes)
    ensures Inv(sys, Step(sys, s, e))
  {
    match e
    case Call(t, key) => EnteredKeeps(sys, s, t, key);
    case Continue(t) => ContinuedKeeps(sys, s, t);
    case Override(c) => ChangedKeeps(sys, s, c);
    case Disable =>
      hide StackOk;
      forall t
        ensures StackOk(sys, s.overrides, StackOf(Step(sys, s, e), t))
      {
        assert StackOk(sys, s.overrides, StackOf(s, t));
      }
  }

  lemma ContinuedKeeps(sys: System, s: Shared, t: nat)
    requires Inv(sys, s) && StackOf(s, t).Frames?
    requires Stores(sys, s, Continue(t)) ==> var f := StackOf(s, t).top; Steady(f.left, f.changes)
    ensures Inv(sys, Continued(sys, s, t))
  {
    hide Inv, Entered, Delivered;
    match MoveOf(sys, StackOf(s, t).top)
    case Next => NextKeeps(sys, s, t);
    case Nested(k) => EnteredKeeps(sys, s, t, k);
    case Over(_) => OverKeeps(sys, s, t);
  }

  // ---------------------------------------------------------------- steady calls keep the cache right

  lemma UnusedOk(sys: System)
    ensures Inv(sys, UNUSED)
  {
  }

  /** A rule that lets a call store only if the overrides were those that it left in every state since. */
  ghost predicate SteadyRule(rule: Rule)
  {
    forall key, o, changes :: CanBe(key, o, changes) && rule(key, o, changes) ==> Steady(o, changes)
  }

  lemma {:induction false} RunIsRight(sys: System, s: Shared, events: seq<Event>, rule: Rule)
    requires Inv(sys, s) && Runs(sys, s, events) && Keeps(sys, s, events, rule) && SteadyRule(rule)
    ensures AlwaysRight(sys, s, events)
    decreases |events|
  {
    if events != [] {
      var e := events[0];
      if Stores(sys, s, e) {
        assert StackOk(sys, s.overrides, StackOf(s, e.t));
        var f := StackOf(s, e.t).top;
        assert CanBe(f.key, f.left, f.changes);
      }
      hide Inv, Step, Stores, Steady, CanBe;
      StepKeeps(sys, s, e);
      RunIsRight(sys, Step(sys, s, e), events[1..], rule);
    }
    assert Right(sys, s);
  }

  /**
   Whatever the providers are and call themselves, and however the calls of any number of threads
   overlap each other and changes of the overrides: if every call that stores what it found is
   steady, every path in the cache is always the right one.
   */
  lemma SteadyIsRight(sys: System, events: seq<Event>)
    requires Runs(sys, UNUSED, events) && Keeps(sys, UNUSED, events, (key, o, changes) => Steady(o, changes))
    ensures AlwaysRight(sys, UNUSED, events)
  {
    UnusedOk(sys);
    RunIsRight(sys, UNUSED, events, (key, o, changes) => Steady(o, changes));
  }

  /** Whatever overlaps, the cache stays empty once it is disabled. */
  lemma {:induction false} DisabledStaysEmpty(sys: System, s: Shared, events: seq<Event>)
    requires s.disabled && s.cache == map[] && Runs(sys, s, events)
    ensures After(sys, s, events).disabled && After(sys, s, events).cache == map[]
    decreases |events|
  {
    if events != [] {
      DisabledStep(sys, s, events[0]);
      hide Step;
      DisabledStaysEmpty(sys, Step(sys, s, events[0]), events[1..]);
    }
  }

  lemma DisabledStep(sys: System, s: Shared, e: Event)
    requires s.disabled && s.cache == map[] && Enabled(s, e)
    ensures Step(sys, s, e).disabled && Step(sys, s, e).cache == map[]
  {
    hide MoveOf;
  }

  // ---------------------------------------------------------------- other calls need not

  function Shown(a: Answer): (text: string) { if a.Some? then "s" + a.value else "n" }

  /** One provider, which fails for every key but one, and for that tells what Get says for d. */
  function Telling(key: Key, d: Key, base: Path): (sys: System)
  {
    System([(k: Key, answers: seq<Answer>) =>
              if k != key then Failed else if answers == [] then Ask(d) else Found(base + Shown(answers[0]))],
           None, (path: Path) => false, (path: Path) => path)
  }

  /** What Get says there for a key other than the one that the provider is for. */
  function Told(o: Overrides, d: Key): (a: Answer) { if d != DIR_CURRENT && d in o then Some(o[d]) else None }

  lemma TellingFinds(key: Key, d: Key, base: Path, o: Overrides)
    requires key != DIR_CURRENT && key !in o && d != key
    ensures Lookup(Telling(key, d, base), o, key, 1) == Some(Some(base + Shown(Told(o, d))))
    ensures Answers(Telling(key, d, base), o, key, Some(base + Shown(Told(o, d))))
  {
    var sys := Telling(key, d, base);
    assert Lookup(sys, o, d, 0) == Some(Told(o, d)) by {
      if d != DIR_CURRENT && d !in o {
        assert Provided(sys, o, d, 0, [], 0) == Some(None);
        assert Search(sys, o, d, 1, 0) == Some(None);
      }
    }
    var answer := Told(o, d);
    assert ([] + [answer])[0] == answer;
    assert Provided(sys, o, key, 0, [] + [answer], 0) == Some(Some(base + Shown(answer)));
    assert Provided(sys, o, key, 0, [], 1) == Some(Some(base + Shown(answer)));
  }

  /** A provider that asks for its own key never comes to an end. */
  lemma {:induction false} TellingItself(key: Key, base: Path, o: Overrides, fuel: nat)
    requires key != DIR_CURRENT && key !in o
    ensures Lookup(Telling(key, key, base), o, key, fuel) == None
  {
    if fuel > 0 {
      TellingItself(key, base, o, fuel - 1);
    }
    assert Provided(Telling(key, key, base), o, key, 0, [], fuel) == None;
  }

  /** What is found if d was asked for with overrides o1 is wrong with overrides o2. */
  predicate Misleads(key: Key, d: Key, base: Path, o1: Overrides, o2: Overrides)
  {
    && (d == key ==> key in o1)
    && if key in o2 then o2[key] != base + Shown(Told(o1, d)) else d == key || Told(o1, d) != Told(o2, d)
  }

  lemma MisledIsWrong(key: Key, d: Key, base: Path, o1: Overrides, o2: Overrides)
    requires key != DIR_CURRENT && Misleads(key, d, base, o1, o2)
    ensures !Answers(Telling(key, d, base), o2, key, Some(base + Shown(Told(o1, d))))
  {
    var sys := Telling(key, d, base);
    var path := base + Shown(Told(o1, d));
    if Answers(sys, o2, key, Some(path)) {
      var fuel: nat :| Lookup(sys, o2, key, fuel) == Some(Some(path));
      if key !in o2 {
        if d == key {
          TellingItself(key, base, o2, fuel);
        } else {
          TellingFinds(key, d, base, o2);
          OneAnswer(sys, o2, key, Some(path), 1);
          ShownOnce(base, Told(o1, d), Told(o2, d));
        }
      }
    }
  }

  lemma ShownOnce(base: Path, a: Answer, b: Answer)
    requires base + Shown(a) == base + Shown(b)
    ensures a == b
  {
    assert (base + Shown(a))[|base|..] == Shown(a) && (base + Shown(b))[|base|..] == Shown(b);
    assert a.Some? ==> Shown(a)[1..] == a.value && Shown(a)[0] == 's';
    assert b.Some? ==> Shown(b)[1..] == b.value && Shown(b)[0] == 's';
  }

  lemma DifferenceMisleads(key: Key, o1: Overrides, o2: Overrides) returns (d: Key, base: Path)
    requires key != DIR_CURRENT && DIR_CURRENT !in o1 && DIR_CURRENT !in o2 && o1 != o2
    ensures Misleads(key, d, base, o1, o2)
  {
    if key in o2 {
      d, base := DIR_CURRENT, o2[key];
      assert |base + Shown(None)| > |o2[key]|;
    } else {
      d := DifferentAt(o1, o2);
      base := "/";
    }
  }

  lemma DifferentAt(o1: Overrides, o2: Overrides) returns (d: Key)
    requires o1 != o2
    ensures (d in o1 || d in o2) && (d in o1 && d in o2 ==> o1[d] != o2[d])
  {
    if forall k :: (k in o1 <==> k in o2) && (k in o1 && k in o2 ==> o1[k] == o2[k]) {
      assert false;
    }
    d :| !((d in o1 <==> d in o2) && (d in o1 && d in o2 ==> o1[d] == o2[d]));
  }

  /**
   What is found with some overrides is right with others, whatever the providers are, only if they
   are the same overrides.
   */
  lemma OverridesDecide(key: Key, o1: Overrides, o2: Overrides)
    requires key != DIR_CURRENT && key !in o1 && DIR_CURRENT !in o1 && DIR_CURRENT !in o2
    ensures (forall sys, path :: Answers(sys, o1, key, Some(path)) ==> Answers(sys, o2, key, Some(path))) <==> o1 == o2
  {
    hide Answers, Telling;
    if o1 != o2 {
      var d, base := DifferenceMisleads(key, o1, o2);
      TellingFinds(key, d, base, o1);
      MisledIsWrong(key, d, base, o1, o2);
    }
  }

  // ---------------------------------------------------------------- a run that goes wrong

  /** A run that keeps the rule, and in which the cache is wrong in some state. */
  ghost predicate Fails(sys: System, s: Shared, events: seq<Event>, rule: Rule)
  {
    Runs(sys, s, events) && Keeps(sys, s, events, rule) && !AlwaysRight(sys, s, events)
  }

  lemma FailsBefore(sys: System, s: Shared, e: Event, rest: seq<Event>, rule: Rule)
    requires Enabled(s, e) && Fails(sys, Step(sys, s, e), rest, rule)
    requires Stores(sys, s, e) ==> var f := StackOf(s, e.t).top; rule(f.key, f.left, f.changes)
    ensures Fails(sys, s, [e] + rest, rule)
  {
    hide Step, Right, Stores;
    assert ([e] + rest)[1..] == rest;
  }

  /** Thread 0 is in one call, for key, after the first m of the changes, and its provider has had the answers. */
  predicate Halfway(s: Shared, key: Key, o: Overrides, changes: seq<Change>, m: nat, answers: seq<Answer>)
    requires m <= |changes|
  {
    && !s.disabled && s.overrides == AllApplied(o, changes[..m])
    && StackOf(s, 0) == Frames(Frame(key, o, changes[..m], 0, answers), Idle)
  }

  lemma ChangesOn(sys: System, s: Shared, key: Key, o: Overrides, changes: seq<Change>, m: nat, answers: seq<Answer>)
    requires m < |changes| && Halfway(s, key, o, changes, m, answers) && Proper(changes[m])
    ensures Enabled(s, Override(changes[m])) && !Stores(sys, s, Override(changes[m]))
    ensures var s' := Step(sys, s, Override(changes[m]));
            Halfway(s', key, o, changes, m + 1, answers) && (s.cache == map[] ==> s'.cache == map[])
  {
    hide AllApplied, Applied;
    AppliedMore(o, changes[..m], changes[m]);
    assert changes[..m] + [changes[m]] == changes[..m + 1];
    var f := StackOf(s, 0).top;
    assert Noted(Frames(f, Idle), changes[m]) == Frames(f.(changes := changes[..m + 1]), Noted(Idle, changes[m]));
  }

  /** The rest of the changes, and the return of a call that was misled. */
  lemma {:induction false} MisledReturns(s: Shared, key: Key, o: Overrides, changes: seq<Change>, m: nat,
                                         d: Key, base: Path, o1: Overrides, rule: Rule) returns (events: seq<Event>)
    requires CanBe(key, o, changes) && m <= |changes| && rule(key, o, changes)
    requires Halfway(s, key, o, changes, m, [Told(o1, d)]) && Misleads(key, d, base, o1, AllApplied(o, changes))
    ensures Fails(Telling(key, d, base), s, events, rule)
    decreases |changes| - m
  {
    var sys := Telling(key, d, base);
    if m < |changes| {
      assert changes[m] in changes;
      ChangesOn(sys, s, key, o, changes, m, [Told(o1, d)]);
      hide Step, Misleads, Halfway, CanBe, Stores;
      var rest := MisledReturns(Step(sys, s, Override(changes[m])), key, o, changes, m + 1, d, base, o1, rule);
      FailsBefore(sys, s, Override(changes[m]), rest, rule);
      events := [Override(changes[m])] + rest;
    } else {
      assert changes[..m] == changes;
      MisledIsWrong(key, d, base, o1, s.overrides);
      StoresTold(sys, s, key, o, changes, d, base, o1);
      hide Step, Misleads, Halfway, CanBe, Answers;
      assert !Right(sys, Step(sys, s, Continue(0)));
      assert Fails(sys, Step(sys, s, Continue(0)), [], rule);
      FailsBefore(sys, s, Continue(0), [], rule);
      events := [Continue(0)] + [];
    }
  }

  lemma StoresTold(sys: System, s: Shared, key: Key, o: Overrides, changes: seq<Change>, d: Key, base: Path, o1: Overrides)
    requires sys == Telling(key, d, base)
    requires !s.disabled && StackOf(s, 0) == Frames(Frame(key, o, changes, 0, [Told(o1, d)]), Idle)
    ensures var s', path := Step(sys, s, Continue(0)), base + Shown(Told(o1, d));
            s'.overrides == s.overrides && key in s'.cache && s'.cache[key] == path
  {
    var f := StackOf(s, 0).top;
    assert MoveOf(sys, f) == Over(Some(base + Shown(Told(o1, d))));
  }

  /** The provider asks for a key that has an override, or for the current directory, and is told at once. */
  lemma ToldAtOnce(sys: System, s: Shared, key: Key, o: Overrides, changes: seq<Change>, m: nat, d: Key, base: Path)
    requires sys == Telling(key, d, base) && m <= |changes| && Halfway(s, key, o, changes, m, []) && s.cache == map[]
    requires d == DIR_CURRENT || d in s.overrides
    ensures !Stores(sys, s, Continue(0))
    ensures Halfway(Step(sys, s, Continue(0)), key, o, changes, m, [Told(s.overrides, d)])
  {
    var f := StackOf(s, 0).top;
    assert MoveOf(sys, f) == Nested(d);
    assert [] + [Told(s.overrides, d)] == [Told(s.overrides, d)];
  }

  /** It asks for a key without an override: the call leaves the lock, and finds nothing. */
  lemma ToldNothing(sys: System, s: Shared, key: Key, o: Overrides, changes: seq<Change>, m: nat, d: Key, base: Path)
    requires sys == Telling(key, d, base) && m <= |changes| && Halfway(s, key, o, changes, m, []) && s.cache == map[]
    requires d != DIR_CURRENT && d !in s.overrides && d != key
    ensures var s1 := Step(sys, s, Continue(0));
            && !Stores(sys, s, Continue(0)) && Enabled(s1, Continue(0)) && !Stores(sys, s1, Continue(0))
            && var s2 := Step(sys, s1, Continue(0));
            && Enabled(s2, Continue(0)) && !Stores(sys, s2, Continue(0))
            && Halfway(Step(sys, s2, Continue(0)), key, o, changes, m, [None])
  {
    var st := StackOf(s, 0);
    var s1 := Step(sys, s, Continue(0));
    assert MoveOf(sys, st.top) == Nested(d);
    assert StackOf(s1, 0) == Frames(Frame(d, s.overrides, [], 0, []), st);
    assert MoveOf(sys, StackOf(s1, 0).top) == Next;
    var s2 := Step(sys, s1, Continue(0));
    assert StackOf(s2, 0) == Frames(Frame(d, s.overrides, [], 1, []), st);
    assert MoveOf(sys, StackOf(s2, 0).top) == Over(None);
    assert [] + [Told(s.overrides, d)] == [Told(s.overrides, d)];
  }

  lemma MisledAsks(s: Shared, key: Key, o: Overrides, changes: seq<Change>, m: nat,
                   d: Key, base: Path, rule: Rule) returns (events: seq<Event>)
    requires CanBe(key, o, changes) && m <= |changes| && rule(key, o, changes)
    requires Halfway(s, key, o, changes, m, []) && s.cache == map[]
    requires Misleads(key, d, base, s.overrides, AllApplied(o, changes))
    ensures Fails(Telling(key, d, base), s, events, rule)
  {
    var sys := Telling(key, d, base);
    var told := d == DIR_CURRENT || d in s.overrides;
    assert Enabled(s, Continue(0)) && (!told ==> d != key && Told(s.overrides, d) == None);
    if told {
      ToldAtOnce(sys, s, key, o, changes, m, d, base);
    } else {
      ToldNothing(sys, s, key, o, changes, m, d, base);
    }
    hide Step, Misleads, Halfway, CanBe, Stores, Enabled, Told;
    var s1 := Step(sys, s, Continue(0));
    if told {
      events := MisledReturns(s1, key, o, changes, m, d, base, s.overrides, rule);
    } else {
      var s2 := Step(sys, s1, Continue(0));
      events := MisledReturns(Step(sys, s2, Continue(0)), key, o, changes, m, d, base, s.overrides, rule);
      FailsBefore(sys, s2, Continue(0), events, rule);
      FailsBefore(sys, s1, Continue(0), [Continue(0)] + events, rule);
      events := [Continue(0)] + ([Continue(0)] + events);
    }
    FailsBefore(sys, s, Continue(0), events, rule);
    events := [Continue(0)] + events;
  }

  /** The changes up to the n-th, and then the provider asks. */
  lemma {:induction false} MisledWaits(s: Shared, key: Key, o: Overrides, changes: seq<Change>, m: nat, n: nat,
                                       d: Key, base: Path, rule: Rule) returns (events: seq<Event>)
    requires CanBe(key, o, changes) && m <= n <= |changes| && rule(key, o, changes)
    requires Halfway(s, key, o, changes, m, []) && s.cache == map[]
    requires Misleads(key, d, base, AllApplied(o, changes[..n]), AllApplied(o, changes))
    ensures Fails(Telling(key, d, base), s, events, rule)
    decreases n - m
  {
    if m < n {
      assert changes[m] in changes;
      ChangesOn(Telling(key, d, base), s, key, o, changes, m, []);
      hide Step, Misleads, Halfway, CanBe, Stores;
      var s' := Step(Telling(key, d, base), s, Override(changes[m]));
      events := MisledWaits(s', key, o, changes, m + 1, n, d, base, rule);
      FailsBefore(Telling(key, d, base), s, Override(changes[m]), events, rule);
      events := [Override(changes[m])] + events;
    } else {
      events := MisledAsks(s, key, o, changes, m, d, base, rule);
    }
  }

  /** The call itself. */
  lemma MisledStarts(s: Shared, key: Key, o: Overrides, changes: seq<Change>, n: nat,
                     d: Key, base: Path, rule: Rule) returns (events: seq<Event>)
    requires CanBe(key, o, changes) && n <= |changes| && rule(key, o, changes)
    requires s == UNUSED.(overrides := o)
    requires Misleads(key, d, base, AllApplied(o, changes[..n]), AllApplied(o, changes))
    ensures Fails(Telling(key, d, base), s, events, rule)
  {
    var s1 := Step(Telling(key, d, base), s, Call(0, key));
    assert Halfway(s1, key, o, changes, 0, []);
    events := MisledWaits(s1, key, o, changes, 0, n, d, base, rule);
    assert !Stores(Telling(key, d, base), s, Call(0, key));
    hide Misleads, Runs, Keeps, AlwaysRight, Stores;
    FailsBefore(Telling(key, d, base), s, Call(0, key), events, rule);
    events := [Call(0, key)] + events;
  }

  /** Before that, the overrides are set one by one. */
  lemma {:induction false} MisledSets(s: Shared, key: Key, o: Overrides, changes: seq<Change>, n: nat,
                                      d: Key, base: Path, rule: Rule) returns (events: seq<Event>)
    requires CanBe(key, o, changes) && n <= |changes| && rule(key, o, changes)
    requires s == UNUSED.(overrides := s.overrides)
    requires forall k :: k in s.overrides ==> k in o && o[k] == s.overrides[k]
    requires Misleads(key, d, base, AllApplied(o, changes[..n]), AllApplied(o, changes))
    ensures Fails(Telling(key, d, base), s, events, rule)
    decreases |o.Keys - s.overrides.Keys|
  {
    hide Misleads, Step, Stores, Fails, Telling, AllApplied;
    var sys := Telling(key, d, base);
    if s.overrides == o {
      events := MisledStarts(s, key, o, changes, n, d, base, rule);
    } else {
      var k := MissingKey(s.overrides, o);
      assert k > DIR_CURRENT;
      hide CanBe;
      var e := Override(Set(k, o[k]));
      SetWhenIdle(sys, s, k, o[k]);
      FewerMissing(o, s.overrides, k);
      var s1 := Step(sys, s, e);
      events := MisledSets(s1, key, o, changes, n, d, base, rule);
      FailsBefore(sys, s, e, events, rule);
      events := [e] + events;
    }
  }

  lemma FewerMissing(o: Overrides, part: Overrides, k: Key)
    requires k in o && k !in part
    ensures |o.Keys - part[k := o[k]].Keys| < |o.Keys - part.Keys|
  {
    assert o.Keys - part[k := o[k]].Keys == o.Keys - part.Keys - {k};
  }

  lemma SetWhenIdle(sys: System, s: Shared, k: Key, path: Path)
    requires s == UNUSED.(overrides := s.overrides) && k > DIR_CURRENT
    ensures !Stores(sys, s, Override(Set(k, path)))
    ensures Step(sys, s, Override(Set(k, path))) == UNUSED.(overrides := s.overrides[k := path])
  {
    hide MoveOf;
  }

  lemma MissingKey(part: Overrides, o: Overrides) returns (k: Key)
    requires part != o && forall k :: k in part ==> k in o && o[k] == part[k]
    ensures k in o && k !in part
  {
    if forall k :: k in o ==> k in part {
      assert false;
    }
    k :| k in o && k !in part;
  }

  /** Some state between the sections of an unsteady call misleads it. */
  lemma UnsteadyMisleads(key: Key, o: Overrides, changes: seq<Change>) returns (n: nat, d: Key, base: Path)
    requires CanBe(key, o, changes) && !Steady(o, changes)
    ensures n <= |changes| && Misleads(key, d, base, AllApplied(o, changes[..n]), AllApplied(o, changes))
  {
    if AllApplied(o, changes) != o {
      n := 0;
      assert AllApplied(o, changes[..0]) == o;
    } else {
      n :| 0 <= n <= |changes| && AllApplied(o, changes[..n]) != o;
    }
    StaysProper(o, changes[..n]);
    StaysProper(o, changes);
    d, base := DifferenceMisleads(key, AllApplied(o, changes[..n]), AllApplied(o, changes));
  }

  lemma {:induction false} StaysProper(o: Overrides, changes: seq<Change>)
    requires AllProper(o) && forall c :: c in changes ==> Proper(c)
    ensures AllProper(AllApplied(o, changes))
  {
    if changes != [] {
      StaysProper(o, changes[..|changes| - 1]);
      assert changes[|changes| - 1] in changes;
    }
  }

  /**
   Which rule about overlapping calls keeps the cache right, whatever the providers are and ask for, on
   any number of threads: exactly one that lets a call store what it found only if, in every state
   between its two sections, the overrides were those that it left.
   */
  lemma RightExactly(rule: Rule)
    ensures (forall sys, events :: !Fails(sys, UNUSED, events, rule)) <==> SteadyRule(rule)
  {
    if SteadyRule(rule) {
      forall sys, events
        ensures !Fails(sys, UNUSED, events, rule)
      {
        if Fails(sys, UNUSED, events, rule) {
          UnusedOk(sys);
          RunIsRight(sys, UNUSED, events, rule);
        }
      }
    } else {
      var key, o, changes :| CanBe(key, o, changes) && rule(key, o, changes) && !Steady(o, changes);
      var n, d, base := UnsteadyMisleads(key, o, changes);
      var events := MisledSets(UNUSED, key, o, changes, n, d, base, rule);
      assert Fails(Telling(key, d, base), UNUSED, events, rule);
    }
  }

  /** An override set in the gap of a Get and taken away again: its provider sees it, and the cache is wrong. */
  lemma SetAndDropGoesStale(key: Key, d: Key, x: Path) returns (events: seq<Event>)
    requires key != DIR_CURRENT && d > DIR_CURRENT && d != key
    ensures Fails(Telling(key, d, "/"), UNUSED, events, (k, o, changes) =>
              k == key && o == map[] && changes == [Set(d, x), Drop(d)])
  {
    var changes := [Set(d, x), Drop(d)];
    assert changes[..1] == [Set(d, x)] && changes[..2] == changes;
    assert AllApplied(map[], []) == map[] && [Set(d, x)][..0] == [];
    assert AllApplied(map[], [Set(d, x)]) == map[d := x];
    assert AllApplied(map[], changes) == map[];
    events := MisledSets(UNUSED, key, map[], changes, 1, d, "/", (k, o, changes) =>
      k == key && o == map[] && changes == [Set(d, x), Drop(d)]);
  }

  /** An override set between the two sections of a Get is hidden by what that Get stores. */
  lemma OverlapGoesStale(sys: System, key: Key, before: Path, after: Path)
    requires key > DIR_CURRENT && before != after && sys.providers != []
    requires sys.providers[0](key, []) == Found(before) && Finished(sys, before) == Some(before)
    ensures var events := [Call(0, key), Override(Set(key, after)), Continue(0)];
            Runs(sys, UNUSED, events) && var s := After(sys, UNUSED, events);
            !s.disabled && s.overrides == map[key := after] && s.cache == map[key := before]
            && Answers(sys, s.overrides, key, Some(after)) && !Right(sys, s)
  {
    var s1 := Step(sys, UNUSED, Call(0, key));
    var f := Frame(key, map[], [], 0, []);
    assert StackOf(s1, 0) == Frames(f, Idle);
    var s2 := Step(sys, s1, Override(Set(key, after)));
    var g := f.(changes := [] + [Set(key, after)]);
    assert StackOf(s2, 0) == Frames(g, Idle) by {
      assert Noted(Frames(f, Idle), Set(key, after)) == Frames(g, Noted(Idle, Set(key, after)));
    }
    assert MoveOf(sys, g) == Over(Some(before));
    var s3 := Step(sys, s2, Continue(0));
    assert s3.cache == map[key := before] && s3.overrides == map[key := after];
    AnsweredWith(sys, s3.overrides, key, 0);
    if Answers(sys, s3.overrides, key, Some(before)) {
      OneAnswer(sys, s3.overrides, key, Some(before), 0);
    }
    assert s3.cache[key] == before;
    assert [Call(0, key), Override(Set(key, after)), Continue(0)][1..] == [Override(Set(key, after)), Continue(0)];
    assert [Override(Set(key, after)), Continue(0)][1..] == [Continue(0)] && [Continue(0)][1..] == [];
    assert Runs(sys, s3, []) && After(sys, s3, []) == s3;
    assert Runs(sys, s2, [Continue(0)]) && After(sys, s2, [Continue(0)]) == s3;
    assert Runs(sys, s1, [Override(Set(key, after)), Continue(0)]);
  }
}
