/** Facts about concatenation that the proofs call by name. */
module Sequences {
  lemma ConcatAssoc<T>(a: seq<T>, b: seq<T>, c: seq<T>)
    ensures (a + b) + c == a + (b + c)
  {
  }

  lemma ConcatFour<T>(a: seq<T>, b: seq<T>, c: seq<T>, d: seq<T>, e: seq<T>)
    ensures a + (b + c + d + e) == (a + b) + c + d + e
  {
    ConcatAssoc(a, b + c + d, e);
    ConcatAssoc(a, b + c, d);
    ConcatAssoc(a, b, c);
  }

  lemma ConcatTwice<T>(a: seq<T>, b: seq<T>, c: seq<T>, d: seq<T>, e: seq<T>, f: seq<T>)
    ensures a + (b + c + d) + (e + f) == (a + b) + c + (d + e) + f
  {
    ConcatAssoc(a, b + c, d);
    ConcatAssoc(a, b, c);
    var abc := a + b + c;
    ConcatAssoc(abc + d, e, f);
    ConcatAssoc(abc, d, e);
  }

  lemma ConcatTail<T>(a: seq<T>, b: seq<T>)
    requires a != []
    ensures (a + b)[0] == a[0] && (a + b)[1..] == a[1..] + b
  {
  }

  lemma ConcatEmpty<T>(a: seq<T>)
    ensures a + [] == a && [] + a == a
  {
  }

  /** One more stretch of b after a prefix of it. */
  lemma PrefixExtends<T>(a: seq<T>, b: seq<T>, i: nat, j: nat)
    requires i <= j <= |b|
    ensures a + b[..i] + b[i..j] == a + b[..j]
  {
    ConcatAssoc(a, b[..i], b[i..j]);
    assert b[..i] + b[i..j] == b[..j];
  }

  function Repeated<T>(x: T, n: nat): (s: seq<T>)
    ensures |s| == n
  {
    seq(n, _ => x)
  }

  predicate NoRepeats<T(==)>(s: seq<T>)
  {
    forall i, j :: 0 <= i < j < |s| ==> s[i] != s[j]
  }

  /** What is left of s once every member of gone is struck out. */
  function Without<T(==)>(s: seq<T>, gone: set<T>): (r: seq<T>)
  {
    if s == [] then []
    else if s[0] in gone then Without(s[1..], gone)
    else [s[0]] + Without(s[1..], gone)
  }

  lemma {:induction false} WithoutConcat<T>(a: seq<T>, b: seq<T>, gone: set<T>)
    ensures Without(a + b, gone) == Without(a, gone) + Without(b, gone)
  {
    if a == [] {
      ConcatEmpty(b);
    } else {
      WithoutConcat(a[1..], b, gone);
      ConcatTail(a, b);
      ConcatAssoc([a[0]], Without(a[1..], gone), Without(b, gone));
    }
  }

  lemma {:induction false} WithoutNone<T>(s: seq<T>, gone: set<T>)
    requires forall o :: o in s ==> o !in gone
    ensures Without(s, gone) == s
  {
    if s != [] {
      WithoutNone(s[1..], gone);
    }
  }

  lemma {:induction false} WithoutUnion<T>(s: seq<T>, a: set<T>, b: set<T>)
    ensures Without(s, a + b) == Without(Without(s, a), b)
  {
    if s != [] {
      WithoutUnion(s[1..], a, b);
    }
  }

  lemma {:induction false} WithoutHas<T>(s: seq<T>, gone: set<T>, o: T)
    ensures o in Without(s, gone) <==> o in s && o !in gone
  {
    if s != [] {
      WithoutHas(s[1..], gone, o);
    }
  }

  lemma {:induction false} WithoutAll<T>(s: seq<T>, gone: set<T>)
    requires forall o :: o in s ==> o in gone
    ensures Without(s, gone) == []
  {
    if s != [] {
      WithoutAll(s[1..], gone);
    }
  }

  lemma {:induction false} WithoutDistinct<T>(s: seq<T>, gone: set<T>)
    requires NoRepeats(s)
    ensures NoRepeats(Without(s, gone))
    ensures |Without(s, gone)| <= |s|
  {
    if s != [] {
      WithoutDistinct(s[1..], gone);
      WithoutHas(s[1..], gone, s[0]);
    }
  }

  lemma {:induction false} WithoutSame<T>(s: seq<T>, a: set<T>, b: set<T>)
    requires forall o :: o in s ==> (o in a <==> o in b)
    ensures Without(s, a) == Without(s, b)
  {
    if s != [] {
      WithoutSame(s[1..], a, b);
    }
  }

  function Common<T(==)>(s: seq<T>, more: set<T>): set<T> { set x | x in s && x in more }

  lemma PartsDisjoint<T>(a: seq<T>, b: seq<T>, x: T)
    requires NoRepeats(a + b) && x in b
    ensures x !in a
  {
    var j :| 0 <= j < |b| && b[j] == x;
    forall i | 0 <= i < |a|
      ensures a[i] != x
    {
      assert (a + b)[i] == a[i] && (a + b)[|a| + j] == x;
    }
  }

  /** Of a list without repetitions, part is done and part is to do: what more strikes out of the second part. */
  lemma WithoutRest<T>(all: seq<T>, gone: set<T>, done: seq<T>, todo: seq<T>, more: set<T>)
    requires NoRepeats(all) && done + todo == Without(all, gone)
    ensures done + Without(todo, more) == Without(all, gone + Common(todo, more))
  {
    var struck := Common(todo, more);
    WithoutDistinct(all, gone);
    hide Without, NoRepeats;
    forall x | x in done
      ensures x !in struck
    {
      if x in struck {
        PartsDisjoint(done, todo, x);
      }
    }
    WithoutUnion(all, gone, struck);
    WithoutConcat(done, todo, struck);
    WithoutNone(done, struck);
    WithoutSame(todo, struck, more);
  }

  /** All the chunks one after the other. */
  function Joined<T>(chunks: seq<seq<T>>): (r: seq<T>)
  {
    if chunks == [] then [] else chunks[0] + Joined(chunks[1..])
  }

  lemma {:induction false} JoinedLast<T>(chunks: seq<seq<T>>, last: seq<T>)
    ensures Joined(chunks + [last]) == Joined(chunks) + last
  {
    if chunks == [] {
      assert chunks + [last] == [last];
      assert Joined([last][1..]) == [];
    } else {
      JoinedLast(chunks[1..], last);
      assert (chunks + [last])[1..] == chunks[1..] + [last];
    }
  }
}
