/** Counting threads by what they are doing. */
module Threads {
  import opened Text

  function Count<T>(s: seq<T>, p: T -> bool): (n: nat)
    ensures n <= |s|
  {
    if s == [] then 0
    else (if p(s[|s| - 1]) then 1 else 0) + Count(s[..|s| - 1], p)
  }

  /** When one thread moves, the count changes by what that thread contributes. */
  lemma {:induction false} CountUpdate<T>(s: seq<T>, i: nat, x: T, p: T -> bool)
    requires i < |s|
    ensures Count(s[i := x], p) == Count(s, p) - (if p(s[i]) then 1 else 0) + (if p(x) then 1 else 0)
  {
    if i == |s| - 1 {
      assert s[i := x][..|s| - 1] == s[..|s| - 1];
    } else {
      assert s[i := x][..|s| - 1] == s[..|s| - 1][i := x];
      CountUpdate(s[..|s| - 1], i, x, p);
    }
  }

  lemma {:induction false} CountPositive<T>(s: seq<T>, p: T -> bool, i: nat)
    requires i < |s| && p(s[i])
    ensures Count(s, p) > 0
  {
    if i < |s| - 1 {
      CountPositive(s[..|s| - 1], p, i);
    }
  }

  lemma {:induction false} CountNone<T>(s: seq<T>, p: T -> bool)
    requires forall i :: 0 <= i < |s| ==> !p(s[i])
    ensures Count(s, p) == 0
  {
    if s != [] {
      CountNone(s[..|s| - 1], p);
    }
  }

  lemma {:induction false} CountWitness<T>(s: seq<T>, p: T -> bool) returns (i: nat)
    requires Count(s, p) > 0
    ensures i < |s| && p(s[i])
  {
    i := |s| - 1;
    if !p(s[i]) {
      i := CountWitness(s[..|s| - 1], p);
    }
  }

  lemma {:induction false} CountSplit<T>(s: seq<T>, p: T -> bool, q: T -> bool, r: T -> bool)
    requires forall x :: x in s ==> (if p(x) then 1 else 0) + (if q(x) then 1 else 0) == (if r(x) then 1 else 0)
    ensures Count(s, p) + Count(s, q) == Count(s, r)
  {
    if s != [] {
      assert s[|s| - 1] in s;
      CountSplit(s[..|s| - 1], p, q, r);
    }
  }

  function Repeat<S>(step: S, n: nat): (r: seq<S>)
    ensures |r| == n
  {
    if n == 0 then [] else Repeat(step, n - 1) + [step]
  }

  /** Taking a step `n` times, as long as it can be taken. */
  function Iterate<S>(f: S -> Option<S>, s: S, n: nat): Option<S> {
    if n == 0 then Some(s)
    else
      var before := Iterate(f, s, n - 1);
      if before.None? then None else f(before.value)
  }

  lemma {:induction false} IterateChain<S>(f: S -> Option<S>, chain: nat -> S, n: nat)
    requires forall i: nat :: i < n ==> f(chain(i)) == Some(chain(i + 1))
    ensures Iterate(f, chain(0), n) == Some(chain(n))
  {
    if n > 0 {
      IterateChain(f, chain, n - 1);
      assert f(chain(n - 1)) == Some(chain(n));
    }
  }

  // ---- what threads have done, in the order in which it took effect

  /** A thread and a value it has delivered. */
  datatype Deed<T> = Deed(thread: nat, value: T)

  function Values<T>(deeds: seq<Deed<T>>): (r: seq<T>)
    ensures |r| == |deeds|
  {
    if deeds == [] then [] else Values(deeds[..|deeds| - 1]) + [deeds[|deeds| - 1].value]
  }

  /** The values of one thread, in order. */
  function By<T>(deeds: seq<Deed<T>>, thread: nat): seq<T> {
    if deeds == [] then []
    else
      var d := deeds[|deeds| - 1];
      By(deeds[..|deeds| - 1], thread) + (if d.thread == thread then [d.value] else [])
  }

  /** Moving on by one step: what was in hand and what came in is what went out and what is
      in hand then. */
  lemma {:induction false} HandOver<T>(before: seq<T>, hand: seq<T>, came: seq<T>, went: seq<T>, left: seq<T>)
    requires hand + came == went + left
    ensures before + hand + came == before + went + left
  {
    assert before + hand + came == before + (hand + came);
    assert before + went + left == before + (went + left);
  }

  lemma {:induction false} OneDeed<T>(t: nat, x: T, u: nat)
    ensures Values([Deed(t, x)]) == [x] && By([Deed(t, x)], u) == if t == u then [x] else []
    ensures Values<T>([]) == [] && By<T>([], u) == []
  {
    assert [Deed(t, x)][..0] == [];
  }

  lemma {:induction false} DeedsSnoc<T>(deeds: seq<Deed<T>>, more: seq<Deed<T>>, thread: nat)
    requires |more| <= 1
    ensures Values(deeds + more) == Values(deeds) + Values(more)
    ensures By(deeds + more, thread) == By(deeds, thread) + By(more, thread)
  {
    if more == [] {
      assert deeds + more == deeds;
    } else {
      assert (deeds + more)[..|deeds|] == deeds && more[..0] == [];
    }
  }
}
