/** Listener identities and the first-match removal rule shared by both
    emitter variants (index.js and EventEmitter3.mjs). */
module Listeners {

  datatype Option<+T> = None | Some(value: T)

  /** A registered listener. `Fn(id)` is a function supplied by the host
      program, compared by its identity `id`. `OnceWrapper(serial, event, fn)`
      is the closure that `once` allocates: `serial` is its own identity, it
      captures the `event` argument it was registered with, and it records the
      original callback in its `fn` property. */
  datatype Callback<E> = Fn(id: nat) | OnceWrapper(serial: nat, event: E, fn: Callback<E>)

  /** The removal test of `off`: the entry is the callback itself, or a once
      wrapper whose `fn` property is the callback. */
  predicate Matches<E(==)>(cb: Callback<E>, fn: Callback<E>) {
    cb == fn || (cb.OnceWrapper? && cb.fn == fn)
  }

  /** The index of the first entry of `s` that matches `fn`, or -1 when none
      does (the contract of `Array.prototype.findIndex`). */
  function FirstMatch<E(==)>(s: seq<Callback<E>>, fn: Callback<E>): (i: int)
    ensures -1 <= i < |s|
    ensures 0 <= i ==> Matches(s[i], fn)
    ensures forall j | 0 <= j < |s| && (i < 0 || j < i) :: !Matches(s[j], fn)
  {
    if s == [] then -1
    else if Matches(s[0], fn) then 0
    else
      var i := FirstMatch(s[1..], fn);
      if i < 0 then -1 else i + 1
  }

  /** The scan both variants perform before `splice`: the loop of
      `_removeOneEventListener` in index.js and `findIndex` in EventEmitter3.mjs. */
  method FindIndex<E(==)>(s: seq<Callback<E>>, fn: Callback<E>) returns (i: int)
    ensures i == FirstMatch(s, fn)
  {
    i := 0;
    while i < |s| && !Matches(s[i], fn)
      invariant 0 <= i <= |s|
      invariant forall j | 0 <= j < i :: !Matches(s[j], fn)
    {
      i := i + 1;
    }
    if i == |s| {
      i := -1;
    }
  }

  /** `s` after `splice(FirstMatch(s, fn), 1)`, or `s` itself when nothing
      matches. */
  function RemoveFirst<E(==)>(s: seq<Callback<E>>, fn: Callback<E>): seq<Callback<E>>
  {
    var i := FirstMatch(s, fn);
    if i < 0 then s else s[..i] + s[i + 1..]
  }

  /** Removal takes exactly the first matching entry and keeps the order of
      the others; with no match it changes nothing. */
  lemma {:induction false} RemoveFirstCharacterized<E>(s: seq<Callback<E>>, fn: Callback<E>)
    ensures (forall j | 0 <= j < |s| :: !Matches(s[j], fn)) ==> RemoveFirst(s, fn) == s
    ensures forall i | 0 <= i < |s| && Matches(s[i], fn) && (forall j | 0 <= j < i :: !Matches(s[j], fn)) ::
      RemoveFirst(s, fn) == s[..i] + s[i + 1..]
  {
    forall i | 0 <= i < |s| && Matches(s[i], fn) && (forall j | 0 <= j < i :: !Matches(s[j], fn))
      ensures RemoveFirst(s, fn) == s[..i] + s[i + 1..]
    {
      assert FirstMatch(s, fn) == i;
    }
  }

  /** At most one entry leaves, and nothing new arrives. */
  lemma {:induction false} RemoveFirstShrinks<E>(s: seq<Callback<E>>, fn: Callback<E>)
    ensures multiset(RemoveFirst(s, fn)) <= multiset(s)
    ensures |s| - 1 <= |RemoveFirst(s, fn)| <= |s|
    ensures |RemoveFirst(s, fn)| == |s| <==> forall j | 0 <= j < |s| :: !Matches(s[j], fn)
  {
    var i := FirstMatch(s, fn);
    if 0 <= i {
      assert s == s[..i] + [s[i]] + s[i + 1..];
      assert multiset(s) == multiset(s[..i]) + multiset{s[i]} + multiset(s[i + 1..]);
      assert RemoveFirst(s, fn) == s[..i] + s[i + 1..];
      assert |RemoveFirst(s, fn)| == |s| - 1 && Matches(s[i], fn);
    } else {
      assert RemoveFirst(s, fn) == s;
    }
  }

  /** The callback identities a listener carries: its own serial, if it is a
      once wrapper, and those of the callback it wraps. */
  predicate Mentions<E>(cb: Callback<E>, n: nat) {
    match cb
    case Fn(_) => false
    case OnceWrapper(serial, _, fn) => serial == n || Mentions(fn, n)
  }

  /** When `w` is the only entry that carries serial `w.serial`, the removal
      test for `w` picks out `w` itself and nothing else: no other wrapper can
      hold `w` in its `fn` property. */
  lemma {:induction false} MatchesOnlyItself<E>(cb: Callback<E>, w: Callback<E>)
    requires w.OnceWrapper? && !Mentions(w.fn, w.serial)
    requires Mentions(cb, w.serial) ==> cb == w
    ensures Matches(cb, w) <==> cb == w
  {
    assert Mentions(w, w.serial);
    assert w.fn != w;
  }

  /** Removing `w` from a list holding it at most once, where nothing else
      carries its identity, leaves no copy of it. */
  lemma {:induction false} RemovingTheOnlyCopy<E>(s: seq<Callback<E>>, w: Callback<E>)
    requires w.OnceWrapper? && !Mentions(w.fn, w.serial)
    requires forall cb | cb in s && Mentions(cb, w.serial) :: cb == w
    requires multiset(s)[w] <= 1
    ensures w !in RemoveFirst(s, w)
  {
    if w in s {
      var i := FirstMatch(s, w);
      assert s[i] in s;
      MatchesOnlyItself(s[i], w);
      DroppingOneCopy(s, i);
    } else {
      RemoveFirstShrinks(s, w);
    }
  }

  /** Dropping the entry at `i` lowers its count by one. */
  lemma {:induction false} DroppingOneCopy<T>(s: seq<T>, i: int)
    requires 0 <= i < |s|
    ensures multiset(s[..i] + s[i + 1..])[s[i]] == multiset(s)[s[i]] - 1
  {
    assert s == s[..i] + [s[i]] + s[i + 1..];
  }

  /** A prefix of a list holds an entry no more often than the list does. */
  lemma {:induction false} PrefixHoldsNoMore<E>(called: seq<Callback<E>>, s: seq<Callback<E>>, w: Callback<E>)
    requires called <= s
    ensures multiset(called)[w] <= multiset(s)[w]
  {
    assert s == called + s[|called|..];
    assert multiset(s) == multiset(called) + multiset(s[|called|..]);
  }
}
