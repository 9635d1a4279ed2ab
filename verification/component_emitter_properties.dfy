/** What the index.js registry guarantees: token fan-out, the effect of each
    operation on the channels, dispatch over snapshots (the named channel,
    then the wildcard), and the scenarios of the repository's tests. */
module ComponentEmitterProperties {
  import opened Listeners
  import opened ComponentEmitter

  // ---------------------------------------------------------------------------
  // Splitting event strings

  /** The inverse of `Split`: the pieces glued back with the separator. */
  function Join(parts: seq<string>): string
    requires |parts| >= 1
    decreases |parts|
  {
    if |parts| == 1 then parts[0] else parts[0] + [Separator] + Join(parts[1..])
  }

  lemma {:induction false} JoinSplit(s: string)
    ensures Join(Split(s)) == s
    decreases |s|
  {
    if s != [] {
      var rest := Split(s[1..]);
      JoinSplit(s[1..]);
      assert s == [s[0]] + s[1..];
      if s[0] == Separator {
        JoinAfterSeparator(rest);
      } else {
        JoinGluesFirst(s[0], rest);
      }
    }
  }

  /** A leading empty piece glues back as a leading separator. */
  lemma {:induction false} JoinAfterSeparator(rest: seq<string>)
    requires |rest| >= 1
    ensures Join([""] + rest) == [Separator] + Join(rest)
  {
    assert ([""] + rest)[1..] == rest;
  }

  /** A character glued to the first piece stays in front of the whole. */
  lemma {:induction false} JoinGluesFirst(c: char, rest: seq<string>)
    requires |rest| >= 1
    ensures Join([[c] + rest[0]] + rest[1..]) == [c] + Join(rest)
  {
    var parts := [[c] + rest[0]] + rest[1..];
    assert |parts| == |rest| && parts[0] == [c] + rest[0] && parts[1..] == rest[1..];
    if |rest| == 1 {
      assert Join(parts) == [c] + rest[0] && Join(rest) == rest[0];
    } else {
      var tail := Join(rest[1..]);
      assert Join(rest) == rest[0] + [Separator] + tail;
      assert Join(parts) == ([c] + rest[0]) + [Separator] + tail;
      assert ([c] + rest[0]) + [Separator] + tail == [c] + (rest[0] + [Separator] + tail);
    }
  }

  /** A piece without separator glues onto the first piece of what follows. */
  lemma {:induction false} SplitPrefix(p: string, t: string)
    requires Separator !in p
    ensures Split(p + t) == [p + Split(t)[0]] + Split(t)[1..]
    decreases |p|
  {
    if p != [] {
      assert (p + t)[0] == p[0] && (p + t)[1..] == p[1..] + t;
      SplitPrefix(p[1..], t);
      assert [p[0]] + (p[1..] + Split(t)[0]) == p + Split(t)[0];
    } else {
      var parts := Split(t);
      assert p + t == t && p + parts[0] == parts[0];
      assert [parts[0]] + parts[1..] == parts;
    }
  }

  /** A string without separator is a single token. */
  lemma {:induction false} SplitWithoutSeparator(s: string)
    requires Separator !in s
    ensures Split(s) == [s]
  {
    SplitPrefix(s, "");
    assert s + "" == s;
  }

  lemma {:induction false} SplitJoin(parts: seq<string>)
    requires |parts| >= 1 && forall p | p in parts :: Separator !in p
    ensures Split(Join(parts)) == parts
    decreases |parts|
  {
    if |parts| == 1 {
      SplitWithoutSeparator(parts[0]);
    } else {
      var tail := Join(parts[1..]);
      SplitJoin(parts[1..]);
      assert parts[0] + [Separator] + tail == parts[0] + ([Separator] + tail);
      SplitPrefix(parts[0], [Separator] + tail);
      assert ([Separator] + tail)[1..] == tail;
      assert Split([Separator] + tail) == [""] + parts[1..];
      assert parts[0] + "" == parts[0];
    }
  }

  /** Distinct names are stored under distinct keys. */
  lemma {:induction false} KeysDistinct(a: string, b: string)
    requires a != b
    ensures Key(a) != Key(b)
  {
    assert Key(a)[1..] == a && Key(b)[1..] == b;
  }

  // ---------------------------------------------------------------------------
  // on / once

  /** `k` copies of `fn`. */
  function Copies(fn: Cb, k: nat): seq<Cb> {
    seq(k, _ => fn)
  }

  /** One registration appends to its own channel and to no other. */
  lemma {:induction false} AddOneAppendsToItsName(r: Registry, n: string, fn: Cb, name: string)
    ensures ListenersOf(AfterAddOne(r, n, fn), name) ==
      if n == name then ListenersOf(r, name) + [fn] else ListenersOf(r, name)
  {
    if n != name {
      KeysDistinct(n, name);
    }
  }

  lemma {:induction false} CopiesCons(fn: Cb, k: nat)
    ensures [fn] + Copies(fn, k) == Copies(fn, k + 1)
  {
  }

  lemma {:induction false} CountSplitsAtHead(names: seq<string>, name: string)
    requires names != []
    ensures multiset(names)[name] == (if names[0] == name then 1 else 0) + multiset(names[1..])[name]
  {
    assert names == [names[0]] + names[1..];
  }

  /** `on(event, fn)` appends `fn` to each token's channel once per
      occurrence of the token, and leaves every other channel as it was. */
  lemma {:induction false} AddAllAppendsPerToken(r: Registry, names: seq<string>, fn: Cb, name: string)
    ensures ListenersOf(AfterAddAll(r, names, fn), name) == ListenersOf(r, name) + Copies(fn, multiset(names)[name])
    ensures AfterAddAll(r, names, fn).nextSerial == r.nextSerial
    ensures AfterAddAll(r, names, fn).initialized == (r.initialized || names != [])
    decreases |names|
  {
    if names != [] {
      var r1 := AfterAddOne(r, names[0], fn);
      AddAllAppendsPerToken(r1, names[1..], fn, name);
      AddOneAppendsToItsName(r, names[0], fn, name);
      CountSplitsAtHead(names, name);
      var k := multiset(names[1..])[name];
      if names[0] == name {
        CopiesCons(fn, k);
        assert (ListenersOf(r, name) + [fn]) + Copies(fn, k) == ListenersOf(r, name) + Copies(fn, k + 1);
      }
    } else {
      assert Copies(fn, 0) == [];
    }
  }

  /** `on(text, fn)` registers `fn` on each space-separated token of `text`;
      a token that does not occur gets nothing. */
  lemma {:induction false} OnFansOut(r: Registry, text: string, fn: Cb, name: string)
    ensures ListenersOf(AfterOn(r, Text(text), fn), name) == ListenersOf(r, name) + Copies(fn, multiset(Split(text))[name])
    ensures AfterOn(r, Text(text), fn).initialized
  {
    AddAllAppendsPerToken(r, Split(text), fn, name);
  }

  /** With a single name, `on` appends `fn` at the end of that channel and no
      other channel changes. */
  lemma {:induction false} OnSingleNameAppends(r: Registry, name: string, fn: Cb, other: string)
    requires Separator !in name && other != name
    ensures ListenersOf(AfterOn(r, Text(name), fn), name) == ListenersOf(r, name) + [fn]
    ensures ListenersOf(AfterOn(r, Text(name), fn), other) == ListenersOf(r, other)
  {
    SplitWithoutSeparator(name);
    AddAllAppendsPerToken(r, [name], fn, name);
    AddAllAppendsPerToken(r, [name], fn, other);
    assert Copies(fn, 1) == [fn];
  }

  /** `on(name, fn)` with a name free of separators is one registration. */
  lemma {:induction false} OnSingleName(r: Registry, name: string, fn: Cb)
    requires Separator !in name
    ensures AfterOn(r, Text(name), fn) == Registry(true, r.callbacks[Key(name) := ListenersOf(r, name) + [fn]], r.nextSerial)
  {
    SplitWithoutSeparator(name);
    assert [name][1..] == [];
    assert AfterOn(r, Text(name), fn) == AfterAddAll(AfterAddOne(r, name, fn), [], fn);
  }

  // ---------------------------------------------------------------------------
  // off

  /** `off(name, fn)` with a name free of separators is one removal. */
  lemma {:induction false} OffSingleName(r: Registry, name: string, fn: Option<Cb>)
    requires Separator !in name
    ensures AfterOff(r, OffEvent(Text(name), fn)) == if r.initialized then AfterRemoveOne(r, name, fn) else r
  {
    SplitWithoutSeparator(name);
    assert [name][1..] == [];
    if r.initialized {
      assert AfterOff(r, OffEvent(Text(name), fn)) == AfterRemoveAll(AfterRemoveOne(r, name, fn), [], fn);
    }
  }

  /** `off()` empties `_callbacks`, after which every emit calls nothing. */
  lemma {:induction false} OffAllSilencesEveryEmit(r: Registry, arg: EventArg, beh: Behaviour)
    requires WellFormed(r)
    ensures AfterOff(r, NoArgs).callbacks == map[]
    ensures Emitted(AfterOff(r, NoArgs), arg, beh) == Dispatch(AfterOff(r, NoArgs), [], false)
  {
  }

  /** `off(event)` deletes the key of every token and nothing else. */
  lemma {:induction false} RemoveAllWithoutFnDeletesKeys(r: Registry, names: seq<string>)
    requires r.initialized
    ensures AfterRemoveAll(r, names, None).callbacks == r.callbacks - (set t | t in names :: Key(t))
    ensures AfterRemoveAll(r, names, None).initialized
    decreases |names|
  {
    if names == [] {
      assert (set t | t in names :: Key(t)) == {};
    } else {
      var r1 := AfterRemoveOne(r, names[0], None);
      assert r1.callbacks == r.callbacks - {Key(names[0])};
      RemoveAllWithoutFnDeletesKeys(r1, names[1..]);
      assert (set t | t in names :: Key(t)) == {Key(names[0])} + (set t | t in names[1..] :: Key(t)) by {
        assert names == [names[0]] + names[1..];
      }
    }
  }

  /** `_removeOneEventListener(name, fn)` removes the first entry that is
      `fn` or wraps it, keeps the order of the rest, leaves the array in
      place even when it becomes empty, and does not touch other channels. */
  lemma {:induction false} RemoveOneTakesFirstMatch(r: Registry, name: string, fn: Cb)
    requires r.initialized
    ensures ListenersOf(AfterRemoveOne(r, name, Some(fn)), name) == RemoveFirst(ListenersOf(r, name), fn)
    ensures Key(name) in AfterRemoveOne(r, name, Some(fn)).callbacks <==> Key(name) in r.callbacks
    ensures forall other | other != name :: ListenersOf(AfterRemoveOne(r, name, Some(fn)), other) == ListenersOf(r, other)
  {
    forall other | other != name
      ensures ListenersOf(AfterRemoveOne(r, name, Some(fn)), other) == ListenersOf(r, other)
    {
      KeysDistinct(name, other);
    }
  }

  /** `on('foo', f)` then `off('foo', f)` leaves an empty array under
      `'$foo'`: the channel has no listeners, but its key stays. */
  lemma {:induction false} EmptiedChannelKeepsItsKey(f: Cb)
    ensures var r := AfterOn(Registry(false, map[], 0), Text("foo"), f);
            var r' := AfterOff(r, OffEvent(Text("foo"), Some(f)));
            r'.callbacks == map["$foo" := []] && ListenersOf(r', "foo") == []
  {
    var r := AfterOn(Registry(false, map[], 0), Text("foo"), f);
    OnSingleName(Registry(false, map[], 0), "foo", f);
    assert [] + [f] == [f];
    assert Key("foo") == "$foo";
    assert r == Registry(true, map["$foo" := [f]], 0);
    OffSingleName(r, "foo", Some(f));
    assert FirstMatch([f], f) == 0;
    assert RemoveFirst([f], f) == [];
  }

  // ---------------------------------------------------------------------------
  // emit

  /** The entries called are the snapshot, in order, up to and including the
      first one that throws; with no throw, exactly the snapshot. */
  lemma {:induction false} DispatchedCallsSnapshot(r: Registry, snapshot: seq<Cb>, beh: Behaviour)
    ensures Dispatched(r, snapshot, beh).called <= snapshot
    ensures !Dispatched(r, snapshot, beh).threw ==> Dispatched(r, snapshot, beh).called == snapshot
    ensures Dispatched(r, snapshot, beh).threw ==> Dispatched(r, snapshot, beh).called != []
    decreases |snapshot|
  {
    if snapshot != [] {
      var st := Invoked(r, snapshot[0], beh);
      if !st.threw {
        DispatchedCallsSnapshot(st.reg, snapshot[1..], beh);
        assert snapshot == [snapshot[0]] + snapshot[1..];
      }
    }
  }

  /** `emit(arg)` calls the named channel's array as it was when `emit`
      began, then the wildcard channel's array as it was once that dispatch
      ended, whatever the listeners add or remove meanwhile; before any
      registration it calls nothing. */
  lemma {:induction false} EmitCallsChannelThenWildcard(r: Registry, arg: EventArg, beh: Behaviour)
    ensures !r.initialized ==> Emitted(r, arg, beh) == Dispatch(r, [], false)
    ensures r.initialized ==>
      Emitted(r, arg, beh).called <= ListenersOf(r, TypeOf(arg)) + ListenersOf(ChannelDispatch(r, arg, beh).reg, Wildcard)
    ensures r.initialized && !Emitted(r, arg, beh).threw ==>
      Emitted(r, arg, beh).called == ListenersOf(r, TypeOf(arg)) + ListenersOf(ChannelDispatch(r, arg, beh).reg, Wildcard)
  {
    if r.initialized {
      var first := ListenersOf(r, TypeOf(arg));
      var d1 := ChannelDispatch(r, arg, beh);
      DispatchedCallsSnapshot(r, first, beh);
      if !d1.threw {
        var all := ListenersOf(d1.reg, Wildcard);
        DispatchedCallsSnapshot(d1.reg, all, beh);
        var d2 := Dispatched(d1.reg, all, beh);
        assert all == d2.called + all[|d2.called|..];
        assert first + all == d1.called + d2.called + all[|d2.called|..];
      } else {
        assert first == d1.called + first[|d1.called|..];
        assert first + ListenersOf(d1.reg, Wildcard) == d1.called + (first[|d1.called|..] + ListenersOf(d1.reg, Wildcard));
      }
    }
  }

  /** An event object dispatches to the channel its `type` names; one without
      a `type` dispatches to the channel named by its default string form. */
  lemma {:induction false} EventObjectDispatchesByType(r: Registry, kind: string, beh: Behaviour)
    ensures kind != "" ==> Emitted(r, EventObject(kind), beh) == Emitted(r, Name(kind), beh)
    ensures kind == "" ==> Emitted(r, EventObject(kind), beh) == Emitted(r, Name(ObjectName), beh)
  {
  }

  // ---------------------------------------------------------------------------
  // Scenarios

  /** Listeners A then B on channel `c`, where A's body calls `off(c, B)`:
      the first emit still calls both, the next one only A. */
  lemma {:induction false} OffDuringEmitTakesEffectNextTime(c: string, a: nat, b: nat, beh: Behaviour)
    requires Separator !in c && c != Wildcard && a != b
    requires beh(a) == [CallOff(OffEvent(Text(c), Some(Fn(b))))] && beh(b) == []
    ensures var r := AfterOn(AfterOn(Registry(false, map[], 0), Text(c), Fn(a)), Text(c), Fn(b));
            var first := Emitted(r, Name(c), beh);
            first.called == [Fn(a), Fn(b)] && !first.threw &&
            Emitted(first.reg, Name(c), beh).called == [Fn(a)]
  {
    var r0 := AfterOn(Registry(false, map[], 0), Text(c), Fn(a));
    OnSingleName(Registry(false, map[], 0), c, Fn(a));
    assert [] + [Fn(a)] == [Callback<EventSpec>.Fn(a)];
    assert r0 == Registry(true, map[Key(c) := [Fn(a)]], 0);
    OnSingleName(r0, c, Fn(b));
    assert [Fn(a)] + [Fn(b)] == [Callback<EventSpec>.Fn(a), Fn(b)];
    assert AfterOn(r0, Text(c), Fn(b)) == Registry(true, map[Key(c) := [Fn(a), Fn(b)]], 0);
    FirstEmitRemovesListener(c, a, b, beh);
    SecondEmitCallsFirstOnly(c, a, b, beh);
  }

  /** The first emit calls A, whose `off(c, B)` empties B's slot, and then
      still B from the copy. */
  lemma {:induction false} FirstEmitRemovesListener(c: string, a: nat, b: nat, beh: Behaviour)
    requires Separator !in c && c != Wildcard && a != b
    requires beh(a) == [CallOff(OffEvent(Text(c), Some(Fn(b))))] && beh(b) == []
    ensures Emitted(Registry(true, map[Key(c) := [Fn(a), Fn(b)]], 0), Name(c), beh) ==
            Dispatch(Registry(true, map[Key(c) := [Fn(a)]], 0), [Fn(a), Fn(b)], false)
  {
    KeysDistinct(c, Wildcard);
    var r := Registry(true, map[Key(c) := [Fn(a), Fn(b)]], 0);
    var r1 := Registry(true, map[Key(c) := [Fn(a)]], 0);
    assert FirstMatch<EventSpec>([Fn(a), Fn(b)], Fn(b)) == 1;
    assert RemoveFirst<EventSpec>([Fn(a), Fn(b)], Fn(b)) == [Fn(a)];
    OffSingleName(r, c, Some(Fn(b)));
    assert AfterOff(r, OffEvent(Text(c), Some(Fn(b)))) == r1;
    assert Performed(r1, []) == Step(r1, false);
    assert Performed(r, beh(a)) == Performed(r1, []);
    assert Invoked(r, Fn(a), beh) == Step(r1, false);
    assert Invoked(r1, Fn(b), beh) == Step(r1, false);
    DispatchedFirst(r1, [Fn(b)], beh);
    assert [Callback<EventSpec>.Fn(b)][1..] == [];
    assert Dispatched(r1, [Fn(b)], beh) == Dispatch(r1, [Fn(b)], false);
    DispatchedFirst(r, [Fn(a), Fn(b)], beh);
    assert [Callback<EventSpec>.Fn(a), Fn(b)][1..] == [Fn(b)];
    assert Dispatched(r, [Fn(a), Fn(b)], beh) == Dispatch(r1, [Fn(a), Fn(b)], false);
    assert ListenersOf(r, c) == [Fn(a), Fn(b)];
    assert ListenersOf(r1, Wildcard) == [];
  }

  /** The next emit calls only A; its `off(c, B)` finds nothing to remove. */
  lemma {:induction false} SecondEmitCallsFirstOnly(c: string, a: nat, b: nat, beh: Behaviour)
    requires Separator !in c && c != Wildcard && a != b
    requires beh(a) == [CallOff(OffEvent(Text(c), Some(Fn(b))))]
    ensures Emitted(Registry(true, map[Key(c) := [Fn(a)]], 0), Name(c), beh).called == [Fn(a)]
  {
    KeysDistinct(c, Wildcard);
    var r1 := Registry(true, map[Key(c) := [Fn(a)]], 0);
    assert FirstMatch<EventSpec>([Fn(a)], Fn(b)) == -1;
    OffSingleName(r1, c, Some(Fn(b)));
    assert AfterOff(r1, OffEvent(Text(c), Some(Fn(b)))) == r1;
    assert Performed(r1, []) == Step(r1, false);
    assert Performed(r1, beh(a)) == Performed(r1, []);
    assert Invoked(r1, Fn(a), beh) == Step(r1, false);
    DispatchedFirst(r1, [Fn(a)], beh);
    assert [Callback<EventSpec>.Fn(a)][1..] == [];
    assert Dispatched(r1, [Fn(a)], beh) == Dispatch(r1, [Fn(a)], false);
    assert ListenersOf(r1, c) == [Fn(a)];
    assert ListenersOf(r1, Wildcard) == [];
  }

  /** Listener A on channel `c` whose body calls `on(c, C)`: the first emit
      calls only A, the next one A and then C. */
  lemma {:induction false} OnDuringEmitTakesEffectNextTime(c: string, a: nat, x: nat, beh: Behaviour)
    requires Separator !in c && c != Wildcard
    requires beh(a) == [CallOn(Text(c), Fn(x))] && beh(x) == []
    ensures var r := AfterOn(Registry(false, map[], 0), Text(c), Fn(a));
            var first := Emitted(r, Name(c), beh);
            first.called == [Fn(a)] && !first.threw &&
            Emitted(first.reg, Name(c), beh).called == [Fn(a), Fn(x)]
  {
    OnSingleName(Registry(false, map[], 0), c, Fn(a));
    assert [] + [Fn(a)] == [Callback<EventSpec>.Fn(a)];
    assert AfterOn(Registry(false, map[], 0), Text(c), Fn(a)) == Registry(true, map[Key(c) := [Fn(a)]], 0);
    FirstEmitAddsListener(c, a, x, beh);
    SecondEmitCallsBoth(c, a, x, beh);
  }

  /** The first emit calls A, whose `on(c, C)` appends C behind it. */
  lemma {:induction false} FirstEmitAddsListener(c: string, a: nat, x: nat, beh: Behaviour)
    requires Separator !in c && c != Wildcard
    requires beh(a) == [CallOn(Text(c), Fn(x))]
    ensures Emitted(Registry(true, map[Key(c) := [Fn(a)]], 0), Name(c), beh) ==
            Dispatch(Registry(true, map[Key(c) := [Fn(a), Fn(x)]], 0), [Fn(a)], false)
  {
    KeysDistinct(c, Wildcard);
    var r := Registry(true, map[Key(c) := [Fn(a)]], 0);
    var r1 := Registry(true, map[Key(c) := [Fn(a), Fn(x)]], 0);
    OnSingleName(r, c, Fn(x));
    assert [Fn(a)] + [Fn(x)] == [Callback<EventSpec>.Fn(a), Fn(x)];
    assert AfterOn(r, Text(c), Fn(x)) == r1;
    assert Performed(r1, []) == Step(r1, false);
    assert Performed(r, beh(a)) == Performed(r1, []);
    assert Invoked(r, Fn(a), beh) == Step(r1, false);
    DispatchedFirst(r, [Fn(a)], beh);
    assert [Callback<EventSpec>.Fn(a)][1..] == [];
    assert Dispatched(r, [Fn(a)], beh) == Dispatch(r1, [Fn(a)], false);
    assert ListenersOf(r, c) == [Fn(a)];
    assert ListenersOf(r1, Wildcard) == [];
  }

  /** The next emit calls A, which appends another C, then the first C. */
  lemma {:induction false} SecondEmitCallsBoth(c: string, a: nat, x: nat, beh: Behaviour)
    requires Separator !in c && c != Wildcard
    requires beh(a) == [CallOn(Text(c), Fn(x))] && beh(x) == []
    ensures Emitted(Registry(true, map[Key(c) := [Fn(a), Fn(x)]], 0), Name(c), beh).called == [Fn(a), Fn(x)]
  {
    KeysDistinct(c, Wildcard);
    var r1 := Registry(true, map[Key(c) := [Fn(a), Fn(x)]], 0);
    var r2 := Registry(true, map[Key(c) := [Fn(a), Fn(x), Fn(x)]], 0);
    OnSingleName(r1, c, Fn(x));
    assert [Fn(a), Fn(x)] + [Fn(x)] == [Callback<EventSpec>.Fn(a), Fn(x), Fn(x)];
    assert AfterOn(r1, Text(c), Fn(x)) == r2;
    assert Performed(r2, []) == Step(r2, false);
    assert Performed(r1, beh(a)) == Performed(r2, []);
    assert Invoked(r1, Fn(a), beh) == Step(r2, false);
    assert Invoked(r2, Fn(x), beh) == Step(r2, false);
    DispatchedFirst(r2, [Fn(x)], beh);
    assert [Callback<EventSpec>.Fn(x)][1..] == [];
    assert Dispatched(r2, [Fn(x)], beh) == Dispatch(r2, [Fn(x)], false);
    DispatchedFirst(r1, [Fn(a), Fn(x)], beh);
    assert [Callback<EventSpec>.Fn(a), Fn(x)][1..] == [Fn(x)];
    assert Dispatched(r1, [Fn(a), Fn(x)], beh) == Dispatch(r2, [Fn(a), Fn(x)], false);
    assert ListenersOf(r1, c) == [Fn(a), Fn(x)];
    assert ListenersOf(r2, Wildcard) == [];
  }

  /** A listener on the wildcard channel hears every emit; emitting `"*"`
      itself reaches it twice, once as the named channel and once as the
      wildcard. */
  lemma {:induction false} WildcardHearsEverything(f: nat, name: string, beh: Behaviour)
    requires beh(f) == [] && name != Wildcard
    ensures var r := AfterOn(Registry(false, map[], 0), Text(Wildcard), Fn(f));
            Emitted(r, Name(name), beh).called == [Fn(f)] &&
            Emitted(r, Name(Wildcard), beh).called == [Fn(f), Fn(f)]
  {
    KeysDistinct(name, Wildcard);
    var r := AfterOn(Registry(false, map[], 0), Text(Wildcard), Fn(f));
    OnSingleName(Registry(false, map[], 0), Wildcard, Fn(f));
    assert [] + [Fn(f)] == [Callback<EventSpec>.Fn(f)];
    assert r == Registry(true, map[Key(Wildcard) := [Fn(f)]], 0);
    assert Invoked(r, Fn(f), beh) == Step(r, false);
    assert Dispatched(r, [Fn(f)], beh) == Dispatch(r, [Fn(f)], false);
    assert ListenersOf(r, name) == [];
  }

  /** `once("a a", f)` registers its wrapper twice on channel "a"; emitting
      "a" calls the wrapper twice, because the wrapper's own `off("a a", on)`
      runs only after the snapshot was taken. */
  lemma {:induction false} OnceWithRepeatedTokenRunsTwice(f: nat, beh: Behaviour)
    requires beh(f) == []
    ensures var r := AfterOnce(Registry(false, map[], 0), Text("a a"), Fn(f));
            var w := WrapperFor(Registry(false, map[], 0), Text("a a"), Fn(f));
            Emitted(r, Name("a"), beh).called == [w, w]
  {
    OnceOnRepeatedToken(f);
    RepeatedWrapperRunsTwice(f, beh);
  }

  /** Emitting "a" with two copies of the wrapper of `once("a a", f)` on
      channel "a" calls both copies. */
  lemma {:induction false} RepeatedWrapperRunsTwice(f: nat, beh: Behaviour)
    requires beh(f) == []
    ensures var w := OnceWrapper(0, Text("a a"), Fn(f));
            Emitted(Registry(true, map[Key("a") := [w, w]], 1), Name("a"), beh).called == [w, w]
  {
    var w := OnceWrapper(0, Text("a a"), Fn(f));
    var r := Registry(true, map[Key("a") := [w, w]], 1);
    var r2 := Registry(true, map[Key("a") := []], 1);
    WrapperEmptiesRepeatedToken(w);
    assert Performed(r2, beh(f)) == Step(r2, false);
    assert Invoked(r2, Fn(f), beh) == Step(r2, false);
    assert Invoked(r, w, beh) == Invoked(r2, Fn(f), beh);
    assert Invoked(r2, w, beh) == Invoked(r2, Fn(f), beh);
    DispatchedFirst(r2, [w], beh);
    assert [w][1..] == [];
    assert Dispatched(r2, [w], beh) == Dispatch(r2, [w], false);
    DispatchedFirst(r, [w, w], beh);
    assert [w, w][1..] == [w] && [w] + [w] == [w, w];
    assert Dispatched(r, [w, w], beh) == Dispatch(r2, [w, w], false);
    assert ListenersOf(r, "a") == [w, w];
    assert ListenersOf(r2, Wildcard) == [] by { KeysDistinct("a", Wildcard); }
    assert Dispatched(r2, [], beh) == Dispatch(r2, [], false);
  }

  /** `"a a"` is the token `"a"` twice. */
  lemma {:induction false} SplitRepeatedToken()
    ensures Split("a a") == ["a", "a"]
  {
    SplitPrefix("a", " a");
    SplitWithoutSeparator("a");
    assert "a" + " a" == "a a";
    assert Split(" a") == [""] + Split("a");
  }

  /** `once("a a", f)` puts its wrapper twice on channel "a". */
  lemma {:induction false} OnceOnRepeatedToken(f: nat)
    ensures var w := WrapperFor(Registry(false, map[], 0), Text("a a"), Fn(f));
            AfterOnce(Registry(false, map[], 0), Text("a a"), Fn(f)) == Registry(true, map[Key("a") := [w, w]], 1)
  {
    var w := WrapperFor(Registry(false, map[], 0), Text("a a"), Fn(f));
    SplitRepeatedToken();
    var ra := AfterAddOne(Registry(false, map[], 1), "a", w);
    assert [] + [w] == [w] && [w] + [w] == [w, w];
    assert ra == Registry(true, map[Key("a") := [w]], 1);
    assert AfterAddOne(ra, "a", w) == Registry(true, map[Key("a") := [w, w]], 1);
    assert ["a", "a"][1..] == ["a"] && ["a"][1..] == [];
  }

  /** The wrapper's `off("a a", on)` empties channel "a", from two copies
      or from none. */
  lemma {:induction false} WrapperEmptiesRepeatedToken(w: Cb)
    ensures var r2 := Registry(true, map[Key("a") := []], 1);
            AfterOff(Registry(true, map[Key("a") := [w, w]], 1), OffEvent(Text("a a"), Some(w))) == r2 &&
            AfterOff(r2, OffEvent(Text("a a"), Some(w))) == r2
  {
    var r := Registry(true, map[Key("a") := [w, w]], 1);
    var r1 := Registry(true, map[Key("a") := [w]], 1);
    var r2 := Registry(true, map[Key("a") := []], 1);
    assert FirstMatch<EventSpec>([w, w], w) == 0 && FirstMatch<EventSpec>([w], w) == 0;
    assert RemoveFirst<EventSpec>([w, w], w) == [w] && RemoveFirst<EventSpec>([w], w) == [];
    assert AfterRemoveOne(r, "a", Some(w)) == r1;
    assert AfterRemoveOne(r1, "a", Some(w)) == r2;
    assert AfterRemoveOne(r2, "a", Some(w)) == r2;
    OffRepeatedToken(r, Some(w));
    OffRepeatedToken(r2, Some(w));
  }

  /** `off("a a", fn)` is two removals from channel "a". */
  lemma {:induction false} OffRepeatedToken(r: Registry, fn: Option<Cb>)
    requires r.initialized
    ensures AfterOff(r, OffEvent(Text("a a"), fn)) == AfterRemoveOne(AfterRemoveOne(r, "a", fn), "a", fn)
  {
    SplitRepeatedToken();
    assert ["a", "a"][1..] == ["a"] && ["a"][1..] == [];
  }
}
