/** What the EventEmitter3.mjs registry guarantees: the effect of each
    operation on the channels, the no-empty-array invariant, dispatch over the
    snapshot taken at entry, and the single run of a `once` wrapper. */
module Emitter3Properties {
  import opened Listeners
  import opened Emitter3

  // ---------------------------------------------------------------------------
  // The registry operations one at a time

  /** `on` appends at the end of the channel, creating it if absent, and
      leaves every other channel as it was. */
  lemma {:induction false} OnAppends(r: Registry, event: string, fn: Cb)
    ensures ListenersOf(AfterOn(r, event, fn), event) == ListenersOf(r, event) + [fn]
    ensures forall e | e != event :: ListenersOf(AfterOn(r, event, fn), e) == ListenersOf(r, e)
    ensures AfterOn(r, event, fn).callbacks.Keys == r.callbacks.Keys + {event}
  {
  }

  /** `off()` and `off` with an empty-string event both empty the whole
      registry: the test `!event` does not tell them apart. */
  lemma {:induction false} OffFalsyEventClearsAll(r: Registry, fn: Option<Cb>)
    ensures AfterOff(r, None, fn).callbacks == map[]
    ensures AfterOff(r, Some(""), fn).callbacks == map[]
    ensures forall e :: ListenersOf(AfterOff(r, Some(""), fn), e) == []
  {
  }

  /** `off(event)` deletes that channel and only that one. */
  lemma {:induction false} OffChannelDeletesOnlyIt(r: Registry, event: string)
    requires event != ""
    ensures AfterOff(r, Some(event), None).callbacks == r.callbacks - {event}
  {
  }

  /** `off(event, fn)` removes the first entry that is `fn` or wraps it, keeps
      the order of the rest, deletes the channel once it is empty, and does not
      touch other channels. */
  lemma {:induction false} OffRemovesFirstMatch(r: Registry, event: string, fn: Cb)
    requires event != ""
    ensures ListenersOf(AfterOff(r, Some(event), Some(fn)), event) == RemoveFirst(ListenersOf(r, event), fn)
    ensures event in AfterOff(r, Some(event), Some(fn)).callbacks <==> RemoveFirst(ListenersOf(r, event), fn) != []
    ensures forall e | e != event :: ListenersOf(AfterOff(r, Some(event), Some(fn)), e) == ListenersOf(r, e)
  {
    var rest := RemoveFirst(ListenersOf(r, event), fn);
    var r' := AfterOff(r, Some(event), Some(fn));
    if event !in r.callbacks {
      assert r' == r && rest == [];
    } else if rest == [] {
      assert r'.callbacks == r.callbacks - {event};
    } else {
      assert r'.callbacks == r.callbacks[event := rest];
    }
  }

  /** An unknown channel, or a callback that matches nothing on its channel,
      makes `off(event, fn)` change nothing. */
  lemma {:induction false} OffWithoutMatchChangesNothing(r: Registry, event: string, fn: Cb)
    requires NoEmptyBuckets(r) && event != ""
    requires forall cb | cb in ListenersOf(r, event) :: !Matches(cb, fn)
    ensures AfterOff(r, Some(event), Some(fn)) == r
  {
    var s := ListenersOf(r, event);
    assert forall j | 0 <= j < |s| :: !Matches(s[j], fn) by {
      forall j | 0 <= j < |s| ensures !Matches(s[j], fn) { assert s[j] in s; }
    }
    RemoveFirstCharacterized(s, fn);
    if event in r.callbacks {
      assert r.callbacks[event := s] == r.callbacks;
    }
  }

  // ---------------------------------------------------------------------------
  // No channel maps to an empty array

  lemma {:induction false} ApplyKeepsNoEmptyBuckets(r: Registry, e: Effect)
    requires NoEmptyBuckets(r)
    ensures NoEmptyBuckets(Apply(r, e))
  {
    match e
    case CallOn(_, _) =>
    case CallOnce(_, _) =>
    case CallOff(event, fn) =>
      if event.Some? && event.value != "" && event.value in r.callbacks && fn.Some? {
        var rest := RemoveFirst(r.callbacks[event.value], fn.value);
        var r' := AfterOff(r, event, fn);
        if rest != [] {
          assert r'.callbacks == r.callbacks[event.value := rest];
        }
      }
    case Throw =>
  }

  lemma {:induction false} PerformedKeepsNoEmptyBuckets(r: Registry, body: seq<Effect>)
    requires NoEmptyBuckets(r)
    ensures NoEmptyBuckets(Performed(r, body).reg)
    decreases |body|
  {
    if body != [] && !body[0].Throw? {
      ApplyKeepsNoEmptyBuckets(r, body[0]);
      PerformedKeepsNoEmptyBuckets(Apply(r, body[0]), body[1..]);
    }
  }

  lemma {:induction false} InvokedKeepsNoEmptyBuckets(r: Registry, cb: Cb, beh: Behaviour)
    requires NoEmptyBuckets(r)
    ensures NoEmptyBuckets(Invoked(r, cb, beh).reg)
    decreases cb
  {
    match cb
    case Fn(id) =>
      PerformedKeepsNoEmptyBuckets(r, beh(id));
    case OnceWrapper(_, event, fn) =>
      ApplyKeepsNoEmptyBuckets(r, CallOff(Some(event), Some(cb)));
      InvokedKeepsNoEmptyBuckets(AfterOff(r, Some(event), Some(cb)), fn, beh);
  }

  lemma {:induction false} DispatchedKeepsNoEmptyBuckets(r: Registry, snapshot: seq<Cb>, beh: Behaviour)
    requires NoEmptyBuckets(r)
    ensures NoEmptyBuckets(Dispatched(r, snapshot, beh).reg)
    decreases |snapshot|
  {
    if snapshot != [] {
      InvokedKeepsNoEmptyBuckets(r, snapshot[0], beh);
      var st := Invoked(r, snapshot[0], beh);
      if !st.threw {
        DispatchedKeepsNoEmptyBuckets(st.reg, snapshot[1..], beh);
      }
    }
  }

  /** Whatever the listeners do during an emit, no channel is left mapped to
      an empty array; together with `on` always pushing, this is the invariant
      every operation keeps. */
  lemma {:induction false} EmittedKeepsNoEmptyBuckets(r: Registry, event: string, beh: Behaviour)
    requires NoEmptyBuckets(r)
    ensures NoEmptyBuckets(Emitted(r, event, beh).reg)
  {
    if event in r.callbacks {
      DispatchedKeepsNoEmptyBuckets(r, r.callbacks[event], beh);
    }
  }

  /** Under the invariant, a channel is named by `eventNames()` exactly when
      it has listeners. */
  lemma {:induction false} EventNamesAreChannelsWithListeners(r: Registry, event: string)
    requires NoEmptyBuckets(r)
    ensures event in r.callbacks.Keys <==> ListenersOf(r, event) != []
  {
  }

  /** Subscribing and then unsubscribing the same callback gives back the
      registry, channel key included, provided nothing earlier on the channel
      matched the callback. */
  lemma {:induction false} OnThenOffRestores(r: Registry, event: string, fn: Cb)
    requires NoEmptyBuckets(r) && event != ""
    requires forall cb | cb in ListenersOf(r, event) :: !Matches(cb, fn)
    ensures AfterOff(AfterOn(r, event, fn), Some(event), Some(fn)) == r
  {
    var s := ListenersOf(r, event);
    RemoveFirstBehindAppend(s, fn, fn);
    if s == [] {
      assert r.callbacks[event := [fn]] - {event} == r.callbacks;
    } else {
      assert r.callbacks[event := s] == r.callbacks;
    }
  }

  /** `once(event, fn)` followed by `off(event, fn)` removes the wrapper
      through its `fn` link: the channels are as before and `fn` can no
      longer be called from them. */
  lemma {:induction false} OnceThenOffRestores(r: Registry, event: string, fn: Cb)
    requires NoEmptyBuckets(r) && event != ""
    requires forall cb | cb in ListenersOf(r, event) :: !Matches(cb, fn)
    ensures AfterOff(AfterOnce(r, event, fn), Some(event), Some(fn)) == Registry(r.callbacks, r.nextSerial + 1)
  {
    var s := ListenersOf(r, event);
    RemoveFirstBehindAppend(s, WrapperFor(r, event, fn), fn);
    if s == [] {
      assert r.callbacks[event := [WrapperFor(r, event, fn)]] - {event} == r.callbacks;
    } else {
      assert r.callbacks[event := s] == r.callbacks;
    }
  }

  /** Removing `fn` from `s + [last]`, when only `last` matches, gives `s`. */
  lemma {:induction false} RemoveFirstBehindAppend(s: seq<Cb>, last: Cb, fn: Cb)
    requires forall cb | cb in s :: !Matches(cb, fn)
    requires Matches(last, fn)
    ensures RemoveFirst(s + [last], fn) == s
  {
    var t := s + [last];
    forall j | 0 <= j < |s| ensures !Matches(t[j], fn) {
      assert t[j] == s[j] && s[j] in s;
    }
    RemoveFirstCharacterized(t, fn);
    assert t[..|s|] + t[|s| + 1..] == s;
  }

  // ---------------------------------------------------------------------------
  // Dispatch over the snapshot

  /** The entries called are the snapshot, in order, up to and including the
      first one that throws; with no throw, exactly the snapshot. */
  lemma {:induction false} DispatchedCallsSnapshot(r: Registry, snapshot: seq<Cb>, beh: Behaviour)
    ensures Dispatched(r, snapshot, beh).called <= snapshot
    ensures !Dispatched(r, snapshot, beh).threw ==> Dispatched(r, snapshot, beh).called == snapshot
    ensures Dispatched(r, snapshot, beh).threw ==> Dispatched(r, snapshot, beh).called != []
    decreases |snapshot|
  {
    if snapshot != [] {
      var st := Invoked(r, snapshot[0], beh);
      if !st.threw {
        DispatchedCallsSnapshot(st.reg, snapshot[1..], beh);
        assert snapshot == [snapshot[0]] + snapshot[1..];
      }
    }
  }

  /** `emit(event)` calls the channel's array as it was when `emit` began,
      whatever the listeners add or remove meanwhile; a throwing listener
      ends the dispatch. */
  lemma {:induction false} EmitCallsEntrySnapshot(r: Registry, event: string, beh: Behaviour)
    ensures Emitted(r, event, beh).called <= ListenersOf(r, event)
    ensures !Emitted(r, event, beh).threw ==> Emitted(r, event, beh).called == ListenersOf(r, event)
  {
    if event in r.callbacks {
      DispatchedCallsSnapshot(r, r.callbacks[event], beh);
    }
  }

  /** `emit` on a channel with no array calls nothing and changes nothing. */
  lemma {:induction false} EmitUnknownChannelIsNoOp(r: Registry, event: string, beh: Behaviour)
    requires event !in r.callbacks
    ensures Emitted(r, event, beh) == Dispatch(r, [], false)
  {
  }

  /** After `off()` every emit, to any channel, calls nothing. */
  lemma {:induction false} OffAllSilencesEveryEmit(r: Registry, fn: Option<Cb>, event: string, beh: Behaviour)
    ensures Emitted(AfterOff(r, None, fn), event, beh).called == []
  {
  }

  // ---------------------------------------------------------------------------
  // Scenarios of the repository's tests

  /** Listeners A then B on `c`, where A's body calls `off(c, B)`: the first
      emit still calls both, the next one only A. */
  lemma {:induction false} OffDuringEmitTakesEffectNextTime(c: string, a: nat, b: nat, beh: Behaviour)
    requires c != "" && a != b
    requires beh(a) == [CallOff(Some(c), Some(Fn(b)))] && beh(b) == []
    ensures var r := AfterOn(AfterOn(Initial(), c, Fn(a)), c, Fn(b));
            var first := Emitted(r, c, beh);
            first.called == [Fn(a), Fn(b)] && !first.threw &&
            Emitted(first.reg, c, beh).called == [Fn(a)]
  {
    var r0 := AfterOn(Initial(), c, Fn(a));
    assert ListenersOf(Initial(), c) + [Fn(a)] == [Fn(a)];
    assert ListenersOf(r0, c) == [Fn(a)];
    var r := AfterOn(r0, c, Fn(b));
    assert ListenersOf(r0, c) + [Fn(b)] == [Fn(a), Fn(b)];
    assert r.callbacks == map[c := [Fn(a), Fn(b)]];
    assert FirstMatch<string>([Fn(a), Fn(b)], Fn(b)) == 1;
    assert RemoveFirst(r.callbacks[c], Fn(b)) == [Fn(a)];
    var r1 := Registry(map[c := [Fn(a)]], 0);
    assert AfterOff(r, Some(c), Some(Fn(b))) == r1;
    assert Performed(r, beh(a)) == Performed(r1, []);
    assert Invoked(r, Fn(a), beh) == Step(r1, false);
    assert Invoked(r1, Fn(b), beh) == Step(r1, false);
    assert Dispatched(r1, [Fn(b)], beh) == Dispatch(r1, [Fn(b)], false);
    assert Emitted(r, c, beh) == Dispatch(r1, [Fn(a), Fn(b)], false);
    assert FirstMatch<string>([Fn(a)], Fn(b)) == -1;
    assert RemoveFirst(r1.callbacks[c], Fn(b)) == [Fn(a)];
    assert AfterOff(r1, Some(c), Some(Fn(b))) == r1;
    assert Performed(r1, beh(a)) == Performed(r1, []);
    assert Invoked(r1, Fn(a), beh) == Step(r1, false);
    assert Dispatched(r1, [Fn(a)], beh).called == [Fn(a)];
  }

  /** The repository's test order: B on `c` first, then A, whose body calls
      `off(c, B)`. The first emit calls B and then A and leaves only A; the
      next one calls A alone. */
  lemma {:induction false} OffFromListenerStopsEarlierListener(c: string, a: nat, b: nat, beh: Behaviour)
    requires c != "" && a != b
    requires beh(a) == [CallOff(Some(c), Some(Fn(b)))] && beh(b) == []
    ensures var r := AfterOn(AfterOn(Initial(), c, Fn(b)), c, Fn(a));
            var first := Emitted(r, c, beh);
            first.called == [Fn(b), Fn(a)] && !first.threw &&
            ListenersOf(first.reg, c) == [Fn(a)] &&
            Emitted(first.reg, c, beh).called == [Fn(a)]
  {
    var r0 := AfterOn(Initial(), c, Fn(b));
    assert ListenersOf(Initial(), c) + [Fn(b)] == [Fn(b)];
    assert ListenersOf(r0, c) == [Fn(b)];
    var r := AfterOn(r0, c, Fn(a));
    assert ListenersOf(r0, c) + [Fn(a)] == [Fn(b), Fn(a)];
    assert r.callbacks == map[c := [Fn(b), Fn(a)]];
    assert Invoked(r, Fn(b), beh) == Step(r, false);
    assert FirstMatch<string>([Fn(b), Fn(a)], Fn(b)) == 0;
    assert RemoveFirst(r.callbacks[c], Fn(b)) == [Fn(a)];
    var r1 := Registry(map[c := [Fn(a)]], 0);
    assert AfterOff(r, Some(c), Some(Fn(b))) == r1;
    assert Performed(r, beh(a)) == Performed(r1, []);
    assert Invoked(r, Fn(a), beh) == Step(r1, false);
    assert Dispatched(r, [Fn(a)], beh) == Dispatch(r1, [Fn(a)], false);
    assert Emitted(r, c, beh) == Dispatch(r1, [Fn(b), Fn(a)], false);
    assert FirstMatch<string>([Fn(a)], Fn(b)) == -1;
    assert RemoveFirst(r1.callbacks[c], Fn(b)) == [Fn(a)];
    assert AfterOff(r1, Some(c), Some(Fn(b))) == r1;
    assert Performed(r1, beh(a)) == Performed(r1, []);
    assert Invoked(r1, Fn(a), beh) == Step(r1, false);
    assert Dispatched(r1, [Fn(a)], beh).called == [Fn(a)];
  }

  /** Listener A on `c` whose body calls `on(c, C)`: the first emit calls only
      A, the next one A and then C. */
  lemma {:induction false} OnDuringEmitTakesEffectNextTime(c: string, a: nat, x: nat, beh: Behaviour)
    requires beh(a) == [CallOn(c, Fn(x))] && beh(x) == []
    ensures var r := AfterOn(Initial(), c, Fn(a));
            var first := Emitted(r, c, beh);
            first.called == [Fn(a)] && !first.threw &&
            Emitted(first.reg, c, beh).called == [Fn(a), Fn(x)]
  {
    var r := AfterOn(Initial(), c, Fn(a));
    assert ListenersOf(Initial(), c) + [Fn(a)] == [Fn(a)];
    assert r.callbacks == map[c := [Fn(a)]];
    var r1 := Registry(map[c := [Fn(a), Fn(x)]], 0);
    assert ListenersOf(r, c) + [Fn(x)] == [Fn(a), Fn(x)];
    assert AfterOn(r, c, Fn(x)) == r1;
    assert Performed(r, beh(a)) == Performed(r1, []);
    assert Invoked(r, Fn(a), beh) == Step(r1, false);
    assert Dispatched(r, [Fn(a)], beh) == Dispatch(r1, [Fn(a)], false);
    assert Emitted(r, c, beh) == Dispatch(r1, [Fn(a)], false);
    var r2 := Registry(map[c := [Fn(a), Fn(x), Fn(x)]], 0);
    assert ListenersOf(r1, c) + [Fn(x)] == [Fn(a), Fn(x), Fn(x)];
    assert AfterOn(r1, c, Fn(x)) == r2;
    assert Performed(r1, beh(a)) == Performed(r2, []);
    assert Invoked(r1, Fn(a), beh) == Step(r2, false);
    assert Invoked(r2, Fn(x), beh) == Step(r2, false);
    assert Dispatched(r2, [Fn(x)], beh) == Dispatch(r2, [Fn(x)], false);
  }

  /** The same callback registered twice is called twice; one `off` leaves one
      registration. */
  lemma {:induction false} DuplicatesAreKept(c: string, f: nat, beh: Behaviour)
    requires c != "" && beh(f) == []
    ensures var r := AfterOn(AfterOn(Initial(), c, Fn(f)), c, Fn(f));
            Emitted(r, c, beh).called == [Fn(f), Fn(f)] &&
            ListenersOf(AfterOff(r, Some(c), Some(Fn(f))), c) == [Fn(f)]
  {
    var r := AfterOn(AfterOn(Initial(), c, Fn(f)), c, Fn(f));
    assert r.callbacks[c] == [Fn(f), Fn(f)];
    assert Invoked(r, Fn(f), beh) == Step(r, false);
    assert Dispatched(r, [Fn(f)], beh) == Dispatch(r, [Fn(f)], false);
    assert FirstMatch<string>([Fn(f), Fn(f)], Fn(f)) == 0;
  }

  /** `once('foo', one)`, `once('fee', one)`, `off('foo', one)`: emitting
      'foo' calls nothing, while 'fee' keeps its wrapper. */
  lemma {:induction false} OnceRemovedByOriginal(one: Cb, beh: Behaviour)
    ensures var r := AfterOff(AfterOnce(AfterOnce(Initial(), "foo", one), "fee", one), Some("foo"), Some(one));
            Emitted(r, "foo", beh).called == [] &&
            ListenersOf(r, "fee") == [OnceWrapper(1, "fee", one)]
  {
    var r2 := AfterOnce(AfterOnce(Initial(), "foo", one), "fee", one);
    assert r2.callbacks["foo"] == [OnceWrapper(0, "foo", one)];
    assert FirstMatch([OnceWrapper(0, "foo", one)], one) == 0;
  }

  // ---------------------------------------------------------------------------
  // A once wrapper runs at most once

  /** A registration that carries identity `n` neither directly nor through
      the callback it wraps. */
  predicate EffectAvoids(e: Effect, n: nat) {
    (e.CallOn? || e.CallOnce?) ==> !Mentions(e.cb, n)
  }

  /** No listener body holds a reference to the callback with identity `n`,
      so none can register it again. */
  ghost predicate BodiesAvoid(beh: Behaviour, n: nat) {
    forall id, e | e in beh(id) :: EffectAvoids(e, n)
  }

  /** No entry carries identity `n`. */
  ghost predicate Absent(r: Registry, n: nat) {
    forall e, cb | e in r.callbacks && cb in r.callbacks[e] :: !Mentions(cb, n)
  }

  /** The wrapper `w` is the only entry carrying its identity, sits only on
      the channel it captured, and at most once there. */
  ghost predicate Tracked(r: Registry, w: Cb) {
    && w.OnceWrapper? && w.serial < r.nextSerial && !Mentions(w.fn, w.serial)
    && (forall e, cb | e in r.callbacks && cb in r.callbacks[e] && Mentions(cb, w.serial) :: cb == w && e == w.event)
    && multiset(ListenersOf(r, w.event))[w] <= 1
  }

  lemma {:induction false} AbsentIsTracked(r: Registry, w: Cb)
    requires w.OnceWrapper? && w.serial < r.nextSerial && !Mentions(w.fn, w.serial)
    requires Absent(r, w.serial)
    ensures Tracked(r, w)
  {
    assert Mentions(w, w.serial);
    assert w !in ListenersOf(r, w.event);
  }

  lemma {:induction false} OnKeepsTracked(r: Registry, event: string, cb: Cb, w: Cb)
    requires Tracked(r, w) && !Mentions(cb, w.serial)
    ensures Tracked(AfterOn(r, event, cb), w)
    ensures Absent(r, w.serial) ==> Absent(AfterOn(r, event, cb), w.serial)
  {
    assert Mentions(w, w.serial);
    var r' := AfterOn(r, event, cb);
    assert multiset(ListenersOf(r', w.event))[w] == multiset(ListenersOf(r, w.event))[w];
  }

  /** Replacing a channel's array by one with no new entries keeps the
      wrapper tracked; when the wrapper's own channel loses it, it is gone. */
  lemma {:induction false} ReplaceBucketKeepsTracked(r: Registry, e: string, rest: seq<Cb>, w: Cb)
    requires Tracked(r, w) && e in r.callbacks && multiset(rest) <= multiset(r.callbacks[e])
    ensures Tracked(Registry(r.callbacks[e := rest], r.nextSerial), w)
    ensures Absent(r, w.serial) ==> Absent(Registry(r.callbacks[e := rest], r.nextSerial), w.serial)
    ensures e == w.event && w !in rest ==> Absent(Registry(r.callbacks[e := rest], r.nextSerial), w.serial)
  {
    forall cb | cb in rest ensures cb in r.callbacks[e] {
      assert cb in multiset(rest);
    }
    if e == w.event {
      assert multiset(rest)[w] <= multiset(r.callbacks[e])[w];
    }
  }

  lemma {:induction false} DeleteBucketKeepsTracked(r: Registry, e: string, w: Cb)
    requires Tracked(r, w)
    ensures Tracked(Registry(r.callbacks - {e}, r.nextSerial), w)
    ensures Absent(r, w.serial) ==> Absent(Registry(r.callbacks - {e}, r.nextSerial), w.serial)
    ensures e == w.event ==> Absent(Registry(r.callbacks - {e}, r.nextSerial), w.serial)
  {
  }

  lemma {:induction false} OffKeepsTracked(r: Registry, event: Option<string>, fn: Option<Cb>, w: Cb)
    requires Tracked(r, w)
    ensures Tracked(AfterOff(r, event, fn), w)
    ensures Absent(r, w.serial) ==> Absent(AfterOff(r, event, fn), w.serial)
  {
    if event.Some? && event.value != "" && event.value in r.callbacks {
      var e := event.value;
      if fn.None? {
        DeleteBucketKeepsTracked(r, e, w);
      } else {
        var rest := RemoveFirst(r.callbacks[e], fn.value);
        RemoveFirstShrinks(r.callbacks[e], fn.value);
        if rest == [] {
          DeleteBucketKeepsTracked(r, e, w);
        } else {
          ReplaceBucketKeepsTracked(r, e, rest, w);
        }
      }
    }
  }

  lemma {:induction false} OnceKeepsTracked(r: Registry, event: string, fn: Cb, w: Cb)
    requires Tracked(r, w) && !Mentions(fn, w.serial)
    ensures Tracked(AfterOnce(r, event, fn), w)
    ensures Absent(r, w.serial) ==> Absent(AfterOnce(r, event, fn), w.serial)
  {
    var r1 := Registry(r.callbacks, r.nextSerial + 1);
    assert ListenersOf(r1, w.event) == ListenersOf(r, w.event);
    OnKeepsTracked(r1, event, WrapperFor(r, event, fn), w);
  }

  lemma {:induction false} ApplyKeepsTracked(r: Registry, e: Effect, w: Cb)
    requires Tracked(r, w) && EffectAvoids(e, w.serial)
    ensures Tracked(Apply(r, e), w)
    ensures Absent(r, w.serial) ==> Absent(Apply(r, e), w.serial)
  {
    match e
    case CallOn(event, cb) => OnKeepsTracked(r, event, cb, w);
    case CallOnce(event, cb) => OnceKeepsTracked(r, event, cb, w);
    case CallOff(event, fn) => OffKeepsTracked(r, event, fn, w);
    case Throw =>
  }

  lemma {:induction false} PerformedKeepsTracked(r: Registry, body: seq<Effect>, w: Cb)
    requires Tracked(r, w) && forall e | e in body :: EffectAvoids(e, w.serial)
    ensures Tracked(Performed(r, body).reg, w)
    ensures Absent(r, w.serial) ==> Absent(Performed(r, body).reg, w.serial)
    decreases |body|
  {
    if body != [] && !body[0].Throw? {
      ApplyKeepsTracked(r, body[0], w);
      assert forall e | e in body[1..] :: e in body;
      PerformedKeepsTracked(Apply(r, body[0]), body[1..], w);
    }
  }

  /** The first thing a wrapper does, `off(event, on)`, removes its only
      registration. */
  lemma {:induction false} SelfRemovalEmptiesWrapper(r: Registry, w: Cb)
    requires Tracked(r, w)
    ensures Absent(AfterOff(r, Some(w.event), Some(w)), w.serial)
  {
    if w.event != "" && w.event in r.callbacks {
      var s := r.callbacks[w.event];
      var rest := RemoveFirst(s, w);
      RemoveFirstShrinks(s, w);
      RemovingTheOnlyCopy(s, w);
      if rest == [] {
        DeleteBucketKeepsTracked(r, w.event, w);
      } else {
        ReplaceBucketKeepsTracked(r, w.event, rest, w);
      }
    }
  }

  lemma {:induction false} InvokedKeepsTracked(r: Registry, cb: Cb, beh: Behaviour, w: Cb)
    requires Tracked(r, w) && BodiesAvoid(beh, w.serial)
    requires Mentions(cb, w.serial) ==> cb == w
    ensures Tracked(Invoked(r, cb, beh).reg, w)
    ensures Absent(r, w.serial) ==> Absent(Invoked(r, cb, beh).reg, w.serial)
    ensures cb == w ==> Absent(Invoked(r, cb, beh).reg, w.serial)
    decreases cb
  {
    match cb
    case Fn(id) =>
      PerformedKeepsTracked(r, beh(id), w);
    case OnceWrapper(_, event, fn) =>
      var r1 := AfterOff(r, Some(event), Some(cb));
      OffKeepsTracked(r, Some(event), Some(cb), w);
      if cb == w {
        SelfRemovalEmptiesWrapper(r, w);
        AbsentIsTracked(r1, w);
      }
      InvokedKeepsTracked(r1, fn, beh, w);
  }

  lemma {:induction false} DispatchedKeepsTracked(r: Registry, snapshot: seq<Cb>, beh: Behaviour, w: Cb)
    requires Tracked(r, w) && BodiesAvoid(beh, w.serial)
    requires forall cb | cb in snapshot && Mentions(cb, w.serial) :: cb == w
    requires multiset(snapshot)[w] <= 1
    ensures Tracked(Dispatched(r, snapshot, beh).reg, w)
    ensures w in Dispatched(r, snapshot, beh).called ==> Absent(Dispatched(r, snapshot, beh).reg, w.serial)
    ensures Absent(r, w.serial) ==> Absent(Dispatched(r, snapshot, beh).reg, w.serial)
    decreases |snapshot|
  {
    if snapshot != [] {
      var st := Invoked(r, snapshot[0], beh);
      InvokedKeepsTracked(r, snapshot[0], beh, w);
      if !st.threw {
        var tail := snapshot[1..];
        assert snapshot == [snapshot[0]] + tail;
        assert multiset(snapshot) == multiset{snapshot[0]} + multiset(tail);
        DispatchedKeepsTracked(st.reg, tail, beh, w);
        DispatchedCallsSnapshot(st.reg, tail, beh);
        if snapshot[0] == w {
          assert w !in tail;
          assert w !in Dispatched(st.reg, tail, beh).called;
        }
      }
    }
  }

  lemma {:induction false} EmittedKeepsTracked(r: Registry, event: string, beh: Behaviour, w: Cb)
    requires Tracked(r, w) && BodiesAvoid(beh, w.serial)
    ensures Tracked(Emitted(r, event, beh).reg, w)
    ensures multiset(Emitted(r, event, beh).called)[w] <= 1
    ensures w in Emitted(r, event, beh).called ==> Absent(Emitted(r, event, beh).reg, w.serial)
    ensures Absent(r, w.serial) ==> Absent(Emitted(r, event, beh).reg, w.serial) && w !in Emitted(r, event, beh).called
  {
    if event in r.callbacks {
      var s := r.callbacks[event];
      assert Mentions(w, w.serial);
      if event != w.event {
        assert w !in s;
      }
      DispatchedKeepsTracked(r, s, beh, w);
      DispatchedCallsSnapshot(r, s, beh);
      PrefixHoldsNoMore(Dispatched(r, s, beh).called, s, w);
    }
  }

  /** One step of the host program: an emit, with what each listener does
      on that call, or a direct call of `on`, `once` or `off`. */
  datatype Action =
    | EmitStep(event: string, beh: Behaviour)
    | HostCall(effect: Effect)

  /** The registry after one action, and the entries that action called. */
  function Acted(r: Registry, a: Action): Dispatch {
    match a
    case EmitStep(event, beh) => Emitted(r, event, beh)
    case HostCall(e) => Dispatch(Apply(r, e), [], false)
  }

  /** The entries called over a trace of actions, one after another. A throw
      out of an emit reaches the host, which may go on. */
  function CalledByTrace(r: Registry, trace: seq<Action>): seq<Cb>
    decreases |trace|
  {
    if trace == [] then []
    else
      var d := Acted(r, trace[0]);
      d.called + CalledByTrace(d.reg, trace[1..])
  }

  /** Neither the listener bodies of an emit nor a direct registration hold
      the callback with identity `n`. */
  ghost predicate ActionAvoids(a: Action, n: nat) {
    match a
    case EmitStep(_, beh) => BodiesAvoid(beh, n)
    case HostCall(e) => EffectAvoids(e, n)
  }

  ghost predicate TraceAvoids(trace: seq<Action>, n: nat) {
    forall i | 0 <= i < |trace| :: ActionAvoids(trace[i], n)
  }

  lemma {:induction false} ActedKeepsTracked(r: Registry, a: Action, w: Cb)
    requires Tracked(r, w) && ActionAvoids(a, w.serial)
    ensures Tracked(Acted(r, a).reg, w)
    ensures multiset(Acted(r, a).called)[w] <= 1
    ensures w in Acted(r, a).called ==> Absent(Acted(r, a).reg, w.serial)
    ensures Absent(r, w.serial) ==> Absent(Acted(r, a).reg, w.serial) && w !in Acted(r, a).called
  {
    match a
    case EmitStep(event, beh) => EmittedKeepsTracked(r, event, beh, w);
    case HostCall(e) => ApplyKeepsTracked(r, e, w);
  }

  lemma {:induction false} TraceCallsTrackedAtMostOnce(r: Registry, trace: seq<Action>, w: Cb)
    requires Tracked(r, w) && TraceAvoids(trace, w.serial)
    ensures multiset(CalledByTrace(r, trace))[w] <= if Absent(r, w.serial) then 0 else 1
    decreases |trace|
  {
    if trace != [] {
      var d := Acted(r, trace[0]);
      ActedKeepsTracked(r, trace[0], w);
      assert TraceAvoids(trace[1..], w.serial) by {
        forall i | 0 <= i < |trace[1..]| ensures ActionAvoids(trace[1..][i], w.serial) {
          assert trace[1..][i] == trace[i + 1];
        }
      }
      TraceCallsTrackedAtMostOnce(d.reg, trace[1..], w);
      if w in d.called {
        assert multiset(d.called)[w] <= 1;
      } else {
        assert multiset(d.called)[w] == 0;
      }
    }
  }

  /** Right after `once`, its wrapper is the only entry carrying its identity. */
  lemma {:induction false} OnceTracksItsWrapper(r: Registry, event: string, fn: Cb)
    requires Absent(r, r.nextSerial) && !Mentions(fn, r.nextSerial)
    ensures Tracked(AfterOnce(r, event, fn), WrapperFor(r, event, fn))
  {
    var w := WrapperFor(r, event, fn);
    var s := ListenersOf(r, event);
    var r' := AfterOnce(r, event, fn);
    assert r'.callbacks == r.callbacks[event := s + [w]] && r'.nextSerial == w.serial + 1;
    assert Mentions(w, w.serial);
    assert w !in s;
    assert multiset(s + [w])[w] == 1;
    forall e, cb | e in r'.callbacks && cb in r'.callbacks[e] && Mentions(cb, w.serial)
      ensures cb == w && e == w.event
    {
    }
  }

  /** A wrapper registered by `once` is called at most once over any later
      trace of emits, host registrations and removals, whatever
      `on`/`once`/`off`/throw effects each emit's listeners perform, as long
      as nobody registers the wrapper itself again (nobody holds it unless
      they read it back through `listeners`). A listener that emits is
      outside the model: a nested emit can call the wrapper while an outer
      snapshot still holds it. */
  lemma {:induction false} OnceRunsAtMostOnce(r: Registry, event: string, fn: Cb, trace: seq<Action>)
    requires Absent(r, r.nextSerial) && !Mentions(fn, r.nextSerial) && TraceAvoids(trace, r.nextSerial)
    ensures multiset(CalledByTrace(AfterOnce(r, event, fn), trace))[WrapperFor(r, event, fn)] <= 1
  {
    OnceTracksItsWrapper(r, event, fn);
    TraceCallsTrackedAtMostOnce(AfterOnce(r, event, fn), trace, WrapperFor(r, event, fn));
  }

  /** The condition cannot be dropped: a host that reads the wrapper back
      through `listeners` after it ran and registers it again with `on`
      sees it run a second time. */
  lemma {:induction false} ReRegisteredWrapperRunsTwice(fn: Cb, beh: Behaviour)
    requires fn.Fn? && beh(fn.id) == []
    ensures var w := WrapperFor(Initial(), "e", fn);
            var trace := [EmitStep("e", beh), HostCall(CallOn("e", w)), EmitStep("e", beh)];
            multiset(CalledByTrace(AfterOnce(Initial(), "e", fn), trace))[w] == 2
  {
    var w := WrapperFor(Initial(), "e", fn);
    var r0 := AfterOnce(Initial(), "e", fn);
    var r1 := Registry(map[], 1);
    assert ListenersOf(r1, "e") == [];
    assert ListenersOf(r1, "e") + [w] == [w];
    assert r1.callbacks["e" := [w]] == map["e" := [w]];
    assert r0 == AfterOn(r1, "e", w) == Registry(map["e" := [w]], 1);
    assert FirstMatch([w], w) == 0;
    assert AfterOff(r0, Some("e"), Some(w)) == r1;
    assert Invoked(r0, w, beh) == Step(r1, false);
    assert [w][1..] == [] && Dispatched(r1, [], beh) == Dispatch(r1, [], false);
    assert Emitted(r0, "e", beh) == Dispatched(r0, [w], beh) == Dispatch(r1, [w], false);
    assert Apply(r1, CallOn("e", w)) == r0;
    var trace := [EmitStep("e", beh), HostCall(CallOn("e", w)), EmitStep("e", beh)];
    var last := [EmitStep("e", beh)];
    assert trace[1..][1..] == last && last[1..] == [];
    assert CalledByTrace(r1, []) == [];
    assert CalledByTrace(r0, last) == [w];
    assert CalledByTrace(r1, trace[1..]) == [w];
    assert CalledByTrace(r0, trace) == [w, w];
  }
}
