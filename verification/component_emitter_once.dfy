/** A wrapper registered by `once` in index.js runs at most once over any
    trace of emits and host calls, provided the event it was given names each
    channel only once and nobody registers the wrapper again. The wrapper's first act, `off(event, on)`, takes it off every
    channel it was put on, and both dispatches of `emit` work on snapshots,
    the wildcard one taken after the named channel's dispatch. */
module ComponentEmitterOnce {
  import opened Listeners
  import opened ComponentEmitter
  import opened ComponentEmitterProperties

  /** No name occurs twice. */
  predicate Distinct(names: seq<string>) {
    forall i, j | 0 <= i < j < |names| :: names[i] != names[j]
  }

  /** The keys of the channels a once wrapper was registered on. */
  function TokenKeys(w: Cb): set<string>
    requires w.OnceWrapper?
  {
    set t | t in Tokens(w.event) :: Key(t)
  }

  /** A registration that carries identity `n` neither directly nor through
      the callback it wraps. */
  predicate EffectAvoids(e: Effect, n: nat) {
    (e.CallOn? || e.CallOnce?) ==> !Mentions(e.cb, n)
  }

  /** No listener body holds a reference to the callback with identity `n`,
      so none can register it again. */
  ghost predicate BodiesAvoid(beh: Behaviour, n: nat) {
    forall id, e | e in beh(id) :: EffectAvoids(e, n)
  }

  /** No entry carries identity `n`. */
  ghost predicate Absent(r: Registry, n: nat) {
    forall k, cb | k in r.callbacks && cb in r.callbacks[k] :: !Mentions(cb, n)
  }

  /** The channel stored under `k` does not hold `w`. */
  ghost predicate GoneAt(r: Registry, w: Cb, k: string) {
    k in r.callbacks ==> w !in r.callbacks[k]
  }

  /** The wrapper `w` is the only entry carrying its identity, sits only on
      channels it captured, and at most once on each. */
  ghost predicate Tracked(r: Registry, w: Cb) {
    && WellFormed(r)
    && w.OnceWrapper? && w.serial < r.nextSerial && !Mentions(w.fn, w.serial)
    && (forall k, cb | k in r.callbacks && cb in r.callbacks[k] && Mentions(cb, w.serial) :: cb == w && k in TokenKeys(w))
    && (forall k | k in r.callbacks :: multiset(r.callbacks[k])[w] <= 1)
  }

  lemma {:induction false} AbsentIsTracked(r: Registry, w: Cb)
    requires WellFormed(r) && w.OnceWrapper? && w.serial < r.nextSerial && !Mentions(w.fn, w.serial)
    requires Absent(r, w.serial)
    ensures Tracked(r, w)
  {
    assert Mentions(w, w.serial);
    forall k | k in r.callbacks ensures multiset(r.callbacks[k])[w] == 0 {
      assert w !in r.callbacks[k];
    }
  }

  /** A tracked wrapper gone from every channel it captured is gone. */
  lemma {:induction false} GoneEverywhere(r: Registry, w: Cb)
    requires Tracked(r, w)
    requires forall t | t in Tokens(w.event) :: GoneAt(r, w, Key(t))
    ensures Absent(r, w.serial)
  {
    forall k | k in TokenKeys(w) ensures GoneAt(r, w, k) {
      var t :| t in Tokens(w.event) && k == Key(t);
    }
  }

  // ---------------------------------------------------------------------------
  // Registrations and removals keep the wrapper tracked

  /** The array stored under `k`, or `[]`. */
  function BucketAt(r: Registry, k: string): seq<Cb> {
    if k in r.callbacks then r.callbacks[k] else []
  }

  /** Storing under `k` an array that holds no entry carrying the wrapper's
      identity beyond those already there, and no more copies of the wrapper,
      keeps the wrapper tracked and keeps every channel it has left. */
  lemma {:induction false} StoreBucketKeepsTracked(r: Registry, k: string, s': seq<Cb>, w: Cb)
    requires Tracked(r, w)
    requires forall c | c in s' && Mentions(c, w.serial) :: c in BucketAt(r, k)
    requires multiset(s')[w] <= multiset(BucketAt(r, k))[w]
    ensures Tracked(Registry(true, r.callbacks[k := s'], r.nextSerial), w)
    ensures forall k' | GoneAt(r, w, k') :: GoneAt(Registry(true, r.callbacks[k := s'], r.nextSerial), w, k')
    ensures Absent(r, w.serial) ==> Absent(Registry(true, r.callbacks[k := s'], r.nextSerial), w.serial)
  {
    assert Mentions(w, w.serial);
  }

  lemma {:induction false} AddOneKeepsTracked(r: Registry, name: string, cb: Cb, w: Cb)
    requires Tracked(r, w) && !Mentions(cb, w.serial)
    ensures Tracked(AfterAddOne(r, name, cb), w)
    ensures forall k | GoneAt(r, w, k) :: GoneAt(AfterAddOne(r, name, cb), w, k)
    ensures Absent(r, w.serial) ==> Absent(AfterAddOne(r, name, cb), w.serial)
  {
    assert Mentions(w, w.serial);
    var s := BucketAt(r, Key(name));
    assert multiset(s + [cb])[w] == multiset(s)[w];
    StoreBucketKeepsTracked(r, Key(name), s + [cb], w);
  }

  lemma {:induction false} AddAllKeepsTracked(r: Registry, names: seq<string>, cb: Cb, w: Cb)
    requires Tracked(r, w) && !Mentions(cb, w.serial)
    ensures Tracked(AfterAddAll(r, names, cb), w)
    ensures forall k | GoneAt(r, w, k) :: GoneAt(AfterAddAll(r, names, cb), w, k)
    ensures Absent(r, w.serial) ==> Absent(AfterAddAll(r, names, cb), w.serial)
    decreases |names|
  {
    if names != [] {
      AddOneKeepsTracked(r, names[0], cb, w);
      AddAllKeepsTracked(AfterAddOne(r, names[0], cb), names[1..], cb, w);
    }
  }

  /** Allocating a fresh identity changes no channel. */
  lemma {:induction false} BumpKeepsTracked(r: Registry, w: Cb)
    requires Tracked(r, w)
    ensures Tracked(Registry(r.initialized, r.callbacks, r.nextSerial + 1), w)
    ensures Absent(r, w.serial) ==> Absent(Registry(r.initialized, r.callbacks, r.nextSerial + 1), w.serial)
  {
  }

  lemma {:induction false} OnceKeepsTracked(r: Registry, event: EventSpec, fn: Cb, w: Cb)
    requires Tracked(r, w) && !Mentions(fn, w.serial)
    ensures Tracked(AfterOnce(r, event, fn), w)
    ensures Absent(r, w.serial) ==> Absent(AfterOnce(r, event, fn), w.serial)
  {
    var r1 := Registry(r.initialized, r.callbacks, r.nextSerial + 1);
    var wrapper := WrapperFor(r, event, fn);
    assert AfterOnce(r, event, fn) == AfterAddAll(r1, Tokens(event), wrapper);
    assert !Mentions(wrapper, w.serial);
    BumpKeepsTracked(r, w);
    AddAllKeepsTracked(r1, Tokens(event), wrapper, w);
  }

  lemma {:induction false} RemoveOneKeepsTracked(r: Registry, name: string, fn: Option<Cb>, w: Cb)
    requires Tracked(r, w)
    ensures Tracked(AfterRemoveOne(r, name, fn), w)
    ensures forall k | GoneAt(r, w, k) :: GoneAt(AfterRemoveOne(r, name, fn), w, k)
    ensures Absent(r, w.serial) ==> Absent(AfterRemoveOne(r, name, fn), w.serial)
    ensures fn == Some(w) ==> GoneAt(AfterRemoveOne(r, name, fn), w, Key(name))
  {
    if r.initialized && Key(name) in r.callbacks {
      var s := r.callbacks[Key(name)];
      if fn.None? {
        assert AfterRemoveOne(r, name, fn) == Registry(true, r.callbacks - {Key(name)}, r.nextSerial);
      } else {
        var rest := RemoveFirst(s, fn.value);
        assert AfterRemoveOne(r, name, fn) == Registry(true, r.callbacks[Key(name) := rest], r.nextSerial);
        RemoveFirstKeepsTracked(r, Key(name), fn.value, w);
        if fn.value == w {
          RemoveWrapperLeavesNoCopy(r, Key(name), w);
        }
      }
    }
  }

  /** Splicing out the first match of `fn` from the array under `k` keeps
      the wrapper tracked. */
  lemma {:induction false} RemoveFirstKeepsTracked(r: Registry, k: string, fn: Cb, w: Cb)
    requires Tracked(r, w) && k in r.callbacks
    ensures Tracked(Registry(true, r.callbacks[k := RemoveFirst(r.callbacks[k], fn)], r.nextSerial), w)
    ensures forall k' | GoneAt(r, w, k') :: GoneAt(Registry(true, r.callbacks[k := RemoveFirst(r.callbacks[k], fn)], r.nextSerial), w, k')
    ensures Absent(r, w.serial) ==> Absent(Registry(true, r.callbacks[k := RemoveFirst(r.callbacks[k], fn)], r.nextSerial), w.serial)
  {
    var s := r.callbacks[k];
    var rest := RemoveFirst(s, fn);
    RemoveFirstShrinks(s, fn);
    forall c | c in rest ensures c in s {
      assert c in multiset(rest);
    }
    StoreBucketKeepsTracked(r, k, rest, w);
  }

  /** Splicing out the tracked wrapper leaves no copy of it in that array. */
  lemma {:induction false} RemoveWrapperLeavesNoCopy(r: Registry, k: string, w: Cb)
    requires Tracked(r, w) && k in r.callbacks
    ensures w !in RemoveFirst(r.callbacks[k], w)
  {
    var s := r.callbacks[k];
    assert forall cb | cb in s && Mentions(cb, w.serial) :: cb == w;
    assert multiset(s)[w] <= 1;
    RemovingTheOnlyCopy(s, w);
  }

  lemma {:induction false} RemoveAllKeepsTracked(r: Registry, names: seq<string>, fn: Option<Cb>, w: Cb)
    requires Tracked(r, w)
    ensures Tracked(AfterRemoveAll(r, names, fn), w)
    ensures forall k | GoneAt(r, w, k) :: GoneAt(AfterRemoveAll(r, names, fn), w, k)
    ensures Absent(r, w.serial) ==> Absent(AfterRemoveAll(r, names, fn), w.serial)
    ensures fn == Some(w) ==> forall t | t in names :: GoneAt(AfterRemoveAll(r, names, fn), w, Key(t))
    decreases |names|
  {
    if names != [] {
      var r1 := AfterRemoveOne(r, names[0], fn);
      RemoveOneKeepsTracked(r, names[0], fn, w);
      RemoveAllKeepsTracked(r1, names[1..], fn, w);
      assert forall t | t in names :: t == names[0] || t in names[1..];
    }
  }

  lemma {:induction false} OffKeepsTracked(r: Registry, args: OffArgs, w: Cb)
    requires Tracked(r, w)
    ensures Tracked(AfterOff(r, args), w)
    ensures Absent(r, w.serial) ==> Absent(AfterOff(r, args), w.serial)
  {
    if r.initialized && args.OffEvent? {
      RemoveAllKeepsTracked(r, Tokens(args.event), args.fn, w);
    }
  }

  /** The first thing a wrapper does, `off(event, on)`, removes it from every
      channel it was registered on. */
  lemma {:induction false} SelfRemovalEmptiesWrapper(r: Registry, w: Cb)
    requires Tracked(r, w)
    ensures Absent(AfterOff(r, OffEvent(w.event, Some(w))), w.serial)
  {
    if r.initialized {
      var r' := AfterOff(r, OffEvent(w.event, Some(w)));
      RemoveAllKeepsTracked(r, Tokens(w.event), Some(w), w);
      GoneEverywhere(r', w);
    }
  }

  lemma {:induction false} ApplyKeepsTracked(r: Registry, e: Effect, w: Cb)
    requires Tracked(r, w) && EffectAvoids(e, w.serial)
    ensures Tracked(Apply(r, e), w)
    ensures Absent(r, w.serial) ==> Absent(Apply(r, e), w.serial)
  {
    match e
    case CallOn(event, cb) => AddAllKeepsTracked(r, Tokens(event), cb, w);
    case CallOnce(event, cb) => OnceKeepsTracked(r, event, cb, w);
    case CallOff(args) => OffKeepsTracked(r, args, w);
    case Throw =>
  }

  lemma {:induction false} PerformedKeepsTracked(r: Registry, body: seq<Effect>, w: Cb)
    requires Tracked(r, w) && forall e | e in body :: EffectAvoids(e, w.serial)
    ensures Tracked(Performed(r, body).reg, w)
    ensures Absent(r, w.serial) ==> Absent(Performed(r, body).reg, w.serial)
    decreases |body|
  {
    if body != [] && !body[0].Throw? {
      ApplyKeepsTracked(r, body[0], w);
      assert forall e | e in body[1..] :: e in body;
      PerformedKeepsTracked(Apply(r, body[0]), body[1..], w);
    }
  }

  // ---------------------------------------------------------------------------
  // Dispatch

  lemma {:induction false} InvokedKeepsTracked(r: Registry, cb: Cb, beh: Behaviour, w: Cb)
    requires Tracked(r, w) && BodiesAvoid(beh, w.serial)
    requires Mentions(cb, w.serial) ==> cb == w
    ensures Tracked(Invoked(r, cb, beh).reg, w)
    ensures Absent(r, w.serial) ==> Absent(Invoked(r, cb, beh).reg, w.serial)
    ensures cb == w ==> Absent(Invoked(r, cb, beh).reg, w.serial)
    decreases cb
  {
    match cb
    case Fn(id) =>
      PerformedKeepsTracked(r, beh(id), w);
    case OnceWrapper(_, event, fn) =>
      var r1 := AfterOff(r, OffEvent(event, Some(cb)));
      OffKeepsTracked(r, OffEvent(event, Some(cb)), w);
      if cb == w {
        SelfRemovalEmptiesWrapper(r, w);
      }
      InvokedKeepsTracked(r1, fn, beh, w);
  }

  lemma {:induction false} DispatchedKeepsTracked(r: Registry, snapshot: seq<Cb>, beh: Behaviour, w: Cb)
    requires Tracked(r, w) && BodiesAvoid(beh, w.serial)
    requires forall cb | cb in snapshot && Mentions(cb, w.serial) :: cb == w
    requires multiset(snapshot)[w] <= 1
    ensures Tracked(Dispatched(r, snapshot, beh).reg, w)
    ensures w in Dispatched(r, snapshot, beh).called ==> Absent(Dispatched(r, snapshot, beh).reg, w.serial)
    ensures Absent(r, w.serial) ==> Absent(Dispatched(r, snapshot, beh).reg, w.serial)
    decreases |snapshot|
  {
    if snapshot != [] {
      var st := Invoked(r, snapshot[0], beh);
      InvokedKeepsTracked(r, snapshot[0], beh, w);
      if !st.threw {
        var tail := snapshot[1..];
        assert snapshot == [snapshot[0]] + tail;
        assert multiset(snapshot) == multiset{snapshot[0]} + multiset(tail);
        DispatchedKeepsTracked(st.reg, tail, beh, w);
        DispatchedCallsSnapshot(st.reg, tail, beh);
        if snapshot[0] == w {
          assert w !in tail;
          assert w !in Dispatched(st.reg, tail, beh).called;
        }
      }
    }
  }

  /** A dispatch over one channel of a registry tracking `w` calls `w` at
      most once, and only if it held `w`. */
  lemma {:induction false} ChannelDispatchKeepsTracked(r: Registry, name: string, beh: Behaviour, w: Cb)
    requires Tracked(r, w) && BodiesAvoid(beh, w.serial)
    ensures Tracked(Dispatched(r, ListenersOf(r, name), beh).reg, w)
    ensures multiset(Dispatched(r, ListenersOf(r, name), beh).called)[w] <= 1
    ensures w in Dispatched(r, ListenersOf(r, name), beh).called ==> Absent(Dispatched(r, ListenersOf(r, name), beh).reg, w.serial)
    ensures Absent(r, w.serial) ==>
      Absent(Dispatched(r, ListenersOf(r, name), beh).reg, w.serial) && w !in Dispatched(r, ListenersOf(r, name), beh).called
  {
    var s := ListenersOf(r, name);
    assert Mentions(w, w.serial);
    DispatchedKeepsTracked(r, s, beh, w);
    DispatchedCallsSnapshot(r, s, beh);
    PrefixHoldsNoMore(Dispatched(r, s, beh).called, s, w);
  }

  lemma {:induction false} EmittedKeepsTracked(r: Registry, arg: EventArg, beh: Behaviour, w: Cb)
    requires Tracked(r, w) && BodiesAvoid(beh, w.serial)
    ensures Tracked(Emitted(r, arg, beh).reg, w)
    ensures multiset(Emitted(r, arg, beh).called)[w] <= 1
    ensures w in Emitted(r, arg, beh).called ==> Absent(Emitted(r, arg, beh).reg, w.serial)
    ensures Absent(r, w.serial) ==> Absent(Emitted(r, arg, beh).reg, w.serial) && w !in Emitted(r, arg, beh).called
  {
    if r.initialized {
      var d1 := ChannelDispatch(r, arg, beh);
      ChannelDispatchKeepsTracked(r, TypeOf(arg), beh, w);
      if !d1.threw {
        var d2 := Dispatched(d1.reg, ListenersOf(d1.reg, Wildcard), beh);
        ChannelDispatchKeepsTracked(d1.reg, Wildcard, beh, w);
        assert multiset(d1.called + d2.called) == multiset(d1.called) + multiset(d2.called);
      }
    }
  }

  /** One step of the host program: an emit, with what each listener does
      on that call; a direct call of `on`, `once` or `off`; or a call of
      `listeners`/`hasListeners`, which creates `_callbacks`. */
  datatype Action =
    | EmitStep(arg: EventArg, beh: Behaviour)
    | HostCall(effect: Effect)
    | Inspect

  /** The registry after one action, and the entries that action called. */
  function Acted(r: Registry, a: Action): Dispatch {
    match a
    case EmitStep(arg, beh) => Emitted(r, arg, beh)
    case HostCall(e) => Dispatch(Apply(r, e), [], false)
    case Inspect => Dispatch(Registry(true, r.callbacks, r.nextSerial), [], false)
  }

  /** The entries called over a trace of actions, one after another. A throw
      out of an emit reaches the host, which may go on. */
  function CalledByTrace(r: Registry, trace: seq<Action>): seq<Cb>
    decreases |trace|
  {
    if trace == [] then []
    else
      var d := Acted(r, trace[0]);
      d.called + CalledByTrace(d.reg, trace[1..])
  }

  /** Neither the listener bodies of an emit nor a direct registration hold
      the callback with identity `n`. */
  ghost predicate ActionAvoids(a: Action, n: nat) {
    match a
    case EmitStep(_, beh) => BodiesAvoid(beh, n)
    case HostCall(e) => EffectAvoids(e, n)
    case Inspect => true
  }

  ghost predicate TraceAvoids(trace: seq<Action>, n: nat) {
    forall i | 0 <= i < |trace| :: ActionAvoids(trace[i], n)
  }

  lemma {:induction false} ActedKeepsTracked(r: Registry, a: Action, w: Cb)
    requires Tracked(r, w) && ActionAvoids(a, w.serial)
    ensures Tracked(Acted(r, a).reg, w)
    ensures multiset(Acted(r, a).called)[w] <= 1
    ensures w in Acted(r, a).called ==> Absent(Acted(r, a).reg, w.serial)
    ensures Absent(r, w.serial) ==> Absent(Acted(r, a).reg, w.serial) && w !in Acted(r, a).called
  {
    match a
    case EmitStep(arg, beh) => EmittedKeepsTracked(r, arg, beh, w);
    case HostCall(e) => ApplyKeepsTracked(r, e, w);
    case Inspect =>
  }

  lemma {:induction false} TraceCallsTrackedAtMostOnce(r: Registry, trace: seq<Action>, w: Cb)
    requires Tracked(r, w) && TraceAvoids(trace, w.serial)
    ensures multiset(CalledByTrace(r, trace))[w] <= if Absent(r, w.serial) then 0 else 1
    decreases |trace|
  {
    if trace != [] {
      var d := Acted(r, trace[0]);
      ActedKeepsTracked(r, trace[0], w);
      assert TraceAvoids(trace[1..], w.serial) by {
        forall i | 0 <= i < |trace[1..]| ensures ActionAvoids(trace[1..][i], w.serial) {
          assert trace[1..][i] == trace[i + 1];
        }
      }
      TraceCallsTrackedAtMostOnce(d.reg, trace[1..], w);
      if w in d.called {
        assert multiset(d.called)[w] <= 1;
      } else {
        assert multiset(d.called)[w] == 0;
      }
    }
  }

  // ---------------------------------------------------------------------------
  // Registration by once

  /** Registering `w` on names it captured, each not holding it yet and each
      named once, keeps it tracked. */
  lemma {:induction false} AddWrapperKeepsTracked(r: Registry, names: seq<string>, w: Cb)
    requires Tracked(r, w) && Distinct(names)
    requires forall t | t in names :: t in Tokens(w.event) && GoneAt(r, w, Key(t))
    ensures Tracked(AfterAddAll(r, names, w), w)
    decreases |names|
  {
    if names != [] {
      var n := names[0];
      DistinctTail(names);
      AddWrapperOnceKeepsTracked(r, n, w);
      forall t | t in names[1..] ensures t in Tokens(w.event) && GoneAt(AfterAddOne(r, n, w), w, Key(t)) {
        KeysDistinct(n, t);
      }
      AddWrapperKeepsTracked(AfterAddOne(r, n, w), names[1..], w);
    }
  }

  lemma {:induction false} DistinctTail(names: seq<string>)
    requires names != [] && Distinct(names)
    ensures Distinct(names[1..]) && names[0] !in names[1..]
  {
    forall i, j | 0 <= i < j < |names[1..]| ensures names[1..][i] != names[1..][j] {
      assert names[i + 1] != names[j + 1];
    }
    forall j | 0 <= j < |names[1..]| ensures names[1..][j] != names[0] {
      assert names[0] != names[j + 1];
    }
  }

  /** Registering `w` on one name it captured, whose channel does not hold it
      yet, keeps it tracked and touches no other channel. */
  lemma {:induction false} AddWrapperOnceKeepsTracked(r: Registry, n: string, w: Cb)
    requires Tracked(r, w) && n in Tokens(w.event) && GoneAt(r, w, Key(n))
    ensures Tracked(AfterAddOne(r, n, w), w)
    ensures forall k | k != Key(n) && GoneAt(r, w, k) :: GoneAt(AfterAddOne(r, n, w), w, k)
  {
    var s := ListenersOf(r, n);
    assert Key(n) in TokenKeys(w);
    assert w !in s && multiset(s + [w])[w] == 1;
    forall c | c in s + [w] && Mentions(c, w.serial) ensures c == w {
      if c in s {
        assert c in r.callbacks[Key(n)];
      }
    }
    StoreWrapperKeepsTracked(r, Key(n), s + [w], w);
  }

  /** Storing under one of the wrapper's keys an array holding it at most
      once, and no other entry carrying its identity, keeps it tracked. */
  lemma {:induction false} StoreWrapperKeepsTracked(r: Registry, k: string, s': seq<Cb>, w: Cb)
    requires Tracked(r, w) && k in TokenKeys(w)
    requires forall c | c in s' && Mentions(c, w.serial) :: c == w
    requires multiset(s')[w] <= 1
    ensures Tracked(Registry(true, r.callbacks[k := s'], r.nextSerial), w)
    ensures forall k' | k' != k && GoneAt(r, w, k') :: GoneAt(Registry(true, r.callbacks[k := s'], r.nextSerial), w, k')
  {
  }

  lemma {:induction false} AbsentIsGoneEverywhere(r: Registry, w: Cb)
    requires w.OnceWrapper? && Absent(r, w.serial)
    ensures forall k :: GoneAt(r, w, k)
  {
    assert Mentions(w, w.serial);
  }

  /** Right after `once` with distinct names, its wrapper is tracked. */
  lemma {:induction false} OnceTracksItsWrapper(r: Registry, event: EventSpec, fn: Cb)
    requires WellFormed(r) && Absent(r, r.nextSerial) && !Mentions(fn, r.nextSerial)
    requires Distinct(Tokens(event))
    ensures Tracked(AfterOnce(r, event, fn), WrapperFor(r, event, fn))
  {
    var w := WrapperFor(r, event, fn);
    var r1 := Registry(r.initialized, r.callbacks, r.nextSerial + 1);
    assert AfterOnce(r, event, fn) == AfterAddAll(r1, Tokens(event), w);
    assert WellFormed(r1) && Absent(r1, w.serial);
    AbsentIsGoneEverywhere(r1, w);
    AbsentIsTracked(r1, w);
    assert forall t | t in Tokens(event) :: t in Tokens(w.event) && GoneAt(r1, w, Key(t));
    AddWrapperKeepsTracked(r1, Tokens(event), w);
  }

  /** A wrapper registered by `once` on distinct names is called at most
      once over any later trace of emits, host registrations, removals and
      lookups, whatever `on`/`once`/`off`/throw effects each emit's
      listeners perform, as long as nobody registers the wrapper itself
      again. A listener that emits is outside the model: a nested emit can
      call the wrapper while an outer snapshot still holds it. */
  lemma {:induction false} OnceRunsAtMostOnce(r: Registry, event: EventSpec, fn: Cb, trace: seq<Action>)
    requires WellFormed(r) && Absent(r, r.nextSerial) && !Mentions(fn, r.nextSerial)
    requires TraceAvoids(trace, r.nextSerial) && Distinct(Tokens(event))
    ensures multiset(CalledByTrace(AfterOnce(r, event, fn), trace))[WrapperFor(r, event, fn)] <= 1
  {
    OnceTracksItsWrapper(r, event, fn);
    TraceCallsTrackedAtMostOnce(AfterOnce(r, event, fn), trace, WrapperFor(r, event, fn));
  }
}
