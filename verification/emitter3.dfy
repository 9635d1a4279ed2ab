/** The frozen-snapshot emitter of EventEmitter3.mjs: plain channel keys in a
    null-prototype object, no separator, no wildcard, and `off` deletes a
    channel as soon as its array becomes empty. */
module Emitter3 {
  import opened Listeners

  /** A listener; a once wrapper captures the channel name it was registered on. */
  type Cb = Callback<string>

  /** One step of a listener body, as far as the registry can observe it: the
      body may subscribe, subscribe once, unsubscribe (with the same argument
      forms as `off`), or throw, which aborts the rest of the body and of the
      dispatch. */
  datatype Effect =
    | CallOn(event: string, cb: Cb)
    | CallOnce(event: string, cb: Cb)
    | CallOff(channel: Option<string>, fn: Option<Cb>)
    | Throw

  /** What the function with identity `id` does when called. */
  type Behaviour = nat -> seq<Effect>

  /** The emitter's state: the `_callbacks` object, plus the identity that the
      next wrapper allocated by `once` receives. */
  datatype Registry = Registry(callbacks: map<string, seq<Cb>>, nextSerial: nat)

  /** The registry after running a listener body, and whether it threw. */
  datatype Step = Step(reg: Registry, threw: bool)

  /** The registry after a dispatch, the entries that were called, in order,
      and whether a listener threw. */
  datatype Dispatch = Dispatch(reg: Registry, called: seq<Cb>, threw: bool)

  /** No channel key maps to an empty array. */
  predicate NoEmptyBuckets(r: Registry) {
    forall e | e in r.callbacks :: r.callbacks[e] != []
  }

  /** The registry the constructor installs: `Object.create(null)`. */
  function Initial(): (r: Registry)
    ensures NoEmptyBuckets(r)
    ensures forall e :: ListenersOf(r, e) == []
  {
    Registry(map[], 0)
  }

  /** `listeners(event)`: the channel's array, or `[]` when it has none. */
  function ListenersOf(r: Registry, event: string): seq<Cb> {
    if event in r.callbacks then r.callbacks[event] else []
  }

  /** `on(event, fn)`. */
  function AfterOn(r: Registry, event: string, fn: Cb): Registry {
    Registry(r.callbacks[event := ListenersOf(r, event) + [fn]], r.nextSerial)
  }

  /** The wrapper that `once(event, fn)` allocates in state `r`. */
  function WrapperFor(r: Registry, event: string, fn: Cb): Cb {
    OnceWrapper(r.nextSerial, event, fn)
  }

  /** `once(event, fn)`: registers a fresh wrapper whose `fn` property is `fn`. */
  function AfterOnce(r: Registry, event: string, fn: Cb): Registry {
    AfterOn(Registry(r.callbacks, r.nextSerial + 1), event, WrapperFor(r, event, fn))
  }

  /** `off(event, fn)`, where `None` stands for an omitted argument. */
  function AfterOff(r: Registry, event: Option<string>, fn: Option<Cb>): Registry {
    if event.None? || event.value == "" then Registry(map[], r.nextSerial)
    else if event.value !in r.callbacks then r
    else if fn.None? then Registry(r.callbacks - {event.value}, r.nextSerial)
    else
      var rest := RemoveFirst(r.callbacks[event.value], fn.value);
      if rest == [] then Registry(r.callbacks - {event.value}, r.nextSerial)
      else Registry(r.callbacks[event.value := rest], r.nextSerial)
  }

  /** The registry change of one effect that does not throw. */
  function Apply(r: Registry, e: Effect): Registry {
    match e
    case CallOn(event, cb) => AfterOn(r, event, cb)
    case CallOnce(event, cb) => AfterOnce(r, event, cb)
    case CallOff(event, fn) => AfterOff(r, event, fn)
    case Throw => r
  }

  /** Running a listener body: effects in order, stopping at the first throw. */
  function Performed(r: Registry, body: seq<Effect>): Step
    decreases |body|
  {
    if body == [] then Step(r, false)
    else if body[0].Throw? then Step(r, true)
    else Performed(Apply(r, body[0]), body[1..])
  }

  /** Calling one entry. A once wrapper first unsubscribes itself from the
      channel it captured, then calls the function it wraps. */
  function Invoked(r: Registry, cb: Cb, beh: Behaviour): Step
    decreases cb
  {
    match cb
    case Fn(id) => Performed(r, beh(id))
    case OnceWrapper(_, event, fn) => Invoked(AfterOff(r, Some(event), Some(cb)), fn, beh)
  }

  /** Calling the entries of a snapshot in order; a throw aborts the rest. */
  function Dispatched(r: Registry, snapshot: seq<Cb>, beh: Behaviour): Dispatch
    decreases |snapshot|
  {
    if snapshot == [] then Dispatch(r, [], false)
    else
      var st := Invoked(r, snapshot[0], beh);
      if st.threw then Dispatch(st.reg, [snapshot[0]], true)
      else
        var d := Dispatched(st.reg, snapshot[1..], beh);
        Dispatch(d.reg, [snapshot[0]] + d.called, d.threw)
  }

  /** `emit(event)`: nothing when the channel has no array, otherwise a
      dispatch over a copy of the array taken before the first call. */
  function Emitted(r: Registry, event: string, beh: Behaviour): Dispatch {
    if event !in r.callbacks then Dispatch(r, [], false)
    else Dispatched(r, r.callbacks[event], beh)
  }

  /** A dispatch is the first entry's call followed by the dispatch of the
      rest, unless that call threw. */
  lemma {:induction false} DispatchedFirst(r: Registry, snapshot: seq<Cb>, beh: Behaviour)
    requires snapshot != []
    ensures var st := Invoked(r, snapshot[0], beh);
            Dispatched(r, snapshot, beh) ==
              if st.threw then Dispatch(st.reg, [snapshot[0]], true)
              else After([snapshot[0]], Dispatched(st.reg, snapshot[1..], beh))
  {
  }

  /** `d` with `done` called before it. */
  function After(done: seq<Cb>, d: Dispatch): Dispatch {
    Dispatch(d.reg, done + d.called, d.threw)
  }

  /** Prefixing twice is prefixing with both lists in order. */
  lemma {:induction false} AfterAfter(a: seq<Cb>, b: seq<Cb>, d: Dispatch)
    ensures After(a, After(b, d)) == After(a + b, d)
  {
    assert a + (b + d.called) == (a + b) + d.called;
  }

  class EventEmitter3 {
    var callbacks: map<string, seq<Cb>>
    var nextSerial: nat

    function State(): Registry
      reads this
    {
      Registry(callbacks, nextSerial)
    }

    ghost predicate Valid()
      reads this
    {
      NoEmptyBuckets(State())
    }

    /** `new EventEmitter3()`. */
    constructor ()
      ensures Valid() && State() == Initial()
    {
      callbacks := map[];
      nextSerial := 0;
    }

    method On(event: string, fn: Cb) returns (self: EventEmitter3)
      requires Valid()
      modifies this
      ensures Valid() && State() == AfterOn(old(State()), event, fn)
      ensures self == this
    {
      var bucket := if event in callbacks then callbacks[event] else [];
      callbacks := callbacks[event := bucket + [fn]];
      self := this;
    }

    /** `once(event, fn)`; `wrapper` is the closure it registers. */
    method Once(event: string, fn: Cb) returns (self: EventEmitter3, wrapper: Cb)
      requires Valid()
      modifies this
      ensures Valid() && State() == AfterOnce(old(State()), event, fn)
      ensures wrapper == WrapperFor(old(State()), event, fn) && wrapper.fn == fn
      ensures self == this
    {
      wrapper := OnceWrapper(nextSerial, event, fn);
      nextSerial := nextSerial + 1;
      self := On(event, wrapper);
    }

    method Off(event: Option<string>, fn: Option<Cb>) returns (self: EventEmitter3)
      requires Valid()
      modifies this
      ensures Valid() && State() == AfterOff(old(State()), event, fn)
      ensures self == this
    {
      self := this;
      if event.None? || event.value == "" {
        callbacks := map[];
        return;
      }
      var e := event.value;
      if e !in callbacks {
        return;
      }
      if fn.None? {
        callbacks := callbacks - {e};
        return;
      }
      var bucket := callbacks[e];
      var index := FindIndex(bucket, fn.value);
      if index > -1 {
        bucket := bucket[..index] + bucket[index + 1..];
        callbacks := callbacks[e := bucket];
      }
      assert bucket == RemoveFirst(old(callbacks)[e], fn.value);
      if |bucket| == 0 {
        callbacks := callbacks - {e};
      }
    }

    /** Runs a listener body against this emitter. */
    method Perform(body: seq<Effect>) returns (threw: bool)
      requires Valid()
      modifies this
      ensures Valid() && Step(State(), threw) == Performed(old(State()), body)
    {
      threw := false;
      var i := 0;
      while i < |body|
        invariant 0 <= i <= |body| && Valid()
        invariant Performed(old(State()), body) == Performed(State(), body[i..])
      {
        assert body[i..][1..] == body[i + 1..];
        match body[i] {
          case CallOn(event, cb) => var _ := On(event, cb);
          case CallOnce(event, cb) => var _, _ := Once(event, cb);
          case CallOff(event, fn) => var _ := Off(event, fn);
          case Throw => threw := true; return;
        }
        i := i + 1;
      }
    }

    /** `callback.apply(this, args)` for one entry. */
    method Invoke(cb: Cb, beh: Behaviour) returns (threw: bool)
      requires Valid()
      modifies this
      ensures Valid() && Step(State(), threw) == Invoked(old(State()), cb, beh)
      decreases cb
    {
      match cb
      case Fn(id) =>
        threw := Perform(beh(id));
      case OnceWrapper(_, event, fn) =>
        var _ := Off(Some(event), Some(cb));
        threw := Invoke(fn, beh);
    }

    /** `emit(event)`; `called` lists the entries called, `chained` is true when
        `emit` returns the emitter rather than `undefined`. */
    method Emit(event: string, beh: Behaviour) returns (called: seq<Cb>, threw: bool, chained: bool)
      requires Valid()
      modifies this
      ensures Valid() && Dispatch(State(), called, threw) == Emitted(old(State()), event, beh)
      ensures chained <==> event in old(callbacks) && !threw
    {
      called, threw, chained := [], false, false;
      if event !in callbacks {
        return;
      }
      var frozen := callbacks[event];
      assert Emitted(old(State()), event, beh) == Dispatched(old(State()), frozen, beh);
      var i := 0;
      while i < |frozen|
        invariant 0 <= i <= |frozen| && Valid() && !threw
        invariant called == frozen[..i]
        invariant Dispatched(old(State()), frozen, beh) == After(called, Dispatched(State(), frozen[i..], beh))
      {
        ghost var before := State();
        DispatchedFirst(before, frozen[i..], beh);
        assert frozen[i..][0] == frozen[i] && frozen[i..][1..] == frozen[i + 1..];
        threw := Invoke(frozen[i], beh);
        assert Dispatched(before, frozen[i..], beh) ==
          if threw then Dispatch(State(), [frozen[i]], true)
          else After([frozen[i]], Dispatched(State(), frozen[i + 1..], beh));
        assert frozen[..i + 1] == called + [frozen[i]];
        if !threw {
          AfterAfter(called, [frozen[i]], Dispatched(State(), frozen[i + 1..], beh));
        }
        called := called + [frozen[i]];
        if threw {
          return;
        }
        i := i + 1;
      }
      chained := true;
    }

    /** `listeners(event)`: the channel's own array, or a fresh `[]` when
        the channel has none; since no channel is kept empty, the result is
        non-empty exactly for the channels that exist. */
    function Listeners(event: string): (r: seq<Cb>)
      reads this
      requires Valid()
      ensures r != [] <==> event in callbacks
      ensures event in callbacks ==> r == callbacks[event]
    {
      ListenersOf(State(), event)
    }

    /** `hasListeners(event)`. */
    function HasListeners(event: string): (b: bool)
      reads this
      requires Valid()
      ensures b <==> Listeners(event) != []
      ensures b <==> event in EventNames()
    {
      |Listeners(event)| > 0
    }

    /** `eventNames()`: the channels for which listeners are registered. */
    function EventNames(): (names: set<string>)
      reads this
      requires Valid()
      ensures forall e :: e in names <==> Listeners(e) != []
    {
      callbacks.Keys
    }
  }
}
