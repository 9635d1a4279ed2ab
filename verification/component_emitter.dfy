/** The emitter of index.js: channel keys are `'$' + name`, event strings
    fan out over their space-separated tokens, `emit` also dispatches to the
    wildcard channel `"*"`, and `off(event, fn)` leaves an emptied array in
    place. `_callbacks` does not exist until the first `on`, `once`, `listeners` or
    `hasListeners`. */
module ComponentEmitter {
  import opened Listeners

  /** `EVENT_SEPARATOR`. */
  const Separator: char := ' '

  /** `ALL`, the channel every emit also dispatches to. */
  const Wildcard: string := "*"

  /** What `'$' + event` gives for an event object whose `type` is missing or
      empty: the object's default string form. */
  const ObjectName: string := "[object Object]"

  /** The `event` argument of `on`, `once` and `off`: a string, which is split
      on the separator, or an array of names, used as it is. */
  datatype EventSpec = Text(text: string) | Names(names: seq<string>)

  /** A listener; a once wrapper captures the `event` argument it was given. */
  type Cb = Callback<EventSpec>

  /** The first argument of `emit`: a channel name, or an event object whose
      `type` property names the channel. */
  datatype EventArg = Name(name: string) | EventObject(kind: string)

  /** The arguments of `off`: none at all, or an event and an optional callback. */
  datatype OffArgs = NoArgs | OffEvent(event: EventSpec, fn: Option<Cb>)

  /** One step of a listener body, as far as the registry can observe it. */
  datatype Effect =
    | CallOn(event: EventSpec, cb: Cb)
    | CallOnce(event: EventSpec, cb: Cb)
    | CallOff(args: OffArgs)
    | Throw

  /** What the function with identity `id` does when called. */
  type Behaviour = nat -> seq<Effect>

  /** The emitter's state: whether `_callbacks` exists yet, its contents, and
      the identity that the next wrapper allocated by `once` receives. */
  datatype Registry = Registry(initialized: bool, callbacks: map<string, seq<Cb>>, nextSerial: nat)

  datatype Step = Step(reg: Registry, threw: bool)

  datatype Dispatch = Dispatch(reg: Registry, called: seq<Cb>, threw: bool)

  /** An emitter without `_callbacks` has no channels. */
  predicate WellFormed(r: Registry) {
    !r.initialized ==> r.callbacks == map[]
  }

  /** `event.split(EVENT_SEPARATOR)`: the pieces between separators, empty
      pieces included; a string without separator is one piece. */
  function Split(s: string): (parts: seq<string>)
    ensures |parts| >= 1
    ensures forall p | p in parts :: Separator !in p
    decreases |s|
  {
    if s == [] then [""]
    else
      var rest := Split(s[1..]);
      if s[0] == Separator then [""] + rest
      else [[s[0]] + rest[0]] + rest[1..]
  }

  /** The names one call of `on` or `off` applies to. */
  function Tokens(event: EventSpec): seq<string> {
    match event
    case Text(text) => Split(text)
    case Names(names) => names
  }

  /** The key a channel is stored under. */
  function Key(name: string): string {
    "$" + name
  }

  /** The name an emit dispatches to. */
  function TypeOf(arg: EventArg): string {
    match arg
    case Name(name) => name
    case EventObject(kind) => if kind != "" then kind else ObjectName
  }

  /** `listeners(name)`: the channel's array, or `[]` when it has none. */
  function ListenersOf(r: Registry, name: string): seq<Cb> {
    if Key(name) in r.callbacks then r.callbacks[Key(name)] else []
  }

  /** `_addOneEventListener(name, fn)`. */
  function AfterAddOne(r: Registry, name: string, fn: Cb): Registry {
    Registry(true, r.callbacks[Key(name) := ListenersOf(r, name) + [fn]], r.nextSerial)
  }

  function AfterAddAll(r: Registry, names: seq<string>, fn: Cb): Registry
    decreases |names|
  {
    if names == [] then r else AfterAddAll(AfterAddOne(r, names[0], fn), names[1..], fn)
  }

  /** `on(event, fn)`: one registration per token. */
  function AfterOn(r: Registry, event: EventSpec, fn: Cb): Registry {
    AfterAddAll(r, Tokens(event), fn)
  }

  /** The wrapper that `once(event, fn)` allocates in state `r`. */
  function WrapperFor(r: Registry, event: EventSpec, fn: Cb): Cb {
    OnceWrapper(r.nextSerial, event, fn)
  }

  /** `once(event, fn)`. */
  function AfterOnce(r: Registry, event: EventSpec, fn: Cb): Registry {
    AfterOn(Registry(r.initialized, r.callbacks, r.nextSerial + 1), event, WrapperFor(r, event, fn))
  }

  /** `_removeOneEventListener(name, fn)`, where `None` is a falsy `fn`. */
  function AfterRemoveOne(r: Registry, name: string, fn: Option<Cb>): Registry {
    if !r.initialized || Key(name) !in r.callbacks then r
    else if fn.None? then Registry(true, r.callbacks - {Key(name)}, r.nextSerial)
    else Registry(true, r.callbacks[Key(name) := RemoveFirst(r.callbacks[Key(name)], fn.value)], r.nextSerial)
  }

  function AfterRemoveAll(r: Registry, names: seq<string>, fn: Option<Cb>): Registry
    decreases |names|
  {
    if names == [] then r else AfterRemoveAll(AfterRemoveOne(r, names[0], fn), names[1..], fn)
  }

  /** `off(...)`. */
  function AfterOff(r: Registry, args: OffArgs): Registry {
    if !r.initialized then r
    else
      match args
      case NoArgs => Registry(true, map[], r.nextSerial)
      case OffEvent(event, fn) => AfterRemoveAll(r, Tokens(event), fn)
  }

  /** The registry change of one effect that does not throw. */
  function Apply(r: Registry, e: Effect): Registry {
    match e
    case CallOn(event, cb) => AfterOn(r, event, cb)
    case CallOnce(event, cb) => AfterOnce(r, event, cb)
    case CallOff(args) => AfterOff(r, args)
    case Throw => r
  }

  /** Running a listener body: effects in order, stopping at the first throw. */
  function Performed(r: Registry, body: seq<Effect>): Step
    decreases |body|
  {
    if body == [] then Step(r, false)
    else if body[0].Throw? then Step(r, true)
    else Performed(Apply(r, body[0]), body[1..])
  }

  /** Calling one entry. A once wrapper first calls `off(event, on)` with the
      event it captured, then the function it wraps. */
  function Invoked(r: Registry, cb: Cb, beh: Behaviour): Step
    decreases cb
  {
    match cb
    case Fn(id) => Performed(r, beh(id))
    case OnceWrapper(_, event, fn) => Invoked(AfterOff(r, OffEvent(event, Some(cb))), fn, beh)
  }

  /** `callAll`: calling the entries of a copy in order; a throw aborts the rest. */
  function Dispatched(r: Registry, snapshot: seq<Cb>, beh: Behaviour): Dispatch
    decreases |snapshot|
  {
    if snapshot == [] then Dispatch(r, [], false)
    else
      var st := Invoked(r, snapshot[0], beh);
      if st.threw then Dispatch(st.reg, [snapshot[0]], true)
      else
        var d := Dispatched(st.reg, snapshot[1..], beh);
        Dispatch(d.reg, [snapshot[0]] + d.called, d.threw)
  }

  /** The first half of `emit`: the dispatch to the named channel. */
  function ChannelDispatch(r: Registry, arg: EventArg, beh: Behaviour): Dispatch {
    Dispatched(r, ListenersOf(r, TypeOf(arg)), beh)
  }

  /** `emit(arg)`: nothing before `_callbacks` exists; otherwise the named
      channel, then the wildcard channel as it stands after that dispatch. */
  function Emitted(r: Registry, arg: EventArg, beh: Behaviour): Dispatch {
    if !r.initialized then Dispatch(r, [], false)
    else
      var d1 := ChannelDispatch(r, arg, beh);
      if d1.threw then d1
      else
        var d2 := Dispatched(d1.reg, ListenersOf(d1.reg, Wildcard), beh);
        Dispatch(d2.reg, d1.called + d2.called, d2.threw)
  }

  /** A dispatch is the first entry's call followed by the dispatch of the
      rest, unless that call threw. */
  lemma {:induction false} DispatchedFirst(r: Registry, snapshot: seq<Cb>, beh: Behaviour)
    requires snapshot != []
    ensures var st := Invoked(r, snapshot[0], beh);
            Dispatched(r, snapshot, beh) ==
              if st.threw then Dispatch(st.reg, [snapshot[0]], true)
              else After([snapshot[0]], Dispatched(st.reg, snapshot[1..], beh))
  {
  }

  /** `d` with `done` called before it. */
  function After(done: seq<Cb>, d: Dispatch): Dispatch {
    Dispatch(d.reg, done + d.called, d.threw)
  }

  /** Prefixing twice is prefixing with both lists in order. */
  lemma {:induction false} AfterAfter(a: seq<Cb>, b: seq<Cb>, d: Dispatch)
    ensures After(a, After(b, d)) == After(a + b, d)
  {
    assert a + (b + d.called) == (a + b) + d.called;
  }

  class Emitter {
    var initialized: bool
    var callbacks: map<string, seq<Cb>>
    var nextSerial: nat

    function State(): Registry
      reads this
    {
      Registry(initialized, callbacks, nextSerial)
    }

    ghost predicate Valid()
      reads this
    {
      WellFormed(State())
    }

    /** `new Emitter()`: no `_callbacks` yet. */
    constructor ()
      ensures Valid() && State() == Registry(false, map[], 0)
    {
      initialized := false;
      callbacks := map[];
      nextSerial := 0;
    }

    /** `_addOneEventListener(name, fn)`. */
    method AddOne(name: string, fn: Cb) returns (self: Emitter)
      requires Valid()
      modifies this
      ensures Valid() && State() == AfterAddOne(old(State()), name, fn)
      ensures self == this
    {
      initialized := true;
      var bucket := if Key(name) in callbacks then callbacks[Key(name)] else [];
      callbacks := callbacks[Key(name) := bucket + [fn]];
      self := this;
    }

    /** `on(event, fn)`, which returns nothing. */
    method On(event: EventSpec, fn: Cb)
      requires Valid()
      modifies this
      ensures Valid() && State() == AfterOn(old(State()), event, fn)
    {
      var names := Tokens(event);
      var i := 0;
      while i < |names|
        invariant 0 <= i <= |names| && Valid()
        invariant AfterOn(old(State()), event, fn) == AfterAddAll(State(), names[i..], fn)
      {
        assert names[i..][1..] == names[i + 1..];
        var _ := AddOne(names[i], fn);
        i := i + 1;
      }
    }

    /** `once(event, fn)`; `wrapper` is the closure it registers. */
    method Once(event: EventSpec, fn: Cb) returns (self: Emitter, wrapper: Cb)
      requires Valid()
      modifies this
      ensures Valid() && State() == AfterOnce(old(State()), event, fn)
      ensures wrapper == WrapperFor(old(State()), event, fn) && wrapper.fn == fn
      ensures self == this
    {
      wrapper := OnceWrapper(nextSerial, event, fn);
      nextSerial := nextSerial + 1;
      On(event, wrapper);
      self := this;
    }

    /** `_removeOneEventListener(name, fn)`. */
    method RemoveOne(name: string, fn: Option<Cb>) returns (self: Emitter)
      requires Valid()
      modifies this
      ensures Valid() && State() == AfterRemoveOne(old(State()), name, fn)
      ensures self == this
    {
      self := this;
      if !initialized || Key(name) !in callbacks {
        return;
      }
      if fn.None? {
        callbacks := callbacks - {Key(name)};
        return;
      }
      var bucket := callbacks[Key(name)];
      var i := FindIndex(bucket, fn.value);
      var rest := if i >= 0 then bucket[..i] + bucket[i + 1..] else bucket;
      assert rest == RemoveFirst(bucket, fn.value);
      callbacks := callbacks[Key(name) := rest];
    }

    /** `off(...)`. */
    method Off(args: OffArgs) returns (self: Emitter)
      requires Valid()
      modifies this
      ensures Valid() && State() == AfterOff(old(State()), args)
      ensures self == this
    {
      self := this;
      if !initialized {
        return;
      }
      if args.NoArgs? {
        callbacks := map[];
        return;
      }
      var names := Tokens(args.event);
      var i := 0;
      while i < |names|
        invariant 0 <= i <= |names| && Valid() && initialized
        invariant AfterOff(old(State()), args) == AfterRemoveAll(State(), names[i..], args.fn)
      {
        assert names[i..][1..] == names[i + 1..];
        var _ := RemoveOne(names[i], args.fn);
        i := i + 1;
      }
    }

    /** Runs a listener body against this emitter. */
    method Perform(body: seq<Effect>) returns (threw: bool)
      requires Valid()
      modifies this
      ensures Valid() && Step(State(), threw) == Performed(old(State()), body)
    {
      threw := false;
      var i := 0;
      while i < |body|
        invariant 0 <= i <= |body| && Valid()
        invariant Performed(old(State()), body) == Performed(State(), body[i..])
      {
        assert body[i..][1..] == body[i + 1..];
        match body[i] {
          case CallOn(event, cb) => On(event, cb);
          case CallOnce(event, cb) => var _, _ := Once(event, cb);
          case CallOff(args) => var _ := Off(args);
          case Throw => threw := true; return;
        }
        i := i + 1;
      }
    }

    /** `callbacks[i].apply(target, args)` for one entry. */
    method Invoke(cb: Cb, beh: Behaviour) returns (threw: bool)
      requires Valid()
      modifies this
      ensures Valid() && Step(State(), threw) == Invoked(old(State()), cb, beh)
      decreases cb
    {
      match cb
      case Fn(id) =>
        threw := Perform(beh(id));
      case OnceWrapper(_, event, fn) =>
        var _ := Off(OffEvent(event, Some(cb)));
        threw := Invoke(fn, beh);
    }

    /** `callAll(callbacks, ...)`: `callbacks` is already a copy. */
    method CallAll(snapshot: seq<Cb>, beh: Behaviour) returns (called: seq<Cb>, threw: bool)
      requires Valid()
      modifies this
      ensures Valid() && Dispatch(State(), called, threw) == Dispatched(old(State()), snapshot, beh)
    {
      called, threw := [], false;
      var i := 0;
      while i < |snapshot|
        invariant 0 <= i <= |snapshot| && Valid() && !threw
        invariant called == snapshot[..i]
        invariant Dispatched(old(State()), snapshot, beh) == After(called, Dispatched(State(), snapshot[i..], beh))
      {
        ghost var before := State();
        DispatchedFirst(before, snapshot[i..], beh);
        assert snapshot[i..][0] == snapshot[i] && snapshot[i..][1..] == snapshot[i + 1..];
        threw := Invoke(snapshot[i], beh);
        assert snapshot[..i + 1] == called + [snapshot[i]];
        if !threw {
          AfterAfter(called, [snapshot[i]], Dispatched(State(), snapshot[i + 1..], beh));
        }
        called := called + [snapshot[i]];
        if threw {
          return;
        }
        i := i + 1;
      }
    }

    /** `emit(arg)`; `chained` is true when it returns the emitter rather than
        `undefined`. */
    method Emit(arg: EventArg, beh: Behaviour) returns (called: seq<Cb>, threw: bool, chained: bool)
      requires Valid()
      modifies this
      ensures Valid() && Dispatch(State(), called, threw) == Emitted(old(State()), arg, beh)
      ensures chained <==> old(initialized) && !threw
    {
      called, threw, chained := [], false, false;
      if !initialized {
        return;
      }
      var first := ListenersOf(State(), TypeOf(arg));
      called, threw := CallAll(first, beh);
      if threw {
        return;
      }
      var all := ListenersOf(State(), Wildcard);
      var more;
      more, threw := CallAll(all, beh);
      called := called + more;
      chained := !threw;
    }

    /** `listeners(name)`, which creates `_callbacks` if it is missing. */
    method Listeners(name: string) returns (cbs: seq<Cb>)
      requires Valid()
      modifies this
      ensures Valid() && State() == Registry(true, old(callbacks), old(nextSerial))
      ensures cbs == ListenersOf(old(State()), name)
    {
      initialized := true;
      cbs := ListenersOf(State(), name);
    }

    /** `hasListeners(name)`. */
    method HasListeners(name: string) returns (b: bool)
      requires Valid()
      modifies this
      ensures Valid() && State() == Registry(true, old(callbacks), old(nextSerial))
      ensures b <==> ListenersOf(old(State()), name) != []
    {
      var cbs := Listeners(name);
      b := |cbs| > 0;
    }
  }
}
