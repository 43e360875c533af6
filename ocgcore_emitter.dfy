/**
 * The event-emitting decorator around the native binding table.
 *
 * `OCGCoreEmitter.getCore` returns a proxy over the core object. Reading a
 * member that is not a function gives the raw member. Reading a function gives
 * a wrapper. A call of that wrapper publishes `before:call` and
 * `before:<name>`, then runs the real call. On a normal return it publishes
 * `after:call` and `after:<name>` with the result and returns that result.
 * When the call throws, it publishes `error` and `error:<name>` with the
 * thrown value and re-throws it.
 *
 * Publishing is modelled by a trace. Each `emit` appends one entry holding
 * its topic, its payload and the listeners registered on that topic at that
 * moment, in registration order: exactly the listeners the host's event
 * emitter calls. The underlying native call appends one entry too, so the
 * trace shows where it ran relative to the emissions.
 */
module CoreEmitter {
  import opened Wrappers

  /** A host value passed across the native boundary. */
  datatype Value =
    | Undefined
    | Number(n: int)
    | Text(s: string)
    | Pointer(address: nat)
    | Bytes(data: seq<int>)

  /** How the underlying native call ended. */
  datatype Outcome = Returned(result: Value) | Threw(error: Value)

  /** A member of the core object: a plain value, or a function of its arguments. */
  datatype Member = Plain(value: Value) | Callable(impl: seq<Value> -> Outcome)

  /** Identifies a registered listener; the same listener may be registered twice. */
  type ListenerId = nat

  /**
   * The payloads: the call event, and its copies extended with the result or
   * the error (host spread syntax `{...event, result}` / `{...event, error}`).
   */
  datatype Event =
    | CallEvent(methodName: string, args: seq<Value>, timestamp: int)
    | ResultEvent(methodName: string, args: seq<Value>, timestamp: int, result: Value)
    | ErrorEvent(methodName: string, args: seq<Value>, timestamp: int, error: Value)

  /** One `emit`: its topic, its payload, and the listeners it called, in order. */
  datatype Emission = Emission(topic: string, payload: Event, notified: seq<ListenerId>)

  /**
   * One step of the trace: an `emit`, or the underlying native call with the
   * arguments it was given and how it ended.
   */
  datatype Step = Published(emission: Emission) | NativeCall(name: string, args: seq<Value>, outcome: Outcome)

  /** What reading a member through the proxy yields. */
  datatype Access = RawMember(value: Value) | Wrapper(name: string)

  /** One call of a wrapper: the member name, the caller's arguments and the clock reading. */
  datatype Request = Request(name: string, args: seq<Value>, now: int)

  type Registry = map<string, seq<ListenerId>>

  // ---------------------------------------------------------------------------
  // Topics
  // ---------------------------------------------------------------------------

  const BeforeCall: string := "before:call"
  const AfterCall: string := "after:call"
  const ErrorTopic: string := "error"

  function BeforeTopic(name: string): string { "before:" + name }
  function AfterTopic(name: string): string { "after:" + name }
  function ErrorMethodTopic(name: string): string { "error:" + name }

  /** The members of the binding table, the keys of the core object. */
  const CoreMembers: seq<string> := [
    "set_script_reader", "set_card_reader", "set_message_handler",
    "create_duel", "create_duel_v2", "start_duel", "end_duel",
    "set_player_info", "get_log_message", "get_message", "process",
    "new_card", "new_tag_card", "query_card", "query_field_count",
    "query_field_card", "query_field_info", "set_responsei",
    "set_responseb", "preload_script"
  ]

  /**
   * The six topics of one dispatch are pairwise distinct unless the member is
   * itself named `call`, whose per-member topics coincide with the generic ones.
   */
  lemma TopicsDistinct(name: string)
    requires name != "call"
    ensures BeforeTopic(name) != BeforeCall && AfterTopic(name) != AfterCall
    ensures |{BeforeCall, BeforeTopic(name), AfterCall, AfterTopic(name), ErrorTopic, ErrorMethodTopic(name)}| == 6
  {
    var b, a, e := BeforeTopic(name), AfterTopic(name), ErrorMethodTopic(name);
    assert b[7..] == name && BeforeCall[7..] == "call";
    assert a[6..] == name && AfterCall[6..] == "call";
    assert b[0] == 'b' && a[0] == 'a' && e[0] == 'e';
    assert BeforeCall[0] == 'b' && AfterCall[0] == 'a' && ErrorTopic[0] == 'e';
    assert |ErrorTopic| == 5 < |e|;
    assert b !in {AfterCall, a, ErrorTopic, e};
    assert BeforeCall !in {AfterCall, a, ErrorTopic, e};
    assert a !in {ErrorTopic, e} && AfterCall !in {ErrorTopic, e};
  }

  /** The counterexample: for a member named `call` the two before-topics are one topic. */
  lemma CallMemberCollides()
    ensures BeforeTopic("call") == BeforeCall && AfterTopic("call") == AfterCall
  {
  }

  /** No member of the binding table is named `call`. */
  lemma CoreMembersNotCall()
    ensures "call" !in CoreMembers && |CoreMembers| == 20
  {
  }

  // ---------------------------------------------------------------------------
  // The listener registry
  // ---------------------------------------------------------------------------

  /** The listeners on a topic, in registration order; none if the topic was never used. */
  function Listeners(registry: Registry, topic: string): seq<ListenerId> {
    if topic in registry then registry[topic] else []
  }

  /** `on(topic, listener)`: append, without removing duplicates. */
  function AddListener(registry: Registry, topic: string, l: ListenerId): (r: Registry)
    ensures Listeners(r, topic) == Listeners(registry, topic) + [l]
    ensures forall t :: t != topic ==> Listeners(r, t) == Listeners(registry, t)
  {
    registry[topic := Listeners(registry, topic) + [l]]
  }

  /** Two registrations on one topic are both kept, in registration order. */
  lemma AddListenerTwice(registry: Registry, topic: string, l1: ListenerId, l2: ListenerId)
    ensures Listeners(AddListener(AddListener(registry, topic, l1), topic, l2), topic)
      == Listeners(registry, topic) + [l1, l2]
  {
  }

  // ---------------------------------------------------------------------------
  // The dispatch sequence
  // ---------------------------------------------------------------------------

  /** The entry one `emit(topic, payload)` appends to the trace. */
  function Emitted(registry: Registry, topic: string, payload: Event): Step {
    Published(Emission(topic, payload, Listeners(registry, topic)))
  }

  /** `{...event, result}`: the call event's fields plus the result. */
  function WithResult(event: Event, result: Value): Event
    requires event.CallEvent?
  {
    ResultEvent(event.methodName, event.args, event.timestamp, result)
  }

  /** `{...event, error}`: the call event's fields plus the thrown value. */
  function WithError(event: Event, error: Value): Event
    requires event.CallEvent?
  {
    ErrorEvent(event.methodName, event.args, event.timestamp, error)
  }

  /**
   * The five steps of one wrapper call whose underlying call ended with `o`:
   * two emissions, the native call, two emissions.
   */
  function DispatchTrace(registry: Registry, name: string, args: seq<Value>, now: int, o: Outcome): seq<Step> {
    var event := CallEvent(name, args, now);
    [Emitted(registry, BeforeCall, event), Emitted(registry, BeforeTopic(name), event), NativeCall(name, args, o)] +
    match o
    case Returned(v) =>
      [Emitted(registry, AfterCall, WithResult(event, v)), Emitted(registry, AfterTopic(name), WithResult(event, v))]
    case Threw(err) =>
      [Emitted(registry, ErrorTopic, WithError(event, err)), Emitted(registry, ErrorMethodTopic(name), WithError(event, err))]
  }

  /** Whether a step is an emission on `topic`. */
  predicate IsOn(s: Step, topic: string) {
    s.Published? && s.emission.topic == topic
  }

  /** Whether a step belongs to the after pair or to the error pair of a call of `name`. */
  predicate IsAfterEntry(s: Step, name: string) {
    IsOn(s, AfterCall) || IsOn(s, AfterTopic(name))
  }

  predicate IsErrorEntry(s: Step, name: string) {
    IsOn(s, ErrorTopic) || IsOn(s, ErrorMethodTopic(name))
  }

  /** The first letter of every topic tells which phase it belongs to. */
  lemma TopicInitials(name: string)
    ensures BeforeCall[0] == BeforeTopic(name)[0] == 'b'
    ensures AfterCall[0] == AfterTopic(name)[0] == 'a'
    ensures ErrorTopic[0] == ErrorMethodTopic(name)[0] == 'e'
  {
  }

  /**
   * One dispatch: the before pair first, then the native call with the
   * caller's arguments, then exactly one of the after pair (on a return) or
   * the error pair (on a throw), never both and never neither.
   */
  lemma DispatchOrder(registry: Registry, name: string, args: seq<Value>, now: int, o: Outcome)
    ensures var t := DispatchTrace(registry, name, args, now, o);
      && |t| == 5
      && IsOn(t[0], BeforeCall) && IsOn(t[1], BeforeTopic(name))
      && t[2] == NativeCall(name, args, o)
      && (forall i :: 0 <= i < 5 && i != 2 ==> t[i].Published?)
      && (o.Returned? <==> IsOn(t[3], AfterCall) && IsOn(t[4], AfterTopic(name)))
      && (o.Threw? <==> IsOn(t[3], ErrorTopic) && IsOn(t[4], ErrorMethodTopic(name)))
      && (forall i :: 0 <= i < 5 ==> (IsAfterEntry(t[i], name) <==> o.Returned? && 3 <= i))
      && (forall i :: 0 <= i < 5 ==> (IsErrorEntry(t[i], name) <==> o.Threw? && 3 <= i))
  {
    TopicInitials(name);
  }

  /**
   * Every emission of a dispatch notifies every listener of its topic, in
   * registration order, once. Every payload carries the member name and the
   * caller's arguments unchanged; the after payloads carry the value returned
   * to the caller and the error payloads the value re-thrown to it.
   */
  lemma DispatchPayloads(registry: Registry, name: string, args: seq<Value>, now: int, o: Outcome)
    ensures forall s :: s in DispatchTrace(registry, name, args, now, o) && s.Published? ==>
      && s.emission.payload.methodName == name
      && s.emission.payload.args == args
      && s.emission.payload.timestamp == now
      && s.emission.notified == Listeners(registry, s.emission.topic)
    ensures var t := DispatchTrace(registry, name, args, now, o);
      && t[0].emission.payload == t[1].emission.payload == CallEvent(name, args, now)
      && t[3].emission.payload == t[4].emission.payload
      && (o.Returned? ==> t[3].emission.payload == ResultEvent(name, args, now, o.result))
      && (o.Threw? ==> t[3].emission.payload == ErrorEvent(name, args, now, o.error))
  {
  }

  // ---------------------------------------------------------------------------
  // Sessions: many calls in a row
  // ---------------------------------------------------------------------------

  predicate IsCallable(core: map<string, Member>, name: string) {
    name in core && core[name].Callable?
  }

  predicate AllCallable(core: map<string, Member>, reqs: seq<Request>) {
    forall i :: 0 <= i < |reqs| ==> IsCallable(core, reqs[i].name)
  }

  /** The trace a series of wrapper calls appends, with the registry left as it is. */
  function SessionTrace(core: map<string, Member>, registry: Registry, reqs: seq<Request>): seq<Step>
    requires AllCallable(core, reqs)
  {
    if reqs == [] then []
    else
      var init, r := reqs[..|reqs| - 1], reqs[|reqs| - 1];
      SessionTrace(core, registry, init) +
      DispatchTrace(registry, r.name, r.args, r.now, core[r.name].impl(r.args))
  }

  /** The number of emissions on a topic. */
  function CountTopic(log: seq<Step>, topic: string): nat {
    if log == [] then 0
    else CountTopic(log[..|log| - 1], topic) + (if IsOn(log[|log| - 1], topic) then 1 else 0)
  }

  /** The native calls of a trace, in order: member name and arguments. */
  function NativeCalls(log: seq<Step>): seq<(string, seq<Value>)> {
    if log == [] then []
    else
      var last := log[|log| - 1];
      NativeCalls(log[..|log| - 1]) + (if last.NativeCall? then [(last.name, last.args)] else [])
  }

  lemma {:induction false} CountTopicAppend(a: seq<Step>, b: seq<Step>, topic: string)
    ensures CountTopic(a + b, topic) == CountTopic(a, topic) + CountTopic(b, topic)
  {
    if b != [] {
      var ab := a + b;
      assert ab != [] && ab[..|ab| - 1] == a + b[..|b| - 1];
      assert ab[|ab| - 1] == b[|b| - 1];
      CountTopicAppend(a, b[..|b| - 1], topic);
      assert CountTopic(ab, topic) == CountTopic(a + b[..|b| - 1], topic) + (if IsOn(b[|b| - 1], topic) then 1 else 0);
    } else {
      assert a + b == a;
    }
  }

  lemma {:induction false} NativeCallsAppend(a: seq<Step>, b: seq<Step>)
    ensures NativeCalls(a + b) == NativeCalls(a) + NativeCalls(b)
  {
    if b != [] {
      var ab := a + b;
      assert ab != [] && ab[..|ab| - 1] == a + b[..|b| - 1];
      assert ab[|ab| - 1] == b[|b| - 1];
      NativeCallsAppend(a, b[..|b| - 1]);
    } else {
      assert a + b == a;
    }
  }

  lemma CountTopicLast(log: seq<Step>, topic: string)
    requires log != []
    ensures CountTopic(log, topic) == CountTopic(log[..|log| - 1], topic) + (if IsOn(log[|log| - 1], topic) then 1 else 0)
  {
  }

  lemma NativeCallsLast(log: seq<Step>)
    requires log != []
    ensures NativeCalls(log) == NativeCalls(log[..|log| - 1]) +
      (if log[|log| - 1].NativeCall? then [(log[|log| - 1].name, log[|log| - 1].args)] else [])
  {
  }

  /** The number of calls of the series that threw. */
  function Failures(core: map<string, Member>, reqs: seq<Request>): (n: nat)
    requires AllCallable(core, reqs)
    ensures n <= |reqs|
  {
    if reqs == [] then 0
    else
      var r := reqs[|reqs| - 1];
      Failures(core, reqs[..|reqs| - 1]) + (if core[r.name].impl(r.args).Threw? then 1 else 0)
  }

  /**
   * One dispatch puts one emission on `before:call` and one on `after:call`
   * or `error` as the call ended, and performs exactly one native call.
   */
  lemma DispatchCounts(registry: Registry, name: string, args: seq<Value>, now: int, o: Outcome)
    requires name != "call"
    ensures var t := DispatchTrace(registry, name, args, now, o);
      && CountTopic(t, BeforeCall) == 1
      && CountTopic(t, AfterCall) == (if o.Returned? then 1 else 0)
      && CountTopic(t, ErrorTopic) == (if o.Threw? then 1 else 0)
      && NativeCalls(t) == [(name, args)]
  {
    var t := DispatchTrace(registry, name, args, now, o);
    TopicsDistinct(name);
    assert t[..1][..0] == [] && t[..2][..1] == t[..1] && t[..3][..2] == t[..2];
    assert t[..4][..3] == t[..3] && t[..4] == t[..|t| - 1];
    forall topic | topic in {BeforeCall, AfterCall, ErrorTopic}
      ensures CountTopic(t, topic) ==
        (if IsOn(t[0], topic) then 1 else 0) + (if IsOn(t[1], topic) then 1 else 0) +
        (if IsOn(t[3], topic) then 1 else 0) + (if IsOn(t[4], topic) then 1 else 0)
    {
      CountTopicLast(t[..1], topic);
      CountTopicLast(t[..2], topic);
      CountTopicLast(t[..3], topic);
      CountTopicLast(t[..4], topic);
      CountTopicLast(t, topic);
    }
    NativeCallsLast(t[..1]);
    NativeCallsLast(t[..2]);
    NativeCallsLast(t[..3]);
    NativeCallsLast(t[..4]);
    NativeCallsLast(t);
  }

  /**
   * Over any series of calls of members not named `call`: the trace gains
   * five steps per call; the native calls are the requested ones, each once,
   * in request order, with the caller's arguments; `before:call` fires once
   * per call; the after pair fires for exactly the calls that returned and
   * the error pair for exactly the calls that threw.
   */
  lemma {:induction false} SessionCounts(core: map<string, Member>, registry: Registry, reqs: seq<Request>)
    requires AllCallable(core, reqs)
    requires forall i :: 0 <= i < |reqs| ==> reqs[i].name != "call"
    ensures |SessionTrace(core, registry, reqs)| == 5 * |reqs|
    ensures NativeCalls(SessionTrace(core, registry, reqs)) ==
      seq(|reqs|, i requires 0 <= i < |reqs| => (reqs[i].name, reqs[i].args))
    ensures CountTopic(SessionTrace(core, registry, reqs), BeforeCall) == |reqs|
    ensures CountTopic(SessionTrace(core, registry, reqs), ErrorTopic) == Failures(core, reqs)
    ensures CountTopic(SessionTrace(core, registry, reqs), AfterCall) == |reqs| - Failures(core, reqs)
  {
    if reqs != [] {
      var init, r := reqs[..|reqs| - 1], reqs[|reqs| - 1];
      SessionCounts(core, registry, init);
      var t := DispatchTrace(registry, r.name, r.args, r.now, core[r.name].impl(r.args));
      DispatchCounts(registry, r.name, r.args, r.now, core[r.name].impl(r.args));
      var prior := SessionTrace(core, registry, init);
      CountTopicAppend(prior, t, BeforeCall);
      CountTopicAppend(prior, t, ErrorTopic);
      CountTopicAppend(prior, t, AfterCall);
      NativeCallsAppend(prior, t);
    }
  }

  // ---------------------------------------------------------------------------
  // The emitter
  // ---------------------------------------------------------------------------

  class OCGCoreEmitter {
    /** The wrapped core object; nothing here ever changes it. */
    const core: map<string, Member>
    /** The event emitter's listener lists, by topic. */
    var registry: Registry
    /** Every `emit` and every native call so far, oldest first. */
    var log: seq<Step>

    /** A fresh emitter over an already constructed core, with no listeners. */
    constructor (core: map<string, Member>)
      ensures this.core == core && registry == map[] && log == []
    {
      this.core := core;
      registry := map[];
      log := [];
    }

    /** The proxy's `get`: functions are wrapped, anything else (absent: `undefined`) is returned raw. */
    function Get(name: string): (a: Access)
      ensures a.Wrapper? <==> IsCallable(core, name)
      ensures a.Wrapper? ==> a.name == name
      ensures a.RawMember? && name in core ==> core[name] == Plain(a.value)
      ensures a.RawMember? && name !in core ==> a.value == Undefined
    {
      if name in core then
        match core[name]
        case Callable(_) => Wrapper(name)
        case Plain(v) => RawMember(v)
      else RawMember(Undefined)
    }

    /** `emit(topic, payload)`: calls the topic's listeners; reports whether there were any. */
    method Emit(topic: string, payload: Event) returns (hadListeners: bool)
      modifies this`log
      ensures log == old(log) + [Emitted(registry, topic, payload)]
      ensures hadListeners <==> Listeners(registry, topic) != []
    {
      log := log + [Emitted(registry, topic, payload)];
      hadListeners := Listeners(registry, topic) != [];
    }

    /**
     * A call of the wrapper `Get(name)` returned, with the caller's arguments
     * and the clock reading `now`. The outcome is the underlying call's own,
     * unchanged, and the trace gains that call's five dispatch steps, the
     * native call among them.
     */
    method Invoke(name: string, args: seq<Value>, now: int) returns (o: Outcome)
      requires Get(name).Wrapper?
      modifies this`log
      ensures o == core[name].impl(args)
      ensures log == old(log) + DispatchTrace(registry, name, args, now, o)
    {
      var event := CallEvent(name, args, now);
      var _ := Emit(BeforeCall, event);
      var _ := Emit(BeforeTopic(name), event);
      o := core[name].impl(args);
      log := log + [NativeCall(name, args, o)];
      match o
      case Returned(result) =>
        var eventWithResult := WithResult(event, result);
        var _ := Emit(AfterCall, eventWithResult);
        var _ := Emit(AfterTopic(name), eventWithResult);
      case Threw(error) =>
        var _ := Emit(ErrorTopic, WithError(event, error));
        var _ := Emit(ErrorMethodTopic(name), WithError(event, error));
    }

    /** `on(topic, listener)`. */
    method On(topic: string, listener: ListenerId) returns (self: OCGCoreEmitter)
      modifies this`registry
      ensures self == this
      ensures registry == AddListener(old(registry), topic, listener)
    {
      registry := AddListener(registry, topic, listener);
      self := this;
    }

    method OnBeforeCall(listener: ListenerId) returns (self: OCGCoreEmitter)
      modifies this`registry
      ensures self == this
      ensures registry == AddListener(old(registry), BeforeCall, listener)
    {
      self := On(BeforeCall, listener);
    }

    method OnAfterCall(listener: ListenerId) returns (self: OCGCoreEmitter)
      modifies this`registry
      ensures self == this
      ensures registry == AddListener(old(registry), AfterCall, listener)
    {
      self := On(AfterCall, listener);
    }

    method OnBeforeMethod(name: string, listener: ListenerId) returns (self: OCGCoreEmitter)
      modifies this`registry
      ensures self == this
      ensures registry == AddListener(old(registry), BeforeTopic(name), listener)
    {
      self := On(BeforeTopic(name), listener);
    }

    method OnAfterMethod(name: string, listener: ListenerId) returns (self: OCGCoreEmitter)
      modifies this`registry
      ensures self == this
      ensures registry == AddListener(old(registry), AfterTopic(name), listener)
    {
      self := On(AfterTopic(name), listener);
    }

    method OnError(listener: ListenerId) returns (self: OCGCoreEmitter)
      modifies this`registry
      ensures self == this
      ensures registry == AddListener(old(registry), ErrorTopic, listener)
    {
      self := On(ErrorTopic, listener);
    }
  }

  /**
   * A host making a series of wrapper calls, one after another, with no
   * registration in between: the trace gains exactly `SessionTrace`, so the
   * session lemmas above hold of the emitter's own trace.
   */
  method InvokeAll(em: OCGCoreEmitter, reqs: seq<Request>) returns (outcomes: seq<Outcome>)
    requires AllCallable(em.core, reqs)
    modifies em`log
    ensures em.log == old(em.log) + SessionTrace(em.core, em.registry, reqs)
    ensures |outcomes| == |reqs|
    ensures forall i :: 0 <= i < |reqs| ==> outcomes[i] == em.core[reqs[i].name].impl(reqs[i].args)
  {
    outcomes := [];
    for i := 0 to |reqs|
      invariant em.log == old(em.log) + SessionTrace(em.core, em.registry, reqs[..i])
      invariant |outcomes| == i
      invariant forall j :: 0 <= j < i ==> outcomes[j] == em.core[reqs[j].name].impl(reqs[j].args)
    {
      assert reqs[..i + 1][..i] == reqs[..i];
      var o := em.Invoke(reqs[i].name, reqs[i].args, reqs[i].now);
      outcomes := outcomes + [o];
    }
    assert reqs[..|reqs|] == reqs;
  }
}
