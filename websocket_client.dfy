/** Phoenix-style channel bookkeeping of the jet1090 websocket client: the
    per-event handler registry, the `ref`/`join_ref` counters, the shape of
    an outgoing frame, how an incoming frame is routed to the handlers of
    its channel, channel registration and the singleton instance cache.

    The websocket itself is reduced to an `open` flag and the list of frames
    sent; JSON text is represented by the decoded `Json` value. A handler is
    identified by a number and is assumed not to touch the registry. */
module Phoenix {
  import opened Common

  datatype Json = JNull | JBool(b: bool) | JNum(n: int) | JStr(s: string) | JArr(items: seq<Json>) | JObj(fields: map<string, Json>)

  /** The identity of a registered callback. */
  type Handler = nat

  /** The six positional arguments every handler receives. */
  datatype Args = Args(joinRef: Json, ref: Json, channel: Json, event: Json, status: Json, response: Json)

  /** One invocation made while handling a frame. */
  datatype Call = Invoke(handler: Handler, args: Args) | OnJoin(args: Args)

  datatype DispatchError =
    | MalformedFrame      // the frame is not a five-element list
    | BadPayload          // the payload lacks "status" or "response", or is not an object
    | Unhashable          // a list or an object used as a dictionary key

  datatype SendError = NotConnected

  datatype KeyError = KeyError

  // ------------------------------------------------------------ handler registry

  type Registry = map<string, set<Handler>>

  /** `_event_handlers.get(event, [])`. */
  function HandlersFor(m: Registry, event: string): set<Handler>
  {
    if event in m then m[event] else {}
  }

  /** `on_event`: add `fn` to the set of `event`, creating the set if needed. */
  function Register(m: Registry, event: string, fn: Handler): (m': Registry)
    ensures event in m' && fn in m'[event]
    ensures m'[event] == HandlersFor(m, event) + {fn}
    ensures forall e :: e != event ==> (e in m' <==> e in m) && (e in m ==> m'[e] == m[e])
  {
    m[event := HandlersFor(m, event) + {fn}]
  }

  /** `off_event`: `_event_handlers[event].remove(fn)` raises KeyError when
      the event was never registered and when `fn` is not in its set. */
  function Unregister(m: Registry, event: string, fn: Handler): (r: Result<Registry, KeyError>)
    ensures r.Err? <==> event !in m || fn !in m[event]
    ensures r.Ok? ==> event in r.value && r.value[event] == m[event] - {fn}
    ensures r.Ok? ==> forall e :: e != event ==> (e in r.value <==> e in m) && (e in m ==> r.value[e] == m[e])
  {
    if event in m && fn in m[event] then Ok(m[event := m[event] - {fn}]) else Err(KeyError)
  }

  /** Registering the same callback twice leaves a single entry. */
  lemma {:induction false} RegisterIdempotent(m: Registry, event: string, fn: Handler)
    ensures Register(Register(m, event, fn), event, fn) == Register(m, event, fn)
  {
    var once := Register(m, event, fn);
    assert HandlersFor(once, event) + {fn} == once[event];
  }

  /** Removing a callback right after adding it succeeds and leaves the
      event's other callbacks untouched. */
  lemma RegisterThenUnregister(m: Registry, event: string, fn: Handler)
    ensures Unregister(Register(m, event, fn), event, fn) == Ok(m[event := HandlersFor(m, event) - {fn}])
  {
    var once := Register(m, event, fn);
    assert once[event] - {fn} == HandlersFor(m, event) - {fn};
    assert once[event := once[event] - {fn}] == m[event := HandlersFor(m, event) - {fn}];
  }

  // ------------------------------------------------------------ frames

  /** `["0", "0", channel, event, payload]`, the frame `send` writes. */
  function OutgoingFrame(topic: string, event: string, payload: Json): Json
  {
    JArr([JStr("0"), JStr("0"), JStr(topic), JStr(event), payload])
  }

  /** An incoming frame after unpacking and reading status and response. */
  datatype Incoming = Incoming(joinRef: Json, ref: Json, channel: Json, event: Json, status: Json, response: Json)

  /** `[join_ref, ref, channel, event, payload] = json.loads(message)` followed
      by `payload["status"], payload["response"]`. */
  function Decode(frame: Json): (r: Result<Incoming, DispatchError>)
    ensures r.Ok? <==> frame.JArr? && |frame.items| == 5 && frame.items[4].JObj?
                       && "status" in frame.items[4].fields && "response" in frame.items[4].fields
    ensures r.Ok? ==> r.value.channel == frame.items[2] && r.value.event == frame.items[3]
  {
    if !frame.JArr? || |frame.items| != 5 then Err(MalformedFrame)
    else
      var payload := frame.items[4];
      if !payload.JObj? || "status" !in payload.fields || "response" !in payload.fields then Err(BadPayload)
      else Ok(Incoming(frame.items[0], frame.items[1], frame.items[2], frame.items[3],
                       payload.fields["status"], payload.fields["response"]))
  }

  function ArgsOf(m: Incoming): Args
  {
    Args(m.joinRef, m.ref, m.channel, m.event, m.status, m.response)
  }

  /** Decoding a frame this client sends gives back its fields. */
  lemma OutgoingFrameDecodes(topic: string, event: string, payload: map<string, Json>)
    ensures var r := Decode(OutgoingFrame(topic, event, JObj(payload)));
      if "status" in payload && "response" in payload
      then r == Ok(Incoming(JStr("0"), JStr("0"), JStr(topic), JStr(event), payload["status"], payload["response"]))
      else r == Err(BadPayload)
  {
  }

  predicate IsKeyable(j: Json)
  {
    !j.JArr? && !j.JObj?
  }

  /** The handlers of one event, each invoked once with `args`, in some
      order: the calls name exactly the handlers of `hs`, and there are as
      many calls as handlers, so none is called twice. */
  ghost predicate InvokesEach(calls: seq<Call>, hs: set<Handler>, args: Args)
  {
    && |calls| == |hs|
    && (forall i :: 0 <= i < |calls| ==> calls[i].Invoke? && calls[i].args == args)
    && Invoked(calls) == hs
  }

  ghost function Invoked(calls: seq<Call>): set<Handler>
  {
    set i | 0 <= i < |calls| && calls[i].Invoke? :: calls[i].handler
  }

  /** An event nobody registered for invokes nothing. */
  lemma NoHandlersNoCalls(calls: seq<Call>, args: Args)
    requires InvokesEach(calls, {}, args)
    ensures calls == []
  {
  }

  lemma InvokedAppend(calls: seq<Call>, h: Handler, args: Args)
    ensures Invoked(calls + [Invoke(h, args)]) == Invoked(calls) + {h}
  {
    var longer := calls + [Invoke(h, args)];
    assert longer[|calls|] == Invoke(h, args);
    forall x | x in Invoked(calls)
      ensures x in Invoked(longer)
    {
      var i :| 0 <= i < |calls| && calls[i].Invoke? && calls[i].handler == x;
      assert longer[i] == calls[i];
    }
  }

  /** Invoke every handler of `hs`, one at a time (a Python set has no fixed order). */
  method InvokeAll(hs: set<Handler>, args: Args) returns (calls: seq<Call>)
    ensures InvokesEach(calls, hs, args)
  {
    calls := [];
    var remaining := hs;
    while remaining != {}
      invariant remaining <= hs
      invariant Invoked(calls) == hs - remaining
      invariant |calls| + |remaining| == |hs|
      invariant forall i :: 0 <= i < |calls| ==> calls[i].Invoke? && calls[i].args == args
      decreases remaining
    {
      var h :| h in remaining;
      InvokedAppend(calls, h, args);
      calls := calls + [Invoke(h, args)];
      remaining := remaining - {h};
    }
  }

  // ------------------------------------------------------------ channel and client

  class Channel {
    const connection: Jet1090Client
    const topic: string
    var handlers: Registry
    var joinRef: nat
    var ref: nat

    constructor (connection: Jet1090Client, topic: string)
      ensures this.connection == connection && this.topic == topic
      ensures handlers == map[] && joinRef == 0 && ref == 0
    {
      this.connection := connection;
      this.topic := topic;
      handlers := map[];
      joinRef := 0;
      ref := 0;
    }

    method OnEvent(event: string, fn: Handler) returns (self: Channel)
      modifies this`handlers
      ensures handlers == Register(old(handlers), event, fn)
      ensures self == this
    {
      if event !in handlers {
        handlers := handlers[event := {}];
      }
      handlers := handlers[event := handlers[event] + {fn}];
      self := this;
    }

    method OffEvent(event: string, fn: Handler) returns (r: Result<Channel, KeyError>)
      modifies this`handlers
      ensures r.Err? <==> Unregister(old(handlers), event, fn).Err?
      ensures r.Ok? ==> r.value == this && handlers == Unregister(old(handlers), event, fn).value
      ensures r.Err? ==> handlers == old(handlers)
    {
      if event !in handlers || fn !in handlers[event] {
        return Err(KeyError);
      }
      handlers := handlers[event := handlers[event] - {fn}];
      r := Ok(this);
    }

    /** `send` and `send_async`: write the frame, then count it; `join_ref`
        also counts joins. A failed write raises before either counter moves. */
    method Send(event: string, payload: Json) returns (r: Result<Channel, SendError>)
      modifies this`joinRef, this`ref, connection`sent
      ensures old(connection.open) ==>
        && r == Ok(this)
        && connection.sent == old(connection.sent) + [OutgoingFrame(topic, event, payload)]
        && ref == old(ref) + 1
        && joinRef == old(joinRef) + (if event == "phx_join" then 1 else 0)
      ensures !old(connection.open) ==>
        r == Err(NotConnected) && connection.sent == old(connection.sent) && ref == old(ref) && joinRef == old(joinRef)
    {
      var message := OutgoingFrame(topic, event, payload);
      var delivered := connection.Send(message);
      if !delivered {
        return Err(NotConnected);
      }
      if event == "phx_join" {
        joinRef := joinRef + 1;
      }
      ref := ref + 1;
      r := Ok(this);
    }

    method Join() returns (r: Result<Channel, SendError>)
      modifies this`joinRef, this`ref, connection`sent
      ensures old(connection.open) ==>
        r == Ok(this) && ref == old(ref) + 1 && joinRef == old(joinRef) + 1
        && connection.sent == old(connection.sent) + [OutgoingFrame(topic, "phx_join", JObj(map[]))]
      ensures !old(connection.open) ==>
        r == Err(NotConnected) && connection.sent == old(connection.sent) && ref == old(ref) && joinRef == old(joinRef)
    {
      r := Send("phx_join", JObj(map[]));
    }

    /** `run_event_handler`: a reply runs the "join" handlers and then
        `on_join` (the `for ... else` has no `break`); any other event runs
        exactly its own handlers. */
    method RunEventHandler(event: Json, args: Args) returns (r: Result<seq<Call>, DispatchError>)
      ensures event == JStr("phx_reply") ==>
        r.Ok? && |r.value| >= 1 && r.value[|r.value| - 1] == OnJoin(args)
        && InvokesEach(r.value[..|r.value| - 1], HandlersFor(handlers, "join"), args)
      ensures event != JStr("phx_reply") && !IsKeyable(event) ==> r == Err(Unhashable)
      ensures event != JStr("phx_reply") && IsKeyable(event) ==>
        r.Ok? && InvokesEach(r.value, if event.JStr? then HandlersFor(handlers, event.s) else {}, args)
    {
      if event == JStr("phx_reply") {
        var calls := InvokeAll(HandlersFor(handlers, "join"), args);
        assert (calls + [OnJoin(args)])[..|calls|] == calls;
        return Ok(calls + [OnJoin(args)]);
      }
      if !IsKeyable(event) {
        return Err(Unhashable);
      }
      var hs := if event.JStr? then HandlersFor(handlers, event.s) else {};
      var calls := InvokeAll(hs, args);
      r := Ok(calls);
    }
  }

  class Jet1090Client {
    var channels: map<string, Channel>
    var open: bool
    var sent: seq<Json>

    constructor ()
      ensures channels == map[] && !open && sent == []
    {
      channels := map[];
      open := false;
      sent := [];
    }

    /** The state change of a successful `async_connect`. */
    method Connect()
      modifies this`open
      ensures open
    {
      open := true;
    }

    /** `send`: write one frame to the open websocket. */
    method Send(message: Json) returns (delivered: bool)
      modifies this`sent
      ensures delivered == open
      ensures sent == if open then old(sent) + [message] else old(sent)
    {
      delivered := open;
      if open {
        sent := sent + [message];
      }
    }

    /** `add_channel`: a new channel under that name, replacing any previous one. */
    method AddChannel(name: string) returns (ch: Channel)
      modifies this`channels
      ensures fresh(ch)
      ensures ch.connection == this && ch.topic == name
      ensures ch.handlers == map[] && ch.joinRef == 0 && ch.ref == 0
      ensures channels == old(channels)[name := ch]
    {
      ch := new Channel(this, name);
      channels := channels[name := ch];
    }

    /** The exception one frame raises in `_dispatch`, if any: a frame that
        does not unpack or lacks status and response, a channel that cannot
        be a dictionary key, or, on a known channel, an event that cannot. */
    function FrameError(frame: Json): (e: Option<DispatchError>)
      reads this
      ensures Decode(frame).Err? ==> e == Some(Decode(frame).error)
      ensures Decode(frame).Ok? ==> e.None? || e == Some(Unhashable)
    {
      var d := Decode(frame);
      if d.Err? then Some(d.error)
      else if !IsKeyable(d.value.channel) then Some(Unhashable)
      else if !(d.value.channel.JStr? && d.value.channel.s in channels) then None
      else if d.value.event != JStr("phx_reply") && !IsKeyable(d.value.event) then Some(Unhashable)
      else None
    }

    /** The calls a frame that raises nothing makes: none on an unknown
        channel, the join handlers and then `on_join` for a `phx_reply`,
        and each handler of its event otherwise. */
    ghost predicate Routed(frame: Json, calls: seq<Call>)
      reads this, channels.Values
    {
      var d := Decode(frame);
      d.Ok? &&
      var m := d.value;
      if !(m.channel.JStr? && m.channel.s in channels) then calls == []
      else if m.event == JStr("phx_reply") then
        |calls| >= 1 && calls[|calls| - 1] == OnJoin(ArgsOf(m))
        && InvokesEach(calls[..|calls| - 1], HandlersFor(channels[m.channel.s].handlers, "join"), ArgsOf(m))
      else InvokesEach(calls, if m.event.JStr? then HandlersFor(channels[m.channel.s].handlers, m.event.s) else {}, ArgsOf(m))
    }

    /** The body of the `_dispatch` loop for one frame: decode it, look its
        channel up, skip it when the channel is unknown, otherwise hand it
        to that channel. */
    method DispatchOne(frame: Json) returns (r: Result<seq<Call>, DispatchError>)
      ensures r.Err? <==> FrameError(frame).Some?
      ensures r.Err? ==> Some(r.error) == FrameError(frame)
      ensures r.Ok? ==> Routed(frame, r.value)
      ensures Decode(frame).Err? ==> r == Err(Decode(frame).error)
      ensures Decode(frame).Ok? && !IsKeyable(Decode(frame).value.channel) ==> r == Err(Unhashable)
      ensures Decode(frame).Ok? ==> var m := Decode(frame).value;
        IsKeyable(m.channel) && !(m.channel.JStr? && m.channel.s in channels) ==> r == Ok([])
      ensures Decode(frame).Ok? ==> var m := Decode(frame).value;
        m.channel.JStr? && m.channel.s in channels && m.event != JStr("phx_reply") && !IsKeyable(m.event) ==> r == Err(Unhashable)
      ensures Decode(frame).Ok? ==> var m := Decode(frame).value;
        m.channel.JStr? && m.channel.s in channels && m.event != JStr("phx_reply") && IsKeyable(m.event) ==>
        r.Ok? && InvokesEach(r.value, if m.event.JStr? then HandlersFor(channels[m.channel.s].handlers, m.event.s) else {}, ArgsOf(m))
      ensures Decode(frame).Ok? ==> var m := Decode(frame).value;
        m.channel.JStr? && m.channel.s in channels && m.event == JStr("phx_reply") ==>
        r.Ok? && |r.value| >= 1 && r.value[|r.value| - 1] == OnJoin(ArgsOf(m))
        && InvokesEach(r.value[..|r.value| - 1], HandlersFor(channels[m.channel.s].handlers, "join"), ArgsOf(m))
    {
      var decoded := Decode(frame);
      if decoded.Err? {
        return Err(decoded.error);
      }
      var m := decoded.value;
      if !IsKeyable(m.channel) {
        return Err(Unhashable);
      }
      if !m.channel.JStr? || m.channel.s !in channels {
        return Ok([]);
      }
      var ch := channels[m.channel.s];
      r := ch.RunEventHandler(m.event, ArgsOf(m));
    }

    /** `_dispatch` over the frames received, in order: the first frame that
        raises ends the `async for`, and no later frame is dispatched. */
    method Dispatch(frames: seq<Json>) returns (handled: seq<seq<Call>>, stopped: Option<DispatchError>)
      ensures |handled| <= |frames|
      ensures forall i :: 0 <= i < |handled| ==> FrameError(frames[i]).None?
      ensures forall i :: 0 <= i < |handled| ==> Routed(frames[i], handled[i])
      ensures stopped.None? ==> |handled| == |frames|
      ensures stopped.Some? ==> |handled| < |frames| && FrameError(frames[|handled|]) == stopped
    {
      handled := [];
      stopped := None;
      var i := 0;
      while i < |frames|
        invariant 0 <= i <= |frames| && |handled| == i
        invariant forall k :: 0 <= k < i ==> FrameError(frames[k]).None?
        invariant forall k :: 0 <= k < i ==> Routed(frames[k], handled[k])
      {
        var r := DispatchOne(frames[i]);
        if r.Err? {
          stopped := Some(r.error);
          return;
        }
        handled := handled + [r.value];
        i := i + 1;
      }
    }
  }

  /** The metaclass's `_instances` cache: one instance per class. */
  class Singleton {
    var instances: map<string, Jet1090Client>

    constructor ()
      ensures instances == map[]
    {
      instances := map[];
    }

    /** `Singleton.__call__`: build the instance on the first call only;
        later calls return the cached one without running `__init__` again. */
    method Call(cls: string) returns (c: Jet1090Client)
      modifies this
      ensures cls in old(instances) ==> c == old(instances)[cls] && instances == old(instances)
      ensures cls !in old(instances) ==>
        fresh(c) && instances == old(instances)[cls := c] && c.channels == map[] && !c.open && c.sent == []
    {
      if cls !in instances {
        var created := new Jet1090Client();
        instances := instances[cls := created];
      }
      c := instances[cls];
    }
  }

  /** Constructing the client twice yields the same object. */
  method ConstructTwice(meta: Singleton, cls: string) returns (first: Jet1090Client, second: Jet1090Client)
    modifies meta
    ensures first == second
    ensures cls in old(meta.instances) ==> first == old(meta.instances)[cls]
  {
    first := meta.Call(cls);
    second := meta.Call(cls);
  }
}
