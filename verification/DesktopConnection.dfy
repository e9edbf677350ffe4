/**
 The desktop coordination socket: length-prefixed JSON messages cut into arbitrary chunks,
 reassembled and handled in order until the stream is malformed or an answer does not fit.
 */
module DesktopConnection {
  import opened Basics
  import opened ByteOrder

  const MAX_FRAME_BYTES := 8 * 1024 * 1024

  datatype Message =
    | DiscoveryRequest(requestId: string)
    | DiscoveryResponse(requestId: string)
    | Request(requestId: string, body: string)
    | Response(requestId: string, verb: Option<string>, success: bool, handledBy: Option<string>, body: string)
    | Other(body: string)

  /** What the connection uses of JSON. */
  datatype Codec = Codec(render: Message -> seq<Byte>, parse: seq<Byte> -> Option<Message>)

  ghost predicate Faithful(c: Codec) {
    forall m :: c.parse(c.render(m)) == Some(m) && c.render(m) != []
  }

  datatype Pending = Pending(verb: string, target: Option<string>)

  /** The fields of the connection, what it wrote, how its calls settled, all its calls, and the messages it handled. */
  datatype State = State(buffered: seq<Byte>, pending: map<string, Pending>, closed: bool, output: seq<Byte>,
                         resolved: seq<(string, Message)>, rejected: set<string>,
                         calls: map<string, Pending>, handled: seq<Message>)

  function Init(): State {
    State([], map[], false, [], [], {}, map[], [])
  }

  // ---------------------------------------------------------------------------
  // Frames
  // ---------------------------------------------------------------------------

  predicate Fits(c: Codec, m: Message) {
    |c.render(m)| <= MAX_FRAME_BYTES
  }

  function FrameOf(c: Codec, m: Message): seq<Byte>
    requires Fits(c, m)
  {
    LittleEndian(|c.render(m)|, 4) + c.render(m)
  }

  // ---------------------------------------------------------------------------
  // Handling
  // ---------------------------------------------------------------------------

  function Close(s: State): State {
    if s.closed then s
    else s.(closed := true, buffered := [], pending := map[], rejected := s.rejected + s.pending.Keys)
  }

  function Send(c: Codec, s: State, m: Message): State {
    if Fits(c, m) then s.(output := s.output + FrameOf(c, m)) else Close(s)
  }

  /** A response that names another verb, or was handled by another client than asked, breaks the connection. */
  predicate Misfits(p: Pending, m: Message)
    requires m.Response?
  {
    || (m.verb.Some? && m.verb.value != p.verb)
    || (m.success && p.target.Some? && p.target != Some("") && m.handledBy != p.target)
  }

  function Handle(c: Codec, s0: State, m: Message): State {
    var s := s0.(handled := s0.handled + [m]);
    match m
    case DiscoveryRequest(id) => Send(c, s, DiscoveryResponse(id))
    case Request(id, _) => Send(c, s, Response(id, None, false, None, "no-handler-for-request"))
    case Response(id, _, _, _, _) =>
      if id !in s.pending then s
      else if Misfits(s.pending[id], m) then Close(s)
      else s.(pending := s.pending - {id}, resolved := s.resolved + [(id, m)])
    case DiscoveryResponse(_) => s
    case Other(_) => s
  }

  /** Consumes complete frames; a malformed one throws, and the caller closes. */
  function Drain(c: Codec, s: State): State
    decreases |s.buffered|
  {
    if |s.buffered| < 4 then s
    else
      var size := FromLittleEndian(s.buffered[..4]);
      if size == 0 || size > MAX_FRAME_BYTES then Close(s)
      else if |s.buffered| < size + 4 then s
      else
        match c.parse(s.buffered[4..size + 4])
        case None => Close(s)
        case Some(m) =>
          HandleShrinks(c, s.(buffered := s.buffered[size + 4..]), m);
          Drain(c, Handle(c, s.(buffered := s.buffered[size + 4..]), m))
  }

  lemma {:induction false} HandleShrinks(c: Codec, s: State, m: Message)
    ensures |Handle(c, s, m).buffered| <= |s.buffered|
  {
  }

  /** A chunk arrives. A destroyed socket delivers nothing. */
  function Receive(c: Codec, s: State, chunk: seq<Byte>): State {
    if s.closed then s else Drain(c, s.(buffered := s.buffered + chunk))
  }

  // ---------------------------------------------------------------------------
  // Calls
  // ---------------------------------------------------------------------------

  /** A call waits for its response once its request is written. Call ids are random and do not repeat. */
  function StartCall(c: Codec, s: State, id: string, p: Pending, body: string): State {
    var t := s.(calls := s.calls[id := p]);
    if s.closed then t.(rejected := s.rejected + {id})
    else Send(c, t.(pending := s.pending[id := p]), Request(id, body))
  }

  function ExpireCall(s: State, id: string): State {
    if id in s.pending then s.(pending := s.pending - {id}, rejected := s.rejected + {id}) else s
  }

  // ---------------------------------------------------------------------------
  // The connection object
  // ---------------------------------------------------------------------------

  class Connection {
    const codec: Codec
    var buffered: seq<Byte>
    var pending: map<string, Pending>
    var closed: bool
    var output: seq<Byte>
    var resolved: seq<(string, Message)>
    var rejected: set<string>
    ghost var calls: map<string, Pending>
    ghost var handled: seq<Message>

    ghost function View(): State
      reads this
    {
      State(buffered, pending, closed, output, resolved, rejected, calls, handled)
    }

    constructor (codec: Codec)
      ensures this.codec == codec && View() == Init()
    {
      this.codec := codec;
      buffered, pending, closed, output, resolved, rejected, calls, handled := [], map[], false, [], [], {}, map[], [];
    }

    method Shut()
      modifies this
      ensures View() == Close(old(View()))
    {
      if closed { return; }
      closed := true;
      buffered := [];
      rejected := rejected + pending.Keys;
      pending := map[];
    }

    method Write(m: Message)
      modifies this
      ensures View() == Send(codec, old(View()), m)
    {
      var body := codec.render(m);
      if |body| > MAX_FRAME_BYTES {
        Shut();
      } else {
        output := output + (LittleEndian(|body|, 4) + body);
      }
    }

    method BeginCall(id: string, verb: string, target: Option<string>, body: string)
      modifies this
      ensures View() == StartCall(codec, old(View()), id, Pending(verb, target), body)
    {
      hide Send;
      calls := calls[id := Pending(verb, target)];
      if closed {
        rejected := rejected + {id};
      } else {
        pending := pending[id := Pending(verb, target)];
        Write(Request(id, body));
      }
    }

    method CallTimesOut(id: string)
      modifies this
      ensures View() == ExpireCall(old(View()), id)
    {
      if id in pending { pending, rejected := pending - {id}, rejected + {id}; }
    }

    method HandleMessage(m: Message)
      modifies this
      ensures View() == Handle(codec, old(View()), m)
    {
      hide Close, Send;
      handled := handled + [m];
      match m
      case DiscoveryRequest(id) => Write(DiscoveryResponse(id));
      case Request(id, _) => Write(Response(id, None, false, None, "no-handler-for-request"));
      case Response(id, _, _, _, _) =>
        if id in pending {
          if Misfits(pending[id], m) {
            Shut();
          } else {
            pending, resolved := pending - {id}, resolved + [(id, m)];
          }
        }
      case DiscoveryResponse(_) =>
      case Other(_) =>
    }

    method ReceiveChunk(chunk: seq<Byte>)
      modifies this
      ensures View() == Receive(codec, old(View()), chunk)
    {
      hide Handle, Close, FromLittleEndian;
      if closed { return; }
      buffered := buffered + chunk;
      ghost var start := View();
      while |buffered| >= 4
        invariant Drain(codec, View()) == Drain(codec, start)
        decreases |buffered|
      {
        var size := FromLittleEndian(buffered[..4]);
        if size == 0 || size > MAX_FRAME_BYTES { Shut(); return; }
        if |buffered| < size + 4 { return; }
        var message := codec.parse(buffered[4..size + 4]);
        if message.None? { Shut(); return; }
        buffered := buffered[size + 4..];
        HandleShrinks(codec, View(), message.value);
        HandleMessage(message.value);
      }
    }
  }

  // ---------------------------------------------------------------------------
  // Chunks do not matter
  // ---------------------------------------------------------------------------

  /** Handling does not look at what is still buffered; closing drops it. */
  lemma {:induction false} HandleIgnoresBuffer(c: Codec, s: State, m: Message, b: seq<Byte>)
    requires !s.closed
    ensures var t, u := Handle(c, s, m), Handle(c, s.(buffered := b), m);
      && t.closed == u.closed
      && (t.closed ==> t == u && t.buffered == [])
      && (!t.closed ==> u == t.(buffered := b) && t.buffered == s.buffered)
  {
  }

  /** Draining early and going on with more bytes is draining once, after them. */
  lemma {:induction false} DrainLater(c: Codec, s: State, more: seq<Byte>)
    requires !s.closed
    ensures Receive(c, Drain(c, s), more) == Drain(c, s.(buffered := s.buffered + more))
    decreases |s.buffered|
  {
    hide Handle, FromLittleEndian;
    var b := s.buffered;
    if |b| >= 4 {
      var size := FromLittleEndian(b[..4]);
      assert (b + more)[..4] == b[..4];
      if 0 < size <= MAX_FRAME_BYTES && |b| >= size + 4 {
        assert (b + more)[4..size + 4] == b[4..size + 4];
        assert (b + more)[size + 4..] == b[size + 4..] + more;
        var parsed := c.parse(b[4..size + 4]);
        if parsed.Some? {
          var rest := s.(buffered := b[size + 4..]);
          HandleShrinks(c, rest, parsed.value);
          HandleIgnoresBuffer(c, rest, parsed.value, b[size + 4..] + more);
          var t := Handle(c, rest, parsed.value);
          if !t.closed { DrainLater(c, t, more); }
        }
      }
    }
  }

  function ReceiveAll(c: Codec, s: State, chunks: seq<seq<Byte>>): State
    decreases |chunks|
  {
    if chunks == [] then s else ReceiveAll(c, Receive(c, s, chunks[0]), chunks[1..])
  }

  function Joined(chunks: seq<seq<Byte>>): seq<Byte> {
    if chunks == [] then [] else chunks[0] + Joined(chunks[1..])
  }

  lemma {:induction false} ChunksJoin(c: Codec, s: State, chunks: seq<seq<Byte>>)
    requires Receive(c, s, []) == s
    ensures ReceiveAll(c, s, chunks) == Receive(c, s, Joined(chunks))
    decreases |chunks|
  {
    if chunks != [] {
      var t := Receive(c, s, chunks[0]);
      TwoChunks(c, s, chunks[0], []);
      assert chunks[0] + [] == chunks[0];
      ChunksJoin(c, t, chunks[1..]);
      TwoChunks(c, s, chunks[0], Joined(chunks[1..]));
    }
  }

  lemma {:induction false} TwoChunks(c: Codec, s: State, a: seq<Byte>, b: seq<Byte>)
    ensures Receive(c, Receive(c, s, a), b) == Receive(c, s, a + b)
  {
    hide Drain;
    if !s.closed {
      DrainLater(c, s.(buffered := s.buffered + a), b);
      assert s.buffered + a + b == s.buffered + (a + b);
    }
  }

  /**
   From an idle connection the messages handled, the answers written, the calls settled and
   the point at which it closes depend on the bytes that arrived and not on how they were cut.
   */
  lemma {:induction false} ChunksDoNotMatter(c: Codec, s: State, chunks: seq<seq<Byte>>, chunks': seq<seq<Byte>>)
    requires s.buffered == [] && Joined(chunks) == Joined(chunks')
    ensures ReceiveAll(c, s, chunks) == ReceiveAll(c, s, chunks') == Receive(c, s, Joined(chunks))
  {
    assert s.(buffered := s.buffered + []) == s;
    ChunksJoin(c, s, chunks);
    ChunksJoin(c, s, chunks');
  }

  // ---------------------------------------------------------------------------
  // What one side sends is what the other handles
  // ---------------------------------------------------------------------------

  function Frames(c: Codec, messages: seq<Message>): seq<Byte>
    requires forall i :: 0 <= i < |messages| ==> Fits(c, messages[i])
  {
    if messages == [] then [] else assert Fits(c, messages[0]); FrameOf(c, messages[0]) + Frames(c, messages[1..])
  }

  /** Handling messages one by one, up to one that closes the connection. */
  function HandleAll(c: Codec, s: State, messages: seq<Message>): State
    decreases |messages|
  {
    if messages == [] || s.closed then s else HandleAll(c, Handle(c, s, messages[0]), messages[1..])
  }

  lemma {:induction false} DrainFrame(c: Codec, s: State, m: Message, rest: seq<Byte>)
    requires Faithful(c) && Fits(c, m) && s.buffered == FrameOf(c, m) + rest
    ensures Drain(c, s) == Drain(c, Handle(c, s.(buffered := rest), m))
  {
    hide Handle, LittleEndian, FromLittleEndian, Pow256;
    var body := c.render(m);
    var size := |body|;
    PowersOf256();
    LittleEndianReadsBack(size, 4);
    assert s.buffered[..4] == LittleEndian(size, 4);
    assert s.buffered[4..size + 4] == body && s.buffered[size + 4..] == rest;
  }

  /** The frames of any messages within the size bound are handled as those messages, in order. */
  lemma {:induction false} SentIsHandled(c: Codec, s: State, messages: seq<Message>)
    requires Faithful(c) && !s.closed && s.buffered == []
    requires forall i :: 0 <= i < |messages| ==> Fits(c, messages[i])
    ensures Receive(c, s, Frames(c, messages)) == HandleAll(c, s, messages)
    decreases |messages|
  {
    var bytes := Frames(c, messages);
    assert s.buffered + bytes == bytes;
    if messages != [] {
      hide Drain, Handle, FrameOf;
      assert Fits(c, messages[0]);
      var rest := Frames(c, messages[1..]);
      DrainFrame(c, s.(buffered := bytes), messages[0], rest);
      HandleIgnoresBuffer(c, s, messages[0], rest);
      var t := Handle(c, s, messages[0]);
      if t.closed {
        DrainOfLittle(c, t);
      } else {
        SentIsHandled(c, t, messages[1..]);
        assert t.buffered + rest == rest;
      }
    }
  }

  lemma {:induction false} DrainOfLittle(c: Codec, s: State)
    requires |s.buffered| < 4
    ensures Drain(c, s) == s
  {
  }

  lemma {:induction false} HandledInOrder(c: Codec, s: State, messages: seq<Message>)
    requires !HandleAll(c, s, messages).closed
    ensures HandleAll(c, s, messages).handled == s.handled + messages
    decreases |messages|
  {
    if messages != [] {
      HandledInOrder(c, Handle(c, s, messages[0]), messages[1..]);
      assert s.handled + [messages[0]] + messages[1..] == s.handled + messages;
    } else {
      assert s.handled + [] == s.handled;
    }
  }

  // ---------------------------------------------------------------------------
  // Calls settle once
  // ---------------------------------------------------------------------------

  datatype Event =
    | Calls(id: string, call: Pending, body: string)
    | Arrives(chunk: seq<Byte>)
    | TimesOut(id: string)
    | Closes

  function Next(c: Codec, s: State, e: Event): State {
    match e
    case Calls(id, p, body) => if id in s.calls then s else StartCall(c, s, id, p, body)
    case Arrives(chunk) => Receive(c, s, chunk)
    case TimesOut(id) => ExpireCall(s, id)
    case Closes => Close(s)
  }

  function Run(c: Codec, events: seq<Event>): State {
    if events == [] then Init() else Next(c, Run(c, events[..|events| - 1]), events[|events| - 1])
  }

  function ResolvedIds(resolved: seq<(string, Message)>): set<string> {
    set r | r in resolved :: r.0
  }

  /** A response that answers this call and does not break the connection. */
  predicate Answers(calls: map<string, Pending>, id: string, m: Message) {
    id in calls && m.Response? && m.requestId == id && !Misfits(calls[id], m)
  }

  /** Every call waits, or was resolved once by a fitting response, or was rejected; after a close none waits. */
  ghost predicate CallsOk(s: State) {
    && (forall id :: id in s.pending ==> id in s.calls && s.calls[id] == s.pending[id])
    && (forall id :: id in s.calls <==> id in s.pending || id in s.rejected || id in ResolvedIds(s.resolved))
    && (forall id :: id in s.pending ==> id !in s.rejected && id !in ResolvedIds(s.resolved))
    && (forall id :: id in s.rejected ==> id !in ResolvedIds(s.resolved))
    && (forall i, j :: 0 <= i < j < |s.resolved| ==> s.resolved[i].0 != s.resolved[j].0)
    && (forall i :: 0 <= i < |s.resolved| ==> Answers(s.calls, s.resolved[i].0, s.resolved[i].1))
    && (s.closed ==> s.pending == map[] && s.buffered == [])
  }

  /** What is settled stays settled in the same way. */
  ghost predicate Settles(s: State, t: State) {
    s.resolved <= t.resolved && s.rejected <= t.rejected && (s.closed ==> t.closed)
  }

  lemma {:induction false} CloseKeepsCalls(s: State)
    requires CallsOk(s)
    ensures CallsOk(Close(s)) && Settles(s, Close(s))
  {
    hide Answers;
  }

  lemma {:induction false} OneMoreResolved(resolved: seq<(string, Message)>, id: string, m: Message)
    ensures ResolvedIds(resolved + [(id, m)]) == ResolvedIds(resolved) + {id}
  {
    var t := resolved + [(id, m)];
    assert t[|resolved|] == (id, m);
    assert forall r :: r in t <==> r in resolved || r == (id, m);
  }

  lemma {:induction false} ResolvingKeepsCalls(s: State, id: string, m: Message)
    requires CallsOk(s) && !s.closed && id in s.pending && m.Response? && m.requestId == id
      && !Misfits(s.pending[id], m)
    ensures var t := s.(pending := s.pending - {id}, resolved := s.resolved + [(id, m)]); CallsOk(t) && Settles(s, t)
  {
    OneMoreResolved(s.resolved, id, m);
    forall i | 0 <= i < |s.resolved| ensures s.resolved[i].0 in ResolvedIds(s.resolved) {
      assert s.resolved[i] in s.resolved;
    }
    hide ResolvedIds;
  }

  /** What is buffered, written or handled does not matter to the calls. */
  lemma {:induction false} SameCalls(s: State, t: State)
    requires CallsOk(s) && !s.closed && t == s.(buffered := t.buffered, output := t.output, handled := t.handled)
    ensures CallsOk(t) && Settles(s, t)
  {
  }

  lemma {:induction false} HandleKeepsCalls(c: Codec, s: State, m: Message)
    requires CallsOk(s) && !s.closed
    ensures CallsOk(Handle(c, s, m)) && Settles(s, Handle(c, s, m))
  {
    hide CallsOk, FrameOf, Fits, Misfits;
    var t := s.(handled := s.handled + [m]);
    SameCalls(s, t);
    CloseKeepsCalls(t);
    if m.Response? && m.requestId in s.pending && !Misfits(s.pending[m.requestId], m) {
      ResolvingKeepsCalls(t, m.requestId, m);
    } else if Handle(c, s, m).closed == s.closed {
      SameCalls(s, Handle(c, s, m));
    }
  }

  lemma {:induction false} DrainKeepsCalls(c: Codec, s: State)
    requires CallsOk(s) && !s.closed
    ensures CallsOk(Drain(c, s)) && Settles(s, Drain(c, s))
    decreases |s.buffered|
  {
    hide Handle, Close, FromLittleEndian;
    CloseKeepsCalls(s);
    if |s.buffered| >= 4 {
      var size := FromLittleEndian(s.buffered[..4]);
      if 0 < size <= MAX_FRAME_BYTES && |s.buffered| >= size + 4 {
        var parsed := c.parse(s.buffered[4..size + 4]);
        if parsed.Some? {
          var rest := s.(buffered := s.buffered[size + 4..]);
          hide CallsOk;
          assert CallsOk(rest) by { SameCalls(s, rest); }
          HandleShrinks(c, rest, parsed.value);
          HandleKeepsCalls(c, rest, parsed.value);
          var t := Handle(c, rest, parsed.value);
          if t.closed {
            ClosedIsDrained(c, t);
          } else {
            DrainKeepsCalls(c, t);
          }
        }
      }
    }
  }

  lemma {:induction false} ClosedIsDrained(c: Codec, s: State)
    requires CallsOk(s) && s.closed
    ensures Drain(c, s) == s
  {
  }

  lemma {:induction false} NewCallIsOk(s: State, id: string, p: Pending)
    requires CallsOk(s) && id !in s.calls
    ensures var t := s.(calls := s.calls[id := p]);
      var u := if s.closed then t.(rejected := s.rejected + {id}) else t.(pending := s.pending[id := p]);
      CallsOk(u) && Settles(s, u)
  {
    hide ResolvedIds;
  }

  lemma {:induction false} CallKeepsCalls(c: Codec, s: State, id: string, p: Pending, body: string)
    requires CallsOk(s) && id !in s.calls
    ensures CallsOk(StartCall(c, s, id, p, body)) && Settles(s, StartCall(c, s, id, p, body))
  {
    hide CallsOk, Close, FrameOf, Fits;
    NewCallIsOk(s, id, p);
    if !s.closed {
      var t := s.(calls := s.calls[id := p], pending := s.pending[id := p]);
      CloseKeepsCalls(t);
      if Fits(c, Request(id, body)) { SameCalls(t, StartCall(c, s, id, p, body)); }
    }
  }

  lemma {:induction false} ExpiryKeepsCalls(s: State, id: string)
    requires CallsOk(s)
    ensures CallsOk(ExpireCall(s, id)) && Settles(s, ExpireCall(s, id))
  {
    hide ResolvedIds, Answers;
  }

  lemma {:induction false} NextKeepsCalls(c: Codec, s: State, e: Event)
    requires CallsOk(s)
    ensures CallsOk(Next(c, s, e)) && Settles(s, Next(c, s, e))
  {
    hide CallsOk, StartCall, ExpireCall, Close, Drain;
    match e
    case Calls(id, p, body) => if id !in s.calls { CallKeepsCalls(c, s, id, p, body); }
    case TimesOut(id) => ExpiryKeepsCalls(s, id);
    case Closes => CloseKeepsCalls(s);
    case Arrives(chunk) =>
      if !s.closed {
        SameCalls(s, s.(buffered := s.buffered + chunk));
        DrainKeepsCalls(c, s.(buffered := s.buffered + chunk));
      }
  }

  lemma {:induction false} NothingCalled()
    ensures CallsOk(Init())
  {
  }

  /**
   Over every run of calls, chunks, timeouts and closes, every call waits, or was resolved
   exactly once by a response that fits it, or was rejected, and never more than one of
   these; after a close none waits; and a settled call stays as it was settled.
   */
  lemma {:induction false} CallsSettleOnce(c: Codec, events: seq<Event>, e: Event)
    ensures CallsOk(Run(c, events)) && Settles(Run(c, events), Next(c, Run(c, events), e))
  {
    hide CallsOk, Next, Settles;
    if events == [] {
      NothingCalled();
    } else {
      CallsSettleOnce(c, events[..|events| - 1], events[|events| - 1]);
      NextKeepsCalls(c, Run(c, events[..|events| - 1]), events[|events| - 1]);
    }
    NextKeepsCalls(c, Run(c, events), e);
  }

  lemma {:induction false} RunSteps(c: Codec, events: seq<Event>, e: Event)
    ensures Run(c, []) == State([], map[], false, [], [], {}, map[], [])
    ensures Run(c, events + [e]) == Next(c, Run(c, events), e)
  {
    assert (events + [e])[..|events|] == events;
  }

  // ---------------------------------------------------------------------------
  // What is answered, and what closes the connection
  // ---------------------------------------------------------------------------

  /** A close rejects every waiting call, drops the buffer, and happens once. */
  lemma {:induction false} CloseRejectsAll(s: State)
    ensures s.closed ==> Close(s) == s
    ensures !s.closed ==>
      Close(s) == State([], map[], true, s.output, s.resolved, s.rejected + s.pending.Keys, s.calls, s.handled)
  {
  }

  /**
   A waiting call takes a response that names its method or none, and, when it reports success
   for a call with a target, was handled by that target. Any other response closes the connection.
   */
  lemma {:induction false} ResponseSettlesOrCloses(c: Codec, s: State, m: Message)
    requires !s.closed && m.Response? && m.requestId in s.pending
    ensures var p := s.pending[m.requestId];
      var t := Handle(c, s, m);
      var isOwnMethod := m.verb == None || m.verb == Some(p.verb);
      var isOwnTarget := !m.success || p.target == None || p.target == Some("") || m.handledBy == p.target;
      if isOwnMethod && isOwnTarget then
        && !t.closed && t.pending == s.pending - {m.requestId} && t.resolved == s.resolved + [(m.requestId, m)]
        && t.rejected == s.rejected && t.output == s.output
      else
        t.closed && t.pending == map[] && t.resolved == s.resolved && t.rejected == s.rejected + s.pending.Keys
  {
  }

  /** The answer to a message, if it has one: this client handles nothing. */
  function AnswerTo(m: Message): seq<Message> {
    if m.DiscoveryRequest? then [DiscoveryResponse(m.requestId)]
    else if m.Request? then [Response(m.requestId, None, false, None, "no-handler-for-request")]
    else []
  }

  function AnswersTo(messages: seq<Message>): seq<Message> {
    if messages == [] then [] else AnswerTo(messages[0]) + AnswersTo(messages[1..])
  }

  lemma {:induction false} FramesOfConcat(c: Codec, a: seq<Message>, b: seq<Message>)
    requires forall i :: 0 <= i < |a + b| ==> Fits(c, (a + b)[i])
    ensures forall i :: 0 <= i < |a| ==> Fits(c, a[i])
    ensures forall i :: 0 <= i < |b| ==> Fits(c, b[i])
    ensures Frames(c, a + b) == Frames(c, a) + Frames(c, b)
    decreases |a|
  {
    hide Fits, FrameOf;
    assert forall i :: 0 <= i < |a| ==> (a + b)[i] == a[i];
    assert forall i :: 0 <= i < |b| ==> (a + b)[|a| + i] == b[i];
    if a == [] {
      assert a + b == b;
    } else {
      assert (a + b)[1..] == a[1..] + b;
      FramesOfConcat(c, a[1..], b);
    }
  }

  lemma {:induction false} AnswerIsWritten(c: Codec, s: State, m: Message)
    requires !s.closed && !Handle(c, s, m).closed
    ensures forall i :: 0 <= i < |AnswerTo(m)| ==> Fits(c, AnswerTo(m)[i])
    ensures Handle(c, s, m).output == s.output + Frames(c, AnswerTo(m))
  {
    hide Fits, FrameOf;
    var a := AnswerTo(m);
    if a != [] {
      assert Frames(c, a[1..]) == [];
      assert Frames(c, a) == FrameOf(c, a[0]);
    } else {
      assert Frames(c, a) == [];
    }
  }

  /** A connection that stays open has answered every request it handled, in order, and written nothing else. */
  lemma {:induction false} AnsweredInOrder(c: Codec, s: State, messages: seq<Message>)
    requires !HandleAll(c, s, messages).closed
    ensures forall i :: 0 <= i < |AnswersTo(messages)| ==> Fits(c, AnswersTo(messages)[i])
    ensures HandleAll(c, s, messages).output == s.output + Frames(c, AnswersTo(messages))
    decreases |messages|
  {
    hide Handle, Fits, FrameOf, AnswerTo;
    if messages != [] {
      var t := Handle(c, s, messages[0]);
      AnsweredInOrder(c, t, messages[1..]);
      ClosedStays(c, t, messages[1..]);
      AnswerIsWritten(c, s, messages[0]);
      var a, b := AnswerTo(messages[0]), AnswersTo(messages[1..]);
      assert forall i :: 0 <= i < |a + b| ==> (a + b)[i] == if i < |a| then a[i] else b[i - |a|];
      FramesOfConcat(c, a, b);
    }
  }

  lemma {:induction false} ClosedStays(c: Codec, s: State, messages: seq<Message>)
    ensures s.closed ==> HandleAll(c, s, messages) == s
  {
  }

  /** A message of at most 8 MiB is written behind its length in four bytes; a longer one closes the connection. */
  lemma {:induction false} SentIsFramed(c: Codec, s: State, m: Message)
    ensures var body := c.render(m);
      if |body| <= 8_388_608 then
        && Send(c, s, m) == s.(output := Send(c, s, m).output)
        && Send(c, s, m).output == s.output + LittleEndian(|body|, 4) + body
      else Send(c, s, m) == Close(s)
  {
    var body := c.render(m);
    assert s.output + (LittleEndian(|body|, 4) + body) == s.output + LittleEndian(|body|, 4) + body;
  }

  /** A call on a closed connection is rejected; otherwise it waits, and its request is sent. */
  lemma {:induction false} CallStarts(c: Codec, s: State, id: string, p: Pending, body: string)
    requires id !in s.calls
    ensures var t := Next(c, s, Calls(id, p, body));
      && t.calls == s.calls[id := p]
      && (s.closed ==> t.rejected == s.rejected + {id} && t.pending == s.pending && t.output == s.output)
      && (!s.closed && |c.render(Request(id, body))| <= 8_388_608 ==>
            && !t.closed && t.pending == s.pending[id := p] && t.rejected == s.rejected
            && t.output == s.output + LittleEndian(|c.render(Request(id, body))|, 4) + c.render(Request(id, body)))
      && (!s.closed && |c.render(Request(id, body))| > 8_388_608 ==>
            t.closed && t.rejected == s.rejected + s.pending.Keys + {id})
  {
    hide Fits, Send, FrameOf;
    var t := s.(calls := s.calls[id := p], pending := s.pending[id := p]);
    SentIsFramed(c, t, Request(id, body));
  }

  /** A timeout rejects its call if it still waits, and does nothing else. */
  lemma {:induction false} TimeoutRejects(c: Codec, s: State, id: string)
    ensures Next(c, s, TimesOut(id)) ==
      if id in s.pending then s.(pending := s.pending - {id}, rejected := s.rejected + {id}) else s
  {
  }

  /** The length that the first four buffered bytes announce. */
  function Announced(b: seq<Byte>): nat
    requires |b| >= 4
  {
    b[0] as nat + 0x100 * b[1] as nat + 0x1_0000 * b[2] as nat + 0x100_0000 * b[3] as nat
  }

  lemma {:induction false} FourBytes(b: seq<Byte>)
    requires |b| == 4
    ensures FromLittleEndian(b) == Announced(b)
  {
    assert b[1..][1..] == b[2..] && b[2..][1..] == b[3..] && b[3..][1..] == [];
    assert FromLittleEndian(b[3..]) == b[3] as nat;
    assert FromLittleEndian(b[2..]) == b[2] as nat + 256 * FromLittleEndian(b[3..]);
    assert FromLittleEndian(b[1..]) == b[1] as nat + 256 * FromLittleEndian(b[2..]);
  }

  /** What a chunk does first: it waits for a whole frame, closes at a malformed one, or has one handled. */
  lemma {:induction false} ArrivalIs(c: Codec, s: State, chunk: seq<Byte>)
    requires !s.closed
    ensures var b := s.buffered + chunk;
      var t := Next(c, s, Arrives(chunk));
      if |b| < 4 then t == s.(buffered := b)
      else if Announced(b) == 0 || Announced(b) > 8_388_608 then t == Close(s)
      else if |b| < Announced(b) + 4 then t == s.(buffered := b)
      else
        var parsed := c.parse(b[4..Announced(b) + 4]);
        if parsed == None then t == Close(s)
        else
          var u := Handle(c, s.(buffered := b[Announced(b) + 4..]), parsed.value);
          t == if u.closed then u else Next(c, u, Arrives([]))
  {
    hide Handle, FromLittleEndian;
    var b := s.buffered + chunk;
    if |b| >= 4 {
      FourBytes(b[..4]);
      var size := Announced(b);
      if 0 < size <= MAX_FRAME_BYTES && |b| >= size + 4 && c.parse(b[4..size + 4]).Some? {
        var rest := s.(buffered := b[size + 4..]);
        HandleIgnoresBuffer(c, rest, c.parse(b[4..size + 4]).value, []);
        var u := Handle(c, rest, c.parse(b[4..size + 4]).value);
        assert u.buffered + [] == u.buffered;
        if u.closed { DrainOfLittle(c, u); }
      }
    }
  }
}
