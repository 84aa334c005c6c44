/**
 The blocking bridge thread of a WebSocket attach: one daemon connection on one side, the
 browser's command queue and the writer's output queue on the other. What the daemon will
 deliver, what the queue will hold at each wake and when writing stops working are free
 parameters, so a contract of `Run` speaks about every run of the loop.
 */
module Bridge {
  import opened Options
  import opened Interleaving

  newtype byte = x: int | 0 <= x < 256

  datatype Mode = Ro | Rw

  datatype ControlMessage =
    | LeaderNotify(clientId: Option<nat>)
    | ModeChange(mode: Option<Mode>)
    | StatusResponse
    | Error(code: string)
    | OtherControl

  /** One `recv_frame`; `Garbled` is a control frame that does not decode, `Failed` a timeout or a closed socket. */
  datatype Delivery = Raw(bytes: seq<byte>) | Control(message: ControlMessage) | Garbled | Failed

  datatype Command =
    | Bytes(bytes: seq<byte>)
    | Resize(requestId: nat, cols: nat, rows: nat)
    | LeaderRequest(requestId: nat)
    | Shutdown

  /** A frame written to the daemon; a resize also records the leader flag at that moment. */
  datatype Request =
    | RawBytes(bytes: seq<byte>)
    | ResizeTo(cols: nat, rows: nat, asLeader: bool)
    | StatusQuery
    | AskLeader

  datatype Reason = InvalidRequest | ModeNotLeader | UnsupportedCapability | Internal | FromDaemon(code: string)

  datatype Output =
    | Hello
    | AttachInfo(mode: Mode, leader: bool)
    | Pty(bytes: seq<byte>)
    | ResizeResult(requestId: nat, error: Option<Reason>)
    | LeaderResult(requestId: nat, error: Option<Reason>)

  datatype SendOutcome = Accepted | Rejected | Broken

  /** One iteration of the loop: what poll reported and, for a wake, what the drain will find. */
  datatype Turn = Turn(daemonReady: bool, wake: bool, queued: seq<Command>, disconnected: bool, batch: SendOutcome)

  datatype Exit = Continue | ReturnOk | ReturnErr

  // ---- What a log contains ----

  /** The concatenation of what each entry contributes. */
  function Gather<A, B>(s: seq<A>, f: A -> seq<B>): seq<B> {
    if s == [] then [] else Gather(s[..|s| - 1], f) + f(s[|s| - 1])
  }

  lemma GatherSnoc<A, B>(s: seq<A>, x: A, f: A -> seq<B>)
    ensures Gather(s + [x], f) == Gather(s, f) + f(x)
  {
    assert (s + [x])[..|s|] == s;
  }

  lemma GatherNext<A, B>(s: seq<A>, n: nat, f: A -> seq<B>)
    requires n < |s|
    ensures Gather(s[..n + 1], f) == Gather(s[..n], f) + f(s[n])
  {
    assert s[..n + 1] == s[..n] + [s[n]];
    GatherSnoc(s[..n], s[n], f);
  }

  lemma {:induction false} GatherConcat<A, B>(s: seq<A>, t: seq<A>, f: A -> seq<B>)
    ensures Gather(s + t, f) == Gather(s, f) + Gather(t, f)
  {
    if t == [] {
      assert s + t == s;
    } else {
      var n := |t| - 1;
      assert (s + t)[..|s + t| - 1] == s + t[..n];
      GatherConcat(s, t[..n], f);
    }
  }

  lemma GatherCons<A, B>(x: A, s: seq<A>, f: A -> seq<B>)
    ensures Gather([x] + s, f) == f(x) + Gather(s, f)
  {
    GatherConcat([x], s, f);
    assert Gather([x], f) == f(x) by {
      assert [x][..0] == [];
    }
  }

  function RawIn(d: Delivery): seq<byte> { if d.Raw? then d.bytes else [] }
  function PtyOut(o: Output): seq<byte> { if o.Pty? then o.bytes else [] }
  function TypedIn(c: Command): seq<byte> { if c.Bytes? then c.bytes else [] }
  function OfferedOut(r: Request): seq<byte> { if r.RawBytes? then r.bytes else [] }
  function ControlIn(c: Command): seq<Command> { if c.Resize? || c.LeaderRequest? then [c] else [] }
  function ResultOut(o: Output): seq<Output> { if o.ResizeResult? || o.LeaderResult? then [o] else [] }
  function QueryOut(r: Request): seq<Request> { if r.StatusQuery? then [r] else [] }
  function ReplyIn(d: Delivery): seq<Delivery> { if d == Control(StatusResponse) then [d] else [] }

  /** The result frame answers this very command: same kind, same request id. */
  predicate Answers(o: Output, c: Command) {
    || (o.ResizeResult? && c.Resize? && o.requestId == c.requestId)
    || (o.LeaderResult? && c.LeaderRequest? && o.requestId == c.requestId)
  }

  ghost predicate AllAnswered(results: seq<Output>, controls: seq<Command>) {
    |results| == |controls| && forall i :: 0 <= i < |results| ==> Answers(results[i], controls[i])
  }

  /** The browser's most recent proposal with positive dimensions. */
  function LatestGrid(controls: seq<Command>): Option<(nat, nat)> {
    if controls == [] then None
    else var c := controls[|controls| - 1];
      if c.Resize? && c.cols > 0 && c.rows > 0 then Some((c.cols, c.rows)) else LatestGrid(controls[..|controls| - 1])
  }

  /** The part of the queue one drain consumes: up to and including a shutdown. */
  function Drained(queued: seq<Command>): (r: seq<Command>)
    ensures r <= queued
  {
    if queued == [] then []
    else if queued[0].Shutdown? then [queued[0]]
    else [queued[0]] + Drained(queued[1..])
  }

  /** A delivery that a resize wait passes over. */
  predicate Undecided(d: Delivery) {
    d.Raw? || (d.Control? && !d.message.StatusResponse? && !d.message.Error?)
  }

  /**
   What does not change during a run. `script` is what the daemon will deliver (reading past
   its end fails); sends to the writer queue, and writes to the daemon, fail from a limit on.
   */
  datatype Setting = Setting(clientId: nat, leaderCap: bool, script: seq<Delivery>, writerLimit: nat, sendLimit: nat)

  /**
   The daemon connection together with the writer queue. The functions of the source take
   both by mutable reference; here they are taken and given back. `pos` is how much of the
   script was read, `dropped` collects PTY bytes that were read but could not be forwarded.
   */
  datatype Wire = Wire(
    env: Setting, leader: bool, mode: Mode, pos: nat, sent: seq<Request>, output: seq<Output>, dropped: seq<byte>)
  {
    predicate WriterOpen() { |output| < env.writerLimit }
    function Emit(o: Output): Wire { if WriterOpen() then this.(output := output + [o]) else this }
    predicate Writable() { |sent| < env.sendLimit }
    function Write(r: Request): Wire { if Writable() then this.(sent := sent + [r]) else this }

    ghost function Read(): seq<Delivery> {
      if pos <= |env.script| then env.script[..pos] else env.script
    }

    /**
     The PTY bytes that came in are an in-order merge of those that left and those dropped, and then
     the buffered ones.
     */
    ghost predicate Streaming(buffered: seq<byte>) {
      && pos <= |env.script|
      && MergedThen(Gather(Read(), RawIn), Gather(output, PtyOut), dropped, buffered)
    }

    /** Status replies read so far, and those still to come if the daemon answers every query. */
    ghost function Replies(): nat {
      |Gather(Read(), ReplyIn)|
    }

    ghost function Outstanding(): int {
      |Gather(sent, QueryOut)| - Replies()
    }
  }

  /** `later` only adds PTY output and attach info to `earlier`. */
  ghost predicate Quietly(earlier: seq<Output>, later: seq<Output>) {
    && earlier <= later
    && forall i :: |earlier| <= i < |later| ==> later[i].Pty? || later[i].AttachInfo?
  }

  /** `w'` is `w` after a wait: nothing was written, and only PTY output and attach info were queued. */
  ghost predicate Waited(w: Wire, w': Wire) {
    w'.env == w.env && w'.sent == w.sent && w.pos <= w'.pos <= |w.env.script| && Quietly(w.output, w'.output)
  }

  datatype Received = Received(wire: Wire, raw: seq<byte>, message: Option<ControlMessage>)
  datatype Result = Result(wire: Wire, error: Option<Reason>)
  datatype Progress = More(wire: Wire) | Done(result: Result)

  // ---- The functions of the connection ----

  /** `recv_control`: the next control message; PTY output that comes first is added to the buffer. */
  function Receive(w: Wire, raw: seq<byte>): (r: Received)
    ensures r.wire == w.(pos := r.wire.pos) && w.pos <= r.wire.pos
    ensures r.message.Some? ==>
      w.pos < r.wire.pos <= |w.env.script| && w.env.script[r.wire.pos - 1] == Control(r.message.value)
    ensures r.message.Some? ==> forall i :: w.pos <= i < r.wire.pos - 1 ==> w.env.script[i].Raw?
    decreases |w.env.script| - w.pos
  {
    if w.pos >= |w.env.script| then Received(w, raw, None)
    else
      var next := w.(pos := w.pos + 1);
      match w.env.script[w.pos]
      case Raw(bytes) => Receive(next, raw + bytes)
      case Control(m) => Received(next, raw, Some(m))
      case _ => Received(next, raw, None)
  }

  predicate Forwardable(w: Wire, raw: seq<byte>) {
    raw == [] || w.WriterOpen()
  }

  /** Forward what a wait collected; what cannot be forwarded is lost. */
  function Forward(w: Wire, raw: seq<byte>): Wire {
    if raw == [] then w else if w.WriterOpen() then w.Emit(Pty(raw)) else w.(dropped := w.dropped + raw)
  }

  /** One message of a resize wait: a status reply or an error ends it, anything else is passed over. */
  function StatusStep(w: Wire): (p: Progress)
    ensures p.More? ==> p.wire.env == w.env && w.pos < p.wire.pos <= |w.env.script|
  {
    var Received(w1, raw, message) := Receive(w, []);
    if message.None? then Done(Result(w1.(dropped := w1.dropped + raw), Some(Internal)))
    else if !Forwardable(w1, raw) then Done(Result(Forward(w1, raw), Some(Internal)))
    else
      match message.value
      case StatusResponse => Done(Result(Forward(w1, raw), None))
      case Error(code) => Done(Result(Forward(w1, raw), Some(FromDaemon(code))))
      case _ => More(Forward(w1, raw))
  }

  function AwaitStatus(w: Wire): Result
    decreases |w.env.script| - w.pos
  {
    match StatusStep(w)
    case Done(r) => r
    case More(w') => AwaitStatus(w')
  }

  function ResizeOnConnection(w: Wire, cols: nat, rows: nat): Result {
    if cols == 0 || rows == 0 then Result(w, Some(InvalidRequest))
    else if !w.leader then Result(w, Some(ModeNotLeader))
    else if !w.Writable() then Result(w, Some(Internal))
    else
      var w1 := w.Write(ResizeTo(cols, rows, w.leader));
      if !w1.Writable() then Result(w1, Some(Internal)) else AwaitStatus(w1.Write(StatusQuery))
  }

  function Informed(w: Wire): Wire {
    w.Emit(AttachInfo(w.mode, w.leader))
  }

  /** What a leader wait does with one message: mode and leader changes are followed until this client leads. */
  function LeaderReact(w: Wire, message: ControlMessage): Progress {
    match message
    case ModeChange(change) =>
      if change.None? then More(w)
      else
        var w1 := w.(mode := change.value);
        if !w1.WriterOpen() then Done(Result(w1, Some(Internal))) else More(Informed(w1))
    case LeaderNotify(who) =>
      var w1 := w.(leader := who == Some(w.env.clientId));
      if !w1.WriterOpen() then Done(Result(w1, Some(Internal)))
      else if w1.leader then Done(Result(Informed(w1), None)) else More(Informed(w1))
    case Error(code) => Done(Result(w, Some(FromDaemon(code))))
    case _ => More(w)
  }

  function LeaderStep(w: Wire): (p: Progress)
    ensures p.More? ==> p.wire.env == w.env && w.pos < p.wire.pos <= |w.env.script|
  {
    var Received(w1, raw, message) := Receive(w, []);
    if message.None? then Done(Result(w1.(dropped := w1.dropped + raw), Some(Internal)))
    else if !Forwardable(w1, raw) then Done(Result(Forward(w1, raw), Some(Internal)))
    else LeaderReact(Forward(w1, raw), message.value)
  }

  function AwaitLeader(w: Wire): Result
    decreases |w.env.script| - w.pos
  {
    match LeaderStep(w)
    case Done(r) => r
    case More(w') => AwaitLeader(w')
  }

  function LeaderOnConnection(w: Wire, latestGrid: Option<(nat, nat)>): Result {
    if !w.env.leaderCap then Result(w, Some(UnsupportedCapability))
    else if !w.Writable() then Result(w, Some(Internal))
    else
      var r := AwaitLeader(w.Write(AskLeader));
      if r.error.Some? || latestGrid.None? then r
      else ResizeOnConnection(r.wire, latestGrid.value.0, latestGrid.value.1)
  }

  // ---- The same, as the loops that the bridge thread runs ----

  method RecvControl(w: Wire, raw: seq<byte>) returns (r: Received)
    ensures r == Receive(w, raw)
  {
    var w', buffered := w, raw;
    while w'.pos < |w'.env.script|
      invariant Receive(w', buffered) == Receive(w, raw)
      decreases |w'.env.script| - w'.pos
    {
      var d := w'.env.script[w'.pos];
      w' := w'.(pos := w'.pos + 1);
      match d {
        case Raw(bytes) => buffered := buffered + bytes;
        case Control(m) => return Received(w', buffered, Some(m));
        case _ => return Received(w', buffered, None);
      }
    }
    return Received(w', buffered, None);
  }

  method WaitForStatus(w: Wire) returns (r: Result)
    ensures r == AwaitStatus(w)
  {
    var w' := w;
    while true
      invariant w'.env == w.env && AwaitStatus(w') == AwaitStatus(w)
      decreases |w'.env.script| - w'.pos
    {
      var received := RecvControl(w', []);
      var raw, message := received.raw, received.message;
      w' := received.wire;
      if message.None? {
        return Result(w'.(dropped := w'.dropped + raw), Some(Internal));
      }
      var forwardable := Forwardable(w', raw);
      w' := Forward(w', raw);
      if !forwardable {
        return Result(w', Some(Internal));
      }
      match message.value {
        case StatusResponse => return Result(w', None);
        case Error(code) => return Result(w', Some(FromDaemon(code)));
        case _ =>
      }
    }
  }

  method WaitForLeader(w: Wire) returns (r: Result)
    ensures r == AwaitLeader(w)
  {
    var w' := w;
    while true
      invariant w'.env == w.env && AwaitLeader(w') == AwaitLeader(w)
      decreases |w'.env.script| - w'.pos
    {
      var received := RecvControl(w', []);
      var raw, message := received.raw, received.message;
      w' := received.wire;
      if message.None? {
        return Result(w'.(dropped := w'.dropped + raw), Some(Internal));
      }
      var forwardable := Forwardable(w', raw);
      w' := Forward(w', raw);
      if !forwardable {
        return Result(w', Some(Internal));
      }
      match message.value {
        case ModeChange(change) =>
          if change.Some? {
            w' := w'.(mode := change.value);
            if !w'.WriterOpen() {
              return Result(w', Some(Internal));
            }
            w' := Informed(w');
          }
        case LeaderNotify(who) =>
          w' := w'.(leader := who == Some(w'.env.clientId));
          if !w'.WriterOpen() {
            return Result(w', Some(Internal));
          }
          w' := Informed(w');
          if w'.leader {
            return Result(w', None);
          }
        case Error(code) => return Result(w', Some(FromDaemon(code)));
        case _ =>
      }
    }
  }

  ghost function Reached(p: Progress): Wire {
    if p.More? then p.wire else p.result.wire
  }

  // ---- PTY output is conserved ----

  lemma {:induction false} ReceiveStreams(w: Wire, raw: seq<byte>)
    requires w.Streaming(raw)
    ensures Receive(w, raw).wire.Streaming(Receive(w, raw).raw)
    decreases |w.env.script| - w.pos
  {
    hide Gather, MergedThen;
    if w.pos < |w.env.script| {
      var next, more := w.(pos := w.pos + 1), RawIn(w.env.script[w.pos]);
      NextStreams(w, raw);
      if w.env.script[w.pos].Raw? {
        ReceiveStreams(next, raw + more);
      } else {
        assert raw + more == raw;
      }
    }
  }

  lemma NextStreams(w: Wire, raw: seq<byte>)
    requires w.Streaming(raw) && w.pos < |w.env.script|
    ensures w.(pos := w.pos + 1).Streaming(raw + RawIn(w.env.script[w.pos]))
  {
    hide Gather, MergedThen;
    GatherNext(w.env.script, w.pos, RawIn);
    ThenMore(Gather(w.Read(), RawIn), Gather(w.output, PtyOut), w.dropped, raw, RawIn(w.env.script[w.pos]));
  }

  lemma ForwardStreams(w: Wire, raw: seq<byte>)
    requires w.Streaming(raw)
    ensures Forward(w, raw).Streaming([])
    ensures w.(dropped := w.dropped + raw).Streaming([])
  {
    hide Gather, MergedThen;
    GatherSnoc(w.output, Pty(raw), PtyOut);
    ThenSettled(Gather(w.Read(), RawIn), Gather(w.output, PtyOut), w.dropped, raw);
  }

  lemma InformedStreams(w: Wire)
    requires w.Streaming([])
    ensures Informed(w).Streaming([])
  {
    hide Gather, MergedThen;
    GatherSnoc(w.output, AttachInfo(w.mode, w.leader), PtyOut);
    assert Gather(w.output, PtyOut) + [] == Gather(w.output, PtyOut);
  }

  lemma StatusStepStreams(w: Wire)
    requires w.Streaming([])
    ensures Reached(StatusStep(w)).Streaming([])
  {
    hide Wire.Streaming, Receive, Forward;
    ReceiveStreams(w, []);
    ForwardStreams(Receive(w, []).wire, Receive(w, []).raw);
  }

  lemma LeaderStepStreams(w: Wire)
    requires w.Streaming([])
    ensures Reached(LeaderStep(w)).Streaming([])
  {
    hide Wire.Streaming, Receive, Forward, LeaderReact;
    var Received(w1, raw, message) := Receive(w, []);
    ReceiveStreams(w, []);
    ForwardStreams(w1, raw);
    if message.Some? {
      LeaderReactStreams(Forward(w1, raw), message.value);
    }
  }

  lemma LeaderReactStreams(w: Wire, message: ControlMessage)
    requires w.Streaming([])
    ensures Reached(LeaderReact(w, message)).Streaming([])
  {
    hide Gather, MergedThen, Informed;
    match message {
      case ModeChange(change) =>
        if change.Some? {
          InformedStreams(w.(mode := change.value));
        }
      case LeaderNotify(who) => InformedStreams(w.(leader := who == Some(w.env.clientId)));
      case _ =>
    }
  }

  lemma {:induction false} AwaitStatusStreams(w: Wire)
    requires w.Streaming([])
    ensures AwaitStatus(w).wire.Streaming([])
    decreases |w.env.script| - w.pos
  {
    hide StatusStep, Wire.Streaming;
    StatusStepStreams(w);
    if StatusStep(w).More? {
      AwaitStatusStreams(StatusStep(w).wire);
    }
  }

  lemma {:induction false} AwaitLeaderStreams(w: Wire)
    requires w.Streaming([])
    ensures AwaitLeader(w).wire.Streaming([])
    decreases |w.env.script| - w.pos
  {
    hide LeaderStep, Wire.Streaming;
    LeaderStepStreams(w);
    if LeaderStep(w).More? {
      AwaitLeaderStreams(LeaderStep(w).wire);
    }
  }

  // ---- What a wait leaves behind and what ends it ----

  lemma {:induction false} ReceiveReplies(w: Wire, raw: seq<byte>)
    requires w.pos <= |w.env.script|
    ensures var r := Receive(w, raw);
      && r.wire.pos <= |w.env.script|
      && r.wire.Replies() == w.Replies() + if r.message == Some(StatusResponse) then 1 else 0
    decreases |w.env.script| - w.pos
  {
    if w.pos < |w.env.script| {
      GatherNext(w.env.script, w.pos, ReplyIn);
      if w.env.script[w.pos].Raw? {
        ReceiveReplies(w.(pos := w.pos + 1), raw + w.env.script[w.pos].bytes);
      }
    }
  }

  lemma WaitedTransitive(a: Wire, b: Wire, c: Wire)
    requires Waited(a, b) && Waited(b, c)
    ensures Waited(a, c)
  {
  }

  lemma StatusStepWaits(w: Wire)
    requires w.pos <= |w.env.script|
    ensures var w' := Reached(StatusStep(w)); Waited(w, w') && w'.leader == w.leader && w'.mode == w.mode
  {
    hide Gather, Receive, Forward, Quietly;
    var r := Receive(w, []);
    ReceiveReplies(w, []);
    ForwardWaits(r.wire, r.raw);
    NothingQuietly(w.output);
    WaitedTransitive(w, r.wire, Forward(r.wire, r.raw));
  }

  /** What one message contributes: only a deciding message ends a wait without a failure of its own. */
  lemma StatusStepDecides(w: Wire)
    requires w.pos <= |w.env.script|
    ensures var p := StatusStep(w); var w' := Reached(p);
      p.More? || p.result.error != Some(Internal) ==>
        && w.pos < w'.pos <= |w.env.script| && w'.dropped == w.dropped
        && (forall i :: w.pos <= i < w'.pos - 1 ==> Undecided(w.env.script[i]))
        && w'.Replies() == w.Replies() + (if p.Done? && p.result.error.None? then 1 else 0)
        && (if p.More? then Undecided(w.env.script[w'.pos - 1])
            else if p.result.error.None? then w.env.script[w'.pos - 1] == Control(StatusResponse)
            else
              && p.result.error.value.FromDaemon?
              && w.env.script[w'.pos - 1] == Control(Error(p.result.error.value.code)))
  {
    hide Gather, Receive, Forward, Wire.Replies;
    ReceiveReplies(w, []);
    ForwardWaits(Receive(w, []).wire, Receive(w, []).raw);
  }

  lemma {:induction false} AwaitStatusWaits(w: Wire)
    requires w.pos <= |w.env.script|
    ensures var w' := AwaitStatus(w).wire; Waited(w, w') && w'.leader == w.leader && w'.mode == w.mode
    decreases |w.env.script| - w.pos
  {
    StatusStepWaits(w);
    var p := StatusStep(w);
    if p.More? {
      AwaitStatusWaits(p.wire);
      WaitedTransitive(w, p.wire, AwaitStatus(w).wire);
    }
  }

  /** How a wait may end: at the first deciding message, having lost nothing, or with a failure of its own. */
  ghost predicate Decided(w: Wire, r: Result) {
    r.error == Some(Internal) ||
    (&& (r.error.None? || r.error.value.FromDaemon?)
     && w.pos < r.wire.pos <= |w.env.script| && r.wire.dropped == w.dropped
     && w.env.script[r.wire.pos - 1] == Control(if r.error.None? then StatusResponse else Error(r.error.value.code))
     && (forall i :: w.pos <= i < r.wire.pos - 1 ==> Undecided(w.env.script[i]))
     && r.wire.Replies() == w.Replies() + if r.error.None? then 1 else 0)
  }

  lemma {:induction false} AwaitStatusDecides(w: Wire)
    requires w.pos <= |w.env.script|
    ensures Decided(w, AwaitStatus(w))
    decreases |w.env.script| - w.pos
  {
    hide StatusStep, Wire.Replies;
    StatusStepDecides(w);
    var p := StatusStep(w);
    if p.More? {
      AwaitStatusDecides(p.wire);
    }
  }

  lemma NothingQuietly(output: seq<Output>)
    ensures Quietly(output, output)
  {
  }

  lemma ForwardWaits(w: Wire, raw: seq<byte>)
    requires w.pos <= |w.env.script|
    ensures Waited(w, Forward(w, raw)) && Forward(w, raw).Replies() == w.Replies() && Forward(w, raw).pos == w.pos
    ensures Forward(w, raw).leader == w.leader && Forward(w, raw).mode == w.mode
    ensures Forwardable(w, raw) ==> Forward(w, raw).dropped == w.dropped
  {
  }

  lemma InformedWaits(w: Wire)
    requires w.pos <= |w.env.script|
    ensures Waited(w, Informed(w)) && Informed(w).Replies() == w.Replies() && Informed(w).dropped == w.dropped
  {
  }

  ghost predicate LeaderWaited(w: Wire, p: Progress) {
    && Waited(w, Reached(p)) && Reached(p).Replies() >= w.Replies()
    && (p.More? || p.result.error != Some(Internal) ==> Reached(p).dropped == w.dropped)
    && (p.Done? ==> p.result.error.None? || p.result.error.value.Internal? || p.result.error.value.FromDaemon?)
    && (p.Done? && p.result.error.None? ==> p.result.wire.leader)
  }

  lemma LeaderReactWaits(w: Wire, message: ControlMessage)
    requires w.pos <= |w.env.script|
    ensures LeaderWaited(w, LeaderReact(w, message))
  {
    match message {
      case ModeChange(change) =>
        if change.Some? {
          InformedWaits(w.(mode := change.value));
        }
      case LeaderNotify(who) => InformedWaits(w.(leader := who == Some(w.env.clientId)));
      case _ =>
    }
  }

  lemma LeaderStepWaits(w: Wire)
    requires w.pos <= |w.env.script|
    ensures LeaderWaited(w, LeaderStep(w))
  {
    var Received(w1, raw, message) := Receive(w, []);
    ReceiveReplies(w, []);
    ForwardWaits(w1, raw);
    var w2 := Forward(w1, raw);
    WaitedTransitive(w, w1, w2);
    if message.Some? && Forwardable(w1, raw) {
      LeaderReactWaits(w2, message.value);
      WaitedTransitive(w, w2, Reached(LeaderStep(w)));
    }
  }

  lemma {:induction false} AwaitLeaderWaits(w: Wire)
    requires w.pos <= |w.env.script|
    ensures var r := AwaitLeader(w);
      && Waited(w, r.wire) && r.wire.Replies() >= w.Replies()
      && (r.error.None? ==> r.wire.leader)
      && (r.error != Some(Internal) ==> r.wire.dropped == w.dropped)
      && (r.error.None? || r.error.value.Internal? || r.error.value.FromDaemon?)
    decreases |w.env.script| - w.pos
  {
    LeaderStepWaits(w);
    var p := LeaderStep(w);
    if p.More? {
      AwaitLeaderWaits(p.wire);
      WaitedTransitive(w, p.wire, AwaitLeader(w).wire);
    }
  }

  // ---- What the two operations promise ----

  /** A resize is written only with positive dimensions and while the leader flag is set. */
  lemma ResizeContract(w: Wire, cols: nat, rows: nat)
    requires w.pos <= |w.env.script|
    ensures var r := ResizeOnConnection(w, cols, rows);
      && (r.error == Some(InvalidRequest) <==> cols == 0 || rows == 0)
      && (r.error == Some(ModeNotLeader) <==> cols > 0 && rows > 0 && !w.leader)
      && r.error != Some(UnsupportedCapability)
      && (cols == 0 || rows == 0 || !w.leader ==> r.wire == w)
      && w.sent <= r.wire.sent <= w.sent + [ResizeTo(cols, rows, true), StatusQuery]
      && Waited(w.(sent := r.wire.sent), r.wire)
      && r.wire.leader == w.leader && r.wire.mode == w.mode
      && (r.error != Some(Internal) ==> r.wire.dropped == w.dropped)
  {
    hide Gather, AwaitStatus, Quietly;
    NothingQuietly(w.output);
    var w1 := w.Write(ResizeTo(cols, rows, w.leader));
    if cols > 0 && rows > 0 && w.leader && w.Writable() && w1.Writable() {
      AwaitStatusWaits(w1.Write(StatusQuery));
      AwaitStatusDecides(w1.Write(StatusQuery));
      assert w1.Write(StatusQuery).sent == w.sent + [ResizeTo(cols, rows, true), StatusQuery];
    }
  }

  /**
   Success of a resize means that it and its query were written and that the wait ended at a
   status reply with no error before it. The number of outstanding replies is then what it was
   before, so the reply read is this resize's own exactly if none was outstanding; an error
   from the daemon leaves one more outstanding.
   */
  lemma ResizeCompletes(w: Wire, cols: nat, rows: nat)
    requires w.pos <= |w.env.script|
    ensures var r := ResizeOnConnection(w, cols, rows);
      r.error.None? || r.error.value.FromDaemon? ==>
        && r.wire.sent == w.sent + [ResizeTo(cols, rows, true), StatusQuery]
        && Decided(w, r)
        && r.wire.Outstanding() == w.Outstanding() + if r.error.None? then 0 else 1
  {
    hide Gather, AwaitStatus, Quietly;
    var w1 := w.Write(ResizeTo(cols, rows, w.leader));
    if cols > 0 && rows > 0 && w.leader && w.Writable() && w1.Writable() {
      var w2 := w1.Write(StatusQuery);
      AwaitStatusDecides(w2);
      AwaitStatusWaits(w2);
      GatherSnoc(w.sent, ResizeTo(cols, rows, true), QueryOut);
      GatherSnoc(w1.sent, StatusQuery, QueryOut);
      assert w2.sent == w.sent + [ResizeTo(cols, rows, true), StatusQuery];
    }
  }

  /** The writes of a leader request that reaches the resize. */
  function LeaderWrites(grid: Option<(nat, nat)>): seq<Request> {
    [AskLeader] + if grid.None? then [] else [ResizeTo(grid.value.0, grid.value.1, true), StatusQuery]
  }

  /**
   A successful leader request means that this client leads and that the browser's latest
   grid, if it ever proposed one, was the last resize written. With no status reply
   outstanding at entry, none is outstanding at the end: that resize was passed by its reply.
   */
  lemma LeaderContract(w: Wire, grid: Option<(nat, nat)>)
    requires w.pos <= |w.env.script|
    requires grid.Some? ==> grid.value.0 > 0 && grid.value.1 > 0
    ensures var r := LeaderOnConnection(w, grid);
      && (r.error == Some(UnsupportedCapability) <==> !w.env.leaderCap)
      && (!w.env.leaderCap ==> r.wire == w)
      && (r.error.Some? ==>
            r.error.value.UnsupportedCapability? || r.error.value.Internal? || r.error.value.FromDaemon?)
      && (r.error != Some(Internal) ==> r.wire.dropped == w.dropped)
      && w.sent <= r.wire.sent <= w.sent + LeaderWrites(grid)
      && Waited(w.(sent := r.wire.sent), r.wire)
      && (r.error.None? ==>
            && r.wire.leader
            && r.wire.sent == w.sent + LeaderWrites(grid)
            && r.wire.Outstanding() <= w.Outstanding())
  {
    hide Gather, AwaitLeader, ResizeOnConnection, Quietly;
    NothingQuietly(w.output);
    if w.env.leaderCap && w.Writable() {
      var w1 := w.Write(AskLeader);
      GatherSnoc(w.sent, AskLeader, QueryOut);
      AwaitLeaderWaits(w1);
      var r := AwaitLeader(w1);
      if r.error.None? && grid.Some? {
        var (cols, rows) := grid.value;
        ResizeContract(r.wire, cols, rows);
        ResizeCompletes(r.wire, cols, rows);
        var w2 := ResizeOnConnection(r.wire, cols, rows).wire;
        WaitedTransitive(w.(sent := w2.sent), r.wire.(sent := w2.sent), w2);
        assert w.sent + [AskLeader] + [ResizeTo(cols, rows, true), StatusQuery] == w.sent + LeaderWrites(grid);
      }
    }
  }
}
