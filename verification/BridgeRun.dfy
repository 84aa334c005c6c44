/**
 Whole runs of the bridge loop: greeting, daemon frames, wakes that drain the command queue
 into one input batch and the control operations behind it, and every way out of the loop.
 */
module BridgeRun {
  import opened Options
  import opened Interleaving
  import opened Bridge

  /**
   The loop's state: the connection, the browser's latest positive grid proposal, and two
   histories, the commands taken from the queue and the controls answered so far.
   */
  datatype Session = Session(wire: Wire, grid: Option<(nat, nat)>, consumed: seq<Command>, handled: seq<Command>)

  datatype Outcome = Outcome(session: Session, exit: Exit)

  // ---- The loop ----

  /** `Hello` first and once, then the attach info. */
  function Greet(w: Wire): Outcome {
    var w1 := w.Emit(Hello);
    var w2 := if w.WriterOpen() then Informed(w1) else w1;
    Outcome(Session(w2, None, [], []), if w.WriterOpen() && w1.WriterOpen() then Continue else ReturnErr)
  }

  /** One frame from the daemon, read because poll reported it. */
  function OnFrame(b: Session): Outcome {
    var w := b.wire;
    if w.pos >= |w.env.script| then Outcome(b, ReturnErr)
    else
      var next := w.(pos := w.pos + 1);
      match w.env.script[w.pos]
      case Raw(bytes) =>
        if next.WriterOpen() then Outcome(b.(wire := next.Emit(Pty(bytes))), Continue)
        else Outcome(b.(wire := next.(dropped := next.dropped + bytes)), ReturnOk)
      case Control(LeaderNotify(who)) => Inform(b.(wire := next.(leader := who == Some(w.env.clientId))))
      case Control(ModeChange(change)) =>
        if change.None? then Outcome(b.(wire := next), Continue) else Inform(b.(wire := next.(mode := change.value)))
      case Control(_) => Outcome(b.(wire := next), Continue)
      case _ => Outcome(b.(wire := next), ReturnErr)
  }

  function Inform(b: Session): Outcome {
    if b.wire.WriterOpen() then Outcome(b.(wire := Informed(b.wire)), Continue) else Outcome(b, ReturnErr)
  }

  /** Carry out one control command and queue its result. */
  function Carry(b: Session, c: Command): Outcome {
    match c
    case Resize(id, cols, rows) =>
      var r := ResizeOnConnection(b.wire, cols, rows);
      Report(Session(r.wire, if cols > 0 && rows > 0 then Some((cols, rows)) else b.grid, b.consumed, b.handled),
             c, ResizeResult(id, r.error))
    case LeaderRequest(id) =>
      var r := LeaderOnConnection(b.wire, b.grid);
      Report(b.(wire := r.wire), c, LeaderResult(id, r.error))
    case _ => Outcome(b, Continue)
  }

  function Report(b: Session, c: Command, o: Output): Outcome {
    if b.wire.WriterOpen() then Outcome(b.(wire := b.wire.Emit(o), handled := b.handled + [c]), Continue)
    else Outcome(b, ReturnOk)
  }

  function CarryAll(b: Session, controls: seq<Command>): Outcome
    decreases |controls|
  {
    if controls == [] then Outcome(b, Continue)
    else
      var first := Carry(b, controls[0]);
      if !first.exit.Continue? then first else CarryAll(first.session, controls[1..])
  }

  /** One frame for the whole batch; a rejection is only logged, a broken connection ends the bridge. */
  function Offer(b: Session, batch: seq<byte>, outcome: SendOutcome): Outcome {
    if batch == [] then Outcome(b, Continue)
    else
      var w := b.wire.(sent := b.wire.sent + [RawBytes(batch)]);
      Outcome(b.(wire := w), if outcome.Broken? then ReturnErr else Continue)
  }

  /** A wake: drain the queue, offer the input, then the controls in order. */
  function OnWake(b: Session, t: Turn): Outcome {
    var taken := Drained(t.queued);
    var offered := Offer(b.(consumed := b.consumed + taken), Gather(taken, TypedIn), t.batch);
    if !offered.exit.Continue? then offered
    else
      var carried := CarryAll(offered.session, Gather(taken, ControlIn));
      if !carried.exit.Continue? then carried
      else if Shutdown in taken || t.disconnected then Outcome(carried.session, ReturnOk)
      else carried
  }

  function OnTurn(b: Session, t: Turn): Outcome {
    var framed := if t.daemonReady then OnFrame(b) else Outcome(b, Continue);
    if framed.exit.Continue? && t.wake then OnWake(framed.session, t) else framed
  }

  function Run(b: Session, turns: seq<Turn>): Outcome
    decreases |turns|
  {
    if turns == [] then Outcome(b, Continue)
    else
      var first := OnTurn(b, turns[0]);
      if !first.exit.Continue? then first else Run(first.session, turns[1..])
  }

  // ---- The loops of the bridge thread ----

  lemma {:induction false} DrainedIsPrefix(queued: seq<Command>, n: nat)
    requires n <= |queued| && (forall i :: 0 <= i < n ==> !queued[i].Shutdown?)
    requires n < |queued| ==> queued[n].Shutdown?
    ensures Drained(queued) == if n < |queued| then queued[..n + 1] else queued
  {
    if n > 0 {
      DrainedIsPrefix(queued[1..], n - 1);
    }
  }

  /** The `try_recv` loop of a wake. */
  method DrainQueue(t: Turn) returns (batch: seq<byte>, controls: seq<Command>, shutdown: bool)
    ensures batch == Gather(Drained(t.queued), TypedIn)
    ensures controls == Gather(Drained(t.queued), ControlIn)
    ensures shutdown <==> Shutdown in Drained(t.queued) || t.disconnected
  {
    var queued := t.queued;
    batch, controls, shutdown := [], [], t.disconnected;
    var i := 0;
    while i < |queued| && !queued[i].Shutdown?
      invariant 0 <= i <= |queued| && (forall j :: 0 <= j < i ==> !queued[j].Shutdown?)
      invariant batch == Gather(queued[..i], TypedIn) && controls == Gather(queued[..i], ControlIn)
    {
      GatherNext(queued, i, TypedIn);
      GatherNext(queued, i, ControlIn);
      if queued[i].Bytes? {
        batch := batch + queued[i].bytes;
      } else {
        controls := controls + [queued[i]];
      }
      i := i + 1;
    }
    DrainedIsPrefix(queued, i);
    if i < |queued| {
      GatherNext(queued, i, TypedIn);
      GatherNext(queued, i, ControlIn);
      shutdown := true;
      assert Drained(queued)[i].Shutdown?;
    } else {
      assert queued[..i] == queued;
    }
  }

  method CarryControls(b: Session, controls: seq<Command>) returns (r: Outcome)
    ensures r == CarryAll(b, controls)
  {
    var b' := b;
    assert controls[0..] == controls;
    for i := 0 to |controls|
      invariant CarryAll(b', controls[i..]) == CarryAll(b, controls)
    {
      assert controls[i..][1..] == controls[i + 1..];
      var step := Carry(b', controls[i]);
      if !step.exit.Continue? {
        return step;
      }
      b' := step.session;
    }
    return Outcome(b', Continue);
  }

  method Loop(b: Session, turns: seq<Turn>) returns (r: Outcome)
    ensures r == Run(b, turns)
  {
    var b' := b;
    assert turns[0..] == turns;
    for i := 0 to |turns|
      invariant Run(b', turns[i..]) == Run(b, turns)
    {
      assert turns[i..][1..] == turns[i + 1..];
      var t := turns[i];
      if t.daemonReady {
        var framed := OnFrame(b');
        if !framed.exit.Continue? {
          return framed;
        }
        b' := framed.session;
      }
      if t.wake {
        var batch, controls, shutdown := DrainQueue(t);
        var offered := Offer(b'.(consumed := b'.consumed + Drained(t.queued)), batch, t.batch);
        if !offered.exit.Continue? {
          return offered;
        }
        var carried := CarryControls(offered.session, controls);
        if !carried.exit.Continue? {
          return carried;
        }
        b' := carried.session;
        if shutdown {
          return Outcome(b', ReturnOk);
        }
      }
    }
    return Outcome(b', Continue);
  }

  // ---- What every run keeps ----

  ghost predicate Greeted(output: seq<Output>) {
    forall i :: 0 <= i < |output| ==> (output[i].Hello? <==> i == 0)
  }

  ghost predicate ResizesAllowed(sent: seq<Request>) {
    forall i :: 0 <= i < |sent| && sent[i].ResizeTo? ==> sent[i].cols > 0 && sent[i].rows > 0 && sent[i].asLeader
  }

  /**
   PTY bytes are forwarded in order, the batches offered to the daemon are the browser's input
   in order, every result answers the next control, `Hello` is the first frame and the only
   one, and every resize on the wire was positive and sent as leader.
   */
  ghost predicate Kept(b: Session) {
    && b.wire.Streaming([])
    && Gather(b.wire.sent, OfferedOut) == Gather(b.consumed, TypedIn)
    && AllAnswered(Gather(b.wire.output, ResultOut), b.handled)
    && b.wire.output != [] && Greeted(b.wire.output)
    && ResizesAllowed(b.wire.sent)
  }

  /** Between turns nothing that was taken is left unanswered. */
  ghost predicate Settled(b: Session) {
    && Kept(b)
    && b.handled == Gather(b.consumed, ControlIn)
    && b.grid == LatestGrid(b.handled)
  }

  lemma {:induction false} GatherNothing<A, B>(s: seq<A>, f: A -> seq<B>)
    requires forall i :: 0 <= i < |s| ==> f(s[i]) == []
    ensures Gather(s, f) == []
  {
    if s != [] {
      GatherNothing(s[..|s| - 1], f);
    }
  }

  lemma QuietlyKeepsResults(a: seq<Output>, b: seq<Output>)
    requires Quietly(a, b) && a != []
    ensures Gather(b, ResultOut) == Gather(a, ResultOut) && b != []
    ensures Greeted(a) ==> Greeted(b)
  {
    var added := b[|a|..];
    assert b == a + added;
    GatherConcat(a, added, ResultOut);
    GatherNothing(added, ResultOut);
  }

  /** Requests that an operation adds behind the browser's input. */
  ghost predicate Harmless(added: seq<Request>) {
    ResizesAllowed(added) && forall i :: 0 <= i < |added| ==> !added[i].RawBytes?
  }

  lemma OperationKeeps(b: Session, w: Wire, added: seq<Request>, grid: Option<(nat, nat)>)
    requires Kept(b) && w.Streaming([]) && w.sent == b.wire.sent + added && Harmless(added)
    requires Quietly(b.wire.output, w.output)
    ensures Kept(b.(wire := w, grid := grid))
  {
    hide Gather, Wire.Streaming, Quietly;
    QuietlyKeepsResults(b.wire.output, w.output);
    GatherConcat(b.wire.sent, added, OfferedOut);
    GatherNothing(added, OfferedOut);
    assert Gather(b.wire.sent, OfferedOut) + [] == Gather(b.wire.sent, OfferedOut);
  }

  lemma ResizeStreams(w: Wire, cols: nat, rows: nat)
    requires w.Streaming([])
    ensures ResizeOnConnection(w, cols, rows).wire.Streaming([])
  {
    hide Gather, MergedThen, AwaitStatus;
    var w1 := w.Write(ResizeTo(cols, rows, w.leader));
    AwaitStatusStreams(w1.Write(StatusQuery));
  }

  lemma LeaderStreams(w: Wire, grid: Option<(nat, nat)>)
    requires w.Streaming([])
    ensures LeaderOnConnection(w, grid).wire.Streaming([])
  {
    hide Gather, MergedThen, AwaitLeader, ResizeOnConnection;
    AwaitLeaderStreams(w.Write(AskLeader));
    var r := AwaitLeader(w.Write(AskLeader));
    if grid.Some? {
      ResizeStreams(r.wire, grid.value.0, grid.value.1);
    }
  }

  lemma ReportKeeps(b: Session, c: Command, o: Output)
    requires Kept(b) && Answers(o, c)
    ensures var r := Report(b, c, o);
      && Kept(r.session) && r.session == b.(wire := r.session.wire, handled := r.session.handled)
      && r.session.handled == b.handled + (if r.exit.Continue? then [c] else [])
      && (r.exit.Continue? || !r.session.wire.WriterOpen())
  {
    hide Gather, MergedThen;
    GatherSnoc(b.wire.output, o, ResultOut);
    GatherSnoc(b.wire.output, o, PtyOut);
    assert Gather(b.wire.output, PtyOut) + [] == Gather(b.wire.output, PtyOut);
  }

  lemma {:induction false} LatestGridIsPositive(controls: seq<Command>)
    ensures var g := LatestGrid(controls); g.Some? ==> g.value.0 > 0 && g.value.1 > 0
  {
    if controls != [] {
      LatestGridIsPositive(controls[..|controls| - 1]);
    }
  }

  lemma StreamingOf(b: Session)
    requires Kept(b)
    ensures b.wire.Streaming([]) && b.wire.pos <= |b.wire.env.script|
  {
  }

  lemma AllowedWrites(grid: Option<(nat, nat)>, sent: seq<Request>, more: seq<Request>)
    requires grid.Some? ==> grid.value.0 > 0 && grid.value.1 > 0
    requires sent <= more
    requires more <= sent + LeaderWrites(grid)
      || (grid.Some? && more <= sent + [ResizeTo(grid.value.0, grid.value.1, true), StatusQuery])
    ensures more == sent + more[|sent|..] && Harmless(more[|sent|..])
  {
  }

  /** One control more is answered, unless the writer is gone. */
  ghost predicate Carried(b: Session, c: Command, r: Outcome) {
    && Kept(r.session) && r.session.consumed == b.consumed
    && r.session.handled == b.handled + (if r.exit.Continue? then [c] else [])
    && (r.exit.Continue? ==> r.session.grid == LatestGrid(r.session.handled))
    && (r.exit.Continue? || !r.session.wire.WriterOpen())
  }

  lemma ResizeKeeps(b: Session, cols: nat, rows: nat, grid: Option<(nat, nat)>)
    requires Kept(b)
    ensures Kept(b.(wire := ResizeOnConnection(b.wire, cols, rows).wire, grid := grid))
  {
    hide Kept, ResizeOnConnection, Gather, Wire.Streaming;
    StreamingOf(b);
    var w := ResizeOnConnection(b.wire, cols, rows).wire;
    ResizeContract(b.wire, cols, rows);
    ResizeStreams(b.wire, cols, rows);
    WaitedQuietly(b.wire, w);
    if cols > 0 && rows > 0 {
      AllowedWrites(Some((cols, rows)), b.wire.sent, w.sent);
    }
    OperationKeeps(b, w, w.sent[|b.wire.sent|..], grid);
  }

  lemma LeaderKeeps(b: Session)
    requires Kept(b) && (b.grid.Some? ==> b.grid.value.0 > 0 && b.grid.value.1 > 0)
    ensures Kept(b.(wire := LeaderOnConnection(b.wire, b.grid).wire))
  {
    hide Kept, LeaderOnConnection, Gather, Wire.Streaming, LeaderWrites;
    StreamingOf(b);
    var w := LeaderOnConnection(b.wire, b.grid).wire;
    LeaderContract(b.wire, b.grid);
    LeaderStreams(b.wire, b.grid);
    WaitedQuietly(b.wire, w);
    AllowedWrites(b.grid, b.wire.sent, w.sent);
    OperationKeeps(b, w, w.sent[|b.wire.sent|..], b.grid);
  }

  lemma CarryKeeps(b: Session, c: Command)
    requires Kept(b) && b.grid == LatestGrid(b.handled) && (c.Resize? || c.LeaderRequest?)
    ensures Carried(b, c, Carry(b, c))
  {
    hide Kept, Report, ResizeOnConnection, LeaderOnConnection, LatestGrid;
    LatestGridNext(b.handled, c);
    LatestGridIsPositive(b.handled);
    if c.Resize? {
      var r := ResizeOnConnection(b.wire, c.cols, c.rows);
      var grid := if c.cols > 0 && c.rows > 0 then Some((c.cols, c.rows)) else b.grid;
      ResizeKeeps(b, c.cols, c.rows, grid);
      ReportKeeps(b.(wire := r.wire, grid := grid), c, ResizeResult(c.requestId, r.error));
    } else {
      var r := LeaderOnConnection(b.wire, b.grid);
      LeaderKeeps(b);
      ReportKeeps(b.(wire := r.wire), c, LeaderResult(c.requestId, r.error));
    }
  }

  lemma LatestGridNext(controls: seq<Command>, c: Command)
    ensures LatestGrid(controls + [c]) ==
      if c.Resize? && c.cols > 0 && c.rows > 0 then Some((c.cols, c.rows)) else LatestGrid(controls)
  {
    assert (controls + [c])[..|controls|] == controls;
  }

  lemma WaitedQuietly(w: Wire, w': Wire)
    requires Waited(w.(sent := w'.sent), w')
    ensures Quietly(w.output, w'.output)
  {
  }

  lemma {:induction false} CarryAllKeeps(b: Session, controls: seq<Command>)
    requires Kept(b) && b.grid == LatestGrid(b.handled)
    requires forall i :: 0 <= i < |controls| ==> controls[i].Resize? || controls[i].LeaderRequest?
    ensures var r := CarryAll(b, controls);
      && Kept(r.session) && r.session.consumed == b.consumed
      && r.session.handled <= b.handled + controls
      && (r.exit.Continue? || !r.session.wire.WriterOpen())
      && (r.exit.Continue? ==>
            r.session.handled == b.handled + controls && r.session.grid == LatestGrid(r.session.handled))
    decreases |controls|
  {
    hide Kept, Carry, LatestGrid;
    if controls != [] {
      CarryKeeps(b, controls[0]);
      var first := Carry(b, controls[0]);
      if first.exit.Continue? {
        CarryAllKeeps(first.session, controls[1..]);
        assert b.handled + controls == first.session.handled + controls[1..];
      }
    }
  }

  lemma PtyStreams(w: Wire, bytes: seq<byte>)
    requires w.Streaming(bytes)
    ensures (if w.WriterOpen() then w.Emit(Pty(bytes)) else w.(dropped := w.dropped + bytes)).Streaming([])
  {
    hide Gather, MergedThen;
    GatherSnoc(w.output, Pty(bytes), PtyOut);
    ThenSettled(Gather(w.Read(), RawIn), Gather(w.output, PtyOut), w.dropped, bytes);
  }

  lemma OnFrameStreams(b: Session)
    requires b.wire.Streaming([])
    ensures OnFrame(b).session.wire.Streaming([])
  {
    hide Gather, MergedThen, Informed, Wire.Emit;
    var w := b.wire;
    if w.pos < |w.env.script| {
      var next := w.(pos := w.pos + 1);
      NextStreams(w, []);
      assert [] + RawIn(w.env.script[w.pos]) == RawIn(w.env.script[w.pos]);
      match w.env.script[w.pos] {
        case Raw(bytes) => PtyStreams(next, bytes);
        case Control(LeaderNotify(who)) => InformedStreams(next.(leader := who == Some(w.env.clientId)));
        case Control(ModeChange(change)) =>
          if change.Some? {
            InformedStreams(next.(mode := change.value));
          }
        case _ =>
      }
    }
  }

  lemma OnFrameIsQuiet(b: Session)
    ensures var r := OnFrame(b).session;
      r == b.(wire := r.wire) && r.wire.sent == b.wire.sent && Quietly(b.wire.output, r.wire.output)
    ensures OnFrame(b).exit.ReturnOk? ==> !OnFrame(b).session.wire.WriterOpen()
  {
  }

  lemma OnFrameKeeps(b: Session)
    requires Kept(b)
    ensures Kept(OnFrame(b).session) && OnFrame(b).session == b.(wire := OnFrame(b).session.wire)
    ensures OnFrame(b).exit.ReturnOk? ==> !OnFrame(b).session.wire.WriterOpen()
  {
    hide OnFrame, Kept;
    StreamingOf(b);
    OnFrameStreams(b);
    OnFrameIsQuiet(b);
    var w := OnFrame(b).session.wire;
    assert w.sent == b.wire.sent + [];
    OperationKeeps(b, w, [], b.grid);
  }

  lemma {:induction false} GatherControls(s: seq<Command>)
    ensures forall i :: 0 <= i < |Gather(s, ControlIn)| ==>
      Gather(s, ControlIn)[i].Resize? || Gather(s, ControlIn)[i].LeaderRequest?
  {
    if s != [] {
      GatherControls(s[..|s| - 1]);
    }
  }

  lemma OfferKeeps(b: Session, taken: seq<Command>, outcome: SendOutcome)
    requires Kept(b)
    ensures var r := Offer(b.(consumed := b.consumed + taken), Gather(taken, TypedIn), outcome).session;
      Kept(r) && r == b.(consumed := b.consumed + taken, wire := r.wire)
    ensures !Offer(b.(consumed := b.consumed + taken), Gather(taken, TypedIn), outcome).exit.ReturnOk?
  {
    hide Gather;
    GatherConcat(b.consumed, taken, TypedIn);
    GatherSnoc(b.wire.sent, RawBytes(Gather(taken, TypedIn)), OfferedOut);
  }

  lemma OnWakeKeeps(b: Session, t: Turn)
    requires Settled(b)
    ensures var r := OnWake(b, t);
      && Kept(r.session) && r.session.consumed == b.consumed + Drained(t.queued)
      && r.session.handled <= Gather(r.session.consumed, ControlIn)
      && (r.exit.Continue? || (r.exit.ReturnOk? && r.session.wire.WriterOpen()) ==> Settled(r.session))
  {
    hide CarryAll, Drained, Kept, Offer, Gather;
    var taken := Drained(t.queued);
    OfferKeeps(b, taken, t.batch);
    var offered := Offer(b.(consumed := b.consumed + taken), Gather(taken, TypedIn), t.batch);
    GatherConcat(b.consumed, taken, ControlIn);
    GatherControls(taken);
    CarryAllKeeps(offered.session, Gather(taken, ControlIn));
  }

  /** What one turn takes from the queue, if the loop gets that far. */
  function TakenIn(t: Turn): seq<Command> {
    if t.wake then Drained(t.queued) else []
  }

  lemma OnTurnKeeps(b: Session, t: Turn)
    requires Settled(b)
    ensures var r := OnTurn(b, t);
      && Kept(r.session)
      && (r.session.consumed == b.consumed || r.session.consumed == b.consumed + TakenIn(t))
      && r.session.handled <= Gather(r.session.consumed, ControlIn)
      && (r.exit.Continue? ==> r.session.consumed == b.consumed + TakenIn(t))
      && (r.exit.Continue? || (r.exit.ReturnOk? && r.session.wire.WriterOpen()) ==> Settled(r.session))
  {
    hide OnFrame, OnWake, Kept, Gather;
    OnFrameKeeps(b);
    var framed := if t.daemonReady then OnFrame(b) else Outcome(b, Continue);
    if framed.exit.Continue? && t.wake {
      OnWakeKeeps(framed.session, t);
    }
  }

  /**
   From the greeting on, over every run and whatever way it ends: `Kept` holds, the commands
   consumed are the queued ones in order with none left out (up to where the run stopped), and
   the controls answered are a prefix of the consumed ones, all of them unless the run ended in
   an error or the writer went away.
   */
  lemma {:induction false} RunKeeps(b: Session, turns: seq<Turn>)
    requires Settled(b)
    ensures var r := Run(b, turns);
      && Kept(r.session)
      && b.consumed <= r.session.consumed <= b.consumed + Gather(turns, TakenIn)
      && r.session.handled <= Gather(r.session.consumed, ControlIn)
      && (r.exit.Continue? ==> r.session.consumed == b.consumed + Gather(turns, TakenIn))
      && (r.exit.Continue? || (r.exit.ReturnOk? && r.session.wire.WriterOpen()) ==> Settled(r.session))
    decreases |turns|
  {
    hide OnTurn, Kept, Gather, Drained;
    if turns == [] {
      GatherNothing(turns, TakenIn);
    } else {
      OnTurnKeeps(b, turns[0]);
      var first := OnTurn(b, turns[0]);
      GatherCons(turns[0], turns[1..], TakenIn);
      assert turns == [turns[0]] + turns[1..];
      if first.exit.Continue? {
        RunKeeps(first.session, turns[1..]);
      }
    }
  }

  lemma GreetSettles(w: Wire)
    requires w.pos == 0 && w.sent == [] && w.output == [] && w.dropped == []
    ensures var g := Greet(w);
      && (g.exit.Continue? <==> w.env.writerLimit >= 2)
      && Greeted(g.session.wire.output)
      && (g.exit.Continue? ==> Settled(g.session) && g.session.wire.output == [Hello, AttachInfo(w.mode, w.leader)])
  {
    hide Gather;
    var g := Greet(w).session.wire;
    if Greet(w).exit.Continue? {
      assert g.output == [Hello, AttachInfo(w.mode, w.leader)] && g.Read() == [];
      NothingMerged<byte>();
      GatherNothing(g.output, ResultOut);
      GatherNothing(g.output, PtyOut);
      GatherNothing(g.Read(), RawIn);
      GatherNothing(g.sent, OfferedOut);
      GatherNothing(Greet(w).session.consumed, TypedIn);
      GatherNothing(Greet(w).session.consumed, ControlIn);
    }
  }
}
