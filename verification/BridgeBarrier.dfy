/**
 The bridge against a FIFO daemon: what the outstanding count of `Bridge` means for the
 daemon of `ResizeBarrier` at the other end of the connection.
 */
module BridgeBarrier {
  import opened Options
  import opened Bridge
  import opened BridgeRun
  import opened BridgeLoss
  import Daemon = ResizeBarrier

  function AsRequest(r: Request): seq<Daemon.Request> {
    match r
    case ResizeTo(cols, rows, _) => [Daemon.Resize(cols, rows)]
    case StatusQuery => [Daemon.StatusQuery]
    case _ => [Daemon.Plain]
  }

  /** A failed read delivers nothing. */
  function AsDelivery(d: Delivery): seq<Daemon.Delivery> {
    match d
    case Raw(_) => [Daemon.RawData]
    case Control(StatusResponse) => [Daemon.StatusResponse]
    case Control(Error(code)) => [Daemon.Error(Daemon.OtherCode(code))]
    case Control(_) => [Daemon.Notice]
    case _ => []
  }

  /** What was read is the beginning of what such a daemon writes in answer to what was sent. */
  ghost predicate ServedBy(w: Wire, actions: seq<Daemon.Action>) {
    Gather(w.Read(), AsDelivery) <= Daemon.Stream(Gather(w.sent, AsRequest), actions)
  }

  lemma {:induction false} QueriesAgree(sent: seq<Request>)
    ensures Daemon.Queries(Gather(sent, AsRequest)) == |Gather(sent, QueryOut)|
    ensures |Gather(sent, AsRequest)| == |sent|
    ensures sent != [] ==> [Gather(sent, AsRequest)[|sent| - 1]] == AsRequest(sent[|sent| - 1])
  {
    if sent != [] {
      var init := sent[..|sent| - 1];
      QueriesAgree(init);
      Daemon.QueriesConcat(Gather(init, AsRequest), AsRequest(sent[|sent| - 1]));
    }
  }

  lemma {:induction false} RepliesAgree(read: seq<Delivery>)
    ensures Daemon.Responses(Gather(read, AsDelivery)) == |Gather(read, ReplyIn)|
  {
    if read != [] {
      var init := read[..|read| - 1];
      RepliesAgree(init);
      Daemon.ResponsesConcat(Gather(init, AsDelivery), AsDelivery(read[|read| - 1]));
    }
  }

  /** With nothing outstanding and a query as the last write, the daemon has handled every write. */
  lemma NothingOutstandingMeansHandled(w: Wire, actions: seq<Daemon.Action>)
    requires ServedBy(w, actions) && w.Outstanding() <= 0
    requires w.sent != [] && w.sent[|w.sent| - 1].StatusQuery?
    ensures |Daemon.Verdicts(Gather(w.sent, AsRequest), actions)| == |w.sent|
  {
    QueriesAgree(w.sent);
    RepliesAgree(w.Read());
    Daemon.AllAnsweredMeansAllHandled(Gather(w.sent, AsRequest), actions, Gather(w.Read(), AsDelivery));
  }

  /**
   A leader request that reports success, with no status reply outstanding when it starts: if
   the browser ever proposed a positive grid, the last one is the last resize written, and
   whatever its schedule the daemon has handled it.
   */
  lemma LeaderSuccessAppliesLatestGrid(b: Session, c: Command, actions: seq<Daemon.Action>)
    requires Kept(b) && b.grid == LatestGrid(b.handled) && c.LeaderRequest? && b.wire.Outstanding() <= 0
    requires LeaderOnConnection(b.wire, b.grid).error.None? && Carry(b, c).exit.Continue?
    requires ServedBy(Carry(b, c).session.wire, actions)
    ensures var w := Carry(b, c).session.wire;
      && w.leader
      && w.output[|w.output| - 1] == LeaderResult(c.requestId, None)
      && (LatestGrid(b.handled).Some? ==>
            var (cols, rows) := LatestGrid(b.handled).value;
            && |w.sent| >= 2 && w.sent[|w.sent| - 2..] == [ResizeTo(cols, rows, true), StatusQuery]
            && |Daemon.Verdicts(Gather(w.sent, AsRequest), actions)| == |w.sent|)
  {
    hide Kept, LeaderOnConnection, Gather;
    StreamingOf(b);
    LatestGridIsPositive(b.handled);
    LeaderContract(b.wire, b.grid);
    var w := Carry(b, c).session.wire;
    if b.grid.Some? {
      NothingOutstandingMeansHandled(w, actions);
    }
  }

  /** A successful resize with none outstanding before it: the daemon has handled that resize. */
  lemma ResizeSuccessIsHandled(w: Wire, cols: nat, rows: nat, actions: seq<Daemon.Action>)
    requires w.pos <= |w.env.script| && w.Outstanding() <= 0
    requires ResizeOnConnection(w, cols, rows).error.None?
    requires ServedBy(ResizeOnConnection(w, cols, rows).wire, actions)
    ensures var w' := ResizeOnConnection(w, cols, rows).wire;
      && w'.sent == w.sent + [ResizeTo(cols, rows, true), StatusQuery]
      && |Daemon.Verdicts(Gather(w'.sent, AsRequest), actions)| == |w'.sent|
  {
    hide ResizeOnConnection, Gather;
    ResizeCompletes(w, cols, rows);
    NothingOutstandingMeansHandled(ResizeOnConnection(w, cols, rows).wire, actions);
  }

  // ---- The verdict on the resize ----

  lemma {:induction false} UndecidedIsPassedOver(deliveries: seq<Delivery>)
    requires forall i :: 0 <= i < |deliveries| ==> Undecided(deliveries[i])
    ensures var read := Gather(deliveries, AsDelivery);
      |read| == |deliveries| && forall i :: 0 <= i < |read| ==> read[i].Notice? || read[i].RawData?
  {
    if deliveries != [] {
      UndecidedIsPassedOver(deliveries[..|deliveries| - 1]);
    }
  }

  /** What a successful wait read is a barrier. */
  lemma DecidedIsBarrier(w: Wire, r: Result) returns (read: seq<Daemon.Delivery>)
    requires w.pos <= |w.env.script| && r.wire.env == w.env && r.error.None? && Decided(w, r)
    ensures Gather(r.wire.Read(), AsDelivery) == Gather(w.Read(), AsDelivery) + read && Daemon.Barrier(read)
  {
    hide Gather;
    var script, from, last := w.env.script, w.pos, r.wire.pos - 1;
    var quiet := script[from..last];
    UndecidedIsPassedOver(quiet);
    read := Gather(quiet, AsDelivery) + [Daemon.StatusResponse];
    GatherNext(script, last, AsDelivery);
    assert script[..last] == script[..from] + quiet;
    GatherConcat(script[..from], quiet, AsDelivery);
  }

  /**
   Served by `before` until the resize starts and by `before + after` at its end, where the
   daemon cannot handle what is not written yet.
   */
  ghost predicate ServedInTime(w: Wire, w': Wire, before: seq<Daemon.Action>, after: seq<Daemon.Action>) {
    && ServedBy(w, before) && ServedBy(w', before + after)
    && |Daemon.Verdicts(Gather(w'.sent, AsRequest), before)| <= |w.sent|
  }

  /** A successful resize, with no status reply outstanding before it, was accepted by the daemon. */
  lemma ResizeSuccessIsApplied(w: Wire, cols: nat, rows: nat, before: seq<Daemon.Action>, after: seq<Daemon.Action>)
    requires w.pos <= |w.env.script| && w.Outstanding() <= 0
    requires ResizeOnConnection(w, cols, rows).error.None?
    requires ServedInTime(w, ResizeOnConnection(w, cols, rows).wire, before, after)
    ensures var w' := ResizeOnConnection(w, cols, rows).wire;
      var verdicts := Daemon.Verdicts(Gather(w'.sent, AsRequest), before + after);
      && w'.sent == w.sent + [ResizeTo(cols, rows, true), StatusQuery]
      && |verdicts| == |w'.sent| && verdicts[|w.sent|] == None
  {
    hide ResizeOnConnection, Gather, Decided;
    hide Daemon.Verdicts, Daemon.Stream, Daemon.Barrier, Daemon.Queries, Daemon.Responses;
    var r := ResizeOnConnection(w, cols, rows);
    ResizeCompletes(w, cols, rows);
    ResizeContract(w, cols, rows);
    var read := DecidedIsBarrier(w, r);
    QueriesAgree(w.sent);
    RepliesAgree(w.Read());
    RequestsOf(w.sent, cols, rows);
    Daemon.BarrierInMidstream(Gather(w.sent, AsRequest), cols, rows, before, after, Gather(w.Read(), AsDelivery), read);
  }

  lemma RequestsOf(sent: seq<Request>, cols: nat, rows: nat)
    ensures Gather(sent + [ResizeTo(cols, rows, true), StatusQuery], AsRequest)
         == Gather(sent, AsRequest) + [Daemon.Resize(cols, rows), Daemon.StatusQuery]
  {
    hide Gather;
    GatherSnoc(sent, ResizeTo(cols, rows, true), AsRequest);
    GatherSnoc(sent + [ResizeTo(cols, rows, true)], StatusQuery, AsRequest);
    assert sent + [ResizeTo(cols, rows, true), StatusQuery] == sent + [ResizeTo(cols, rows, true)] + [StatusQuery];
  }

  /** The same for the resize of a leader request, from the moment this client was told that it leads. */
  lemma LeaderSuccessIsApplied(w: Wire, grid: (nat, nat), before: seq<Daemon.Action>, after: seq<Daemon.Action>)
    requires w.pos <= |w.env.script| && w.Outstanding() <= 0 && grid.0 > 0 && grid.1 > 0
    requires LeaderOnConnection(w, Some(grid)).error.None?
    requires ServedInTime(AwaitLeader(w.Write(AskLeader)).wire, LeaderOnConnection(w, Some(grid)).wire, before, after)
    ensures var w' := LeaderOnConnection(w, Some(grid)).wire;
      var verdicts := Daemon.Verdicts(Gather(w'.sent, AsRequest), before + after);
      && w'.sent == w.sent + [AskLeader, ResizeTo(grid.0, grid.1, true), StatusQuery]
      && |verdicts| == |w'.sent| && verdicts[|w'.sent| - 2] == None
  {
    hide ResizeOnConnection, AwaitLeader, Gather, ServedInTime;
    var asked := w.Write(AskLeader);
    GatherSnoc(w.sent, AskLeader, QueryOut);
    AwaitLeaderWaits(asked);
    ResizeSuccessIsApplied(AwaitLeader(asked).wire, grid.0, grid.1, before, after);
  }

  // ---- Every run: a status reply is outstanding only after an error ----

  /** No result so far reports an error of the daemon or a failure of the bridge's own. */
  ghost predicate Smooth(output: seq<Output>) {
    forall i :: 0 <= i < |output| && (output[i].ResizeResult? || output[i].LeaderResult?) ==>
      output[i].error.None? || !(output[i].error.value.Internal? || output[i].error.value.FromDaemon?)
  }

  ghost predicate Trustworthy(b: Session) {
    Sane(b) && (Smooth(b.wire.output) ==> b.wire.Outstanding() <= 0)
  }

  lemma SmoothBefore(a: seq<Output>, b: seq<Output>)
    requires a <= b && Smooth(b)
    ensures Smooth(a)
  {
    assert forall i :: 0 <= i < |a| ==> a[i] == b[i];
  }

  lemma CarryKeepsTrust(b: Session, c: Command)
    requires Trustworthy(b) && Carry(b, c).exit.Continue?
    ensures Trustworthy(Carry(b, c).session)
  {
    hide ResizeOnConnection, LeaderOnConnection, LeaderWrites, Gather, Decided;
    CarryIsLater(b, c);
    var output := Carry(b, c).session.wire.output;
    if Smooth(output) {
      SmoothBefore(b.wire.output, output);
      match c {
        case Resize(id, cols, rows) =>
          ResizeContract(b.wire, cols, rows);
          ResizeCompletes(b.wire, cols, rows);
          assert output[|output| - 1] == ResizeResult(id, ResizeOnConnection(b.wire, cols, rows).error);
        case LeaderRequest(id) =>
          LeaderContract(b.wire, b.grid);
          assert output[|output| - 1] == LeaderResult(id, LeaderOnConnection(b.wire, b.grid).error);
        case _ =>
      }
    }
  }

  lemma {:induction false} CarryAllKeepsTrust(b: Session, controls: seq<Command>)
    requires Trustworthy(b) && CarryAll(b, controls).exit.Continue?
    ensures Trustworthy(CarryAll(b, controls).session)
    decreases |controls|
  {
    hide Carry, Trustworthy;
    if controls != [] {
      CarryKeepsTrust(b, controls[0]);
      CarryAllKeepsTrust(Carry(b, controls[0]).session, controls[1..]);
    }
  }

  lemma OnFrameKeepsTrust(b: Session)
    requires Trustworthy(b)
    ensures Trustworthy(OnFrame(b).session)
  {
    hide OnFrame, Gather;
    OnFrameIsLater(b);
    OnFrameIsQuiet(b);
    OnFrameReplies(b);
    if Smooth(OnFrame(b).session.wire.output) {
      SmoothBefore(b.wire.output, OnFrame(b).session.wire.output);
    }
  }

  lemma OnFrameReplies(b: Session)
    requires b.wire.pos <= |b.wire.env.script|
    ensures OnFrame(b).session.wire.Replies() >= b.wire.Replies()
  {
    hide Gather, Informed, Wire.Emit;
    var w := b.wire;
    if w.pos < |w.env.script| {
      GatherNext(w.env.script, w.pos, ReplyIn);
      OnFrameMoves(b);
    }
  }

  lemma OnFrameMoves(b: Session)
    requires b.wire.pos < |b.wire.env.script|
    ensures var w := OnFrame(b).session.wire; w.env == b.wire.env && w.pos == b.wire.pos + 1
  {
  }

  /** The session in which the controls of a turn are carried out, if the turn gets there. */
  function Offered(b: Session, t: Turn): Outcome {
    var framed := if t.daemonReady then OnFrame(b) else Outcome(b, Continue);
    var taken := Drained(t.queued);
    if !framed.exit.Continue? then framed
    else Offer(framed.session.(consumed := framed.session.consumed + taken), Gather(taken, TypedIn), t.batch)
  }

  lemma OfferedKeepsTrust(b: Session, t: Turn)
    requires Trustworthy(b)
    ensures Trustworthy(Offered(b, t).session)
  {
    hide OnFrame, Gather, Drained, Smooth;
    OnFrameKeepsTrust(b);
    var framed := if t.daemonReady then OnFrame(b) else Outcome(b, Continue);
    GatherSnoc(framed.session.wire.sent, RawBytes(Gather(Drained(t.queued), TypedIn)), QueryOut);
  }

  lemma {:induction false} RunKeepsTrust(b: Session, turns: seq<Turn>)
    requires Trustworthy(b) && Run(b, turns).exit.Continue?
    ensures Trustworthy(Run(b, turns).session)
    decreases |turns|
  {
    hide Trustworthy, OnFrame, CarryAll, Gather, Drained;
    if turns != [] {
      var t := turns[0];
      OnFrameKeepsTrust(b);
      if t.wake {
        OfferedKeepsTrust(b, t);
        CarryAllKeepsTrust(Offered(b, t).session, Gather(Drained(t.queued), ControlIn));
      }
      RunKeepsTrust(OnTurn(b, t).session, turns[1..]);
    }
  }

  lemma GreetIsTrustworthy(w: Wire)
    requires Fresh(w)
    ensures Trustworthy(Greet(w).session)
  {
    hide Gather;
    var g := Greet(w).session.wire;
    assert g.Read() == [] && g.sent == [];
    GatherNothing(g.Read(), ReplyIn);
    GatherNothing(g.sent, QueryOut);
  }

  /**
   In every run from the greeting on, at every control command: if no result before it reported
   an error, no status reply is outstanding.
   */
  lemma NothingOutstandingWhileSmooth(w: Wire, turns: seq<Turn>, t: Turn, controls: seq<Command>)
    requires Fresh(w)
    requires Run(Greet(w).session, turns).exit.Continue?
    requires CarryAll(Offered(Run(Greet(w).session, turns).session, t).session, controls).exit.Continue?
    ensures Trustworthy(CarryAll(Offered(Run(Greet(w).session, turns).session, t).session, controls).session)
  {
    hide Run, CarryAll, Offered, Trustworthy;
    GreetIsTrustworthy(w);
    var run := Run(Greet(w).session, turns);
    RunKeepsTrust(Greet(w).session, turns);
    OfferedKeepsTrust(run.session, t);
    CarryAllKeepsTrust(Offered(run.session, t).session, controls);
  }

  /** So there a successful resize is its own barrier: the daemon accepted it. */
  lemma ResizeIsOwnBarrier(b: Session, c: Command, before: seq<Daemon.Action>, after: seq<Daemon.Action>)
    requires Trustworthy(b) && Smooth(b.wire.output) && c.Resize?
    requires ResizeOnConnection(b.wire, c.cols, c.rows).error.None?
    requires ServedInTime(b.wire, ResizeOnConnection(b.wire, c.cols, c.rows).wire, before, after)
    ensures var w := ResizeOnConnection(b.wire, c.cols, c.rows).wire;
      var verdicts := Daemon.Verdicts(Gather(w.sent, AsRequest), before + after);
      && w.sent == b.wire.sent + [ResizeTo(c.cols, c.rows, true), StatusQuery]
      && |verdicts| == |w.sent| && verdicts[|b.wire.sent|] == None
  {
    hide ResizeOnConnection, ServedInTime, Gather, Smooth;
    ResizeSuccessIsApplied(b.wire, c.cols, c.rows, before, after);
  }

  /** And a successful leader request applied the latest grid. */
  lemma LeaderIsOwnBarrier(b: Session, before: seq<Daemon.Action>, after: seq<Daemon.Action>)
    requires Trustworthy(b) && Smooth(b.wire.output) && b.grid.Some?
    requires LeaderOnConnection(b.wire, b.grid).error.None?
    requires var told := AwaitLeader(b.wire.Write(AskLeader)).wire;
      ServedInTime(told, LeaderOnConnection(b.wire, b.grid).wire, before, after)
    ensures var w := LeaderOnConnection(b.wire, b.grid).wire;
      var verdicts := Daemon.Verdicts(Gather(w.sent, AsRequest), before + after);
      && w.sent == b.wire.sent + [AskLeader, ResizeTo(b.grid.value.0, b.grid.value.1, true), StatusQuery]
      && |verdicts| == |w.sent| && verdicts[|w.sent| - 2] == None
  {
    hide LeaderOnConnection, AwaitLeader, ServedInTime, Gather, Smooth;
    LeaderSuccessIsApplied(b.wire, b.grid.value, before, after);
  }
}
