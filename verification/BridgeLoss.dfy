/**
 What PTY output a run loses: exactly what a wait had collected since its last control
 message when reading failed, and nothing else while the writer is there.
 */
module BridgeLoss {
  import opened Options
  import opened Interleaving
  import opened Bridge
  import opened BridgeRun

  /** A wait: where it starts to read, and for a leader wait the client that must be told it leads. */
  datatype Wait = Wait(pos: nat, leader: Option<nat>)

  predicate Ends(message: ControlMessage, leader: Option<nat>) {
    message.Error? || (if leader.None? then message.StatusResponse? else message == LeaderNotify(leader))
  }

  /**
   In terms of what the daemon delivers: the PTY bytes directly before the failure that a wait runs
   into, if it does.
   */
  function Lost(script: seq<Delivery>, wait: Wait, raw: seq<byte>): seq<byte>
    decreases |script| - wait.pos
  {
    if wait.pos >= |script| then raw
    else
      var next := wait.(pos := wait.pos + 1);
      match script[wait.pos]
      case Raw(bytes) => Lost(script, next, raw + bytes)
      case Control(m) => if Ends(m, wait.leader) then [] else Lost(script, next, [])
      case _ => raw
  }

  function LostBy(script: seq<Delivery>, waits: seq<Wait>): seq<byte> {
    if waits == [] then [] else Lost(script, waits[0], []) + LostBy(script, waits[1..])
  }

  // ---- The waits of a run ----

  function ResizeWaits(w: Wire, cols: nat, rows: nat): seq<Wait> {
    if cols > 0 && rows > 0 && w.leader && w.Writable() && w.Write(ResizeTo(cols, rows, w.leader)).Writable()
    then [Wait(w.pos, None)] else []
  }

  function LeaderWaits(w: Wire, grid: Option<(nat, nat)>): seq<Wait> {
    if !w.env.leaderCap || !w.Writable() then []
    else
      var r := AwaitLeader(w.Write(AskLeader));
      [Wait(w.pos, Some(w.env.clientId))]
      + if r.error.None? && grid.Some? then ResizeWaits(r.wire, grid.value.0, grid.value.1) else []
  }

  function CarryWaits(b: Session, c: Command): seq<Wait> {
    match c
    case Resize(_, cols, rows) => ResizeWaits(b.wire, cols, rows)
    case LeaderRequest(_) => LeaderWaits(b.wire, b.grid)
    case _ => []
  }

  function CarryAllWaits(b: Session, controls: seq<Command>): seq<Wait>
    decreases |controls|
  {
    if controls == [] then []
    else
      var first := Carry(b, controls[0]);
      CarryWaits(b, controls[0]) + if first.exit.Continue? then CarryAllWaits(first.session, controls[1..]) else []
  }

  function TurnWaits(b: Session, t: Turn): seq<Wait> {
    var framed := if t.daemonReady then OnFrame(b) else Outcome(b, Continue);
    if !framed.exit.Continue? || !t.wake then []
    else
      var taken := Drained(t.queued);
      var took := framed.session.(consumed := framed.session.consumed + taken);
      var offered := Offer(took, Gather(taken, TypedIn), t.batch);
      if offered.exit.Continue? then CarryAllWaits(offered.session, Gather(taken, ControlIn)) else []
  }

  function RunWaits(b: Session, turns: seq<Turn>): seq<Wait>
    decreases |turns|
  {
    if turns == [] then []
    else
      var first := OnTurn(b, turns[0]);
      TurnWaits(b, turns[0]) + if first.exit.Continue? then RunWaits(first.session, turns[1..]) else []
  }

  // ---- What one wait loses ----

  lemma {:induction false} ReceiveLoses(w: Wire, raw: seq<byte>, leader: Option<nat>)
    ensures var r := Receive(w, raw);
      Lost(w.env.script, Wait(w.pos, leader), raw) ==
        if r.message.None? then r.raw
        else if Ends(r.message.value, leader) then []
        else Lost(w.env.script, Wait(r.wire.pos, leader), [])
    decreases |w.env.script| - w.pos
  {
    if w.pos < |w.env.script| && w.env.script[w.pos].Raw? {
      ReceiveLoses(w.(pos := w.pos + 1), raw + w.env.script[w.pos].bytes, leader);
    }
  }

  /** The writer was open before if it is open after. */
  lemma OpenBefore(w: Wire, w': Wire)
    requires w'.env == w.env && w.output <= w'.output && w'.WriterOpen()
    ensures w.WriterOpen()
  {
  }

  lemma {:induction false} AwaitStatusLoses(w: Wire)
    requires w.pos <= |w.env.script| && AwaitStatus(w).wire.WriterOpen()
    ensures AwaitStatus(w).wire.dropped == w.dropped + Lost(w.env.script, Wait(w.pos, None), [])
    decreases |w.env.script| - w.pos
  {
    hide Receive, Lost, Wire.Emit;
    var r := Receive(w, []);
    ReceiveLoses(w, [], None);
    AwaitStatusWaits(w);
    OpenBefore(w, AwaitStatus(w).wire);
    ForwardLoses(r.wire, r.raw);
    var p := StatusStep(w);
    if p.More? {
      AwaitStatusLoses(p.wire);
    } else {
      assert w.dropped + [] == w.dropped;
    }
  }

  lemma ForwardLoses(w: Wire, raw: seq<byte>)
    requires w.WriterOpen()
    ensures Forwardable(w, raw)
    ensures var w' := Forward(w, raw);
      w'.dropped == w.dropped && w'.env == w.env && w'.pos == w.pos && w.output <= w'.output
  {
  }

  lemma LeaderReactLoses(w: Wire, message: ControlMessage)
    requires Reached(LeaderReact(w, message)).WriterOpen()
    ensures var p := LeaderReact(w, message);
      && Reached(p).dropped == w.dropped && Reached(p).env == w.env && Reached(p).pos == w.pos
      && (p.Done? <==> Ends(message, Some(w.env.clientId)))
  {
  }

  lemma {:induction false} AwaitLeaderLoses(w: Wire)
    requires w.pos <= |w.env.script| && AwaitLeader(w).wire.WriterOpen()
    ensures AwaitLeader(w).wire.dropped == w.dropped + Lost(w.env.script, Wait(w.pos, Some(w.env.clientId)), [])
    decreases |w.env.script| - w.pos
  {
    hide Receive, Lost, Wire.Emit, Forward, LeaderReact, Ends;
    var r := Receive(w, []);
    ReceiveLoses(w, [], Some(w.env.clientId));
    AwaitLeaderWaits(w);
    OpenBefore(w, AwaitLeader(w).wire);
    ForwardLoses(r.wire, r.raw);
    var p := LeaderStep(w);
    if p.More? {
      AwaitLeaderWaits(p.wire);
      OpenBefore(p.wire, AwaitLeader(w).wire);
      LeaderReactLoses(Forward(r.wire, r.raw), r.message.value);
      AwaitLeaderLoses(p.wire);
    } else if r.message.Some? {
      LeaderReactLoses(Forward(r.wire, r.raw), r.message.value);
      assert w.dropped + [] == w.dropped;
    }
  }

  // ---- What a run loses ----

  ghost predicate Sane(b: Session) {
    b.wire.pos <= |b.wire.env.script| && (b.grid.Some? ==> b.grid.value.0 > 0 && b.grid.value.1 > 0)
  }

  /** `b'` is a later state of the same run. */
  ghost predicate Later(b: Session, b': Session) {
    b'.wire.env == b.wire.env && b.wire.output <= b'.wire.output && Sane(b')
  }

  lemma CarryIsLater(b: Session, c: Command)
    requires Sane(b)
    ensures Later(b, Carry(b, c).session)
  {
    hide ResizeOnConnection, LeaderOnConnection, LeaderWrites;
    match c {
      case Resize(_, cols, rows) => ResizeContract(b.wire, cols, rows);
      case LeaderRequest(_) => LeaderContract(b.wire, b.grid);
      case _ =>
    }
  }

  lemma OnFrameIsLater(b: Session)
    requires Sane(b)
    ensures Later(b, OnFrame(b).session)
  {
    hide OnFrame;
    OnFrameIsQuiet(b);
    OnFrameReads(b);
  }

  lemma OnFrameReads(b: Session)
    requires b.wire.pos <= |b.wire.env.script|
    ensures var w := OnFrame(b).session.wire; w.env == b.wire.env && w.pos <= |w.env.script|
    ensures OnFrame(b).session.wire.WriterOpen() ==> OnFrame(b).session.wire.dropped == b.wire.dropped
  {
  }

  lemma {:induction false} CarryAllIsLater(b: Session, controls: seq<Command>)
    requires Sane(b)
    ensures Later(b, CarryAll(b, controls).session)
    decreases |controls|
  {
    hide Carry;
    if controls != [] {
      CarryIsLater(b, controls[0]);
      if Carry(b, controls[0]).exit.Continue? {
        CarryAllIsLater(Carry(b, controls[0]).session, controls[1..]);
      }
    }
  }

  lemma OnTurnIsLater(b: Session, t: Turn)
    requires Sane(b)
    ensures Later(b, OnTurn(b, t).session)
  {
    hide OnFrame, CarryAll, Gather, Drained;
    OnFrameIsLater(b);
    var framed := if t.daemonReady then OnFrame(b) else Outcome(b, Continue);
    if framed.exit.Continue? && t.wake {
      var taken := Drained(t.queued);
      var took := framed.session.(consumed := framed.session.consumed + taken);
      var offered := Offer(took, Gather(taken, TypedIn), t.batch);
      CarryAllIsLater(offered.session, Gather(taken, ControlIn));
    }
  }

  lemma {:induction false} RunIsLater(b: Session, turns: seq<Turn>)
    requires Sane(b)
    ensures Later(b, Run(b, turns).session)
    decreases |turns|
  {
    hide OnTurn;
    if turns != [] {
      OnTurnIsLater(b, turns[0]);
      if OnTurn(b, turns[0]).exit.Continue? {
        RunIsLater(OnTurn(b, turns[0]).session, turns[1..]);
      }
    }
  }

  lemma {:induction false} LostByConcat(script: seq<Delivery>, a: seq<Wait>, b: seq<Wait>)
    ensures LostBy(script, a + b) == LostBy(script, a) + LostBy(script, b)
  {
    if a == [] {
      assert a + b == b;
    } else {
      LostByConcat(script, a[1..], b);
      assert (a + b)[1..] == a[1..] + b;
    }
  }

  lemma LostByOne(script: seq<Delivery>, x: Wait)
    ensures LostBy(script, [x]) == Lost(script, x, [])
  {
    assert [x][1..] == [];
  }

  lemma ResizeLoses(w: Wire, cols: nat, rows: nat)
    requires w.pos <= |w.env.script| && ResizeOnConnection(w, cols, rows).wire.WriterOpen()
    ensures var lost := LostBy(w.env.script, ResizeWaits(w, cols, rows));
      ResizeOnConnection(w, cols, rows).wire.dropped == w.dropped + lost
  {
    hide AwaitStatus, Lost;
    assert w.dropped + [] == w.dropped;
    if ResizeWaits(w, cols, rows) != [] {
      AwaitStatusLoses(w.Write(ResizeTo(cols, rows, w.leader)).Write(StatusQuery));
      LostByOne(w.env.script, Wait(w.pos, None));
    }
  }

  lemma LeaderLoses(w: Wire, grid: Option<(nat, nat)>)
    requires w.pos <= |w.env.script| && LeaderOnConnection(w, grid).wire.WriterOpen()
    ensures LeaderOnConnection(w, grid).wire.dropped == w.dropped + LostBy(w.env.script, LeaderWaits(w, grid))
  {
    hide AwaitLeader, ResizeOnConnection, Lost, LostBy, ResizeWaits;
    var script, asked, mine := w.env.script, w.Write(AskLeader), [Wait(w.pos, Some(w.env.clientId))];
    var r := AwaitLeader(asked);
    AwaitLeaderWaits(asked);
    if w.env.leaderCap && w.Writable() {
      LostByOne(script, mine[0]);
      if r.error.None? && grid.Some? {
        var waits := ResizeWaits(r.wire, grid.value.0, grid.value.1);
        ResizeContract(r.wire, grid.value.0, grid.value.1);
        OpenBefore(r.wire, LeaderOnConnection(w, grid).wire);
        ResizeLoses(r.wire, grid.value.0, grid.value.1);
        LostByConcat(script, mine, waits);
        AwaitLeaderLoses(asked);
        assert w.dropped + LostBy(script, mine) + LostBy(script, waits) == w.dropped + LostBy(script, mine + waits);
      } else {
        AwaitLeaderLoses(asked);
        assert mine + [] == mine;
      }
    } else {
      NothingLost(script, w.dropped);
    }
  }

  lemma NothingLost(script: seq<Delivery>, dropped: seq<byte>)
    ensures dropped + LostBy(script, []) == dropped
  {
  }

  lemma CarryLoses(b: Session, c: Command)
    requires Sane(b) && Carry(b, c).session.wire.WriterOpen()
    ensures Carry(b, c).session.wire.dropped == b.wire.dropped + LostBy(b.wire.env.script, CarryWaits(b, c))
  {
    hide ResizeOnConnection, LeaderOnConnection, LostBy, ResizeWaits, LeaderWaits;
    match c {
      case Resize(_, cols, rows) => ResizeLoses(b.wire, cols, rows);
      case LeaderRequest(_) => LeaderLoses(b.wire, b.grid);
      case _ => NothingLost(b.wire.env.script, b.wire.dropped);
    }
  }

  lemma {:induction false} CarryAllLoses(b: Session, controls: seq<Command>)
    requires Sane(b) && CarryAll(b, controls).session.wire.WriterOpen()
    ensures var lost := LostBy(b.wire.env.script, CarryAllWaits(b, controls));
      CarryAll(b, controls).session.wire.dropped == b.wire.dropped + lost
    decreases |controls|
  {
    hide Carry, LostBy, CarryWaits;
    if controls == [] {
      NothingLost(b.wire.env.script, b.wire.dropped);
    } else {
      var first := Carry(b, controls[0]);
      CarryIsLater(b, controls[0]);
      if first.exit.Continue? {
        var rest := CarryAllWaits(first.session, controls[1..]);
        CarryAllIsLater(first.session, controls[1..]);
        OpenBefore(first.session.wire, CarryAll(b, controls).session.wire);
        CarryAllLoses(first.session, controls[1..]);
        assert CarryAllWaits(b, controls) == CarryWaits(b, controls[0]) + rest;
        LostByConcat(b.wire.env.script, CarryWaits(b, controls[0]), rest);
      } else {
        assert CarryAllWaits(b, controls) == CarryWaits(b, controls[0]);
      }
      CarryLoses(b, controls[0]);
    }
  }

  lemma OnTurnLoses(b: Session, t: Turn)
    requires Sane(b) && OnTurn(b, t).session.wire.WriterOpen()
    ensures OnTurn(b, t).session.wire.dropped == b.wire.dropped + LostBy(b.wire.env.script, TurnWaits(b, t))
  {
    hide OnFrame, CarryAll, CarryAllWaits, Gather, Drained, LostBy;
    NothingLost(b.wire.env.script, b.wire.dropped);
    OnFrameIsLater(b);
    OnFrameReads(b);
    var framed := if t.daemonReady then OnFrame(b) else Outcome(b, Continue);
    if framed.exit.Continue? && t.wake {
      var taken := Drained(t.queued);
      var took := framed.session.(consumed := framed.session.consumed + taken);
      var offered := Offer(took, Gather(taken, TypedIn), t.batch);
      CarryAllIsLater(offered.session, Gather(taken, ControlIn));
      OpenBefore(framed.session.wire, OnTurn(b, t).session.wire);
      if offered.exit.Continue? {
        CarryAllLoses(offered.session, Gather(taken, ControlIn));
      }
    }
  }

  /** A run whose writer is still there at its end has dropped exactly what its waits lost. */
  lemma {:induction false} RunLoses(b: Session, turns: seq<Turn>)
    requires Sane(b) && Run(b, turns).session.wire.WriterOpen()
    ensures Run(b, turns).session.wire.dropped == b.wire.dropped + LostBy(b.wire.env.script, RunWaits(b, turns))
    decreases |turns|
  {
    hide OnTurn, LostBy, TurnWaits;
    if turns == [] {
      NothingLost(b.wire.env.script, b.wire.dropped);
    } else {
      var first := OnTurn(b, turns[0]);
      OnTurnIsLater(b, turns[0]);
      if first.exit.Continue? {
        var rest := RunWaits(first.session, turns[1..]);
        RunIsLater(first.session, turns[1..]);
        OpenBefore(first.session.wire, Run(b, turns).session.wire);
        RunLoses(first.session, turns[1..]);
        LostByConcat(b.wire.env.script, TurnWaits(b, turns[0]), rest);
      } else {
        assert RunWaits(b, turns) == TurnWaits(b, turns[0]);
      }
      OnTurnLoses(b, turns[0]);
    }
  }

  lemma {:induction false} LostByNone(script: seq<Delivery>, waits: seq<Wait>)
    ensures LostBy(script, waits) == [] <==> forall i :: 0 <= i < |waits| ==> Lost(script, waits[i], []) == []
  {
    if waits != [] {
      LostByNone(script, waits[1..]);
      assert forall i :: 1 <= i < |waits| ==> waits[i] == waits[1..][i - 1];
    }
  }

  ghost predicate Fresh(w: Wire) {
    w.pos == 0 && w.sent == [] && w.output == [] && w.dropped == []
  }

  /**
   From the greeting on, over every run with the writer still there: PTY output left exactly
   as it came in, if and only if no wait ran into a read failure directly after PTY output.
   */
  lemma ForwardedIff(w: Wire, turns: seq<Turn>)
    requires Fresh(w) && Greet(w).exit.Continue?
    requires Run(Greet(w).session, turns).session.wire.WriterOpen()
    ensures var end := Run(Greet(w).session, turns).session.wire;
      var waits := RunWaits(Greet(w).session, turns);
      Gather(end.output, PtyOut) == Gather(end.Read(), RawIn) <==>
        forall i :: 0 <= i < |waits| ==> Lost(w.env.script, waits[i], []) == []
  {
    hide Run, RunWaits, Lost, LostBy, Gather, Merged;
    var b := Greet(w).session;
    GreetSettles(w);
    RunKeeps(b, turns);
    RunLoses(b, turns);
    LostByNone(w.env.script, RunWaits(b, turns));
    var end := Run(b, turns).session.wire;
    ThenNothing(Gather(end.Read(), RawIn), Gather(end.output, PtyOut), end.dropped);
  }

  // ---- The same, seen from the results ----

  /** No result queued reports a failure of the bridge's own. */
  ghost predicate Untroubled(output: seq<Output>) {
    forall i :: 0 <= i < |output| && (output[i].ResizeResult? || output[i].LeaderResult?) ==>
      output[i].error != Some(Internal)
  }

  lemma CarryUntroubled(b: Session, c: Command)
    requires Sane(b) && Carry(b, c).session.wire.WriterOpen() && Untroubled(Carry(b, c).session.wire.output)
    ensures Carry(b, c).session.wire.dropped == b.wire.dropped
  {
    hide ResizeOnConnection, LeaderOnConnection, LeaderWrites;
    var output := Carry(b, c).session.wire.output;
    match c {
      case Resize(id, cols, rows) =>
        ResizeContract(b.wire, cols, rows);
        assert output[|output| - 1] == ResizeResult(id, ResizeOnConnection(b.wire, cols, rows).error);
      case LeaderRequest(id) =>
        LeaderContract(b.wire, b.grid);
        assert output[|output| - 1] == LeaderResult(id, LeaderOnConnection(b.wire, b.grid).error);
      case _ =>
    }
  }

  lemma UntroubledBefore(a: seq<Output>, b: seq<Output>)
    requires a <= b && Untroubled(b)
    ensures Untroubled(a)
  {
    assert forall i :: 0 <= i < |a| ==> a[i] == b[i];
  }

  lemma {:induction false} CarryAllUntroubled(b: Session, controls: seq<Command>)
    requires Sane(b)
    requires var w := CarryAll(b, controls).session.wire; w.WriterOpen() && Untroubled(w.output)
    ensures CarryAll(b, controls).session.wire.dropped == b.wire.dropped
    decreases |controls|
  {
    hide Carry, Untroubled;
    if controls != [] {
      var first := Carry(b, controls[0]);
      CarryIsLater(b, controls[0]);
      if first.exit.Continue? {
        CarryAllIsLater(first.session, controls[1..]);
        OpenBefore(first.session.wire, CarryAll(b, controls).session.wire);
        UntroubledBefore(first.session.wire.output, CarryAll(b, controls).session.wire.output);
        CarryAllUntroubled(first.session, controls[1..]);
      }
      CarryUntroubled(b, controls[0]);
    }
  }

  lemma OnTurnUntroubled(b: Session, t: Turn)
    requires Sane(b)
    requires var w := OnTurn(b, t).session.wire; w.WriterOpen() && Untroubled(w.output)
    ensures OnTurn(b, t).session.wire.dropped == b.wire.dropped
  {
    hide OnFrame, CarryAll, Gather, Drained, Untroubled;
    OnFrameIsLater(b);
    OnFrameReads(b);
    var framed := if t.daemonReady then OnFrame(b) else Outcome(b, Continue);
    if framed.exit.Continue? && t.wake {
      var taken := Drained(t.queued);
      var took := framed.session.(consumed := framed.session.consumed + taken);
      var offered := Offer(took, Gather(taken, TypedIn), t.batch);
      CarryAllIsLater(offered.session, Gather(taken, ControlIn));
      OpenBefore(framed.session.wire, OnTurn(b, t).session.wire);
      if offered.exit.Continue? {
        CarryAllUntroubled(offered.session, Gather(taken, ControlIn));
      }
    }
  }

  lemma {:induction false} RunUntroubled(b: Session, turns: seq<Turn>)
    requires Sane(b)
    requires var w := Run(b, turns).session.wire; w.WriterOpen() && Untroubled(w.output)
    ensures Run(b, turns).session.wire.dropped == b.wire.dropped
    decreases |turns|
  {
    hide OnTurn, Untroubled;
    if turns != [] {
      var first := OnTurn(b, turns[0]);
      OnTurnIsLater(b, turns[0]);
      if first.exit.Continue? {
        RunIsLater(first.session, turns[1..]);
        OpenBefore(first.session.wire, Run(b, turns).session.wire);
        UntroubledBefore(first.session.wire.output, Run(b, turns).session.wire.output);
        RunUntroubled(first.session, turns[1..]);
      }
      OnTurnUntroubled(b, turns[0]);
    }
  }

  /**
   As long as no result reports a failure of the bridge's own and the writer is there, all PTY
   output that arrived, during waits and between them, was forwarded in arrival order.
   */
  lemma ForwardedInOrder(w: Wire, turns: seq<Turn>)
    requires Fresh(w) && Greet(w).exit.Continue?
    requires var end := Run(Greet(w).session, turns).session.wire; end.WriterOpen() && Untroubled(end.output)
    ensures var end := Run(Greet(w).session, turns).session.wire;
      Gather(end.output, PtyOut) == Gather(end.Read(), RawIn)
  {
    hide Run, Gather, Merged, Untroubled;
    var b := Greet(w).session;
    GreetSettles(w);
    RunKeeps(b, turns);
    RunUntroubled(b, turns);
    var end := Run(b, turns).session.wire;
    ThenNothing(Gather(end.Read(), RawIn), Gather(end.output, PtyOut), end.dropped);
  }

  /** Output is really lost: a resize wait that reads PTY output and then a failure forwards none of it. */
  lemma OutputCanBeLost(w: Wire, bytes: seq<byte>)
    requires w.pos + 2 <= |w.env.script| && w.env.script[w.pos] == Raw(bytes) && w.env.script[w.pos + 1] == Failed
    ensures AwaitStatus(w) == Result(w.(pos := w.pos + 2, dropped := w.dropped + bytes), Some(Internal))
    ensures Lost(w.env.script, Wait(w.pos, None), []) == bytes
  {
    var next := w.(pos := w.pos + 1);
    assert [] + bytes == bytes;
    assert Receive(next, bytes) == Received(w.(pos := w.pos + 2), bytes, None);
    assert Lost(w.env.script, Wait(w.pos + 1, None), bytes) == bytes;
  }
}
