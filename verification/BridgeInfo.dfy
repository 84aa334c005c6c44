/**
 What the browser is told about mode and leadership: the last attach info that was queued is
 what the bridge goes by, and a leader wait goes by exactly the messages it read.
 */
module BridgeInfo {
  import opened Options
  import opened Bridge
  import opened BridgeRun

  // ---- The last attach info is current ----

  function LastInfo(output: seq<Output>): Option<(Mode, bool)> {
    if output == [] then None
    else match output[|output| - 1]
      case AttachInfo(mode, leader) => Some((mode, leader))
      case _ => LastInfo(output[..|output| - 1])
  }

  /** As long as the writer is there, the browser was last told what the bridge goes by. */
  ghost predicate Current(w: Wire) {
    w.WriterOpen() ==> LastInfo(w.output) == Some((w.mode, w.leader))
  }

  lemma EmitKeepsCurrent(w: Wire, o: Output)
    requires Current(w) && !o.AttachInfo?
    ensures Current(w.Emit(o))
  {
    assert (w.output + [o])[..|w.output|] == w.output;
  }

  lemma InformedIsCurrent(w: Wire)
    ensures Current(Informed(w))
  {
  }

  lemma ForwardKeepsCurrent(w: Wire, raw: seq<byte>)
    requires Current(w)
    ensures Current(Forward(w, raw))
  {
    EmitKeepsCurrent(w, Pty(raw));
  }

  lemma {:induction false} AwaitStatusKeepsCurrent(w: Wire)
    requires Current(w)
    ensures Current(AwaitStatus(w).wire)
    decreases |w.env.script| - w.pos
  {
    hide LastInfo, Wire.Emit;
    var r := Receive(w, []);
    ForwardKeepsCurrent(r.wire, r.raw);
    if StatusStep(w).More? {
      AwaitStatusKeepsCurrent(StatusStep(w).wire);
    }
  }

  lemma LeaderReactKeepsCurrent(w: Wire, message: ControlMessage)
    requires Current(w)
    ensures Current(Reached(LeaderReact(w, message)))
  {
    hide LastInfo, Informed;
    match message {
      case ModeChange(change) =>
        if change.Some? {
          InformedIsCurrent(w.(mode := change.value));
        }
      case LeaderNotify(who) => InformedIsCurrent(w.(leader := who == Some(w.env.clientId)));
      case _ =>
    }
  }

  lemma {:induction false} AwaitLeaderKeepsCurrent(w: Wire)
    requires Current(w)
    ensures Current(AwaitLeader(w).wire)
    decreases |w.env.script| - w.pos
  {
    hide LastInfo, Wire.Emit, LeaderReact;
    var r := Receive(w, []);
    ForwardKeepsCurrent(r.wire, r.raw);
    if r.message.Some? && Forwardable(r.wire, r.raw) {
      LeaderReactKeepsCurrent(Forward(r.wire, r.raw), r.message.value);
    }
    if LeaderStep(w).More? {
      AwaitLeaderKeepsCurrent(LeaderStep(w).wire);
    }
  }

  lemma ResizeKeepsCurrent(w: Wire, cols: nat, rows: nat)
    requires Current(w)
    ensures Current(ResizeOnConnection(w, cols, rows).wire)
  {
    hide LastInfo, AwaitStatus;
    AwaitStatusKeepsCurrent(w.Write(ResizeTo(cols, rows, w.leader)).Write(StatusQuery));
  }

  lemma LeaderKeepsCurrent(w: Wire, grid: Option<(nat, nat)>)
    requires Current(w)
    ensures Current(LeaderOnConnection(w, grid).wire)
  {
    hide LastInfo, AwaitLeader, ResizeOnConnection;
    AwaitLeaderKeepsCurrent(w.Write(AskLeader));
    if grid.Some? {
      ResizeKeepsCurrent(AwaitLeader(w.Write(AskLeader)).wire, grid.value.0, grid.value.1);
    }
  }

  lemma CarryKeepsCurrent(b: Session, c: Command)
    requires Current(b.wire)
    ensures Current(Carry(b, c).session.wire)
  {
    hide LastInfo, LeaderOnConnection, ResizeOnConnection, Wire.Emit;
    match c {
      case Resize(id, cols, rows) =>
        var r := ResizeOnConnection(b.wire, cols, rows);
        ResizeKeepsCurrent(b.wire, cols, rows);
        EmitKeepsCurrent(r.wire, ResizeResult(id, r.error));
      case LeaderRequest(id) =>
        var r := LeaderOnConnection(b.wire, b.grid);
        LeaderKeepsCurrent(b.wire, b.grid);
        EmitKeepsCurrent(r.wire, LeaderResult(id, r.error));
      case _ =>
    }
  }

  lemma {:induction false} CarryAllKeepsCurrent(b: Session, controls: seq<Command>)
    requires Current(b.wire)
    ensures Current(CarryAll(b, controls).session.wire)
    decreases |controls|
  {
    hide Carry, Current;
    if controls != [] {
      CarryKeepsCurrent(b, controls[0]);
      if Carry(b, controls[0]).exit.Continue? {
        CarryAllKeepsCurrent(Carry(b, controls[0]).session, controls[1..]);
      }
    }
  }

  lemma OnFrameKeepsCurrent(b: Session)
    requires Current(b.wire)
    ensures Current(OnFrame(b).session.wire)
  {
    hide LastInfo, Wire.Emit, Informed;
    var w := b.wire;
    if w.pos < |w.env.script| {
      var next := w.(pos := w.pos + 1);
      match w.env.script[w.pos] {
        case Raw(bytes) => EmitKeepsCurrent(next, Pty(bytes));
        case Control(LeaderNotify(who)) => InformedIsCurrent(next.(leader := who == Some(w.env.clientId)));
        case Control(ModeChange(change)) =>
          if change.Some? {
            InformedIsCurrent(next.(mode := change.value));
          }
        case _ =>
      }
    }
  }

  lemma OnTurnKeepsCurrent(b: Session, t: Turn)
    requires Current(b.wire)
    ensures Current(OnTurn(b, t).session.wire)
  {
    hide OnFrame, CarryAll, LastInfo, Gather, Drained;
    OnFrameKeepsCurrent(b);
    var framed := if t.daemonReady then OnFrame(b) else Outcome(b, Continue);
    if framed.exit.Continue? && t.wake {
      var taken := Drained(t.queued);
      var took := framed.session.(consumed := framed.session.consumed + taken);
      var offered := Offer(took, Gather(taken, TypedIn), t.batch);
      CarryAllKeepsCurrent(offered.session, Gather(taken, ControlIn));
    }
  }

  lemma {:induction false} CurrentThroughout(b: Session, turns: seq<Turn>)
    requires Current(b.wire)
    ensures Current(Run(b, turns).session.wire)
    decreases |turns|
  {
    hide OnTurn, Current;
    if turns != [] {
      OnTurnKeepsCurrent(b, turns[0]);
      if OnTurn(b, turns[0]).exit.Continue? {
        CurrentThroughout(OnTurn(b, turns[0]).session, turns[1..]);
      }
    }
  }

  /**
   From the greeting on, over every run: the last attach info queued is the mode and leader flag the
   bridge goes by.
   */
  lemma InfoIsCurrentInEveryRun(w: Wire, turns: seq<Turn>)
    requires w.output == [] && Greet(w).exit.Continue?
    ensures Current(Run(Greet(w).session, turns).session.wire)
  {
    hide Run, LastInfo;
    InformedIsCurrent(w.Emit(Hello));
    CurrentThroughout(Greet(w).session, turns);
  }

  // ---- A leader wait goes by what it reads ----

  function FollowMode(read: seq<Delivery>, mode: Mode): Mode {
    if read == [] then mode
    else match read[|read| - 1]
      case Control(ModeChange(Some(m))) => m
      case _ => FollowMode(read[..|read| - 1], mode)
  }

  function FollowLeader(read: seq<Delivery>, clientId: nat, leader: bool): bool {
    if read == [] then leader
    else match read[|read| - 1]
      case Control(LeaderNotify(who)) => who == Some(clientId)
      case _ => FollowLeader(read[..|read| - 1], clientId, leader)
  }

  lemma {:induction false} FollowConcat(a: seq<Delivery>, b: seq<Delivery>, clientId: nat, mode: Mode, leader: bool)
    ensures FollowMode(a + b, mode) == FollowMode(b, FollowMode(a, mode))
    ensures FollowLeader(a + b, clientId, leader) == FollowLeader(b, clientId, FollowLeader(a, clientId, leader))
  {
    if b == [] {
      assert a + b == a;
    } else {
      var n := |b| - 1;
      assert (a + b)[..|a + b| - 1] == a + b[..n];
      FollowConcat(a, b[..n], clientId, mode, leader);
    }
  }

  lemma {:induction false} OthersChangeNothing(read: seq<Delivery>, clientId: nat, mode: Mode, leader: bool)
    requires forall i :: 0 <= i < |read| ==> !read[i].Control?
    ensures FollowMode(read, mode) == mode && FollowLeader(read, clientId, leader) == leader
  {
    if read != [] {
      OthersChangeNothing(read[..|read| - 1], clientId, mode, leader);
    }
  }

  /** A delivery that a leader wait passes over. */
  predicate Unled(d: Delivery, clientId: nat) {
    d.Raw? || (d.Control? && !d.message.Error? && d.message != LeaderNotify(Some(clientId)))
  }

  /** Mode and leader flag are those of the messages between `w` and position `to`. */
  ghost predicate Follows(w: Wire, w': Wire, to: nat) {
    && w'.env == w.env && w.pos <= to <= |w.env.script|
    && w'.mode == FollowMode(w.env.script[w.pos..to], w.mode)
    && w'.leader == FollowLeader(w.env.script[w.pos..to], w.env.clientId, w.leader)
  }

  ghost predicate Passed(w: Wire, to: nat) {
    to <= |w.env.script| && forall i :: w.pos <= i < to ==> Unled(w.env.script[i], w.env.clientId)
  }

  /**
   How a leader wait ends: at the notice that this client leads or at an error, with mode and
   flag as read; or with a failure of its own, with mode and flag as read too, except that the
   last message is not taken in when the writer went away before it.
   */
  ghost predicate LeaderDecided(w: Wire, r: Result) {
    if r.error == Some(Internal) then
      Follows(w, r.wire, r.wire.pos) || (!r.wire.WriterOpen() && r.wire.pos > 0 && Follows(w, r.wire, r.wire.pos - 1))
    else
      && (r.error.None? || r.error.value.FromDaemon?)
      && w.pos < r.wire.pos && Follows(w, r.wire, r.wire.pos) && Passed(w, r.wire.pos - 1)
      && w.env.script[r.wire.pos - 1] ==
         Control(if r.error.None? then LeaderNotify(Some(w.env.clientId)) else Error(r.error.value.code))
  }

  lemma ReactFollows(w: Wire, message: ControlMessage)
    ensures var p := LeaderReact(w, message);
      var w' := Reached(p);
      && w'.env == w.env && w'.pos == w.pos
      && w'.mode == FollowMode([Control(message)], w.mode)
      && w'.leader == FollowLeader([Control(message)], w.env.clientId, w.leader)
      && (p.More? ==> Unled(Control(message), w.env.clientId))
      && (p.Done? && p.result.error != Some(Internal) ==>
            && (p.result.error.None? || p.result.error.value.FromDaemon?)
            && message == if p.result.error.None? then LeaderNotify(Some(w.env.clientId))
                          else Error(p.result.error.value.code))
  {
  }

  lemma {:induction false} ReceiveSkips(w: Wire, raw: seq<byte>)
    requires w.pos <= |w.env.script|
    ensures var r := Receive(w, raw);
      var to := if r.message.Some? then r.wire.pos - 1 else r.wire.pos;
      && to <= |w.env.script| && r.wire.mode == w.mode && r.wire.leader == w.leader
      && forall i :: w.pos <= i < to ==> !w.env.script[i].Control?
    decreases |w.env.script| - w.pos
  {
    if w.pos < |w.env.script| && w.env.script[w.pos].Raw? {
      ReceiveSkips(w.(pos := w.pos + 1), raw + w.env.script[w.pos].bytes);
    }
  }

  lemma SkippedFollows(w: Wire, to: nat)
    requires w.pos <= to <= |w.env.script| && forall i :: w.pos <= i < to ==> !w.env.script[i].Control?
    ensures Follows(w, w, to)
  {
    var skipped := w.env.script[w.pos..to];
    assert forall i :: 0 <= i < |skipped| ==> skipped[i] == w.env.script[w.pos + i];
    OthersChangeNothing(skipped, w.env.clientId, w.mode, w.leader);
  }

  lemma LeaderStepFollows(w: Wire)
    requires w.pos <= |w.env.script|
    ensures var p := LeaderStep(w);
      if p.More? then Follows(w, p.wire, p.wire.pos) && Passed(w, p.wire.pos) else LeaderDecided(w, p.result)
  {
    hide Receive, Wire.Emit, LeaderReact, FollowMode, FollowLeader, Forward;
    var r := Receive(w, []);
    ReceiveSkips(w, []);
    ForwardChanges(r.wire, r.raw);
    if r.message.None? {
      SkippedFollows(w, r.wire.pos);
    } else {
      var last := r.wire.pos - 1;
      SkippedFollows(w, last);
      if Forwardable(r.wire, r.raw) {
        assert w.env.script[w.pos..r.wire.pos] == w.env.script[w.pos..last] + [w.env.script[last]];
        FollowConcat(w.env.script[w.pos..last], [w.env.script[last]], w.env.clientId, w.mode, w.leader);
        ReactFollows(Forward(r.wire, r.raw), r.message.value);
      }
    }
  }

  lemma ForwardChanges(w: Wire, raw: seq<byte>)
    ensures var w' := Forward(w, raw); w'.env == w.env && w'.pos == w.pos && w'.mode == w.mode && w'.leader == w.leader
    ensures !Forwardable(w, raw) ==> !Forward(w, raw).WriterOpen()
  {
  }

  lemma FollowsThrough(a: Wire, b: Wire, c: Wire, to: nat)
    requires Follows(a, b, b.pos) && Follows(b, c, to)
    ensures Follows(a, c, to)
  {
    hide FollowMode, FollowLeader;
    var script := a.env.script;
    assert script[a.pos..to] == script[a.pos..b.pos] + script[b.pos..to];
    FollowConcat(script[a.pos..b.pos], script[b.pos..to], a.env.clientId, a.mode, a.leader);
  }

  lemma {:induction false} AwaitLeaderFollows(w: Wire)
    requires w.pos <= |w.env.script|
    ensures LeaderDecided(w, AwaitLeader(w))
    decreases |w.env.script| - w.pos
  {
    hide LeaderStep, Follows;
    LeaderStepFollows(w);
    var p := LeaderStep(w);
    if p.More? {
      AwaitLeaderFollows(p.wire);
      var end := AwaitLeader(w).wire;
      if Follows(p.wire, end, end.pos) {
        FollowsThrough(w, p.wire, end, end.pos);
      } else {
        FollowsThrough(w, p.wire, end, end.pos - 1);
      }
    }
  }
}
