/** Exactly when the bridge loop goes on and how it ends, in terms of the turns and of what the daemon delivers. */
module BridgeExit {
  import opened Options
  import opened Bridge
  import opened BridgeRun
  import opened BridgeLoss
  import opened BridgeInfo

  /** The browser closed the WebSocket, or the reader task is gone. */
  predicate IsClosing(t: Turn) {
    t.wake && (Shutdown in t.queued || t.disconnected)
  }

  /** Input of the browser, ahead of a shutdown, that cannot be sent. */
  predicate IsBroken(t: Turn) {
    t.wake && t.batch.Broken? && Gather(Drained(t.queued), TypedIn) != []
  }

  /** The daemon was reported readable and its frame cannot be read or decoded. */
  predicate IsUnreadable(w: Wire, t: Turn) {
    t.daemonReady && (w.pos >= |w.env.script| || w.env.script[w.pos].Failed? || w.env.script[w.pos].Garbled?)
  }

  lemma {:induction false} DrainedHoldsShutdown(queued: seq<Command>)
    ensures Shutdown in Drained(queued) <==> Shutdown in queued
  {
    if queued != [] && !queued[0].Shutdown? {
      DrainedHoldsShutdown(queued[1..]);
      assert queued == [queued[0]] + queued[1..];
    }
  }

  /** One frame: with the writer there the loop goes on exactly if it can be read, and mode and flag are as it says. */
  lemma OnFrameIs(b: Session)
    requires b.wire.pos <= |b.wire.env.script|
    ensures var r, w := OnFrame(b), b.wire;
      && (w.pos == |w.env.script| ==> r == Outcome(b, ReturnErr))
      && (w.pos < |w.env.script| ==>
            var d, w' := w.env.script[w.pos], r.session.wire;
            && w'.pos == w.pos + 1 && w'.mode == FollowMode([d], w.mode)
            && w'.leader == FollowLeader([d], w.env.clientId, w.leader)
            && (d.Failed? || d.Garbled? ==> r.exit.ReturnErr?)
            && (d.Raw? ==> r.exit == if w.WriterOpen() then Continue else ReturnOk)
            && (d.Control? ==> r.exit == if w.WriterOpen() || !TellsBrowser(d.message) then Continue else ReturnErr))
  {
  }

  /** Mode and leader changes are passed on to the browser. */
  predicate TellsBrowser(message: ControlMessage) {
    message.LeaderNotify? || (message.ModeChange? && message.mode.Some?)
  }

  /**
   One control: its result frame carries exactly what the operation reported, and the loop goes on if
   it could be queued.
   */
  lemma CarryReports(b: Session, c: Command)
    requires c.Resize? || c.LeaderRequest?
    ensures var r := Carry(b, c);
      var done := if c.Resize? then ResizeOnConnection(b.wire, c.cols, c.rows) else LeaderOnConnection(b.wire, b.grid);
      var frame := if c.Resize? then ResizeResult(c.requestId, done.error) else LeaderResult(c.requestId, done.error);
      && (done.wire.WriterOpen() ==> r.exit.Continue? && r.session.wire.output == done.wire.output + [frame])
      && (!done.wire.WriterOpen() ==> r.exit.ReturnOk? && r.session.wire == done.wire)
  {
    hide ResizeOnConnection, LeaderOnConnection;
  }

  lemma {:induction false} CarryAllExits(b: Session, controls: seq<Command>)
    requires forall i :: 0 <= i < |controls| ==> controls[i].Resize? || controls[i].LeaderRequest?
    ensures var r := CarryAll(b, controls);
      !r.exit.ReturnErr? && (r.session.wire.WriterOpen() ==> r.exit.Continue?)
    decreases |controls|
  {
    hide Carry, ResizeOnConnection, LeaderOnConnection;
    if controls != [] {
      CarryReports(b, controls[0]);
      if Carry(b, controls[0]).exit.Continue? {
        CarryAllExits(Carry(b, controls[0]).session, controls[1..]);
      }
    }
  }

  /** What is written behind a batch: no browser input. */
  ghost predicate SentBehind(before: seq<Request>, after: seq<Request>) {
    before <= after && forall i :: |before| <= i < |after| ==> !after[i].RawBytes?
  }

  lemma CarrySends(b: Session, c: Command)
    requires Sane(b)
    ensures SentBehind(b.wire.sent, Carry(b, c).session.wire.sent)
  {
    hide ResizeOnConnection, LeaderOnConnection;
    match c {
      case Resize(_, cols, rows) => ResizeContract(b.wire, cols, rows);
      case LeaderRequest(_) => LeaderContract(b.wire, b.grid);
      case _ =>
    }
  }

  lemma {:induction false} CarryAllSends(b: Session, controls: seq<Command>)
    requires Sane(b)
    ensures SentBehind(b.wire.sent, CarryAll(b, controls).session.wire.sent)
    decreases |controls|
  {
    hide Carry;
    if controls != [] {
      CarrySends(b, controls[0]);
      CarryIsLater(b, controls[0]);
      if Carry(b, controls[0]).exit.Continue? {
        CarryAllSends(Carry(b, controls[0]).session, controls[1..]);
      }
    }
  }

  /** A wake writes the browser's input first, as one frame, and the requests of the controls behind it. */
  lemma InputGoesFirst(b: Session, t: Turn)
    requires Sane(b)
    ensures var batch := Gather(Drained(t.queued), TypedIn);
      SentBehind(b.wire.sent + (if batch == [] then [] else [RawBytes(batch)]), OnWake(b, t).session.wire.sent)
  {
    hide CarryAll, Gather, Drained;
    var taken := Drained(t.queued);
    var offered := Offer(b.(consumed := b.consumed + taken), Gather(taken, TypedIn), t.batch);
    assert b.wire.sent + [] == b.wire.sent;
    CarryAllSends(offered.session, Gather(taken, ControlIn));
  }

  /**
   One turn that leaves the writer there: it ends in an error exactly for an unreadable frame or
   input that cannot be sent, otherwise well exactly on a close, and goes on in every other case.
   */
  lemma OnTurnExits(b: Session, t: Turn)
    requires Sane(b) && OnTurn(b, t).session.wire.WriterOpen()
    ensures OnTurn(b, t).exit ==
      if IsUnreadable(b.wire, t) || IsBroken(t) then ReturnErr
      else if IsClosing(t) then ReturnOk
      else Continue
  {
    hide OnFrame, CarryAll, Gather, Drained, FollowMode, FollowLeader;
    OnTurnIsLater(b, t);
    OpenBefore(b.wire, OnTurn(b, t).session.wire);
    OnFrameIsLater(b);
    OnFrameIs(b);
    DrainedHoldsShutdown(t.queued);
    var framed := if t.daemonReady then OnFrame(b) else Outcome(b, Continue);
    if framed.exit.Continue? && t.wake {
      var taken := Drained(t.queued);
      var took := framed.session.(consumed := framed.session.consumed + taken);
      var offered := Offer(took, Gather(taken, TypedIn), t.batch);
      GatherControls(taken);
      CarryAllExits(offered.session, Gather(taken, ControlIn));
    }
  }

  /** What the loop looked like when it took its turn `k`. */
  ghost function Before(b: Session, turns: seq<Turn>, k: nat): Outcome
    requires k <= |turns|
  {
    Run(b, turns[..k])
  }

  lemma RunNext(b: Session, turns: seq<Turn>)
    requires turns != []
    ensures var first := OnTurn(b, turns[0]);
      Run(b, turns) == if first.exit.Continue? then Run(first.session, turns[1..]) else first
  {
  }

  lemma {:induction false} RunPrefix(b: Session, turns: seq<Turn>, k: nat)
    requires k <= |turns|
    ensures Run(b, turns[..k]).exit.Continue? ==> Run(b, turns) == Run(Run(b, turns[..k]).session, turns[k..])
    ensures !Run(b, turns[..k]).exit.Continue? ==> Run(b, turns) == Run(b, turns[..k])
    decreases |turns|
  {
    hide OnTurn;
    if k == 0 {
      assert turns[0..] == turns;
    } else {
      assert turns[..k][0] == turns[0] && turns[..k][1..] == turns[1..][..k - 1];
      assert turns[1..][k - 1..] == turns[k..];
      if OnTurn(b, turns[0]).exit.Continue? {
        RunPrefix(OnTurn(b, turns[0]).session, turns[1..], k - 1);
      }
    }
  }

  /** Turn `k` is reached: all turns before it went on. */
  ghost predicate IsReached(b: Session, turns: seq<Turn>, k: nat)
    requires k <= |turns|
  {
    Before(b, turns, k).exit.Continue?
  }

  ghost predicate Fails(b: Session, turns: seq<Turn>, k: nat)
    requires k < |turns|
  {
    IsUnreadable(Before(b, turns, k).session.wire, turns[k]) || IsBroken(turns[k])
  }

  /**
   Over every run with the writer there at its end: it has gone on through all turns exactly if
   none of them closed or failed, and otherwise it ended at the first that did, in an error
   exactly if that one failed.
   */
  lemma {:induction false} RunExits(b: Session, turns: seq<Turn>) returns (k: nat)
    requires Sane(b) && Run(b, turns).session.wire.WriterOpen()
    ensures k <= |turns| && IsReached(b, turns, k)
    ensures forall i :: 0 <= i < k ==> !IsClosing(turns[i]) && !Fails(b, turns, i)
    ensures k < |turns| ==> IsClosing(turns[k]) || Fails(b, turns, k)
    ensures Run(b, turns).exit == if k == |turns| then Continue else if Fails(b, turns, k) then ReturnErr else ReturnOk
    decreases |turns|
  {
    hide OnTurn, Sane, IsClosing, IsBroken, IsUnreadable;
    if turns == [] {
      k := 0;
      assert turns[..0] == [];
    } else {
      var n := |turns| - 1;
      var init := turns[..n];
      RunPrefix(b, turns, n);
      RunIsLater(b, init);
      RunIsLater(b, turns);
      var before := Run(b, init);
      if before.exit.Continue? {
        RunLast(before.session, turns[n..]);
        RunIsLater(before.session, turns[n..]);
        OpenThen(before.session, turns[n..]);
        k := RunExits(b, init);
        PrefixesAgree(b, turns, n);
        OnTurnExits(before.session, turns[n]);
        if k == n && OnTurn(before.session, turns[n]).exit.Continue? {
          k := n + 1;
          assert turns[..n + 1] == turns;
        }
      } else {
        k := RunExits(b, init);
        PrefixesAgree(b, turns, n);
      }
    }
  }

  lemma RunLast(b: Session, one: seq<Turn>)
    requires |one| == 1
    ensures Run(b, one) == OnTurn(b, one[0])
  {
    hide OnTurn;
    RunNext(b, one);
    assert one[1..] == [];
    assert Run(OnTurn(b, one[0]).session, []) == Outcome(OnTurn(b, one[0]).session, Continue);
  }

  lemma OpenThen(b: Session, turns: seq<Turn>)
    requires Later(b, Run(b, turns).session) && Run(b, turns).session.wire.WriterOpen()
    ensures b.wire.WriterOpen()
  {
    hide Run;
    OpenBefore(b.wire, Run(b, turns).session.wire);
  }

  lemma PrefixesAgree(b: Session, turns: seq<Turn>, n: nat)
    requires n <= |turns|
    ensures forall i :: 0 <= i <= n ==> Before(b, turns, i) == Before(b, turns[..n], i)
    ensures forall i :: 0 <= i < n ==> Fails(b, turns, i) == Fails(b, turns[..n], i)
  {
    hide Run, IsUnreadable, IsBroken;
    assert forall i :: 0 <= i <= n ==> turns[..n][..i] == turns[..i];
    assert forall i :: 0 <= i < n ==> turns[..n][i] == turns[i];
  }
}
