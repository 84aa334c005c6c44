/**
 Exactly how a resize and a leader request on the connection end, in terms of what the daemon
 delivers and of how much can still be written and queued.
 */
module BridgeExact {
  import opened Options
  import opened Bridge
  import opened BridgeLoss

  /** A delivery after which a wait goes on. */
  predicate PassedOver(d: Delivery, leader: Option<nat>) {
    d.Raw? || (d.Control? && !Ends(d.message, leader))
  }

  /** The first delivery from `pos` on at which a wait ends, or the end of the script. */
  function FirstEnd(script: seq<Delivery>, pos: nat, leader: Option<nat>): (j: nat)
    requires pos <= |script|
    ensures pos <= j <= |script|
    decreases |script| - pos
  {
    if pos < |script| && PassedOver(script[pos], leader) then FirstEnd(script, pos + 1, leader) else pos
  }

  lemma {:induction false} FirstEndIs(script: seq<Delivery>, pos: nat, leader: Option<nat>)
    requires pos <= |script|
    ensures var j := FirstEnd(script, pos, leader);
      && (j < |script| ==> !PassedOver(script[j], leader))
      && forall i :: pos <= i < j ==> PassedOver(script[i], leader)
    decreases |script| - pos
  {
    if pos < |script| && PassedOver(script[pos], leader) {
      FirstEndIs(script, pos + 1, leader);
    }
  }

  /** A leader wait tells the browser about every change of mode and leader. */
  predicate IsNews(message: ControlMessage, leader: Option<nat>) {
    leader.Some? && (message.LeaderNotify? || (message.ModeChange? && message.mode.Some?))
  }

  /**
   The frames a wait queues for the deliveries from `from` to `to`: one for the PTY bytes before
   each control message, if there are any, and one for each piece of news.
   */
  function Frames(script: seq<Delivery>, from: nat, to: nat, pending: bool, leader: Option<nat>): nat
    decreases |script| - from
  {
    if from > to || from >= |script| then 0
    else match script[from]
      case Raw(bytes) => Frames(script, from + 1, to, pending || bytes != [], leader)
      case Control(m) =>
        (if pending then 1 else 0) + (if IsNews(m, leader) then 1 else 0) + Frames(script, from + 1, to, false, leader)
      case _ => 0
  }

  /** How a wait ends that starts at `pos` with `queued` frames in the writer's queue. */
  function WaitResult(env: Setting, pos: nat, queued: nat, leader: Option<nat>): Option<Reason>
    requires pos <= |env.script|
  {
    var j := FirstEnd(env.script, pos, leader);
    if j == |env.script| || !env.script[j].Control? then Some(Internal)
    else if queued + Frames(env.script, pos, j, false, leader) > env.writerLimit then Some(Internal)
    else if env.script[j].message.Error? then Some(FromDaemon(env.script[j].message.code))
    else None
  }

  /** A wait ends as it says, and without a failure of its own just after the delivery that ended it. */
  ghost predicate EndsAsItSays(w: Wire, r: Result, leader: Option<nat>)
    requires w.pos <= |w.env.script|
  {
    var j := FirstEnd(w.env.script, w.pos, leader);
    && r.error == WaitResult(w.env, w.pos, |w.output|, leader)
    && (r.error != Some(Internal) ==>
          && r.wire.env == w.env && r.wire.pos == j + 1 && r.wire.sent == w.sent
          && |r.wire.output| == |w.output| + Frames(w.env.script, w.pos, j, false, leader))
  }

  // ---- What one message contributes ----

  lemma FirstEndNext(script: seq<Delivery>, pos: nat, leader: Option<nat>)
    requires pos <= |script|
    ensures FirstEnd(script, pos, leader) ==
      if pos < |script| && PassedOver(script[pos], leader) then FirstEnd(script, pos + 1, leader) else pos
  {
  }

  lemma {:induction false} ReceiveFinds(w: Wire, raw: seq<byte>, leader: Option<nat>)
    requires w.pos <= |w.env.script|
    ensures var r, j := Receive(w, raw), FirstEnd(w.env.script, w.pos, leader);
      && (r.message.None? ==> j == |w.env.script| || !w.env.script[j].Control?)
      && (r.message.Some? ==>
            && w.pos < r.wire.pos <= |w.env.script| && w.env.script[r.wire.pos - 1] == Control(r.message.value)
            && j == if Ends(r.message.value, leader) then r.wire.pos - 1
                    else FirstEnd(w.env.script, r.wire.pos, leader))
    decreases |w.env.script| - w.pos
  {
    hide FirstEnd, Ends;
    FirstEndNext(w.env.script, w.pos, leader);
    if w.pos < |w.env.script| && w.env.script[w.pos].Raw? {
      ReceiveFinds(w.(pos := w.pos + 1), raw + w.env.script[w.pos].bytes, leader);
    }
  }

  lemma {:induction false} ReceiveCounts(w: Wire, raw: seq<byte>, leader: Option<nat>, to: nat)
    requires w.pos <= |w.env.script| && Receive(w, raw).message.Some? && to >= Receive(w, raw).wire.pos - 1
    ensures var r := Receive(w, raw);
      Frames(w.env.script, w.pos, to, raw != [], leader) ==
        (if r.raw != [] then 1 else 0) + (if IsNews(r.message.value, leader) then 1 else 0)
        + Frames(w.env.script, r.wire.pos, to, false, leader)
    decreases |w.env.script| - w.pos
  {
    hide IsNews;
    if w.env.script[w.pos].Raw? {
      ReceiveCounts(w.(pos := w.pos + 1), raw + w.env.script[w.pos].bytes, leader, to);
    }
  }

  lemma FramesPast(script: seq<Delivery>, from: nat, to: nat, leader: Option<nat>)
    requires from > to
    ensures Frames(script, from, to, false, leader) == 0
  {
  }

  lemma ForwardCounts(w: Wire, raw: seq<byte>)
    requires Forwardable(w, raw)
    ensures var w' := Forward(w, raw);
      && w'.env == w.env && w'.pos == w.pos && w'.sent == w.sent
      && |w'.output| == |w.output| + if raw != [] then 1 else 0
  {
  }

  lemma {:induction false} AwaitStatusExactly(w: Wire)
    requires w.pos <= |w.env.script| && |w.output| <= w.env.writerLimit
    ensures EndsAsItSays(w, AwaitStatus(w), None)
    decreases |w.env.script| - w.pos
  {
    hide Receive, Frames, Forward, FirstEnd;
    var script, r := w.env.script, Receive(w, []);
    var j := FirstEnd(script, w.pos, None);
    ReceiveFinds(w, [], None);
    if r.message.Some? {
      ReceiveCounts(w, [], None, j);
    }
    if r.message.Some? && Forwardable(r.wire, r.raw) {
      ForwardCounts(r.wire, r.raw);
      var p := StatusStep(w);
      if p.More? {
        AwaitStatusExactly(p.wire);
      } else {
        FramesPast(script, r.wire.pos, j, None);
      }
    }
  }

  lemma LeaderReactCounts(w: Wire, message: ControlMessage)
    requires |w.output| <= w.env.writerLimit
    ensures var p, id := LeaderReact(w, message), Some(w.env.clientId);
      var news := if IsNews(message, id) then 1 else 0;
      if |w.output| + news > w.env.writerLimit then p.Done? && p.result.error == Some(Internal)
      else
        var w' := Reached(p);
        && w'.env == w.env && w'.pos == w.pos && w'.sent == w.sent && |w'.output| == |w.output| + news
        && (p.Done? <==> Ends(message, id))
        && (p.Done? ==> p.result.error == if message.Error? then Some(FromDaemon(message.code)) else None)
  {
  }

  lemma {:induction false} AwaitLeaderExactly(w: Wire)
    requires w.pos <= |w.env.script| && |w.output| <= w.env.writerLimit
    ensures EndsAsItSays(w, AwaitLeader(w), Some(w.env.clientId))
    decreases |w.env.script| - w.pos
  {
    hide Receive, Frames, Forward, FirstEnd, LeaderReact, Ends, IsNews;
    var script, r, id := w.env.script, Receive(w, []), Some(w.env.clientId);
    var j := FirstEnd(script, w.pos, id);
    ReceiveFinds(w, [], id);
    if r.message.Some? {
      ReceiveCounts(w, [], id, j);
    }
    if r.message.Some? && Forwardable(r.wire, r.raw) {
      ForwardCounts(r.wire, r.raw);
      LeaderReactCounts(Forward(r.wire, r.raw), r.message.value);
      var p := LeaderStep(w);
      if p.More? {
        AwaitLeaderExactly(p.wire);
      } else if Ends(r.message.value, id) {
        FramesPast(script, r.wire.pos, j, id);
      }
    }
  }

  // ---- The two operations ----

  /** How a resize ends from a state with `sent` requests written and `queued` frames queued. */
  function ResizeResultOf(
      env: Setting, pos: nat, sent: nat, queued: nat, leads: bool, cols: nat, rows: nat): Option<Reason>
    requires pos <= |env.script|
  {
    if cols == 0 || rows == 0 then Some(InvalidRequest)
    else if !leads then Some(ModeNotLeader)
    else if sent + 2 > env.sendLimit then Some(Internal)
    else WaitResult(env, pos, queued, None)
  }

  /**
   A resize succeeds exactly if it is allowed, both requests can be written, the first delivery
   that ends the wait is a status reply and the writer takes all that comes before it. An error
   of the daemon is passed on, and everything else is an internal error.
   */
  lemma ResizeExactly(w: Wire, cols: nat, rows: nat)
    requires w.pos <= |w.env.script| && |w.output| <= w.env.writerLimit
    ensures var r := ResizeOnConnection(w, cols, rows);
      r.error == ResizeResultOf(w.env, w.pos, |w.sent|, |w.output|, w.leader, cols, rows)
  {
    hide AwaitStatus, WaitResult, Frames, FirstEnd;
    var asked := w.Write(ResizeTo(cols, rows, w.leader)).Write(StatusQuery);
    AwaitStatusExactly(asked);
  }

  /** How a leader request ends: the leader wait first, and then the resize to the latest grid if there is one. */
  function LeaderResultOf(w: Wire, grid: Option<(nat, nat)>): Option<Reason>
    requires w.pos <= |w.env.script|
  {
    var id := Some(w.env.clientId);
    if !w.env.leaderCap then Some(UnsupportedCapability)
    else if |w.sent| + 1 > w.env.sendLimit then Some(Internal)
    else
      var waited := WaitResult(w.env, w.pos, |w.output|, id);
      if waited.Some? || grid.None? then waited
      else
        var j := FirstEnd(w.env.script, w.pos, id);
        var queued := |w.output| + Frames(w.env.script, w.pos, j, false, id);
        ResizeResultOf(w.env, j + 1, |w.sent| + 1, queued, true, grid.value.0, grid.value.1)
  }

  lemma LeaderExactly(w: Wire, grid: Option<(nat, nat)>)
    requires w.pos <= |w.env.script| && |w.output| <= w.env.writerLimit
    ensures LeaderOnConnection(w, grid).error == LeaderResultOf(w, grid)
  {
    hide AwaitLeader, Frames, FirstEnd, ResizeResultOf, ResizeOnConnection;
    if w.env.leaderCap && w.Writable() {
      var asked := w.Write(AskLeader);
      AwaitLeaderExactly(asked);
      AwaitLeaderWaits(asked);
      var r := AwaitLeader(asked);
      if r.error.None? && grid.Some? {
        ResizeExactly(r.wire, grid.value.0, grid.value.1);
      }
    }
  }

  /** The plainest success: a status reply comes next. */
  lemma StatusReplyIsSuccess(w: Wire, cols: nat, rows: nat)
    requires w.pos < |w.env.script| && w.env.script[w.pos] == Control(StatusResponse)
    requires cols > 0 && rows > 0 && w.leader && |w.sent| + 2 <= w.env.sendLimit && |w.output| <= w.env.writerLimit
    ensures ResizeOnConnection(w, cols, rows).error == None
  {
    ResizeExactly(w, cols, rows);
    assert Frames(w.env.script, w.pos + 1, w.pos, false, None) == 0;
    assert Frames(w.env.script, w.pos, w.pos, false, None) == 0;
  }
}
