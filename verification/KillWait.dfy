/**
 `hyoui kill --wait`: send a signal, watch for the child's exit until a deadline, escalate to
 SIGKILL once if asked to, and then wait for the daemon to let go of its name lock and socket.
 The clock and the daemon are a list of ticks, one per iteration of the wait loop.
 */
module KillWait {
  import opened Options

  /** Milliseconds granted after the escalation. */
  const ESCALATE_REAP_BUDGET: int := 10000

  datatype Config = Config(signal: Option<string>, timeoutMs: nat, killOnTimeout: bool)

  /** What one `recv_control` gives: `Skipped` is any message that decides nothing. */
  datatype Event = Rejected | ExitNotice | Skipped | ReadTimeout | Eof

  /**
   One iteration: the clock when the remaining time is taken, what is received, whether the
   escalation could be sent and the clock after sending it, whether the read timeout could be set.
   */
  datatype Tick = Tick(now: int, event: Event, sendOk: bool, after: int, timeoutOk: bool)

  datatype State = State(deadline: int, escalated: bool, kills: seq<Option<string>>)

  datatype Verdict = Waiting | Seen | Exit(code: nat)

  datatype Step = Step(state: State, verdict: Verdict)

  function Iterate(cfg: Config, s: State, t: Tick): Step {
    if t.now >= s.deadline then
      if cfg.killOnTimeout && !s.escalated then
        if !t.sendOk then Step(s, Exit(1))
        else Step(State(t.after + ESCALATE_REAP_BUDGET, true, s.kills + [Some("SIGKILL")]), Waiting)
      else Step(s, Exit(if s.escalated then 1 else 3))
    else if !t.timeoutOk then Step(s, Exit(1))
    else
      match t.event
      case Rejected => Step(s, Exit(1))
      case ExitNotice => Step(s, Seen)
      case Eof => Step(s, Seen)
      case _ => Step(s, Waiting)
  }

  /** The loop over a whole list of ticks. */
  function Watch(cfg: Config, s: State, ticks: seq<Tick>): Step
    decreases |ticks|
  {
    if ticks == [] then Step(s, Waiting)
    else
      var first := Iterate(cfg, s, ticks[0]);
      if first.verdict.Waiting? then Watch(cfg, first.state, ticks[1..]) else first
  }

  function Started(cfg: Config, start: int): State {
    State(start + cfg.timeoutMs, false, [cfg.signal])
  }

  /** The wait loop itself; `used` is the number of iterations it took. */
  method WaitLoop(cfg: Config, start: int, ticks: seq<Tick>) returns (r: Step, used: nat)
    ensures r == Watch(cfg, Started(cfg, start), ticks)
    ensures used <= |ticks| && r == Watch(cfg, Started(cfg, start), ticks[..used])
    ensures r.verdict.Waiting? ==> used == |ticks|
  {
    var deadline, escalated := start + cfg.timeoutMs, false;
    var kills := [cfg.signal];
    used := 0;
    assert ticks[0..] == ticks;
    while used < |ticks|
      invariant 0 <= used <= |ticks|
      invariant Watch(cfg, Started(cfg, start), ticks) == Watch(cfg, State(deadline, escalated, kills), ticks[used..])
      invariant Watch(cfg, Started(cfg, start), ticks[..used]) == Step(State(deadline, escalated, kills), Waiting)
    {
      var t := ticks[used];
      ghost var s := State(deadline, escalated, kills);
      assert ticks[used..][1..] == ticks[used + 1..];
      WatchSnoc(cfg, Started(cfg, start), ticks[..used], t);
      assert ticks[..used + 1] == ticks[..used] + [t];
      used := used + 1;
      if t.now >= deadline {
        if cfg.killOnTimeout && !escalated {
          if !t.sendOk {
            return Step(State(deadline, escalated, kills), Exit(1)), used;
          }
          kills := kills + [Some("SIGKILL")];
          escalated, deadline := true, t.after + ESCALATE_REAP_BUDGET;
          continue;
        }
        return Step(State(deadline, escalated, kills), Exit(if escalated then 1 else 3)), used;
      }
      if !t.timeoutOk || t.event.Rejected? {
        return Step(State(deadline, escalated, kills), Exit(1)), used;
      }
      if t.event.ExitNotice? || t.event.Eof? {
        return Step(State(deadline, escalated, kills), Seen), used;
      }
    }
    assert ticks[..used] == ticks;
    return Step(State(deadline, escalated, kills), Waiting), used;
  }

  lemma {:induction false} WatchSnoc(cfg: Config, s: State, ticks: seq<Tick>, t: Tick)
    ensures var r := Watch(cfg, s, ticks);
      Watch(cfg, s, ticks + [t]) == if r.verdict.Waiting? then Iterate(cfg, r.state, t) else r
    decreases |ticks|
  {
    if ticks == [] {
      assert (ticks + [t])[1..] == [];
    } else {
      assert (ticks + [t])[1..] == ticks[1..] + [t];
      var first := Iterate(cfg, s, ticks[0]);
      if first.verdict.Waiting? {
        WatchSnoc(cfg, first.state, ticks[1..], t);
      }
    }
  }

  lemma WatchNothing(cfg: Config, s: State, ticks: seq<Tick>)
    requires ticks == []
    ensures Watch(cfg, s, ticks) == Step(s, Waiting)
  {
  }

  /** The kill frames of a run: the requested signal, and SIGKILL at most once after it. */
  ghost predicate Kills(cfg: Config, s: State) {
    s.kills == [cfg.signal] + if s.escalated then [Some("SIGKILL")] else []
  }

  /**
   In every run: one kill frame, and a second one only as SIGKILL, with the flag set and after
   the first deadline had passed; exit 3 means that no escalation was asked for or sent and
   that the deadline had passed; success means an exit notice or EOF, received in time.
   */
  lemma {:induction false} KillTheorem(cfg: Config, start: int, ticks: seq<Tick>)
    ensures var r := Watch(cfg, Started(cfg, start), ticks);
      && Kills(cfg, r.state)
      && (r.state.escalated ==>
            cfg.killOnTimeout && exists t :: t in ticks && t.now >= start + cfg.timeoutMs && t.sendOk)
      && (r.verdict == Exit(3) ==>
            && !cfg.killOnTimeout && r.state == Started(cfg, start)
            && exists t :: t in ticks && t.now >= start + cfg.timeoutMs)
      && (r.verdict == Seen ==>
            exists t :: t in ticks && t.now < r.state.deadline && (t.event.ExitNotice? || t.event.Eof?))
    decreases |ticks|
  {
    if ticks != [] {
      var n := |ticks| - 1;
      var init, t := ticks[..n], ticks[n];
      assert ticks == init + [t];
      KillTheorem(cfg, start, init);
      WatchSnoc(cfg, Started(cfg, start), init, t);
      assert t in ticks && forall x :: x in init ==> x in ticks;
      UnescalatedKeepsDeadline(cfg, Started(cfg, start), init);
    }
  }

  lemma {:induction false} UnescalatedKeepsDeadline(cfg: Config, s: State, ticks: seq<Tick>)
    ensures var r := Watch(cfg, s, ticks); s.escalated == r.state.escalated ==> r.state == s
    ensures s.escalated ==> Watch(cfg, s, ticks).state.escalated
    decreases |ticks|
  {
    if ticks != [] && Iterate(cfg, s, ticks[0]).verdict.Waiting? {
      UnescalatedKeepsDeadline(cfg, Iterate(cfg, s, ticks[0]).state, ticks[1..]);
    }
  }

  /** Iterations that neither meet the deadline nor decide anything. */
  ghost predicate Idle(s: State, t: Tick) {
    t.now < s.deadline && t.timeoutOk && (t.event.Skipped? || t.event.ReadTimeout?)
  }

  /** The ticks without the idle ones. */
  ghost function Essential(cfg: Config, s: State, ticks: seq<Tick>): seq<Tick>
    decreases |ticks|
  {
    if ticks == [] then []
    else if Idle(s, ticks[0]) then Essential(cfg, s, ticks[1..])
    else [ticks[0]] + Essential(cfg, Iterate(cfg, s, ticks[0]).state, ticks[1..])
  }

  /** However many broadcasts and read timeouts come in, the run ends the same way with the same deadlines. */
  lemma {:induction false} BroadcastsChangeNothing(cfg: Config, s: State, ticks: seq<Tick>)
    ensures Watch(cfg, s, Essential(cfg, s, ticks)) == Watch(cfg, s, ticks)
    decreases |ticks|
  {
    if ticks != [] {
      var s' := Iterate(cfg, s, ticks[0]).state;
      if Idle(s, ticks[0]) {
        BroadcastsChangeNothing(cfg, s, ticks[1..]);
      } else {
        BroadcastsChangeNothing(cfg, s', ticks[1..]);
        assert ([ticks[0]] + Essential(cfg, s', ticks[1..]))[1..] == Essential(cfg, s', ticks[1..]);
      }
    }
  }

  ghost predicate InOrder(ticks: seq<Tick>) {
    && (forall i :: 0 <= i < |ticks| ==> ticks[i].now <= ticks[i].after)
    && (forall i, j :: 0 <= i < j < |ticks| ==> ticks[i].after <= ticks[j].now)
  }

  /** Tick `k` is the first past the first deadline, and no tick is past the deadline it set. */
  ghost predicate EscalatedAt(cfg: Config, start: int, ticks: seq<Tick>, k: nat, deadline: int) {
    && k < |ticks| && ticks[k].now >= start + cfg.timeoutMs && deadline == ticks[k].after + ESCALATE_REAP_BUDGET
    && (forall i :: 0 <= i < k ==> ticks[i].now < start + cfg.timeoutMs)
    && (forall i :: 0 <= i < |ticks| ==> ticks[i].now < deadline)
  }

  /** The loop never looks past its deadlines: a run that is still waiting has seen the clock only before them. */
  lemma {:induction false} WaitIsBounded(cfg: Config, start: int, ticks: seq<Tick>) returns (k: nat)
    requires InOrder(ticks) && Watch(cfg, Started(cfg, start), ticks).verdict.Waiting?
    ensures var s := Watch(cfg, Started(cfg, start), ticks).state;
      && (!s.escalated ==> forall i :: 0 <= i < |ticks| ==> ticks[i].now < start + cfg.timeoutMs)
      && (s.escalated ==> EscalatedAt(cfg, start, ticks, k, s.deadline))
    decreases |ticks|
  {
    hide Watch;
    k := 0;
    if ticks == [] {
      WatchNothing(cfg, Started(cfg, start), ticks);
    } else {
      var n := |ticks| - 1;
      var init, t := ticks[..n], ticks[n];
      assert ticks == init + [t];
      WatchSnoc(cfg, Started(cfg, start), init, t);
      k := WaitIsBounded(cfg, start, init);
      UnescalatedKeepsDeadline(cfg, Started(cfg, start), init);
      if !Watch(cfg, Started(cfg, start), init).state.escalated {
        k := n;
      }
    }
  }

  // ---- Exactly how the wait goes ----

  /** What a tick brings when the deadline has not passed. */
  function Brings(t: Tick): Verdict {
    if !t.timeoutOk || t.event.Rejected? then Exit(1)
    else if t.event.ExitNotice? || t.event.Eof? then Seen
    else Waiting
  }

  predicate GoesBy(t: Tick, deadline: int) {
    t.now < deadline && Brings(t).Waiting?
  }

  /**
   Up to tick `k`, from tick `from` on, nothing happens before the deadline; at tick `k`, if there is
   one, something does.
   */
  ghost predicate FirstEvent(ticks: seq<Tick>, from: nat, k: nat, deadline: int) {
    && from <= k <= |ticks|
    && (forall i :: from <= i < k ==> GoesBy(ticks[i], deadline))
    && (k < |ticks| ==> !GoesBy(ticks[k], deadline))
  }

  /** One deadline: the ticks before the first event change nothing, and that event decides. */
  lemma {:induction false} PhaseIs(cfg: Config, s: State, ticks: seq<Tick>, k: nat)
    requires FirstEvent(ticks, 0, k, s.deadline)
    ensures k == |ticks| ==> Watch(cfg, s, ticks) == Step(s, Waiting)
    ensures k < |ticks| ==>
      Watch(cfg, s, ticks) ==
      if ticks[k].now < s.deadline then Step(s, Brings(ticks[k]))
      else if s.escalated then Step(s, Exit(1))
      else if !cfg.killOnTimeout then Step(s, Exit(3))
      else if !ticks[k].sendOk then Step(s, Exit(1))
      else Watch(cfg, State(ticks[k].after + 10000, true, s.kills + [Some("SIGKILL")]), ticks[k + 1..])
    decreases k
  {
    if k > 0 {
      assert forall i :: 0 <= i < k - 1 ==> ticks[1..][i] == ticks[i + 1];
      PhaseIs(cfg, s, ticks[1..], k - 1);
      assert k < |ticks| ==> ticks[1..][k - 1] == ticks[k] && ticks[1..][k..] == ticks[k + 1..];
    }
  }

  /**
   The whole wait, from the first event before or at the first deadline, tick `k`, and the first
   event after an escalation, tick `m`. SIGKILL is sent exactly if tick `k` is past the deadline
   with the flag set and the frame goes out; the wait then goes on until ten seconds later.
   */
  lemma KillExactly(cfg: Config, start: int, ticks: seq<Tick>, k: nat, m: nat)
    requires FirstEvent(ticks, 0, k, start + cfg.timeoutMs)
    requires k < |ticks| ==> FirstEvent(ticks, k + 1, m, ticks[k].after + 10000)
    ensures var first, both := [cfg.signal], [cfg.signal, Some("SIGKILL")];
      var deadline := start + cfg.timeoutMs;
      Watch(cfg, Started(cfg, start), ticks) ==
        if k == |ticks| then Step(State(deadline, false, first), Waiting)
        else if ticks[k].now < deadline then Step(State(deadline, false, first), Brings(ticks[k]))
        else if !cfg.killOnTimeout then Step(State(deadline, false, first), Exit(3))
        else if !ticks[k].sendOk then Step(State(deadline, false, first), Exit(1))
        else
          var later := State(ticks[k].after + 10000, true, both);
          if m == |ticks| then Step(later, Waiting)
          else if ticks[m].now < later.deadline then Step(later, Brings(ticks[m]))
          else Step(later, Exit(1))
  {
    hide Watch;
    PhaseIs(cfg, Started(cfg, start), ticks, k);
    if k < |ticks| {
      var rest := ticks[k + 1..];
      assert forall i :: 0 <= i < |rest| ==> rest[i] == ticks[k + 1 + i];
      assert FirstEvent(rest, 0, m - (k + 1), ticks[k].after + 10000);
      assert [cfg.signal] + [Some("SIGKILL")] == [cfg.signal, Some("SIGKILL")];
      PhaseIs(cfg, State(ticks[k].after + 10000, true, [cfg.signal, Some("SIGKILL")]), rest, m - (k + 1));
    }
  }

  /** There always are such ticks. */
  lemma {:induction false} FirstEventExists(ticks: seq<Tick>, from: nat, deadline: int) returns (k: nat)
    requires from <= |ticks|
    ensures FirstEvent(ticks, from, k, deadline)
    decreases |ticks| - from
  {
    if from == |ticks| || !GoesBy(ticks[from], deadline) {
      k := from;
    } else {
      k := FirstEventExists(ticks, from + 1, deadline);
    }
  }

  /** With the flag and a working connection, a wait that sees nothing by its deadline sends SIGKILL and goes on. */
  lemma {:induction false} EscalationHappens(cfg: Config, start: int, ticks: seq<Tick>)
    requires ticks != [] && cfg.killOnTimeout
    requires var last := ticks[|ticks| - 1]; last.now >= start + cfg.timeoutMs && last.sendOk
    requires forall i :: 0 <= i < |ticks| - 1 ==> GoesBy(ticks[i], start + cfg.timeoutMs)
    ensures var later := State(ticks[|ticks| - 1].after + 10000, true, [cfg.signal, Some("SIGKILL")]);
      Watch(cfg, Started(cfg, start), ticks) == Step(later, Waiting)
  {
    KillExactly(cfg, start, ticks, |ticks| - 1, |ticks|);
  }
}
