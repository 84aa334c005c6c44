/**
 The self-pipe between the WebSocket reader task and the blocking bridge thread. The
 reader puts a command in the queue and then writes one wake byte; the bridge polls,
 reads at most one buffer of wake bytes per wake and drains the queue. Queue and pipe
 are separate, so every step of either side may fall between two steps of the other.
 */
module Wakeup {
  /** Wake bytes taken by the one `read` of a wake. */
  const READ_SIZE: nat := 128

  datatype Command = Input(id: nat) | Shutdown

  /** `Sent` is the gap between the queue send and the pipe write. */
  datatype Reader = Idle | Sent(last: bool) | Exited

  /**
   `Woken`: poll reported the pipe. `Draining`: the wake bytes were read. `Busy`: the queue was
   drained, or poll reported only the daemon.
   */
  datatype Bridge = Polling | Woken | Draining | Busy | Closed

  datatype State = State(
    reader: Reader, bridge: Bridge, queue: seq<Command>, pipe: nat, capacity: nat,
    sent: seq<Command>, taken: seq<Command>)

  datatype Event = Send(c: Command) | Wake | PollPipe | PollDaemon | Read | Take | Empty | Again

  predicate Enabled(s: State, e: Event) {
    match e
    case Send(_) => s.reader.Idle?
    case Wake => s.reader.Sent? && s.pipe < s.capacity
    case PollPipe => s.bridge.Polling? && s.pipe > 0
    case PollDaemon => s.bridge.Polling?
    case Read => s.bridge.Woken?
    case Take => s.bridge.Draining? && s.queue != []
    case Empty => s.bridge.Draining? && s.queue == []
    case Again => s.bridge.Busy?
  }

  function Step(s: State, e: Event): State
    requires Enabled(s, e)
  {
    match e
    case Send(c) => s.(reader := Sent(c.Shutdown?), queue := s.queue + [c], sent := s.sent + [c])
    case Wake => s.(reader := if s.reader.last then Exited else Idle, pipe := s.pipe + 1)
    case PollPipe => s.(bridge := Woken)
    case PollDaemon => s.(bridge := Busy)
    case Read => s.(bridge := Draining, pipe := if s.pipe < READ_SIZE then 0 else s.pipe - READ_SIZE)
    case Take =>
      s.(bridge := if s.queue[0].Shutdown? then Closed else Draining,
         queue := s.queue[1..],
         taken := s.taken + [s.queue[0]])
    case Empty => s.(bridge := Busy)
    case Again => s.(bridge := Polling)
  }

  ghost predicate Runs(s: State, events: seq<Event>)
    decreases |events|
  {
    events == [] || (Enabled(s, events[0]) && Runs(Step(s, events[0]), events[1..]))
  }

  ghost function After(s: State, events: seq<Event>): State
    requires Runs(s, events)
    decreases |events|
  {
    if events == [] then s else After(Step(s, events[0]), events[1..])
  }

  ghost predicate Initial(s: State) {
    && s.reader.Idle? && s.bridge.Polling? && s.queue == [] && s.pipe == 0 && s.capacity > 0
    && s.sent == [] && s.taken == []
  }

  /** Away from a drain, whatever is queued is announced in the pipe or is about to be. */
  ghost predicate Announced(s: State) {
    && s.capacity > 0
    && s.sent == s.taken + s.queue
    && (s.bridge.Closed? <==> Shutdown in s.taken)
    && (s.reader.Exited? ==> Shutdown in s.sent)
    && (s.reader.Sent? && s.reader.last ==> Shutdown in s.sent)
    && (s.queue != [] ==> s.pipe > 0 || s.reader.Sent? || s.bridge.Draining? || s.bridge.Closed?)
  }

  lemma {:induction false} AnnouncedInEveryRun(s: State, events: seq<Event>)
    requires Announced(s) && Runs(s, events)
    ensures Announced(After(s, events))
    decreases |events|
  {
    if events != [] {
      var e := events[0];
      if e.Take? {
        assert [s.queue[0]] + s.queue[1..] == s.queue;
      }
      AnnouncedInEveryRun(Step(s, e), events[1..]);
    }
  }

  /**
   In every reachable state: commands are taken in the order they were sent, none twice and
   none skipped; a bridge about to poll sees a byte for any queued command unless the reader
   is in its gap; and a bridge that would block with a command queued is about to be woken.
   */
  lemma NoLostWakeup(s: State, events: seq<Event>)
    requires Initial(s) && Runs(s, events)
    ensures var end := After(s, events);
      && end.taken + end.queue == end.sent
      && (end.bridge.Closed? <==> Shutdown in end.taken)
      && (end.bridge.Polling? && end.queue != [] && !end.reader.Sent? ==> Enabled(end, PollPipe))
      && (end.bridge.Polling? && end.queue != [] && !Enabled(end, PollPipe) ==> Enabled(end, Wake))
  {
    AnnouncedInEveryRun(s, events);
  }

  lemma {:induction false} RunsConcat(s: State, a: seq<Event>, b: seq<Event>)
    requires Runs(s, a) && Runs(After(s, a), b)
    ensures Runs(s, a + b) && After(s, a + b) == After(After(s, a), b)
    decreases |a|
  {
    if a == [] {
      assert a + b == b;
    } else {
      RunsConcat(Step(s, a[0]), a[1..], b);
      assert (a + b)[0] == a[0] && (a + b)[1..] == a[1..] + b;
    }
  }

  /** The next steps of the wake alone, without any new command. */
  function NextStep(s: State): Event
    requires Announced(s) && s.queue != [] && !s.bridge.Closed?
  {
    match s.bridge
    case Polling => if s.pipe > 0 then PollPipe else Wake
    case Woken => Read
    case Draining => Take
    case Busy => Again
  }

  function Distance(s: State): nat {
    match s.bridge
    case Draining => |s.queue|
    case Woken => |s.queue| + 1
    case Polling => |s.queue| + 2 + if s.pipe > 0 then 0 else 1
    case Busy => |s.queue| + 6
    case Closed => 0
  }

  lemma OneStep(s: State, e: Event)
    requires Announced(s) && Enabled(s, e)
    ensures Runs(s, [e]) && After(s, [e]) == Step(s, e) && Announced(Step(s, e))
  {
    assert [e][1..] == [];
    assert Runs(Step(s, e), []);
    assert After(Step(s, e), []) == Step(s, e);
    AnnouncedInEveryRun(s, [e]);
  }

  /** From any announced state the two sides alone, with nothing new sent, empty the queue or reach the shutdown. */
  lemma {:induction false} EveryCommandIsTaken(s: State) returns (events: seq<Event>)
    requires Announced(s)
    ensures Runs(s, events) && (forall i :: 0 <= i < |events| ==> !events[i].Send?)
    ensures After(s, events).queue == [] || After(s, events).bridge.Closed?
    ensures After(s, events).sent == s.sent
    decreases Distance(s)
  {
    if s.queue == [] || s.bridge.Closed? {
      events := [];
    } else {
      var e := NextStep(s);
      OneStep(s, e);
      var rest := EveryCommandIsTaken(Step(s, e));
      RunsConcat(s, [e], rest);
      events := [e] + rest;
    }
  }
}
