/**
 `Resize` has no acknowledgement. Both resize paths of the gateway follow it with a
 `StatusQuery` on the same connection and take the `StatusResponse` as proof that the
 resize went through, relying on the daemon handling one connection's frames in order.
 The daemon here is any schedule of handling the next request and of broadcasts.
 */
module ResizeBarrier {
  import opened Options

  datatype ErrorCode = ModeNotLeader | OtherCode(name: string)

  /** What one connection writes; `Plain` is any other request (raw input, leader.request, ...). */
  datatype Request = Resize(cols: nat, rows: nat) | StatusQuery | Plain

  /**
   What one connection reads. `Notice` is any control message that answers nothing (leader.notify,
   mode.change, ...).
   */
  datatype Delivery = StatusResponse | Error(code: ErrorCode) | Notice | RawData | Failure

  datatype Action = Handle(verdict: Option<ErrorCode>) | Broadcast(raw: bool)

  // ---- The daemon ----

  function Answer(request: Request, verdict: Option<ErrorCode>): seq<Delivery> {
    if verdict.Some? then [Error(verdict.value)]
    else if request.StatusQuery? then [StatusResponse] else []
  }

  /** Everything the daemon writes to the connection while it follows a schedule. */
  function Stream(pending: seq<Request>, actions: seq<Action>): seq<Delivery>
    decreases |actions|
  {
    if actions == [] then []
    else match actions[0]
      case Broadcast(raw) => [if raw then RawData else Notice] + Stream(pending, actions[1..])
      case Handle(verdict) =>
        if pending == [] then Stream(pending, actions[1..])
        else Answer(pending[0], verdict) + Stream(pending[1..], actions[1..])
  }

  /** The verdicts on the requests handled so far, oldest first. */
  function Verdicts(pending: seq<Request>, actions: seq<Action>): (r: seq<Option<ErrorCode>>)
    ensures |r| <= |pending|
    decreases |actions|
  {
    if actions == [] then []
    else match actions[0]
      case Broadcast(_) => Verdicts(pending, actions[1..])
      case Handle(verdict) =>
        if pending == [] then Verdicts(pending, actions[1..])
        else [verdict] + Verdicts(pending[1..], actions[1..])
  }

  // ---- The waiting client ----

  datatype Outcome = Completed | Refused(code: ErrorCode) | NoAnswer

  /** The first delivery that decides the wait. */
  function Await(incoming: seq<Delivery>): Outcome {
    if incoming == [] then NoAnswer
    else match incoming[0]
      case StatusResponse => Completed
      case Error(code) => Refused(code)
      case Failure => NoAnswer
      case _ => Await(incoming[1..])
  }

  datatype ResizeError = Conflict(code: ErrorCode) | Internal

  /** Why `resize_blocking` may stop before it waits. */
  datatype Start = Start(connected: bool, leader: bool, sent: nat)

  /**
   `resize_blocking`: connect, check the leader flag of the handshake, write both requests,
   wait. `start.sent` is how many of the two writes succeed; `incoming` ends where reading fails.
   */
  method ResizeBlocking(start: Start, cols: nat, rows: nat, incoming: seq<Delivery>)
      returns (written: seq<Request>, error: Option<ResizeError>)
    ensures written <= [Resize(cols, rows), StatusQuery]
    ensures start.connected && start.leader ==> |written| == if start.sent < 2 then start.sent else 2
    ensures error == None <==>
      start.connected && start.leader && |written| == 2 && Await(incoming) == Completed
    ensures error == Some(Conflict(ModeNotLeader)) <==>
      start.connected && (!start.leader || (|written| == 2 && Await(incoming) == Refused(ModeNotLeader)))
    ensures error.Some? && error.value.Conflict? ==> error.value.code.ModeNotLeader?
    ensures written != [] ==> start.connected && start.leader
  {
    written := [];
    if !start.connected {
      return written, Some(Internal);
    }
    if !start.leader {
      return written, Some(Conflict(ModeNotLeader));
    }
    if start.sent == 0 {
      return written, Some(Internal);
    }
    written := [Resize(cols, rows)];
    if start.sent == 1 {
      return written, Some(Internal);
    }
    written := written + [StatusQuery];
    var i := 0;
    while i < |incoming|
      invariant 0 <= i <= |incoming|
      invariant Await(incoming) == Await(incoming[i..])
    {
      match incoming[i] {
        case StatusResponse =>
          return written, None;
        case Error(code) =>
          return written, Some(if code.ModeNotLeader? then Conflict(code) else Internal);
        case Failure =>
          return written, Some(Internal);
        case _ =>
      }
      i := i + 1;
    }
    return written, Some(Internal);
  }

  /** The first delivery that is neither a notice nor raw data decides the wait; without one there is no answer. */
  lemma {:induction false} AwaitIs(incoming: seq<Delivery>, k: nat)
    requires k <= |incoming| && forall i :: 0 <= i < k ==> incoming[i].Notice? || incoming[i].RawData?
    requires k < |incoming| ==> !incoming[k].Notice? && !incoming[k].RawData?
    ensures Await(incoming) ==
      if k == |incoming| || incoming[k].Failure? then NoAnswer
      else if incoming[k].StatusResponse? then Completed
      else Refused(incoming[k].code)
    decreases k
  {
    if k > 0 {
      AwaitIs(incoming[1..], k - 1);
    }
  }

  /** A daemon that handles both requests and refuses neither completes the wait, whatever it broadcasts meanwhile. */
  lemma {:induction false} HandledMeansCompleted(before: seq<Action>, between: seq<Action>, cols: nat, rows: nat)
    requires forall i :: 0 <= i < |before| ==> before[i].Broadcast?
    requires forall i :: 0 <= i < |between| ==> between[i].Broadcast?
    ensures var actions := before + [Handle(None)] + between + [Handle(None)];
      Await(Stream([Resize(cols, rows), StatusQuery], actions)) == Completed
    decreases |before| + |between|
  {
    var pending, actions := [Resize(cols, rows), StatusQuery], before + [Handle(None)] + between + [Handle(None)];
    if before != [] {
      assert actions[1..] == before[1..] + [Handle(None)] + between + [Handle(None)];
      HandledMeansCompleted(before[1..], between, cols, rows);
    } else {
      assert actions[0] == Handle(None) && actions[1..] == between + [Handle(None)];
      assert pending[1..] == [StatusQuery];
      assert Stream(pending, actions) == [] + Stream([StatusQuery], actions[1..]);
      assert [] + Stream([StatusQuery], actions[1..]) == Stream([StatusQuery], actions[1..]);
      QueryStream(between);
    }
  }

  lemma {:induction false} QueryStream(between: seq<Action>)
    requires forall i :: 0 <= i < |between| ==> between[i].Broadcast?
    ensures Await(Stream([StatusQuery], between + [Handle(None)])) == Completed
  {
    var actions := between + [Handle(None)];
    if between != [] {
      assert actions[1..] == between[1..] + [Handle(None)];
      QueryStream(between[1..]);
    } else {
      assert actions[1..] == [];
    }
  }

  // ---- What the status reply proves ----

  ghost predicate NoQuery(requests: seq<Request>) {
    forall i :: 0 <= i < |requests| ==> !requests[i].StatusQuery?
  }

  lemma AwaitSkips(a: Delivery, rest: seq<Delivery>)
    requires a.Notice? || a.RawData?
    ensures Await([a] + rest) == Await(rest)
  {
    assert ([a] + rest)[1..] == rest;
  }

  /**
   Reading any part of what a FIFO daemon writes: if no earlier status reply is outstanding,
   a completed wait means that every request up to and including the resize was handled and
   none of them refused.
   */
  lemma {:induction false} BarrierHolds(
    before: seq<Request>, cols: nat, rows: nat, after: seq<Request>, actions: seq<Action>, seen: nat)
    requires NoQuery(before)
    requires seen <= |Stream(before + [Resize(cols, rows), StatusQuery] + after, actions)|
    requires Await(Stream(before + [Resize(cols, rows), StatusQuery] + after, actions)[..seen]) == Completed
    ensures var verdicts := Verdicts(before + [Resize(cols, rows), StatusQuery] + after, actions);
      |verdicts| >= |before| + 2 && forall i :: 0 <= i < |before| + 2 ==> verdicts[i] == None
    decreases |actions|
  {
    QueryIsPassed(before + [Resize(cols, rows)], after, actions, seen,
                  before + [Resize(cols, rows), StatusQuery] + after);
  }

  lemma {:induction false} QueryIsPassed(
    quiet: seq<Request>, after: seq<Request>, actions: seq<Action>, seen: nat, pending: seq<Request>)
    requires NoQuery(quiet) && pending == quiet + [StatusQuery] + after
    requires seen <= |Stream(pending, actions)| && Await(Stream(pending, actions)[..seen]) == Completed
    ensures var verdicts := Verdicts(pending, actions);
      |verdicts| > |quiet| && forall i :: 0 <= i <= |quiet| ==> verdicts[i] == None
    decreases |actions|
  {
    var stream := Stream(pending, actions);
    if actions != [] {
      match actions[0] {
        case Broadcast(raw) =>
          if seen > 0 {
            assert stream[..seen] == [stream[0]] + Stream(pending, actions[1..])[..seen - 1];
            AwaitSkips(stream[0], Stream(pending, actions[1..])[..seen - 1]);
            QueryIsPassed(quiet, after, actions[1..], seen - 1, pending);
          }
        case Handle(verdict) =>
          if verdict == None && quiet != [] {
            assert pending[1..] == quiet[1..] + [StatusQuery] + after;
            assert stream == Stream(pending[1..], actions[1..]);
            QueryIsPassed(quiet[1..], after, actions[1..], seen, pending[1..]);
          }
      }
    }
  }

  ghost function Handles(n: nat): seq<Action> {
    seq(n, _ => Handle(None))
  }

  lemma {:induction false} HandlingInOrder(pending: seq<Request>, n: nat)
    requires n <= |pending|
    ensures Verdicts(pending, Handles(n)) == seq(n, _ => None)
    decreases n
  {
    if n > 0 {
      assert Handles(n)[1..] == Handles(n - 1);
      HandlingInOrder(pending[1..], n - 1);
    }
  }

  lemma {:induction false} FirstQueryAnswers(pending: seq<Request>, q: nat)
    requires q < |pending| && pending[q].StatusQuery? && NoQuery(pending[..q])
    ensures Stream(pending, Handles(q + 1)) == [StatusResponse]
    decreases q
  {
    assert Handles(q + 1)[1..] == Handles(q);
    if q == 0 {
      assert Handles(0) == [];
    } else {
      assert pending[..q][0] == pending[0] && pending[1..][..q - 1] == pending[..q][1..];
      FirstQueryAnswers(pending[1..], q - 1);
    }
  }

  /**
   The precondition is exact: whatever is pending, if one status reply is still outstanding
   there is a schedule where the wait completes before the daemon has touched the resize.
   */
  lemma StaleReplyProvesNothing(before: seq<Request>, cols: nat, rows: nat, after: seq<Request>)
      returns (actions: seq<Action>)
    requires !NoQuery(before)
    ensures var pending := before + [Resize(cols, rows), StatusQuery] + after;
      Await(Stream(pending, actions)) == Completed && |Verdicts(pending, actions)| <= |before|
  {
    var pending := before + [Resize(cols, rows), StatusQuery] + after;
    var q := 0;
    while !before[q].StatusQuery?
      invariant 0 <= q < |before| && NoQuery(before[..q])
      invariant exists i :: q <= i < |before| && before[i].StatusQuery?
      decreases |before| - q
    {
      q := q + 1;
    }
    assert pending[..q] == before[..q];
    FirstQueryAnswers(pending, q);
    HandlingInOrder(pending, q + 1);
    actions := Handles(q + 1);
  }

  function Queries(requests: seq<Request>): nat {
    if requests == [] then 0 else (if requests[0].StatusQuery? then 1 else 0) + Queries(requests[1..])
  }

  function Responses(deliveries: seq<Delivery>): nat {
    if deliveries == [] then 0 else (if deliveries[0].StatusResponse? then 1 else 0) + Responses(deliveries[1..])
  }

  lemma {:induction false} ResponsesConcat(a: seq<Delivery>, b: seq<Delivery>)
    ensures Responses(a + b) == Responses(a) + Responses(b)
  {
    if a == [] {
      assert a + b == b;
    } else {
      ResponsesConcat(a[1..], b);
      assert (a + b)[1..] == a[1..] + b;
    }
  }

  lemma {:induction false} QueriesConcat(a: seq<Request>, b: seq<Request>)
    ensures Queries(a + b) == Queries(a) + Queries(b)
  {
    if a == [] {
      assert a + b == b;
    } else {
      QueriesConcat(a[1..], b);
      assert (a + b)[1..] == a[1..] + b;
    }
  }

  /** In any part of the stream there are at most as many status replies as there are handled queries. */
  lemma {:induction false} RepliesComeFromHandledQueries(pending: seq<Request>, actions: seq<Action>)
    ensures Responses(Stream(pending, actions)) <= Queries(pending[..|Verdicts(pending, actions)|])
    decreases |actions|
  {
    if actions != [] {
      match actions[0] {
        case Broadcast(raw) =>
          ResponsesConcat([if raw then RawData else Notice], Stream(pending, actions[1..]));
          RepliesComeFromHandledQueries(pending, actions[1..]);
        case Handle(verdict) =>
          if pending == [] {
            RepliesComeFromHandledQueries(pending, actions[1..]);
          } else {
            var rest := Verdicts(pending[1..], actions[1..]);
            RepliesComeFromHandledQueries(pending[1..], actions[1..]);
            ResponsesConcat(Answer(pending[0], verdict), Stream(pending[1..], actions[1..]));
            assert pending[..|rest| + 1][1..] == pending[1..][..|rest|];
          }
      }
    }
  }

  lemma QueriesWithoutLast(pending: seq<Request>, n: nat)
    requires pending != [] && pending[|pending| - 1].StatusQuery? && n <= |pending|
    ensures n < |pending| ==> Queries(pending[..n]) < Queries(pending)
  {
    if n < |pending| {
      var last := |pending| - 1;
      assert pending == pending[..n] + pending[n..last] + [pending[last]];
      QueriesConcat(pending[..n] + pending[n..last], [pending[last]]);
      QueriesConcat(pending[..n], pending[n..last]);
    }
  }

  /** A client that has as many replies as it sent queries, the last write being a query, has had everything handled. */
  lemma AllAnsweredMeansAllHandled(pending: seq<Request>, actions: seq<Action>, read: seq<Delivery>)
    requires pending != [] && pending[|pending| - 1].StatusQuery?
    requires read <= Stream(pending, actions) && Responses(read) >= Queries(pending)
    ensures |Verdicts(pending, actions)| == |pending|
  {
    var stream, handled := Stream(pending, actions), |Verdicts(pending, actions)|;
    assert stream == read + stream[|read|..];
    ResponsesConcat(read, stream[|read|..]);
    RepliesComeFromHandledQueries(pending, actions);
    QueriesWithoutLast(pending, handled);
  }

  /** The HTTP resize: it reports success only if the daemon applied that very resize. */
  method ResizeThroughDaemon(start: Start, cols: nat, rows: nat, actions: seq<Action>, seen: nat)
      returns (error: Option<ResizeError>)
    requires seen <= |Stream([Resize(cols, rows), StatusQuery], actions)|
    ensures error == None ==>
      var verdicts := Verdicts([Resize(cols, rows), StatusQuery], actions);
      |verdicts| == 2 && verdicts[0] == None
  {
    var pending := [Resize(cols, rows), StatusQuery];
    var written;
    written, error := ResizeBlocking(start, cols, rows, Stream(pending, actions)[..seen]);
    if error == None {
      assert [] + pending + [] == pending;
      BarrierHolds([], cols, rows, [], actions, seen);
    }
  }

  // ---- Before and after a moment ----

  lemma {:induction false} VerdictsSplit(pending: seq<Request>, a: seq<Action>, b: seq<Action>)
    ensures Verdicts(pending, a + b) == Verdicts(pending, a) + Verdicts(pending[|Verdicts(pending, a)|..], b)
    decreases |a|
  {
    if a == [] {
      assert a + b == b && pending[0..] == pending;
    } else {
      assert (a + b)[0] == a[0] && (a + b)[1..] == a[1..] + b;
      if a[0].Handle? && pending != [] {
        VerdictsSplit(pending[1..], a[1..], b);
        var k := |Verdicts(pending[1..], a[1..])|;
        assert pending[1..][k..] == pending[k + 1..];
      } else {
        VerdictsSplit(pending, a[1..], b);
      }
    }
  }

  lemma {:induction false} StreamSplits(pending: seq<Request>, a: seq<Action>, b: seq<Action>)
    ensures Stream(pending, a + b) == Stream(pending, a) + Stream(pending[|Verdicts(pending, a)|..], b)
    decreases |a|
  {
    if a == [] {
      assert a + b == b && pending[0..] == pending;
    } else {
      assert (a + b)[0] == a[0] && (a + b)[1..] == a[1..] + b;
      if a[0].Handle? && pending != [] {
        StreamSplits(pending[1..], a[1..], b);
        var k := |Verdicts(pending[1..], a[1..])|;
        assert pending[1..][k..] == pending[k + 1..];
      } else {
        StreamSplits(pending, a[1..], b);
      }
    }
  }

  /** What the daemon does before it sees later requests does not depend on them. */
  lemma {:induction false} LaterRequestsDoNotMatter(pending: seq<Request>, later: seq<Request>, actions: seq<Action>)
    requires |Verdicts(pending + later, actions)| <= |pending|
    ensures Stream(pending + later, actions) == Stream(pending, actions)
    ensures Verdicts(pending + later, actions) == Verdicts(pending, actions)
    decreases |actions|
  {
    if actions != [] {
      match actions[0] {
        case Broadcast(raw) => LaterRequestsDoNotMatter(pending, later, actions[1..]);
        case Handle(verdict) =>
          if pending == [] {
            assert pending + later == later;
            if later == [] {
              LaterRequestsDoNotMatter(pending, later, actions[1..]);
            }
          } else {
            assert (pending + later)[1..] == pending[1..] + later;
            LaterRequestsDoNotMatter(pending[1..], later, actions[1..]);
          }
      }
    }
  }

  lemma {:induction false} QueriesIsZero(requests: seq<Request>)
    ensures Queries(requests) == 0 <==> NoQuery(requests)
  {
    if requests != [] {
      QueriesIsZero(requests[1..]);
      assert forall i :: 1 <= i < |requests| ==> requests[i] == requests[1..][i - 1];
    }
  }

  lemma {:induction false} ResponsesIsZero(deliveries: seq<Delivery>)
    requires Responses(deliveries) == 0
    ensures StatusResponse !in deliveries
  {
    if deliveries != [] {
      ResponsesIsZero(deliveries[1..]);
    }
  }

  /** What a wait reads up to a status reply, with nothing decisive before it. */
  ghost predicate Barrier(read: seq<Delivery>) {
    && read != [] && read[|read| - 1] == StatusResponse
    && forall i :: 0 <= i < |read| - 1 ==> read[i].Notice? || read[i].RawData?
  }

  lemma {:induction false} BarrierCompletes(read: seq<Delivery>)
    requires Barrier(read)
    ensures Await(read) == Completed
  {
    if |read| > 1 {
      BarrierCompletes(read[1..]);
    }
  }

  /**
   The barrier in the middle of a connection's life. By `before` the daemon had written what
   begins with `seen`, a reply to every query among `sent`; then a resize and its query are
   written, and up to a status reply nothing decisive is read. The resize was accepted, and so
   was everything still unhandled before it.
   */
  lemma BarrierInMidstream(
      sent: seq<Request>, cols: nat, rows: nat, before: seq<Action>, after: seq<Action>,
      seen: seq<Delivery>, read: seq<Delivery>)
    requires seen <= Stream(sent, before)
    requires var pending := sent + [Resize(cols, rows), StatusQuery];
      |Verdicts(pending, before)| <= |sent| && seen + read <= Stream(pending, before + after)
    requires Responses(seen) >= Queries(sent) && Barrier(read)
    ensures var verdicts := Verdicts(sent + [Resize(cols, rows), StatusQuery], before + after);
      && |verdicts| == |sent| + 2
      && forall i :: |Verdicts(sent, before)| <= i < |sent| + 2 ==> verdicts[i] == None
  {
    hide Stream, Verdicts;
    var later := [Resize(cols, rows), StatusQuery];
    var pending := sent + later;
    LaterRequestsDoNotMatter(sent, later, before);
    StreamSplits(pending, before, after);
    VerdictsSplit(pending, before, after);
    var k, first := |Verdicts(sent, before)|, Stream(sent, before);
    var unread, rest := first[|seen|..], Stream(pending[k..], after);
    assert first == seen + unread;
    AllRepliesSeen(sent, before, seen, unread);
    assert seen + read <= seen + (unread + rest);
    PrefixAfter(seen, read, unread + rest);
    ReadPastUnread(unread, rest, read);
    var mine := read[|unread|..];
    BarrierCompletes(mine);
    var quiet := sent[k..] + [Resize(cols, rows)];
    assert pending[k..] == quiet + [StatusQuery] + [];
    assert mine == rest[..|mine|];
    QueryIsPassed(quiet, [], after, |mine|, pending[k..]);
  }

  lemma PrefixAfter<T>(a: seq<T>, b: seq<T>, c: seq<T>)
    requires a + b <= a + c
    ensures b <= c
  {
    assert b == (a + b)[|a|..] && c == (a + c)[|a|..];
  }

  lemma AllRepliesSeen(sent: seq<Request>, before: seq<Action>, seen: seq<Delivery>, unread: seq<Delivery>)
    requires Stream(sent, before) == seen + unread && Responses(seen) >= Queries(sent)
    ensures StatusResponse !in unread && NoQuery(sent[|Verdicts(sent, before)|..])
  {
    hide Stream, Verdicts;
    var k := |Verdicts(sent, before)|;
    RepliesComeFromHandledQueries(sent, before);
    ResponsesConcat(seen, unread);
    assert sent == sent[..k] + sent[k..];
    QueriesConcat(sent[..k], sent[k..]);
    QueriesIsZero(sent[k..]);
    ResponsesIsZero(unread);
  }

  lemma ReadPastUnread(unread: seq<Delivery>, rest: seq<Delivery>, read: seq<Delivery>)
    requires read <= unread + rest && Barrier(read) && StatusResponse !in unread
    ensures |unread| < |read| && read[|unread|..] <= rest && Barrier(read[|unread|..])
  {
    var last := |read| - 1;
    assert (unread + rest)[last] == read[last];
    assert read == unread + read[|unread|..];
    PrefixAfter(unread, read[|unread|..], rest);
  }
}
