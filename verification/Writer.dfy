/**
 The writer task: it sends what the bridge and the reader task queued, until the queue
 closes, a send fails or a reasoned close turns up, and then closes the WebSocket.
 */
module Writer {
  import opened Options
  import opened Bridge
  import opened BridgeRun

  /** `FromReader` is an error frame or an auth.extend result, `Close` the reader's reasoned close. */
  datatype Queued = FromBridge(frame: Output) | FromReader(text: string) | Close(reason: string)

  datatype Message = Frame(queued: Queued) | CloseFrame(reason: Option<string>)

  function FrontFrames(queue: seq<Queued>): (n: nat)
    ensures n <= |queue|
    ensures forall i :: 0 <= i < n ==> !queue[i].Close?
    ensures n < |queue| ==> queue[n].Close?
  {
    if queue == [] || queue[0].Close? then 0 else 1 + FrontFrames(queue[1..])
  }

  ghost function Frames(queue: seq<Queued>): seq<Message> {
    seq(|queue|, i requires 0 <= i < |queue| => Frame(queue[i]))
  }

  /**
   `limit` is how many sends succeed. What goes out is the queue up to its first reasoned close,
   cut short only by failing sends, and one close message if it can still be sent.
   */
  method RunWriter(queue: seq<Queued>, limit: nat) returns (sent: seq<Message>)
    ensures var n := FrontFrames(queue);
      var reason := if n < |queue| then Some(queue[n].reason) else None;
      sent == if limit <= n then Frames(queue[..limit]) else Frames(queue[..n]) + [CloseFrame(reason)]
  {
    var close: Option<string> := None;
    sent := [];
    var i := 0;
    ghost var n := FrontFrames(queue);
    while i < |queue|
      invariant 0 <= i <= n && close == None
      invariant i <= limit && sent == Frames(queue[..i])
    {
      if queue[i].Close? {
        close := Some(queue[i].reason);
        break;
      }
      if limit <= |sent| {
        break;
      }
      sent := sent + [Frame(queue[i])];
      i := i + 1;
      assert Frames(queue[..i]) == Frames(queue[..i - 1]) + [Frame(queue[i - 1])];
    }
    if |sent| < limit {
      sent := sent + [CloseFrame(close)];
    }
  }

  function BridgePart(q: Queued): seq<Output> {
    if q.FromBridge? then [q.frame] else []
  }

  lemma {:induction false} FirstFromBridge(queue: seq<Queued>) returns (j: nat)
    requires Gather(queue, BridgePart) != []
    ensures j < |queue| && queue[j] == FromBridge(Gather(queue, BridgePart)[0])
  {
    var init := queue[..|queue| - 1];
    if Gather(init, BridgePart) == [] {
      j := |queue| - 1;
    } else {
      j := FirstFromBridge(init);
    }
  }

  lemma HelloIsQueuedFirst(queue: seq<Queued>, i: nat) returns (j: nat)
    requires Greeted(Gather(queue, BridgePart))
    requires i < |queue| && queue[i].FromBridge? && !queue[i].frame.Hello?
    ensures j < i && queue[j] == FromBridge(Hello)
  {
    hide Gather;
    var output := Gather(queue, BridgePart);
    var before, after := Gather(queue[..i], BridgePart), Gather(queue[i + 1..], BridgePart);
    GatherNext(queue, i, BridgePart);
    GatherConcat(queue[..i + 1], queue[i + 1..], BridgePart);
    assert queue == queue[..i + 1] + queue[i + 1..];
    assert output == before + [queue[i].frame] + after;
    assert output[|before|] == queue[i].frame;
    j := FirstFromBridge(queue[..i]);
    assert before[0] == output[0];
  }

  /**
   However the reader's frames are interleaved with those of a bridge run, and wherever the
   writer stops: every bridge frame it sends other than the greeting was preceded by the greeting.
   */
  lemma HelloIsSentFirst(queue: seq<Queued>, b: Session, sent: seq<Message>, k: nat, i: nat)
    requires Kept(b) && Gather(queue, BridgePart) == b.wire.output
    requires i < k <= |queue| && Frames(queue[..k]) <= sent
    requires queue[i].FromBridge? && !queue[i].frame.Hello?
    ensures sent[i] == Frame(queue[i])
    ensures exists j: nat :: j < i && sent[j] == Frame(FromBridge(Hello))
  {
    hide Kept, Gather;
    GreetedOf(b);
    var j := HelloIsQueuedFirst(queue, i);
    assert Frames(queue[..k])[j] == Frame(queue[j]) && Frames(queue[..k])[i] == Frame(queue[i]);
    assert sent[j] == Frame(queue[j]);
  }

  lemma GreetedOf(b: Session)
    requires Kept(b)
    ensures Greeted(b.wire.output)
  {
  }
}
