/**
 How long calls for a token can take: every event that carries calls on uses up part of a
 finite measure, deliveries included, so such events run out, and they run out only when every
 call has returned.
 */
module AuthProgress {
  import opened Options
  import opened AuthShare
  import opened AuthRefresh

  // ---- The measure ----

  /** What is left to do with a message among `n` tabs: an ask may bring an offer for each of them. */
  function MessageWeight(m: Message, n: nat): nat {
    if m.Ask? then n + 1 else 1
  }

  /** And with a call: a queued one may still ask everybody. */
  function CallWeight(c: Call, n: nat): nat {
    match c.phase
    case Queued => n * (n + 1) + n + 4
    case Asking => n + 3
    case Resumed(_) => n + 2
    case Refreshing => n + 1
    case Done(_) => 0
  }

  function CallsLeft(calls: seq<Call>, n: nat): nat {
    if calls == [] then 0 else CallWeight(calls[0], n) + CallsLeft(calls[1..], n)
  }

  ghost function Pick(inflight: multiset<(nat, Message)>): (nat, Message)
    requires inflight != multiset{}
  {
    var x :| x in inflight; x
  }

  ghost function Traffic(inflight: multiset<(nat, Message)>, n: nat): nat
    decreases |inflight|
  {
    if inflight == multiset{} then 0
    else
      var x := Pick(inflight);
      MessageWeight(x.1, n) + Traffic(inflight - multiset{x}, n)
  }

  ghost function Left(s: System): nat {
    CallsLeft(s.calls, |s.tabs|) + Traffic(s.inflight, |s.tabs|)
  }

  // ---- Sums ----

  lemma {:induction false} TrafficWithout(inflight: multiset<(nat, Message)>, x: (nat, Message), n: nat)
    requires x in inflight
    ensures Traffic(inflight, n) == MessageWeight(x.1, n) + Traffic(inflight - multiset{x}, n)
    decreases |inflight|
  {
    var y := Pick(inflight);
    if y != x {
      TrafficWithout(inflight - multiset{y}, x, n);
      TrafficWithout(inflight - multiset{x}, y, n);
      assert inflight - multiset{y} - multiset{x} == inflight - multiset{x} - multiset{y};
    }
  }

  lemma {:induction false} TrafficWith(
      inflight: multiset<(nat, Message)>, more: set<(nat, Message)>, n: nat, weight: nat)
    requires forall x :: x in more ==> MessageWeight(x.1, n) == weight
    ensures Traffic(inflight + multiset(more), n) == Traffic(inflight, n) + |more| * weight
    decreases |more|
  {
    hide Traffic, MessageWeight;
    if more == {} {
      assert inflight + multiset(more) == inflight;
    } else {
      var x :| x in more;
      var rest := more - {x};
      TrafficWith(inflight, rest, n, weight);
      OneMore(inflight, rest, x);
      assert more == rest + {x};
      TrafficWithout(inflight + multiset(more), x, n);
      OneMoreTimes(|rest|, weight);
    }
  }

  lemma OneMore(inflight: multiset<(nat, Message)>, rest: set<(nat, Message)>, x: (nat, Message))
    requires x !in rest
    ensures x in inflight + multiset(rest + {x})
    ensures inflight + multiset(rest + {x}) - multiset{x} == inflight + multiset(rest)
    ensures |rest + {x}| == |rest| + 1
  {
  }

  lemma OneMoreTimes(a: nat, k: nat)
    ensures (a + 1) * k == a * k + k
  {
  }

  lemma {:induction false} AtMost(s: set<(nat, Message)>, message: Message, n: nat)
    requires forall x :: x in s ==> x.0 < n && x.1 == message
    ensures |s| <= n
  {
    if n == 0 {
      assert s == {};
    } else {
      AtMost(s - {(n - 1, message)}, message, n - 1);
    }
  }

  lemma PostedIsBounded(s: System, i: nat, message: Message)
    requires i < |s.tabs|
    ensures var n, to := |s.tabs|, Recipients(s.tabs, i, message);
      Traffic(s.inflight + multiset(to), n) <= Traffic(s.inflight, n) + n * MessageWeight(message, n)
  {
    var n, to := |s.tabs|, Recipients(s.tabs, i, message);
    AtMost(to, message, n);
    TrafficWith(s.inflight, to, n, MessageWeight(message, n));
    AtMostTimes(|to|, n, MessageWeight(message, n));
  }

  lemma AtMostTimes(a: nat, b: nat, k: nat)
    requires a <= b
    ensures a * k <= b * k
  {
  }

  lemma {:induction false} CallsLeftAt(calls: seq<Call>, k: nat, c: Call, n: nat)
    requires k < |calls|
    ensures CallsLeft(calls[k := c], n) + CallWeight(calls[k], n) == CallsLeft(calls, n) + CallWeight(c, n)
  {
    hide CallWeight;
    if k == 0 {
      assert calls[k := c][1..] == calls[1..];
    } else {
      CallsLeftAt(calls[1..], k - 1, c, n);
      assert calls[k := c][1..] == calls[1..][k - 1 := c];
    }
  }

  lemma {:induction false} CallsLeftBelow(calls: seq<Call>, less: seq<Call>, n: nat)
    requires |less| == |calls| && forall k :: 0 <= k < |calls| ==> CallWeight(less[k], n) <= CallWeight(calls[k], n)
    ensures CallsLeft(less, n) <= CallsLeft(calls, n)
  {
    hide CallWeight;
    if calls != [] {
      CallsLeftBelow(calls[1..], less[1..], n);
    }
  }

  lemma SettleLeavesLess(calls: seq<Call>, i: nat, access: Access, n: nat)
    ensures CallsLeft(Settle(calls, i, access), n) <= CallsLeft(calls, n)
  {
    CallsLeftBelow(calls, Settle(calls, i, access), n);
  }

  // ---- Every event of progress uses some of it up ----

  lemma DeliverProgresses(s: System, i: nat, m: Message)
    requires Enabled(s, Deliver(i, m))
    ensures Left(Step(s, Deliver(i, m))) < Left(s) && |Step(s, Deliver(i, m)).tabs| == |s.tabs|
  {
    hide Traffic, CallsLeft, Recipients, Settle;
    var n, effect := |s.tabs|, OnMessage(s.tabs[i], m, s.now);
    TrafficWithout(s.inflight, (i, m), n);
    var rest := s.(inflight := s.inflight - multiset{(i, m)});
    if effect.adopted.Some? {
      SettleLeavesLess(s.calls, i, effect.adopted.value, n);
    }
    if effect.posted.Some? {
      PostedIsBounded(rest, i, effect.posted.value);
    }
  }

  lemma AcquireProgresses(s: System, k: nat)
    requires Enabled(s, Acquire(k))
    ensures Left(StepAcquire(s, k)) < Left(s)
  {
    hide Traffic, CallsLeft, Recipients;
    var s', n := StepAcquire(s, k), |s.tabs|;
    CallsLeftAt(s.calls, k, s'.calls[k], n);
    PostedIsBounded(s, s.calls[k].tab, Ask);
  }

  lemma ServedProgresses(s: System, k: nat, reply: Option<Reply>)
    requires Enabled(s, Served(k, reply))
    ensures Left(Step(s, Served(k, reply))) < Left(s) && |Step(s, Served(k, reply)).tabs| == |s.tabs|
  {
    hide Traffic, CallsLeft, Recipients, Settle;
    var n, i := |s.tabs|, s.calls[k].tab;
    if reply.None? {
      CallsLeftAt(s.calls, k, s.calls[k].(phase := Done(None)), n);
    } else {
      var effect := Announce(s.tabs[i], reply.value, s.now);
      var performed := Perform(s, i, effect);
      PerformLeaves(s, i, effect, k);
      CallsLeftAt(performed.calls, k, performed.calls[k].(phase := Done(effect.adopted)), n);
    }
  }

  lemma PerformLeaves(s: System, i: nat, effect: Effect, k: nat)
    requires i < |s.tabs| && k < |s.calls| && s.calls[k].phase.Refreshing?
    requires effect.posted.Some? ==> effect.posted.value.Offer?
    ensures var s' := Perform(s, i, effect);
      && |s'.tabs| == |s.tabs| && |s'.calls| == |s.calls| && s'.calls[k] == s.calls[k] && Left(s') <= Left(s) + |s.tabs|
  {
    hide Traffic, CallsLeft, Recipients;
    if effect.adopted.Some? {
      SettleLeavesLess(s.calls, i, effect.adopted.value, |s.tabs|);
    }
    if effect.posted.Some? {
      PostedIsBounded(s, i, effect.posted.value);
    }
  }

  lemma ProgressUsesUp(s: System, e: Event)
    requires Enabled(s, e) && IsProgress(e)
    ensures Left(Step(s, e)) < Left(s)
  {
    hide Traffic, CallsLeft;
    match e {
      case Acquire(k) => AcquireProgresses(s, k);
      case Deliver(i, m) => DeliverProgresses(s, i, m);
      case Cutoff(k) => CallsLeftAt(s.calls, k, Step(s, e).calls[k], |s.tabs|);
      case Resume(k) => CallsLeftAt(s.calls, k, Step(s, e).calls[k], |s.tabs|);
      case Served(k, reply) => ServedProgresses(s, k, reply);
    }
  }

  ghost predicate AllProgress(events: seq<Event>) {
    forall i :: 0 <= i < |events| ==> IsProgress(events[i])
  }

  /** No run of such events is longer than what is left at its start. */
  lemma {:induction false} ProgressIsBounded(s: System, events: seq<Event>)
    requires Runs(s, events) && AllProgress(events)
    ensures |events| + Left(After(s, events)) <= Left(s)
    decreases |events|
  {
    hide Step, Left, Enabled;
    if events != [] {
      ProgressUsesUp(s, events[0]);
      ProgressIsBounded(Step(s, events[0]), events[1..]);
    }
  }

  lemma RunsNext(g: Setting, s: System, e: Event, rest: seq<Event>)
    requires Enabled(s, e) && Runs(Step(s, e), rest)
    ensures Runs(s, [e] + rest) && After(s, [e] + rest) == After(Step(s, e), rest)
    ensures Cooperative(g, s, e) && CooperativeRun(g, Step(s, e), rest) ==> CooperativeRun(g, s, [e] + rest)
  {
    hide Step, Enabled, Cooperative;
    assert ([e] + rest)[1..] == rest;
  }

  /** From every state of every run, at most that many events bring every call back. */
  lemma {:induction false} AllReturnInTime(g: Setting, s: System) returns (events: seq<Event>)
    requires Exclusive(s)
    ensures Runs(s, events) && CooperativeRun(g, s, events) && AllProgress(events)
    ensures |events| <= Left(s) && AllReturned(After(s, events))
    decreases Left(s)
  {
    hide Step, Left, Enabled, Cooperative, Exclusive;
    if AllReturned(s) {
      events := [];
    } else {
      var e := NeverStuck(g, s);
      ProgressUsesUp(s, e);
      StepKeepsExclusive(s, e);
      var rest := AllReturnInTime(g, Step(s, e));
      RunsNext(g, s, e, rest);
      events := [e] + rest;
    }
  }

  /** And a run of such events that cannot go on is one after which every call has returned. */
  lemma StopsOnlyWhenAllReturned(g: Setting, s: System, events: seq<Event>)
    requires FreshStart(g, s) && Runs(s, events)
    requires forall e :: IsProgress(e) && Enabled(After(s, events), e) ==> !Cooperative(g, After(s, events), e)
    ensures AllReturned(After(s, events))
  {
    ExclusionInEveryRun(s, events);
    if !AllReturned(After(s, events)) {
      var e := NeverStuck(g, After(s, events));
    }
  }
}
