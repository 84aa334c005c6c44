/**
 Any number of tabs, each running any number of `ensure` / `refreshAhead` / `renew`
 calls, over one lock service, one broadcast channel and one server. An event is one
 uninterrupted piece of script: between two events anything else may happen, so a
 statement about every list of events is a statement about every interleaving.
 */
module AuthRefresh {
  import opened Options
  import opened AuthShare

  /** Where one call stands. `Resumed` is the point just after `await ask()`. */
  datatype Phase =
    | Queued
    | Asking
    | Resumed(offered: Option<Access>)
    | Refreshing
    | Done(result: Option<Access>)

  datatype Call = Call(tab: nat, lock: Option<string>, phase: Phase) {
    /** Inside the lock's callback, hence holding the lock if there is one. */
    predicate Inside() {
      phase.Asking? || phase.Resumed? || phase.Refreshing?
    }
  }

  datatype System = System(
    endpoint: string,
    tabs: seq<Tab>,
    calls: seq<Call>,
    holder: map<string, nat>,
    inflight: multiset<(nat, Message)>,
    now: int,
    served: seq<nat>)  // the calls that reached the server, oldest first

  datatype Event =
    | Open(tab: Tab)
    | Start(i: nat, entry: Entry)
    | Acquire(k: nat)
    | Deliver(i: nat, message: Message)
    | Cutoff(k: nat)
    | Resume(k: nat)
    | Served(k: nat, reply: Option<Reply>)
    | Login(i: nat, access: Reply)
    | Tick(to: int)

  // ---- One step ----

  /** A message reaches every other tab that has a channel; a tab without one posts nothing. */
  function Recipients(tabs: seq<Tab>, from: nat, message: Message): (r: set<(nat, Message)>)
    requires from < |tabs|
  {
    if tabs[from].channel
    then set d: nat | d < |tabs| && d != from && tabs[d].channel :: (d, message)
    else {}
  }

  /** The `onAccess` listener of every pending `ask` of that tab settles it. */
  function Settle(calls: seq<Call>, i: nat, access: Access): (r: seq<Call>)
    ensures |r| == |calls|
    ensures forall k :: 0 <= k < |r| ==>
      r[k] == if calls[k].tab == i && calls[k].phase.Asking?
              then calls[k].(phase := Resumed(Some(access))) else calls[k]
  {
    seq(|calls|, k requires 0 <= k < |calls| =>
      if calls[k].tab == i && calls[k].phase.Asking? then calls[k].(phase := Resumed(Some(access))) else calls[k])
  }

  function Perform(s: System, i: nat, effect: Effect): System
    requires i < |s.tabs|
  {
    s.(tabs := s.tabs[i := effect.tab],
       calls := if effect.adopted.Some? then Settle(s.calls, i, effect.adopted.value) else s.calls,
       inflight := if effect.posted.None? then s.inflight
                   else s.inflight + multiset(Recipients(s.tabs, i, effect.posted.value)))
  }

  function Finish(s: System, k: nat, result: Option<Access>): System
    requires k < |s.calls|
  {
    var c := s.calls[k];
    s.(calls := s.calls[k := c.(phase := Done(result))],
       holder := if c.lock.Some? then s.holder - {c.lock.value} else s.holder)
  }

  predicate Enabled(s: System, e: Event) {
    match e
    case Open(tab) => tab.standing.None?
    case Start(i, _) => i < |s.tabs|
    case Acquire(k) =>
      k < |s.calls| && s.calls[k].tab < |s.tabs| && s.calls[k].phase.Queued? && s.calls[k].lock.Some?
      && s.calls[k].lock.value !in s.holder
    case Deliver(i, m) => i < |s.tabs| && (i, m) in s.inflight
    case Cutoff(k) => k < |s.calls| && s.calls[k].tab < |s.tabs| && s.calls[k].phase.Asking?
    case Resume(k) => k < |s.calls| && s.calls[k].phase.Resumed?
    case Served(k, _) => k < |s.calls| && s.calls[k].tab < |s.tabs| && s.calls[k].phase.Refreshing?
    case Login(i, _) => i < |s.tabs|
    case Tick(to) => s.now <= to
  }

  function StepStart(s: System, i: nat, entry: Entry): System
    requires i < |s.tabs|
  {
    var tab := Entering(s.tabs[i], entry);
    var s' := s.(tabs := s.tabs[i := tab]);
    if entry.Ensure? && IsLive(tab.standing, s.now) then s'.(calls := s.calls + [Call(i, None, Done(tab.standing))])
    else if tab.locks then s'.(calls := s.calls + [Call(i, Some(LockName(s.endpoint, tab.sub)), Queued)])
    else s'.(calls := s.calls + [Call(i, None, Refreshing)], served := s.served + [|s.calls|])
  }

  function StepAcquire(s: System, k: nat): System
    requires Enabled(s, Acquire(k))
  {
    var c := s.calls[k];
    var tab := s.tabs[c.tab];
    if IsLive(tab.standing, s.now) then s.(calls := s.calls[k := c.(phase := Done(tab.standing))])
    else if tab.channel then
      s.(calls := s.calls[k := c.(phase := Asking)],
         holder := s.holder[c.lock.value := k],
         inflight := s.inflight + multiset(Recipients(s.tabs, c.tab, Ask)))
    else
      s.(calls := s.calls[k := c.(phase := Resumed(None))], holder := s.holder[c.lock.value := k])
  }

  function Step(s: System, e: Event): System
    requires Enabled(s, e)
  {
    match e
    case Open(tab) => s.(tabs := s.tabs + [tab])
    case Start(i, entry) => StepStart(s, i, entry)
    case Acquire(k) => StepAcquire(s, k)
    case Deliver(i, m) => Perform(s.(inflight := s.inflight - multiset{(i, m)}), i, OnMessage(s.tabs[i], m, s.now))
    case Cutoff(k) =>
      s.(calls := s.calls[k := s.calls[k].(phase := Resumed(LiveOrNone(s.tabs[s.calls[k].tab].standing, s.now)))])
    case Resume(k) =>
      if IsLive(s.calls[k].phase.offered, s.now) then Finish(s, k, s.calls[k].phase.offered)
      else s.(calls := s.calls[k := s.calls[k].(phase := Refreshing)], served := s.served + [k])
    case Served(k, reply) =>
      if reply.None? then Finish(s, k, None)
      else
        var effect := Announce(s.tabs[s.calls[k].tab], reply.value, s.now);
        Finish(Perform(s, s.calls[k].tab, effect), k, effect.adopted)
    case Login(i, access) => Perform(s, i, Announce(s.tabs[i], access, s.now))
    case Tick(to) => s.(now := to)
  }

  ghost predicate Runs(s: System, events: seq<Event>)
    decreases |events|
  {
    events == [] || (Enabled(s, events[0]) && Runs(Step(s, events[0]), events[1..]))
  }

  ghost function After(s: System, events: seq<Event>): System
    requires Runs(s, events)
    decreases |events|
  {
    if events == [] then s else After(Step(s, events[0]), events[1..])
  }

  // ---- Exclusion: one call inside each lock, in every run ----

  /** The holder table and the calls inside a lock's callback are the same thing. */
  ghost predicate Exclusive(s: System) {
    && (forall k :: 0 <= k < |s.calls| ==> s.calls[k].tab < |s.tabs|)
    && (forall x :: x in s.inflight ==> x.0 < |s.tabs|)
    && (forall k :: 0 <= k < |s.calls| && s.calls[k].lock.Some? && s.calls[k].Inside() ==>
          s.calls[k].lock.value in s.holder && s.holder[s.calls[k].lock.value] == k)
    && (forall l :: l in s.holder ==>
          s.holder[l] < |s.calls| && s.calls[s.holder[l]].Inside() && s.calls[s.holder[l]].lock == Some(l))
    && (forall k :: 0 <= k < |s.calls| && !s.calls[k].phase.Refreshing? && !s.calls[k].phase.Done? ==>
          s.calls[k].lock.Some?)
  }

  ghost predicate NeverTwoRefreshing(s: System) {
    forall i, j ::
      (&& 0 <= i < |s.calls| && 0 <= j < |s.calls|
       && s.calls[i].phase.Refreshing? && s.calls[j].phase.Refreshing?
       && s.calls[i].lock.Some? && s.calls[i].lock == s.calls[j].lock) ==> i == j
  }

  lemma PerformKeepsExclusive(s: System, i: nat, effect: Effect)
    requires Exclusive(s) && i < |s.tabs|
    ensures Exclusive(Perform(s, i, effect))
  {
  }

  lemma FinishKeepsExclusive(s: System, k: nat, result: Option<Access>)
    requires Exclusive(s) && k < |s.calls| && s.calls[k].Inside()
    ensures Exclusive(Finish(s, k, result))
  {
  }

  lemma AdvanceKeepsExclusive(s: System, k: nat, phase: Phase, served: seq<nat>)
    requires Exclusive(s) && k < |s.calls| && (s.calls[k].phase.Asking? || s.calls[k].phase.Resumed?)
    requires phase.Resumed? || phase.Refreshing?
    ensures Exclusive(s.(calls := s.calls[k := s.calls[k].(phase := phase)], served := served))
  {
  }

  lemma StartKeepsExclusive(s: System, i: nat, entry: Entry)
    requires Exclusive(s) && i < |s.tabs|
    ensures Exclusive(StepStart(s, i, entry))
  {
    var s' := StepStart(s, i, entry);
    assert |s'.calls| == |s.calls| + 1 && s'.calls[..|s.calls|] == s.calls;
  }

  lemma AcquireKeepsExclusive(s: System, k: nat)
    requires Exclusive(s) && Enabled(s, Acquire(k))
    ensures Exclusive(StepAcquire(s, k))
  {
  }

  lemma StepKeepsExclusive(s: System, e: Event)
    requires Exclusive(s) && Enabled(s, e)
    ensures Exclusive(Step(s, e))
  {
    match e {
      case Deliver(i, m) =>
        PerformKeepsExclusive(s.(inflight := s.inflight - multiset{(i, m)}), i, OnMessage(s.tabs[i], m, s.now));
      case Login(i, access) =>
        PerformKeepsExclusive(s, i, Announce(s.tabs[i], access, s.now));
      case Served(k, reply) =>
        if reply.None? {
          FinishKeepsExclusive(s, k, None);
        } else {
          var effect := Announce(s.tabs[s.calls[k].tab], reply.value, s.now);
          PerformKeepsExclusive(s, s.calls[k].tab, effect);
          FinishKeepsExclusive(Perform(s, s.calls[k].tab, effect), k, effect.adopted);
        }
      case Resume(k) =>
        if IsLive(s.calls[k].phase.offered, s.now) {
          FinishKeepsExclusive(s, k, s.calls[k].phase.offered);
        } else {
          AdvanceKeepsExclusive(s, k, Refreshing, s.served + [k]);
        }
      case Cutoff(k) =>
        AdvanceKeepsExclusive(s, k, Resumed(LiveOrNone(s.tabs[s.calls[k].tab].standing, s.now)), s.served);
      case Start(i, entry) => StartKeepsExclusive(s, i, entry);
      case Acquire(k) => AcquireKeepsExclusive(s, k);
      case Open(_) =>
      case Tick(_) =>
    }
  }

  lemma {:induction false} ExclusionInEveryRun(s: System, events: seq<Event>)
    requires Exclusive(s) && Runs(s, events)
    ensures Exclusive(After(s, events)) && NeverTwoRefreshing(After(s, events))
    decreases |events|
  {
    if events != [] {
      StepKeepsExclusive(s, events[0]);
      ExclusionInEveryRun(Step(s, events[0]), events[1..]);
    }
  }

  // ---- Ownership: a tab only ever holds tokens issued for its own sub ----

  ghost predicate AllSound(s: System, owner: string -> string) {
    && (forall i :: 0 <= i < |s.tabs| ==> Sound(s.tabs[i], owner))
    && (forall x :: x in s.inflight ==> SoundMessage(x.1, owner))
  }

  /** Tokens from the server and from a login arrive live and name their sub. */
  ghost predicate DependableEvent(s: System, e: Event, owner: string -> string) {
    match e
    case Served(_, reply) => reply.Some? ==> Dependable(reply.value, s.now, owner)
    case Login(_, access) => Dependable(access, s.now, owner)
    case _ => true
  }

  ghost predicate DependableRun(s: System, events: seq<Event>, owner: string -> string)
    requires Runs(s, events)
    decreases |events|
  {
    events != [] ==>
      DependableEvent(s, events[0], owner) && DependableRun(Step(s, events[0]), events[1..], owner)
  }

  lemma PerformKeepsSound(s: System, i: nat, effect: Effect, owner: string -> string)
    requires AllSound(s, owner) && i < |s.tabs| && Sound(effect.tab, owner)
    requires effect.posted.Some? ==> SoundMessage(effect.posted.value, owner)
    ensures AllSound(Perform(s, i, effect), owner)
  {
  }

  lemma StepKeepsSound(s: System, e: Event, owner: string -> string)
    requires AllSound(s, owner) && Enabled(s, e) && DependableEvent(s, e, owner)
    ensures AllSound(Step(s, e), owner)
  {
    match e {
      case Deliver(i, m) =>
        assert (i, m) in s.inflight;
        PerformKeepsSound(s.(inflight := s.inflight - multiset{(i, m)}), i, OnMessage(s.tabs[i], m, s.now), owner);
      case Login(i, access) =>
        PerformKeepsSound(s, i, Announce(s.tabs[i], access, s.now), owner);
      case Served(k, reply) =>
        if reply.Some? {
          PerformKeepsSound(s, s.calls[k].tab, Announce(s.tabs[s.calls[k].tab], reply.value, s.now), owner);
        }
      case _ =>
    }
  }

  /** The only way a tab's token changes is to one that is live at that moment, or to none. */
  lemma StepAdoptsOnlyLive(s: System, e: Event, i: nat)
    requires Enabled(s, e) && i < |s.tabs|
    ensures var was, now := s.tabs[i], Step(s, e).tabs[i];
      && (now.standing != was.standing && now.standing.Some? ==> IsLive(now.standing, s.now))
      && (now.sub != was.sub && was.sub.Some? ==> e.Served? || e.Login?)
      && (e.Deliver? && e.message.Offer? && was.sub.Some? && e.message.sub != was.sub ==> now == was)
  {
    match e {
      case Deliver(j, m) => OnMessageIsSelective(s.tabs[j], m, s.now);
      case Served(k, reply) =>
        assert Step(s, e).tabs == if reply.None? then s.tabs
          else s.tabs[s.calls[k].tab := Announce(s.tabs[s.calls[k].tab], reply.value, s.now).tab];
      case Login(j, access) => assert Step(s, e).tabs == s.tabs[j := Announce(s.tabs[j], access, s.now).tab];
      case Start(j, entry) => assert Step(s, e).tabs == s.tabs[j := Entering(s.tabs[j], entry)];
      case Acquire(_) => assert Step(s, e).tabs == s.tabs;
      case _ =>
    }
  }

  lemma {:induction false} OwnershipInEveryRun(s: System, events: seq<Event>, owner: string -> string)
    requires AllSound(s, owner) && Runs(s, events) && DependableRun(s, events, owner)
    ensures AllSound(After(s, events), owner)
    decreases |events|
  {
    if events != [] {
      StepKeepsSound(s, events[0], owner);
      OwnershipInEveryRun(Step(s, events[0]), events[1..], owner);
    }
  }

  // ---- One refresh serves everybody ----

  /**
   The setting: every tab starts with the same `sub` (known or not yet known) and no live
   token; the server answers for `sub` with a token that outlives `horizon`.
   */
  datatype Setting = Setting(start: Option<string>, sub: string, horizon: int)

  /** Tabs may open at any time, `ensure` may be called any number of times on any tab. */
  ghost predicate Cooperative(g: Setting, s: System, e: Event) {
    match e
    case Open(tab) => tab.sub == g.start && tab.channel && tab.locks
    case Start(_, entry) => entry.Ensure?
    case Cutoff(_) => s.inflight == multiset{}
    case Served(_, reply) => reply.Some? && reply.value.sub == Some(g.sub) && reply.value.expiresAtMs > g.horizon
    case Login(_, _) => false
    case Tick(to) => to <= g.horizon
    case _ => true
  }

  ghost predicate CooperativeRun(g: Setting, s: System, events: seq<Event>)
    requires Runs(s, events)
    decreases |events|
  {
    events != [] ==> Cooperative(g, s, events[0]) && CooperativeRun(g, Step(s, events[0]), events[1..])
  }

  ghost predicate FreshStart(g: Setting, s: System) {
    && (g.start == None || g.start == Some(g.sub))
    && s.now <= g.horizon
    && (forall i :: 0 <= i < |s.tabs| ==> Waiting(g, s, s.tabs[i]))
    && s.calls == [] && s.holder == map[] && s.inflight == multiset{} && s.served == []
  }

  /** A tab that has not been given the token yet. */
  ghost predicate Waiting(g: Setting, s: System, tab: Tab) {
    tab.sub == g.start && tab.channel && tab.locks && !IsLive(tab.standing, s.now)
  }

  ghost predicate Holding(g: Setting, t: Access, tab: Tab) {
    tab.sub == Some(g.sub) && tab.channel && tab.locks && tab.standing == Some(t)
  }

  /** No token has been issued: at most one call reached the server and is still there. */
  ghost predicate Before(g: Setting, s: System) {
    && (g.start == None || g.start == Some(g.sub))
    && s.now <= g.horizon
    && (forall i :: 0 <= i < |s.tabs| ==> Waiting(g, s, s.tabs[i]))
    && (forall x :: x in s.inflight ==> x.1.Ask?)
    && (forall k :: 0 <= k < |s.calls| ==>
          && s.calls[k].lock == Some(LockName(s.endpoint, g.start))
          && (s.calls[k].phase.Queued? || s.calls[k].phase.Asking? || s.calls[k].phase == Resumed(None)
              || (s.calls[k].phase.Refreshing? && s.served == [k])))
    && (s.served == [] || (|s.served| == 1 && s.served[0] < |s.calls| && s.calls[s.served[0]].phase.Refreshing?))
  }

  /** The token `t` was issued to tab `home`; whoever lacks it and asks is about to be told. */
  ghost predicate Shared(g: Setting, s: System, t: Access, home: nat) {
    && (g.start == None || g.start == Some(g.sub))
    && s.now <= g.horizon < t.expiresAtMs
    && home < |s.tabs| && s.tabs[home].standing == Some(t)
    && (forall i :: 0 <= i < |s.tabs| ==> Waiting(g, s, s.tabs[i]) || Holding(g, t, s.tabs[i]))
    && (forall x :: x in s.inflight ==> x.1.Ask? || x.1 == Offer(Some(g.sub), t.value, t.expiresAtMs))
    && (forall k :: 0 <= k < |s.calls| ==> s.calls[k].tab < |s.tabs| && CallShared(g, s, t, home, s.calls[k]))
    && |s.served| == 1
  }

  ghost predicate CallShared(g: Setting, s: System, t: Access, home: nat, c: Call)
    requires c.tab < |s.tabs|
  {
    || c.phase.Queued?
    || c.phase == Done(Some(t))
    || c.phase == Resumed(Some(t))
    || (c.phase.Asking? && s.tabs[c.tab].standing != Some(t)
        && ((c.tab, Offer(Some(g.sub), t.value, t.expiresAtMs)) in s.inflight || (home, Ask) in s.inflight))
  }

  lemma BeforeStart(g: Setting, s: System, i: nat)
    requires Before(g, s) && i < |s.tabs|
    ensures Before(g, StepStart(s, i, Ensure))
  {
    assert Waiting(g, s, s.tabs[i]);
    assert StepStart(s, i, Ensure).tabs == s.tabs;
  }

  lemma BeforeAcquire(g: Setting, s: System, k: nat)
    requires Before(g, s) && Enabled(s, Acquire(k))
    ensures Before(g, StepAcquire(s, k))
  {
    assert Waiting(g, s, s.tabs[s.calls[k].tab]);
  }

  lemma BeforeDeliver(g: Setting, s: System, i: nat, m: Message)
    requires Before(g, s) && Enabled(s, Deliver(i, m))
    ensures Before(g, Step(s, Deliver(i, m)))
  {
    assert (i, m) in s.inflight && Waiting(g, s, s.tabs[i]);
    assert Step(s, Deliver(i, m)).tabs == s.tabs;
  }

  lemma BeforeResume(g: Setting, s: System, k: nat)
    requires Exclusive(s) && Before(g, s) && Enabled(s, Resume(k))
    ensures Before(g, Step(s, Resume(k)))
  {
  }

  lemma BeforeOther(g: Setting, s: System, e: Event)
    requires Before(g, s) && Enabled(s, e) && Cooperative(g, s, e) && (e.Open? || e.Cutoff? || e.Tick?)
    ensures Before(g, Step(s, e))
  {
    if e.Cutoff? {
      assert Waiting(g, s, s.tabs[s.calls[e.k].tab]);
    }
  }

  lemma BeforeStep(g: Setting, s: System, e: Event)
    requires Exclusive(s) && Before(g, s) && Enabled(s, e) && Cooperative(g, s, e) && !e.Served?
    ensures Before(g, Step(s, e))
  {
    hide Before, Exclusive, StepStart, StepAcquire;
    match e {
      case Start(i, _) => BeforeStart(g, s, i);
      case Acquire(k) => BeforeAcquire(g, s, k);
      case Deliver(i, m) => BeforeDeliver(g, s, i, m);
      case Resume(k) => BeforeResume(g, s, k);
      case _ => BeforeOther(g, s, e);
    }
  }

  lemma ServedStep(g: Setting, s: System, k: nat, reply: Option<Reply>)
    requires Exclusive(s) && Before(g, s) && Enabled(s, Served(k, reply)) && Cooperative(g, s, Served(k, reply))
    ensures var t := Access(reply.value.accessToken, reply.value.expiresAtMs);
      Shared(g, Step(s, Served(k, reply)), t, s.calls[k].tab)
  {
  }

  lemma SharedStart(g: Setting, s: System, i: nat, t: Access, home: nat)
    requires Shared(g, s, t, home) && i < |s.tabs|
    ensures Shared(g, StepStart(s, i, Ensure), t, home)
  {
    var s' := StepStart(s, i, Ensure);
    assert s'.tabs == s.tabs && s'.calls[..|s.calls|] == s.calls;
    assert Waiting(g, s, s.tabs[i]) || Holding(g, t, s.tabs[i]);
    forall k | 0 <= k < |s'.calls| ensures s'.calls[k].tab < |s'.tabs| && CallShared(g, s', t, home, s'.calls[k]) {
      if k < |s.calls| {
        assert CallShared(g, s, t, home, s.calls[k]);
      }
    }
  }

  lemma SharedAcquire(g: Setting, s: System, k: nat, t: Access, home: nat)
    requires Shared(g, s, t, home) && Enabled(s, Acquire(k))
    ensures Shared(g, StepAcquire(s, k), t, home)
  {
    var s' := StepAcquire(s, k);
    var j := s.calls[k].tab;
    assert Waiting(g, s, s.tabs[j]) || Holding(g, t, s.tabs[j]);
    assert Holding(g, t, s.tabs[home]);
    if !IsLive(s.tabs[j].standing, s.now) {
      assert (home, Ask) in Recipients(s.tabs, j, Ask);
    }
    forall x | 0 <= x < |s'.calls| ensures s'.calls[x].tab < |s'.tabs| && CallShared(g, s', t, home, s'.calls[x]) {
      assert CallShared(g, s, t, home, s.calls[x]);
    }
  }

  lemma SharedDeliverAsk(g: Setting, s: System, i: nat, t: Access, home: nat)
    requires Shared(g, s, t, home) && Enabled(s, Deliver(i, Ask))
    ensures Shared(g, Step(s, Deliver(i, Ask)), t, home)
  {
    var s' := Step(s, Deliver(i, Ask));
    var offer := Offer(Some(g.sub), t.value, t.expiresAtMs);
    assert Waiting(g, s, s.tabs[i]) || Holding(g, t, s.tabs[i]);
    assert Holding(g, t, s.tabs[home]);
    assert s'.tabs == s.tabs && s'.calls == s.calls;
    forall k | 0 <= k < |s'.calls| ensures s'.calls[k].tab < |s'.tabs| && CallShared(g, s', t, home, s'.calls[k]) {
      assert CallShared(g, s, t, home, s.calls[k]);
      if s.calls[k].phase.Asking? && i == home {
        assert (s.calls[k].tab, offer) in Recipients(s.tabs, i, offer);
      }
    }
  }

  lemma SharedDeliverOffer(g: Setting, s: System, i: nat, m: Message, t: Access, home: nat)
    requires Shared(g, s, t, home) && Enabled(s, Deliver(i, m)) && m.Offer?
    ensures Shared(g, Step(s, Deliver(i, m)), t, home)
  {
    var s' := Step(s, Deliver(i, m));
    assert (i, m) in s.inflight;
    assert Waiting(g, s, s.tabs[i]) || Holding(g, t, s.tabs[i]);
    assert Holding(g, t, s'.tabs[i]);
    forall j | 0 <= j < |s'.tabs| ensures Waiting(g, s', s'.tabs[j]) || Holding(g, t, s'.tabs[j]) {
      assert Waiting(g, s, s.tabs[j]) || Holding(g, t, s.tabs[j]);
    }
    forall k | 0 <= k < |s'.calls| ensures s'.calls[k].tab < |s'.tabs| && CallShared(g, s', t, home, s'.calls[k]) {
      assert CallShared(g, s, t, home, s.calls[k]);
    }
  }

  lemma SharedResume(g: Setting, s: System, k: nat, t: Access, home: nat)
    requires Shared(g, s, t, home) && Enabled(s, Resume(k))
    ensures Shared(g, Step(s, Resume(k)), t, home)
  {
    assert CallShared(g, s, t, home, s.calls[k]);
  }

  /** Whoever still asks is about to be told, so no ask is cut off, and nobody else is at the server. */
  lemma NobodyAlone(g: Setting, s: System, e: Event, t: Access, home: nat)
    requires Exclusive(s) && Shared(g, s, t, home) && Enabled(s, e) && Cooperative(g, s, e)
    ensures !e.Cutoff? && !e.Served?
  {
  }

  lemma SharedOpenOrTick(g: Setting, s: System, e: Event, t: Access, home: nat)
    requires Shared(g, s, t, home) && Enabled(s, e) && Cooperative(g, s, e) && (e.Open? || e.Tick?)
    ensures Shared(g, Step(s, e), t, home)
  {
    forall k | 0 <= k < |s.calls| ensures CallShared(g, Step(s, e), t, home, s.calls[k]) {
      assert CallShared(g, s, t, home, s.calls[k]);
    }
  }

  lemma SharedStep(g: Setting, s: System, e: Event, t: Access, home: nat)
    requires Exclusive(s) && Shared(g, s, t, home) && Enabled(s, e) && Cooperative(g, s, e)
    ensures Shared(g, Step(s, e), t, home)
  {
    hide Shared, StepStart, StepAcquire, Exclusive;
    NobodyAlone(g, s, e, t, home);
    match e {
      case Deliver(i, m) =>
        if m.Ask? {
          SharedDeliverAsk(g, s, i, t, home);
        } else {
          SharedDeliverOffer(g, s, i, m, t, home);
        }
      case Start(i, _) => SharedStart(g, s, i, t, home);
      case Acquire(k) => SharedAcquire(g, s, k, t, home);
      case Resume(k) => SharedResume(g, s, k, t, home);
      case _ => SharedOpenOrTick(g, s, e, t, home);
    }
  }

  lemma SharedServedOnce(g: Setting, s: System, e: Event, t: Access, home: nat)
    requires Exclusive(s) && Shared(g, s, t, home) && Enabled(s, e) && Cooperative(g, s, e)
    ensures Step(s, e).served == s.served
  {
    NobodyAlone(g, s, e, t, home);
    if e.Resume? {
      assert CallShared(g, s, t, home, s.calls[e.k]);
    } else if e.Start? {
      assert Waiting(g, s, s.tabs[e.i]) || Holding(g, t, s.tabs[e.i]);
    }
  }

  lemma {:induction false} SharedInEveryRun(g: Setting, s: System, events: seq<Event>, t: Access, home: nat)
    requires Exclusive(s) && Shared(g, s, t, home) && Runs(s, events) && CooperativeRun(g, s, events)
    ensures Exclusive(After(s, events)) && Shared(g, After(s, events), t, home)
    ensures After(s, events).served == s.served
    decreases |events|
  {
    if events != [] {
      hide Exclusive, Shared, Step, Enabled, Cooperative;
      StepKeepsExclusive(s, events[0]);
      SharedStep(g, s, events[0], t, home);
      SharedServedOnce(g, s, events[0], t, home);
      SharedInEveryRun(g, Step(s, events[0]), events[1..], t, home);
    }
  }

  /** `t` is what the server gave the only call that reached it. */
  ghost predicate Issued(g: Setting, s: System, events: seq<Event>, t: Access) {
    |s.served| == 1 && Served(s.served[0], Some(Reply(Some(g.sub), t.value, t.expiresAtMs))) in events
  }

  ghost predicate OneRefresh(g: Setting, s: System, events: seq<Event>) {
    Before(g, s) || exists t, home :: Shared(g, s, t, home) && Issued(g, s, events, t)
  }

  lemma ServedIsIssued(g: Setting, s: System, e: Event, t: Access)
    requires Before(g, s) && Enabled(s, e) && e.Served? && Cooperative(g, s, e)
    requires t == Access(e.reply.value.accessToken, e.reply.value.expiresAtMs)
    ensures Step(s, e).served == [e.k] && e == Served(e.k, Some(Reply(Some(g.sub), t.value, t.expiresAtMs)))
  {
  }

  lemma {:induction false} OneRefreshInEveryRun(g: Setting, s: System, events: seq<Event>)
    requires Exclusive(s) && Before(g, s) && Runs(s, events) && CooperativeRun(g, s, events)
    ensures Exclusive(After(s, events)) && OneRefresh(g, After(s, events), events)
    decreases |events|
  {
    if events != [] {
      hide Exclusive, Shared, Before, Step, Enabled;
      var e, rest := events[0], events[1..];
      var s', end := Step(s, e), After(s, events);
      StepKeepsExclusive(s, e);
      if e.Served? {
        var t, home := Access(e.reply.value.accessToken, e.reply.value.expiresAtMs), s.calls[e.k].tab;
        ServedStep(g, s, e.k, e.reply);
        SharedInEveryRun(g, s', rest, t, home);
        ServedIsIssued(g, s, e, t);
        assert Issued(g, end, events, t);
      } else {
        BeforeStep(g, s, e);
        OneRefreshInEveryRun(g, s', rest);
        if !Before(g, end) {
          var t, home :| Shared(g, end, t, home) && Issued(g, end, rest, t);
          assert Issued(g, end, events, t);
        }
      }
    }
  }

  ghost predicate AllReturned(s: System) {
    forall k :: 0 <= k < |s.calls| ==> s.calls[k].phase.Done?
  }

  /** At most one server call so far, nobody else in `refresh`, and its token is everybody's answer. */
  ghost predicate OneServesAll(g: Setting, s: System, events: seq<Event>) {
    && |s.served| <= 1
    && (forall i, j :: 0 <= i < j < |s.calls| ==> !(s.calls[i].phase.Refreshing? && s.calls[j].phase.Refreshing?))
    && (s.calls != [] && AllReturned(s) ==>
          exists t :: Issued(g, s, events, t) && forall k :: 0 <= k < |s.calls| ==> s.calls[k].phase == Done(Some(t)))
  }

  lemma BeforeServesAll(g: Setting, s: System, events: seq<Event>)
    requires Before(g, s)
    ensures OneServesAll(g, s, events)
  {
    assert s.calls != [] ==> !s.calls[0].phase.Done?;
  }

  lemma SharedServesAll(g: Setting, s: System, events: seq<Event>, t: Access, home: nat)
    requires Shared(g, s, t, home) && Issued(g, s, events, t)
    ensures OneServesAll(g, s, events)
  {
    forall k | 0 <= k < |s.calls|
      ensures !s.calls[k].phase.Refreshing? && (s.calls[k].phase.Done? ==> s.calls[k].phase == Done(Some(t)))
    {
      assert CallShared(g, s, t, home, s.calls[k]);
    }
  }

  /**
   Over every cooperative interleaving: the server is called at most once, no two calls are
   inside `refresh`, and once every call has returned, it was called exactly once and all
   of them returned the token that this one refresh brought.
   */
  lemma OneRefreshServesAll(g: Setting, s: System, events: seq<Event>)
    requires FreshStart(g, s) && Runs(s, events) && CooperativeRun(g, s, events)
    ensures OneServesAll(g, After(s, events), events)
  {
    OneRefreshInEveryRun(g, s, events);
    var end := After(s, events);
    hide Shared, Before, Exclusive, OneServesAll;
    if Before(g, end) {
      BeforeServesAll(g, end, events);
    } else {
      var t, home :| Shared(g, end, t, home) && Issued(g, end, events, t);
      SharedServesAll(g, end, events, t, home);
    }
  }

  /** The events that carry calls on; the others open tabs, start calls, log in or let time pass. */
  predicate IsProgress(e: Event) {
    e.Acquire? || e.Deliver? || e.Cutoff? || e.Resume? || e.Served?
  }

  lemma SomethingMoves(g: Setting, s: System, k: nat) returns (e: Event)
    requires Exclusive(s) && k < |s.calls| && (s.calls[k].Inside() || Enabled(s, Acquire(k)))
    ensures Enabled(s, e) && Cooperative(g, s, e) && IsProgress(e)
  {
    match s.calls[k].phase {
      case Queued => e := Acquire(k);
      case Resumed(_) => e := Resume(k);
      case Refreshing => e := Served(k, Some(Reply(Some(g.sub), "token", g.horizon + 1)));
      case Asking =>
        if s.inflight == multiset{} {
          e := Cutoff(k);
        } else {
          var x :| x in s.inflight;
          e := Deliver(x.0, x.1);
        }
    }
  }

  /** While some call has not returned, some event of progress is possible. */
  lemma NeverStuck(g: Setting, s: System) returns (e: Event)
    requires Exclusive(s) && !AllReturned(s)
    ensures Enabled(s, e) && Cooperative(g, s, e) && IsProgress(e)
  {
    var k :| 0 <= k < |s.calls| && !s.calls[k].phase.Done?;
    var lock := s.calls[k].lock;
    if s.calls[k].phase.Queued? && lock.value in s.holder {
      e := SomethingMoves(g, s, s.holder[lock.value]);
    } else {
      e := SomethingMoves(g, s, k);
    }
  }
}
