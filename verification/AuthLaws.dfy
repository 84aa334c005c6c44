/** What each event of the shared token does, said on the tabs, the calls and the messages in flight. */
module AuthLaws {
  import opened Options
  import opened AuthShare
  import opened AuthRefresh

  /** `message` went from tab `i` to every other tab with a channel, once each, and to nobody else. */
  ghost predicate Posted(s: System, inflight: multiset<(nat, Message)>, i: nat, message: Message)
    requires i < |s.tabs|
  {
    forall x: (nat, Message) ::
      inflight[x] == s.inflight[x] + if IsRecipient(s, x, i, message) then 1 else 0
  }

  predicate IsRecipient(s: System, x: (nat, Message), i: nat, message: Message)
    requires i < |s.tabs|
  {
    x.1 == message && x.0 != i && x.0 < |s.tabs| && s.tabs[i].channel && s.tabs[x.0].channel
  }

  ghost predicate OthersUntouched(s: System, s': System, i: nat) {
    |s'.tabs| == |s.tabs| && forall d :: 0 <= d < |s.tabs| && d != i ==> s'.tabs[d] == s.tabs[d]
  }

  /** Every call of tab `i` that was asking has been given `access`, and no other call has changed. */
  ghost predicate Told(calls: seq<Call>, calls': seq<Call>, i: nat, access: Access) {
    && |calls'| == |calls|
    && forall k :: 0 <= k < |calls| ==>
      calls'[k] == if calls[k].tab == i && calls[k].phase.Asking?
                   then Call(i, calls[k].lock, Resumed(Some(access))) else calls[k]
  }

  function NamedSub(tab: Tab, reply: Reply): Option<string> {
    if reply.sub.Some? then reply.sub else tab.sub
  }

  lemma PerformPosts(s: System, i: nat, effect: Effect)
    requires i < |s.tabs|
    ensures var s' := Perform(s, i, effect);
      && (effect.posted.Some? ==> Posted(s, s'.inflight, i, effect.posted.value))
      && (effect.posted.None? ==> s'.inflight == s.inflight)
      && (effect.adopted.Some? ==> Told(s.calls, s'.calls, i, effect.adopted.value))
      && (effect.adopted.None? ==> s'.calls == s.calls)
      && OthersUntouched(s, s', i) && s'.tabs[i] == effect.tab
      && s'.holder == s.holder && s'.served == s.served && s'.now == s.now
  {
    if effect.posted.Some? {
      var to := Recipients(s.tabs, i, effect.posted.value);
      forall x: (nat, Message) ensures x in to <==> IsRecipient(s, x, i, effect.posted.value) {
      }
    }
  }

  /**
   A token from a login: if it is live the tab holds it under the sub it names, every asking call
   of the tab is given it, and every other tab is offered it; otherwise only the sub is taken over.
   */
  lemma LoginSpreads(s: System, i: nat, reply: Reply)
    requires i < |s.tabs|
    ensures var s' := Step(s, Login(i, reply));
      var access, sub := Access(reply.accessToken, reply.expiresAtMs), NamedSub(s.tabs[i], reply);
      && OthersUntouched(s, s', i)
      && (reply.expiresAtMs > s.now ==>
            && s'.tabs[i] == s.tabs[i].(sub := sub, standing := Some(access))
            && Posted(s, s'.inflight, i, Offer(sub, reply.accessToken, reply.expiresAtMs))
            && Told(s.calls, s'.calls, i, access))
      && (reply.expiresAtMs <= s.now ==>
            s'.tabs[i] == s.tabs[i].(sub := sub) && s'.inflight == s.inflight && s'.calls == s.calls)
  {
    hide Perform;
    PerformPosts(s, i, Announce(s.tabs[i], reply, s.now));
  }

  /** A token from the server does the same, and the call that asked for it returns it and gives up its lock. */
  lemma RefreshSpreads(s: System, k: nat, reply: Reply)
    requires Enabled(s, Served(k, Some(reply)))
    ensures var s', i := Step(s, Served(k, Some(reply))), s.calls[k].tab;
      var access, sub := Access(reply.accessToken, reply.expiresAtMs), NamedSub(s.tabs[i], reply);
      && OthersUntouched(s, s', i) && |s'.calls| == |s.calls|
      && s'.holder == (if s.calls[k].lock.Some? then s.holder - {s.calls[k].lock.value} else s.holder)
      && (reply.expiresAtMs > s.now ==>
            && s'.tabs[i] == s.tabs[i].(sub := sub, standing := Some(access))
            && Posted(s, s'.inflight, i, Offer(sub, reply.accessToken, reply.expiresAtMs))
            && Told(s.calls[k := s'.calls[k]], s'.calls, i, access) && s'.calls[k].phase == Done(Some(access)))
      && (reply.expiresAtMs <= s.now ==>
            && s'.tabs[i] == s.tabs[i].(sub := sub) && s'.inflight == s.inflight
            && s'.calls == s.calls[k := s.calls[k].(phase := Done(None))])
  {
    hide Perform;
    PerformPosts(s, s.calls[k].tab, Announce(s.tabs[s.calls[k].tab], reply, s.now));
  }

  /** A refused refresh changes nothing but the call, which returns nothing and gives up its lock. */
  lemma RefusedRefreshReturnsNothing(s: System, k: nat)
    requires Enabled(s, Served(k, None))
    ensures var s' := Step(s, Served(k, None));
      && s'.tabs == s.tabs && s'.inflight == s.inflight && s'.calls == s.calls[k := s.calls[k].(phase := Done(None))]
      && s'.holder == if s.calls[k].lock.Some? then s.holder - {s.calls[k].lock.value} else s.holder
  {
  }

  /** An ask is answered to everybody exactly if the token is live, and changes nothing else. */
  lemma AskIsAnswered(s: System, i: nat)
    requires Enabled(s, Deliver(i, Ask))
    ensures var s', rest := Step(s, Deliver(i, Ask)), s.(inflight := s.inflight - multiset{(i, Ask)});
      && s'.tabs == s.tabs && s'.calls == s.calls
      && (IsLive(s.tabs[i].standing, s.now) ==>
            Posted(rest, s'.inflight, i, OfferOf(s.tabs[i], s.tabs[i].standing.value)))
      && (!IsLive(s.tabs[i].standing, s.now) ==> s'.inflight == rest.inflight)
  {
    hide Perform;
    var rest := s.(inflight := s.inflight - multiset{(i, Ask)});
    PerformPosts(rest, i, OnMessage(s.tabs[i], Ask, s.now));
    assert s.tabs[i := s.tabs[i]] == s.tabs;
    assert Step(s, Deliver(i, Ask)).tabs == s.tabs;
  }

  /** An offer is taken exactly if it is live and the tab's sub is unknown or the same. */
  lemma OfferIsTakenIff(s: System, i: nat, sub: Option<string>, value: string, expires: int)
    requires Enabled(s, Deliver(i, Offer(sub, value, expires)))
    ensures var s' := Step(s, Deliver(i, Offer(sub, value, expires)));
      && OthersUntouched(s, s', i) && s'.inflight == s.inflight - multiset{(i, Offer(sub, value, expires))}
      && if expires > s.now && (s.tabs[i].sub.None? || s.tabs[i].sub == sub)
         then s'.tabs[i] == s.tabs[i].(sub := sub, standing := Some(Access(value, expires)))
              && Told(s.calls, s'.calls, i, Access(value, expires))
         else s'.tabs == s.tabs && s'.calls == s.calls
  {
    hide Perform;
    var message := Offer(sub, value, expires);
    var rest := s.(inflight := s.inflight - multiset{(i, message)});
    PerformPosts(rest, i, OnMessage(s.tabs[i], message, s.now));
    assert s.tabs[i := s.tabs[i]] == s.tabs;
    if !(expires > s.now && (s.tabs[i].sub.None? || s.tabs[i].sub == sub)) {
      assert Step(s, Deliver(i, message)).tabs == s.tabs;
    }
  }

  /** The token an entry point starts with: `refreshAhead` has none, `renew` has none if it was the rejected one. */
  ghost predicate StartsWith(entry: Entry, was: Option<Access>, now: Option<Access>) {
    match entry
    case Ensure => now == was
    case RefreshAhead => now == None
    case Renew(rejected) =>
      if was.Some? && rejected == Some(was.value.value) then now == None else now == was
  }

  /**
   Starting a call: only `ensure` returns at once, exactly with a live token; otherwise it queues
   under the lock of the tab's sub, or goes to the server if there is no lock service.
   */
  lemma StartIs(s: System, i: nat, entry: Entry)
    requires i < |s.tabs|
    ensures var s', k := Step(s, Start(i, entry)), |s.calls|;
      && OthersUntouched(s, s', i) && s'.inflight == s.inflight && s'.holder == s.holder
      && s'.tabs[i] == s.tabs[i].(standing := s'.tabs[i].standing)
      && StartsWith(entry, s.tabs[i].standing, s'.tabs[i].standing)
      && |s'.calls| == k + 1 && s'.calls[..k] == s.calls && s'.calls[k].tab == i
      && if entry.Ensure? && IsLive(s.tabs[i].standing, s.now) then
           s'.calls[k] == Call(i, None, Done(s.tabs[i].standing)) && s'.served == s.served
         else if s.tabs[i].locks then
           s'.calls[k] == Call(i, Some(LockName(s.endpoint, s.tabs[i].sub)), Queued) && s'.served == s.served
         else
           s'.calls[k] == Call(i, None, Refreshing) && s'.served == s.served + [k]
  {
  }

  /** A granted lock: a live token is returned at once and the lock is free again, otherwise everybody is asked. */
  lemma AcquireIs(s: System, k: nat)
    requires Enabled(s, Acquire(k))
    ensures var s', c := Step(s, Acquire(k)), s.calls[k];
      var tab := s.tabs[c.tab];
      && s'.tabs == s.tabs && s'.served == s.served
      && if IsLive(tab.standing, s.now) then
           && s'.calls == s.calls[k := c.(phase := Done(tab.standing))]
           && s'.holder == s.holder && s'.inflight == s.inflight
         else
           && s'.calls == s.calls[k := c.(phase := if tab.channel then Asking else Resumed(None))]
           && s'.holder == s.holder[c.lock.value := k]
           && Posted(s, s'.inflight, c.tab, Ask)
  {
    var c := s.calls[k];
    var to := Recipients(s.tabs, c.tab, Ask);
    forall x: (nat, Message) ensures x in to <==> IsRecipient(s, x, c.tab, Ask) {
    }
  }

  /** When nobody answers in time, the tab's own token is used if it has become live, else the server is asked. */
  lemma UnansweredIs(s: System, k: nat)
    requires Enabled(s, Cutoff(k))
    ensures var s', t := Step(s, Cutoff(k)), s.tabs[s.calls[k].tab].standing;
      var s'' := Step(s', Resume(k));
      && s'.tabs == s.tabs && s'.inflight == s.inflight
      && s''.calls[k].phase == (if t.Some? && t.value.expiresAtMs > s.now then Done(t) else Refreshing)
      && (t.Some? && t.value.expiresAtMs > s.now ==> s''.served == s.served)
      && (t.None? || t.value.expiresAtMs <= s.now ==> s''.served == s.served + [k])
  {
  }
}
