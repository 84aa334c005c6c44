/**
 `SingleFlight`: concurrent requests for one key share one run of the work. The spawned
 task does not keep the sender of its own watch channel: the sender lives in the map, and
 the task takes back whatever sender it finds under its key. That this is always its own
 is the ownership invariant proved here, over every interleaving of joins, ends of work,
 slot removals and publications.
 */
module SingleFlight {
  import opened Options

  /** The spawned task; `None` as a result means that the work panicked. */
  datatype Stage<V> =
    | Running
    | Ended(result: Option<V>)
    | Removed(result: Option<V>, tx: Option<nat>)
    | Finished(result: Option<V>)

  datatype Run<K, V> = Run(key: K, stage: Stage<V>)

  /** A watch channel: its last value and whether its sender still exists. */
  datatype Channel<V> = Channel(value: Option<V>, open: bool)

  /** Run `r` and channel `r` are made by the same join; a waiter is the channel it listens to. */
  datatype Flight<K, V> = Flight(
    inflight: map<K, nat>,
    runs: seq<Run<K, V>>,
    channels: seq<Channel<V>>,
    waiters: seq<nat>)

  datatype Event<K, V> =
    | Join(key: K)
    | End(r: nat, result: Option<V>)
    | Remove(r: nat)
    | Publish(r: nat)

  datatype Answer<V> = Waiting | Value(value: V) | Abandoned

  predicate Enabled<K, V>(s: Flight<K, V>, e: Event<K, V>) {
    match e
    case Join(_) => true
    case End(r, _) => r < |s.runs| && s.runs[r].stage.Running?
    case Remove(r) => r < |s.runs| && s.runs[r].stage.Ended?
    case Publish(r) =>
      && r < |s.runs| && s.runs[r].stage.Removed?
      && (s.runs[r].stage.tx.Some? ==> s.runs[r].stage.tx.value < |s.channels|)
  }

  function AtStage<K, V>(s: Flight<K, V>, r: nat, stage: Stage<V>): Flight<K, V>
    requires r < |s.runs|
  {
    s.(runs := s.runs[r := s.runs[r].(stage := stage)])
  }

  function Step<K(==), V>(s: Flight<K, V>, e: Event<K, V>): Flight<K, V>
    requires Enabled(s, e)
  {
    match e
    case Join(key) =>
      if key in s.inflight then s.(waiters := s.waiters + [s.inflight[key]])
      else Flight(s.inflight[key := |s.channels|],
                  s.runs + [Run(key, Running)],
                  s.channels + [Channel(None, true)],
                  s.waiters + [|s.channels|])
    case End(r, result) => AtStage(s, r, Ended(result))
    case Remove(r) =>
      var key := s.runs[r].key;
      var tx := if key in s.inflight then Some(s.inflight[key]) else None;
      AtStage(s, r, Removed(s.runs[r].stage.result, tx)).(inflight := s.inflight - {key})
    case Publish(r) =>
      var Removed(result, tx) := s.runs[r].stage;
      var s' := AtStage(s, r, Finished(result));
      if tx.None? then s'
      else if result.Some? then s'.(channels := s.channels[tx.value := Channel(result, false)])
      else s'.(channels := s.channels[tx.value := s.channels[tx.value].(open := false)])
  }

  /** `Pending::wait` as it would answer now. */
  function Ask<K, V>(s: Flight<K, V>, w: nat): Answer<V>
    requires w < |s.waiters| && s.waiters[w] < |s.channels|
  {
    var c := s.channels[s.waiters[w]];
    if c.value.Some? then Value(c.value.value) else if !c.open then Abandoned else Waiting
  }

  ghost predicate Runs<K(!new), V(!new)>(s: Flight<K, V>, events: seq<Event<K, V>>)
    decreases |events|
  {
    events == [] || (Enabled(s, events[0]) && Runs(Step(s, events[0]), events[1..]))
  }

  ghost function After<K(!new), V(!new)>(s: Flight<K, V>, events: seq<Event<K, V>>): Flight<K, V>
    requires Runs(s, events)
    decreases |events|
  {
    if events == [] then s else After(Step(s, events[0]), events[1..])
  }

  /** Joins that found no slot. */
  ghost function Misses<K(!new), V(!new)>(s: Flight<K, V>, events: seq<Event<K, V>>): nat
    requires Runs(s, events)
    decreases |events|
  {
    if events == [] then 0
    else (if events[0].Join? && events[0].key !in s.inflight then 1 else 0) + Misses(Step(s, events[0]), events[1..])
  }

  ghost predicate Unfinished<V>(stage: Stage<V>) {
    stage.Running? || stage.Ended?
  }

  /** A slot belongs to the one unfinished run of its key, and a run's result only goes to its own channel. */
  ghost predicate Owned<K(!new), V(!new)>(s: Flight<K, V>) {
    && |s.channels| == |s.runs|
    && (forall k :: k in s.inflight ==>
          s.inflight[k] < |s.runs| && s.runs[s.inflight[k]].key == k && Unfinished(s.runs[s.inflight[k]].stage))
    && (forall r :: 0 <= r < |s.runs| ==>
          && (Unfinished(s.runs[r].stage) ==> s.runs[r].key in s.inflight && s.inflight[s.runs[r].key] == r)
          && (s.runs[r].stage.Removed? ==> s.runs[r].stage.tx == Some(r))
          && s.channels[r] ==
             if s.runs[r].stage.Finished? then Channel(s.runs[r].stage.result, false) else Channel(None, true))
    && (forall w :: 0 <= w < |s.waiters| ==> s.waiters[w] < |s.runs|)
  }

  /** A run keeps its key, and its result is what its own work ended with. */
  ghost predicate Explained<K(!new), V(!new)>(s: Flight<K, V>, events: seq<Event<K, V>>, end: Flight<K, V>, r: nat)
    requires r < |end.runs|
  {
    && (r < |s.runs| ==> end.runs[r].key == s.runs[r].key)
    && (!end.runs[r].stage.Running? ==>
          || (r < |s.runs| && !s.runs[r].stage.Running? && s.runs[r].stage.result == end.runs[r].stage.result)
          || End(r, end.runs[r].stage.result) in events)
  }

  lemma JoinKeepsOwned<K(!new), V(!new)>(s: Flight<K, V>, key: K)
    requires Owned(s)
    ensures Owned(Step(s, Join(key)))
  {
  }

  lemma EndKeepsOwned<K(!new), V(!new)>(s: Flight<K, V>, r: nat, result: Option<V>)
    requires Owned(s) && Enabled(s, End(r, result))
    ensures Owned(Step(s, End(r, result)))
  {
  }

  lemma RemoveKeepsOwned<K(!new), V(!new)>(s: Flight<K, V>, r: nat)
    requires Owned(s) && Enabled(s, Remove(r))
    ensures Owned(Step(s, Remove(r)))
  {
  }

  lemma PublishKeepsOwned<K(!new), V(!new)>(s: Flight<K, V>, r: nat)
    requires Owned(s) && Enabled(s, Publish(r))
    ensures Owned(Step(s, Publish(r)))
  {
  }

  lemma StepKeepsOwned<K(!new), V(!new)>(s: Flight<K, V>, e: Event<K, V>)
    requires Owned(s) && Enabled(s, e)
    ensures Owned(Step(s, e))
    ensures s.waiters <= Step(s, e).waiters && |s.runs| <= |Step(s, e).runs|
  {
    match e {
      case Join(key) => JoinKeepsOwned(s, key);
      case End(r, result) => EndKeepsOwned(s, r, result);
      case Remove(r) => RemoveKeepsOwned(s, r);
      case Publish(r) => PublishKeepsOwned(s, r);
    }
  }

  lemma StepExplains<K(!new), V(!new)>(s: Flight<K, V>, e: Event<K, V>, r: nat)
    requires Enabled(s, e) && r < |Step(s, e).runs|
    ensures Explained(s, [e], Step(s, e), r)
  {
  }

  lemma {:induction false} OwnedInEveryRun<K(!new), V(!new)>(s: Flight<K, V>, events: seq<Event<K, V>>)
    requires Owned(s) && Runs(s, events)
    ensures Owned(After(s, events))
    ensures s.waiters <= After(s, events).waiters
    ensures |After(s, events).runs| == |s.runs| + Misses(s, events)
    ensures forall r :: 0 <= r < |After(s, events).runs| ==> Explained(s, events, After(s, events), r)
    decreases |events|
  {
    if events != [] {
      var e, rest, s' := events[0], events[1..], Step(s, events[0]);
      StepKeepsOwned(s, e);
      OwnedInEveryRun(s', rest);
      var end := After(s, events);
      forall r | 0 <= r < |end.runs| ensures Explained(s, events, end, r) {
        assert Explained(s', rest, end, r);
        if r < |s'.runs| {
          StepExplains(s, e, r);
        }
      }
    }
  }

  ghost predicate Fresh<K(!new), V>(s: Flight<K, V>) {
    s == Flight(map[], [], [], [])
  }

  /**
   From the empty map, after any events: a key has at most one unfinished run, the slot that a
   finishing run would take back is its own, every waiter hears exactly what its own run
   produced (or `Abandoned` exactly if that run panicked), the work ran once per join that
   found no slot, and once every run is over the map is empty.
   */
  lemma FlightTheorem<K(!new), V(!new)>(s: Flight<K, V>, events: seq<Event<K, V>>)
    requires Fresh(s) && Runs(s, events)
    ensures var end := After(s, events);
      && (forall i, j :: 0 <= i < j < |end.runs| && Unfinished(end.runs[i].stage) && Unfinished(end.runs[j].stage) ==>
            end.runs[i].key != end.runs[j].key)
      && (forall r :: 0 <= r < |end.runs| && end.runs[r].stage.Ended? ==>
            Step(end, Remove(r)).runs[r].stage.tx == Some(r))
      && |end.channels| == |end.runs|
      && (forall w :: 0 <= w < |end.waiters| ==> end.waiters[w] < |end.runs| && Heard(end, w))
      && (forall r :: 0 <= r < |end.runs| && end.runs[r].stage.Finished? ==> End(r, end.runs[r].stage.result) in events)
      && |end.runs| == Misses(s, events)
      && ((forall r :: 0 <= r < |end.runs| ==> end.runs[r].stage.Finished?) ==> end.inflight == map[])
  {
    OwnedInEveryRun(s, events);
    var end := After(s, events);
    assert Owned(end);
    forall r | 0 <= r < |end.runs| && end.runs[r].stage.Finished? ensures End(r, end.runs[r].stage.result) in events {
      assert Explained(s, events, end, r);
    }
    forall w | 0 <= w < |end.waiters| ensures end.waiters[w] < |end.runs| && Heard(end, w) {
      assert end.waiters[w] < |end.runs|;
    }
    if forall r :: 0 <= r < |end.runs| ==> end.runs[r].stage.Finished? {
      assert end.inflight.Keys == {};
    }
  }

  /** What waiter `w` hears, in terms of its run alone. An unresolved waiter's run is still to publish. */
  ghost predicate Heard<K, V(!new)>(s: Flight<K, V>, w: nat)
    requires w < |s.waiters| && s.waiters[w] < |s.runs| == |s.channels|
  {
    var stage := s.runs[s.waiters[w]].stage;
    && (Ask(s, w).Waiting? <==> !stage.Finished?)
    && (Ask(s, w).Abandoned? <==> stage == Finished(None))
    && (forall v :: Ask(s, w) == Value(v) <==> stage == Finished(Some(v)))
  }

  /** Once a run has given up its slot, the next join of that key starts a new run. */
  lemma JoinAfterRemovalStartsAnew<K(!new), V(!new)>(s: Flight<K, V>, r: nat)
    requires Owned(s) && Enabled(s, Remove(r))
    ensures var removed := Step(s, Remove(r));
      var joined := Step(removed, Join(s.runs[r].key));
      && |joined.runs| == |s.runs| + 1
      && joined.runs[|s.runs|] == Run(s.runs[r].key, Running)
      && joined.waiters == s.waiters + [|s.runs|]
  {
    StepKeepsOwned(s, Remove(r));
  }

  lemma NobodyJoinsNow<K(!new), V(!new)>(s: Flight<K, V>, r: nat, e: Event<K, V>)
    requires Owned(s) && r < |s.runs| && !Unfinished(s.runs[r].stage) && Enabled(s, e)
    ensures var s' := Step(s, e);
      && r < |s'.runs| && !Unfinished(s'.runs[r].stage) && s.waiters <= s'.waiters
      && forall w :: |s.waiters| <= w < |s'.waiters| ==> s'.waiters[w] != r
  {
  }

  /** Once a run has given up its slot, nothing ever attaches to it again: whoever joins later waits for another run. */
  lemma {:induction false} NobodyJoinsAfterRemoval<K(!new), V(!new)>(s: Flight<K, V>, r: nat, events: seq<Event<K, V>>)
    requires Owned(s) && r < |s.runs| && !Unfinished(s.runs[r].stage) && Runs(s, events)
    ensures var end := After(s, events);
      && |s.waiters| <= |end.waiters|
      && forall w :: |s.waiters| <= w < |end.waiters| ==> end.waiters[w] != r
    decreases |events|
  {
    if events != [] {
      hide Step, Enabled, Owned, Unfinished;
      var s' := Step(s, events[0]);
      StepKeepsOwned(s, events[0]);
      NobodyJoinsNow(s, r, events[0]);
      OwnedInEveryRun(s', events[1..]);
      NobodyJoinsAfterRemoval(s', r, events[1..]);
      assert s'.waiters <= After(s, events).waiters;
    }
  }

  /** Every run can be brought to its end, step by step, and then its channel holds what its work produced. */
  lemma EveryRunCanFinish<K(!new), V(!new)>(s: Flight<K, V>, r: nat, result: Option<V>)
      returns (events: seq<Event<K, V>>)
    requires Owned(s) && r < |s.runs|
    ensures Runs(s, events) && r < |After(s, events).runs|
    ensures After(s, events).runs[r].stage ==
      Finished(if s.runs[r].stage.Running? then result else s.runs[r].stage.result)
    decreases
      if s.runs[r].stage.Running? then 3
      else if s.runs[r].stage.Ended? then 2
      else if s.runs[r].stage.Removed? then 1 else 0
  {
    match s.runs[r].stage {
      case Running => events := [End(r, result)];
      case Ended(_) => events := [Remove(r)];
      case Removed(_, _) => events := [Publish(r)];
      case Finished(_) => events := [];
    }
    if events != [] {
      var e := events[0];
      StepKeepsOwned(s, e);
      var rest := EveryRunCanFinish(Step(s, e), r, result);
      assert ([e] + rest)[1..] == rest;
      events := [e] + rest;
    }
  }

  /** Until then every join of that key rides along with it. */
  lemma JoinBeforeRemovalRidesAlong<K(!new), V(!new)>(s: Flight<K, V>, r: nat)
    requires Owned(s) && r < |s.runs| && Unfinished(s.runs[r].stage)
    ensures Step(s, Join(s.runs[r].key)) == s.(waiters := s.waiters + [r])
  {
  }

  /** The map with its mutex, the spawned tasks and the channels, updated in place. */
  class SingleFlightObject<K(!new, ==), V(!new)> {
    var inflight: map<K, nat>
    var runs: seq<Run<K, V>>
    var channels: seq<Channel<V>>

    ghost function State(waiters: seq<nat>): Flight<K, V>
      reads this
    {
      Flight(inflight, runs, channels, waiters)
    }

    constructor ()
      ensures Fresh(State([]))
    {
      inflight, runs, channels := map[], [], [];
    }

    method JoinKey(key: K, ghost waiters: seq<nat>) returns (pending: nat)
      requires Owned(State(waiters))
      modifies this
      ensures State(waiters + [pending]) == Step(old(State(waiters)), Join(key))
      ensures Owned(State(waiters + [pending]))
    {
      StepKeepsOwned(State(waiters), Join(key));
      if key in inflight {
        return inflight[key];
      }
      pending := |channels|;
      channels := channels + [Channel(None, true)];
      inflight := inflight[key := pending];
      runs := runs + [Run(key, Running)];
    }

    /** The tail of the spawned task: take the sender back, then send or drop it. */
    method Complete(r: nat, ghost waiters: seq<nat>)
      requires Owned(State(waiters)) && Enabled(State(waiters), Remove(r))
      modifies this
      ensures var removed := Step(old(State(waiters)), Remove(r));
        Enabled(removed, Publish(r)) && State(waiters) == Step(removed, Publish(r))
      ensures Owned(State(waiters)) && old(runs[r].key) !in inflight
    {
      ghost var s0 := State(waiters);
      ghost var s1 := Step(s0, Remove(r));
      StepKeepsOwned(s0, Remove(r));
      StepKeepsOwned(s1, Publish(r));
      var key, result := runs[r].key, runs[r].stage.result;
      var tx := if key in inflight then Some(inflight[key]) else None;
      inflight := inflight - {key};
      runs := runs[r := Run(key, Removed(result, tx))];
      assert State(waiters) == s1;
      if tx.Some? {
        var last := if result.Some? then result else channels[tx.value].value;
        channels := channels[tx.value := Channel(last, false)];
      }
      runs := runs[r := Run(key, Finished(result))];
    }
  }
}
