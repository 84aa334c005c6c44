/**
 The two polling loops. The world answers through a tape of ticks, one per round: what the
 probe brought, the clock when it was looked at, and the clock at the timeout check. Times
 are nanoseconds since the start of the wait.
 */
module Polling {
  import opened Options
  import opened Screen

  datatype Probe =
    | Snapshot(cells: Option<Screen.Snapshot>, sequenceNo: Option<nat>)
    | Broken(error: string)

  datatype Tick = Tick(probe: Probe, seen: nat, checked: nat)

  datatype Outcome = Matched | Timeout | Fault(error: string) | InvalidPattern | StillWaiting

  function Interval(poll: nat): (r: nat)
    ensures r >= poll && r >= 1_000_000 && (r == poll || r == 1_000_000)
  {
    if poll < 1_000_000 then 1_000_000 else poll
  }

  /** Clocks go forward, and a round begins at least one interval after the one before. */
  ghost predicate Honest(ticks: seq<Tick>, interval: nat) {
    && (forall i :: 0 <= i < |ticks| ==> ticks[i].seen <= ticks[i].checked)
    && (forall i :: 0 < i < |ticks| ==> ticks[i - 1].checked + interval <= ticks[i].seen)
  }

  predicate Due(ticks: seq<Tick>, timeout: Option<nat>, i: nat)
    requires i < |ticks|
  {
    timeout.Some? && ticks[i].checked >= timeout.value
  }

  // ---- Both loops stop in the first round that has a reason to ----

  /** The result of the round that stops the loop; `found` says whether what was waited for is there. */
  function Verdict(probe: Probe, found: bool): Outcome {
    if probe.Broken? then Fault(probe.error) else if found then Matched else Timeout
  }

  predicate StopsAt(ticks: seq<Tick>, found: seq<bool>, timeout: Option<nat>, i: nat)
    requires |found| == |ticks| && i < |ticks|
  {
    ticks[i].probe.Broken? || found[i] || Due(ticks, timeout, i)
  }

  /** The first stop decides; without one the loop is still waiting at the end of the tape. */
  ghost predicate Decided(ticks: seq<Tick>, found: seq<bool>, timeout: Option<nat>, probes: nat, r: Outcome)
    requires |found| == |ticks|
  {
    if r == StillWaiting then probes == |ticks| && forall i :: 0 <= i < |ticks| ==> !StopsAt(ticks, found, timeout, i)
    else
      && 0 < probes <= |ticks| && StopsAt(ticks, found, timeout, probes - 1)
      && (forall i :: 0 <= i < probes - 1 ==> !StopsAt(ticks, found, timeout, i))
      && r == Verdict(ticks[probes - 1].probe, found[probes - 1])
  }

  // ---- Waiting for a pattern ----

  ghost predicate Matches(pattern: string -> bool, probe: Probe) {
    probe.Snapshot? && probe.cells.Some? && pattern(TextOf(probe.cells.value))
  }

  ghost function PatternFound(pattern: string -> bool, ticks: seq<Tick>): seq<bool> {
    seq(|ticks|, i requires 0 <= i < |ticks| => Matches(pattern, ticks[i].probe))
  }

  /** `pattern` is the compiled expression, if it compiles. */
  method WaitForPattern(pattern: Option<string -> bool>, timeout: Option<nat>, ticks: seq<Tick>)
      returns (r: Outcome, probes: nat)
    ensures pattern.None? ==> r == InvalidPattern && probes == 0
    ensures pattern.Some? ==> Decided(ticks, PatternFound(pattern.value, ticks), timeout, probes, r)
  {
    if pattern.None? {
      return InvalidPattern, 0;
    }
    ghost var found := PatternFound(pattern.value, ticks);
    for i := 0 to |ticks|
      invariant forall j :: 0 <= j < i ==> !StopsAt(ticks, found, timeout, j)
    {
      match ticks[i].probe {
        case Snapshot(cells, _) =>
          if cells.Some? {
            var text := ToText(cells.value);
            if pattern.value(text) {
              return Matched, i + 1;
            }
          }
        case Broken(error) => return Fault(error), i + 1;
      }
      if timeout.Some? && ticks[i].checked >= timeout.value {
        return Timeout, i + 1;
      }
    }
    return StillWaiting, |ticks|;
  }

  // ---- Waiting for quiet ----

  function SeqNo(probe: Probe): nat {
    if probe.Snapshot? && probe.sequenceNo.Some? then probe.sequenceNo.value else 0
  }

  /** The last round up to `i` whose sequence number was new. */
  function LastChange(ticks: seq<Tick>, i: nat): (r: nat)
    requires i < |ticks|
    ensures r <= i
  {
    if i == 0 || SeqNo(ticks[i].probe) != SeqNo(ticks[i - 1].probe) then i else LastChange(ticks, i - 1)
  }

  /** Quiet at round `i`: nothing new in it, and the last change is old enough. */
  predicate IsQuiet(ticks: seq<Tick>, idleFor: nat, i: nat)
    requires i < |ticks|
  {
    LastChange(ticks, i) < i && ticks[LastChange(ticks, i)].seen + idleFor <= ticks[i].seen
  }

  ghost function QuietFound(ticks: seq<Tick>, idleFor: nat): seq<bool> {
    seq(|ticks|, i requires 0 <= i < |ticks| => ticks[i].probe.Snapshot? && IsQuiet(ticks, idleFor, i))
  }

  method WaitForIdle(idleFor: nat, timeout: Option<nat>, ticks: seq<Tick>) returns (r: Outcome, probes: nat)
    ensures Decided(ticks, QuietFound(ticks, idleFor), timeout, probes, r)
  {
    ghost var found := QuietFound(ticks, idleFor);
    var lastSeqNo: Option<nat>, lastChange := None, 0;
    for i := 0 to |ticks|
      invariant forall j :: 0 <= j < i ==> !StopsAt(ticks, found, timeout, j)
      invariant lastSeqNo == if i == 0 then None else Some(SeqNo(ticks[i - 1].probe))
      invariant i > 0 ==> lastChange == ticks[LastChange(ticks, i - 1)].seen
    {
      if ticks[i].probe.Broken? {
        return Fault(ticks[i].probe.error), i + 1;
      }
      var seqNo := match ticks[i].probe.sequenceNo case Some(n) => n case None => 0;
      if lastSeqNo.None? || lastSeqNo.value != seqNo {
        lastSeqNo, lastChange := Some(seqNo), ticks[i].seen;
      } else {
        if lastChange + idleFor <= ticks[i].seen {
          return Matched, i + 1;
        }
      }
      if timeout.Some? && ticks[i].checked >= timeout.value {
        return Timeout, i + 1;
      }
    }
    return StillWaiting, |ticks|;
  }

  /** Every sequence number seen since the last change is the same, and the one before it was another. */
  lemma {:induction false} QuietMeansEqual(ticks: seq<Tick>, i: nat)
    requires i < |ticks|
    ensures var last := LastChange(ticks, i);
      && (forall j :: last <= j <= i ==> SeqNo(ticks[j].probe) == SeqNo(ticks[i].probe))
      && (last > 0 ==> SeqNo(ticks[last - 1].probe) != SeqNo(ticks[last].probe))
  {
    if i > 0 && SeqNo(ticks[i].probe) == SeqNo(ticks[i - 1].probe) {
      QuietMeansEqual(ticks, i - 1);
    }
  }

  /** A match is a stretch of equal sequence numbers that begins with the last change, at least `idleFor` before. */
  lemma MatchedMeansQuiet(ticks: seq<Tick>, idleFor: nat, timeout: Option<nat>, probes: nat)
    requires Decided(ticks, QuietFound(ticks, idleFor), timeout, probes, Matched)
    ensures var n := probes - 1;
      var last := LastChange(ticks, n);
      && last < n && ticks[last].seen + idleFor <= ticks[n].seen
      && (forall j :: last <= j <= n ==> SeqNo(ticks[j].probe) == SeqNo(ticks[n].probe))
      && (last > 0 ==> SeqNo(ticks[last - 1].probe) != SeqNo(ticks[last].probe))
  {
    QuietMeansEqual(ticks, probes - 1);
    assert QuietFound(ticks, idleFor)[probes - 1];
  }

  // ---- What a caller can rely on ----

  /** In round `i` it is there, and no round before had a reason to stop. */
  ghost predicate FoundFirst(ticks: seq<Tick>, found: seq<bool>, timeout: Option<nat>, i: nat)
    requires |found| == |ticks| && i < |ticks|
  {
    found[i] && ticks[i].probe.Snapshot? && forall j :: 0 <= j < i ==> !StopsAt(ticks, found, timeout, j)
  }

  /**
   Timeout is never early, only comes when nothing was found in its own round, and a find in the
   deadline round wins.
   */
  lemma TimeoutIsLate(ticks: seq<Tick>, found: seq<bool>, timeout: Option<nat>, probes: nat, r: Outcome)
    requires |found| == |ticks| && Decided(ticks, found, timeout, probes, r)
    ensures r == Timeout ==> timeout.Some? && timeout.value <= ticks[probes - 1].checked && !found[probes - 1]
    ensures r == Timeout ==> forall i :: 0 <= i < probes - 1 ==> ticks[i].checked < timeout.value && !found[i]
    ensures r == Matched ==>
      found[probes - 1] && forall i :: 0 <= i < probes - 1 ==> !Due(ticks, timeout, i) && !found[i]
    ensures r.Fault? ==> ticks[probes - 1].probe == Broken(r.error)
    ensures r != StillWaiting && ticks[probes - 1].probe.Broken? ==> r.Fault?
    ensures (exists i :: 0 <= i < |ticks| && FoundFirst(ticks, found, timeout, i)) ==> r == Matched
  {
    forall i | 0 <= i < probes - 1
      ensures !Due(ticks, timeout, i) && !found[i] && (timeout.Some? ==> ticks[i].checked < timeout.value)
    {
      assert !StopsAt(ticks, found, timeout, i);
    }
    if i :| 0 <= i < |ticks| && FoundFirst(ticks, found, timeout, i) {
      assert StopsAt(ticks, found, timeout, i);
      assert r != StillWaiting && probes - 1 == i;
    }
  }

  lemma {:induction false} RoundsTakeTime(ticks: seq<Tick>, interval: nat, j: nat, i: nat)
    requires Honest(ticks, interval) && j <= i < |ticks|
    ensures ticks[j].seen + (i - j) * interval <= ticks[i].seen <= ticks[i].checked
  {
    if j < i {
      RoundsTakeTime(ticks, interval, j, i - 1);
      assert (i - j) * interval == (i - 1 - j) * interval + interval;
    }
  }

  function CeilDiv(a: nat, b: nat): (r: nat)
    requires b > 0
    ensures (r * b >= a) && (r > 0 ==> (r - 1) * b < a)
  {
    if a == 0 then 0 else
      DivBounds(a - 1, b);
      (a - 1) / b + 1
  }

  lemma DivBounds(a: nat, b: nat)
    requires b > 0
    ensures a / b * b <= a < (a / b + 1) * b
  {
    assert a == a / b * b + a % b;
    assert (a / b + 1) * b == a / b * b + b;
  }

  /** With a timeout, at most one probe more than the intervals that fit: and a tape that long is never left waiting. */
  lemma ProbesAreBounded(ticks: seq<Tick>, found: seq<bool>, timeout: nat, poll: nat, probes: nat, r: Outcome)
    requires |found| == |ticks| && Decided(ticks, found, Some(timeout), probes, r)
    requires Honest(ticks, Interval(poll))
    ensures probes <= CeilDiv(timeout, Interval(poll)) + 1
    ensures |ticks| > CeilDiv(timeout, Interval(poll)) ==> r != StillWaiting
  {
    var interval := Interval(poll);
    var most := CeilDiv(timeout, interval);
    if most < |ticks| {
      RoundsTakeTime(ticks, interval, 0, most);
      assert Due(ticks, Some(timeout), most);
      assert StopsAt(ticks, found, Some(timeout), most);
    }
  }

  /**
   Quiet is found: if the sequence number does not change from round `j` on, the loop stops
   within the number of intervals that make up the idle time, and at least one.
   */
  lemma QuietIsFound(ticks: seq<Tick>, idleFor: nat, timeout: Option<nat>, poll: nat, probes: nat, r: Outcome, j: nat)
    requires Decided(ticks, QuietFound(ticks, idleFor), timeout, probes, r) && Honest(ticks, Interval(poll))
    requires var rounds := CeilDiv(idleFor, Interval(poll)); j + rounds + 1 < |ticks|
    requires forall i :: j <= i < |ticks| ==> ticks[i].probe.Snapshot? && SeqNo(ticks[i].probe) == SeqNo(ticks[j].probe)
    ensures r != StillWaiting && probes <= j + CeilDiv(idleFor, Interval(poll)) + 2
  {
    var interval := Interval(poll);
    var i := j + CeilDiv(idleFor, interval) + 1;
    QuietSince(ticks, j, i);
    var last := LastChange(ticks, i);
    RoundsTakeTime(ticks, interval, last, i);
    MulMono(CeilDiv(idleFor, interval), i - last, interval);
    assert IsQuiet(ticks, idleFor, i);
    assert QuietFound(ticks, idleFor)[i];
    assert StopsAt(ticks, QuietFound(ticks, idleFor), timeout, i);
  }

  lemma MulMono(a: nat, b: nat, k: nat)
    requires a <= b
    ensures a * k <= b * k
  {
  }

  lemma {:induction false} QuietSince(ticks: seq<Tick>, j: nat, i: nat)
    requires j <= i < |ticks| && forall k :: j <= k <= i ==> SeqNo(ticks[k].probe) == SeqNo(ticks[j].probe)
    ensures LastChange(ticks, i) <= j
  {
    if j < i {
      QuietSince(ticks, j, i - 1);
    }
  }
}
