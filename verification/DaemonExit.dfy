/**
 The end of `hyoui kill --wait`: the name lock opened before the kill, and the inode of the
 socket at that time, tell whether the daemon that was killed is really gone, even if the
 same session id is started again while we look.
 */
module DaemonExit {
  import opened Options
  import opened KillWait

  /**
   `socket` is the inode at the session's path, `mine` the one of the daemon being killed, `used`
   every inode given out so far.
   */
  datatype World = World(mine: nat, socket: Option<nat>, lockHeld: bool, used: set<nat>)

  /** `Sweep` is anybody removing the socket of a daemon that died without doing so. */
  datatype Event = Unlink | Release | Sweep | Rebind(inode: nat) | Withdraw

  predicate Enabled(w: World, e: Event) {
    match e
    case Unlink => w.lockHeld && w.socket == Some(w.mine)
    case Release => w.lockHeld
    case Sweep => !w.lockHeld && w.socket == Some(w.mine)
    case Rebind(inode) => w.socket.None? && inode !in w.used
    case Withdraw => w.socket.Some? && w.socket != Some(w.mine)
  }

  function Apply(w: World, e: Event): World
    requires Enabled(w, e)
  {
    match e
    case Release => w.(lockHeld := false)
    case Rebind(inode) => w.(socket := Some(inode), used := w.used + {inode})
    case _ => w.(socket := None)
  }

  ghost predicate Happens(w: World, events: seq<Event>)
    decreases |events|
  {
    events == [] || (Enabled(w, events[0]) && Happens(Apply(w, events[0]), events[1..]))
  }

  ghost function After(w: World, events: seq<Event>): World
    requires Happens(w, events)
    decreases |events|
  {
    if events == [] then w else After(Apply(w, events[0]), events[1..])
  }

  datatype Outcome = Clean | Unobservable | SocketLeftBehind | TimedOut

  datatype ExitWatch = ExitWatch(inode: Option<nat>, lock: bool)

  /** How the blocking flock on the opened lock file ended within its budget. */
  datatype Flock = Acquired | Failed | BudgetSpent

  /** `examined` says whether the socket's inode could be read, `lockFile` whether the lock could be opened. */
  function OpenWatch(w: World, lockFile: bool, examined: bool): ExitWatch {
    ExitWatch(if examined then w.socket else None, lockFile)
  }

  function WaitForExit(watch: ExitWatch, flock: Flock, socketNow: Option<nat>): Outcome {
    if !watch.lock then Unobservable
    else match flock
      case Failed => Unobservable
      case BudgetSpent => TimedOut
      case Acquired => if socketNow.Some? && socketNow == watch.inode then SocketLeftBehind else Clean
  }

  /** The four ways the watch can end. */
  lemma WatchEnds(watch: ExitWatch, flock: Flock, socketNow: Option<nat>)
    ensures var outcome := WaitForExit(watch, flock, socketNow);
      && (outcome == Unobservable <==> !watch.lock || flock.Failed?)
      && (outcome == TimedOut <==> watch.lock && flock.BudgetSpent?)
      && (outcome == SocketLeftBehind <==>
            watch.lock && flock.Acquired? && socketNow.Some? && socketNow == watch.inode)
      && (outcome == Clean <==>
            watch.lock && flock.Acquired? && (socketNow.None? || socketNow != watch.inode))
  {
  }

  ghost predicate Removed(events: seq<Event>) {
    Unlink in events || Sweep in events
  }

  /** The original inode is at the path exactly until it is removed, whatever is bound there later. */
  lemma {:induction false} OriginalSocketUntilRemoved(w: World, events: seq<Event>)
    requires Happens(w, events) && w.mine in w.used
    ensures After(w, events).socket == Some(w.mine) <==> w.socket == Some(w.mine) && !Removed(events)
    ensures w.mine in After(w, events).used && After(w, events).mine == w.mine
    ensures !w.lockHeld ==> !After(w, events).lockHeld
    decreases |events|
  {
    if events != [] {
      var e, rest := events[0], events[1..];
      OriginalSocketUntilRemoved(Apply(w, e), rest);
      assert events == [e] + rest;
    }
  }

  lemma {:induction false} AfterSplits(w: World, a: seq<Event>, b: seq<Event>)
    requires Happens(w, a + b)
    ensures Happens(w, a) && Happens(After(w, a), b) && After(w, a + b) == After(After(w, a), b)
    decreases |a|
  {
    if a == [] {
      assert a + b == b;
    } else {
      assert (a + b)[0] == a[0] && (a + b)[1..] == a[1..] + b;
      AfterSplits(Apply(w, a[0]), a[1..], b);
    }
  }

  /** The path holds the socket of the daemon being killed, or nothing any more. */
  ghost predicate Opened(w: World) {
    w.mine in w.used && (w.socket == Some(w.mine) || w.socket.None?)
  }

  /**
   The watch is opened at `w`; `before` happens until the lock is acquired, `between` until the
   socket is looked up, `later` after that. The lock is then free for good. If the inode could
   be read at the start, `Clean` means exactly that the original socket is gone, and it never
   comes back, whatever `later` is, restarts under the same id included.
   */
  lemma CleanMeansGone(w: World, examined: bool, before: seq<Event>, between: seq<Event>, later: seq<Event>)
    requires Opened(w) && Happens(w, before + between + later)
    requires Happens(w, before) && !After(w, before).lockHeld
    ensures Happens(w, before + between)
    ensures var seen, end := After(w, before + between), After(w, before + between + later);
      var outcome := WaitForExit(OpenWatch(w, true, examined), Acquired, seen.socket);
      && !seen.lockHeld && !end.lockHeld
      && (seen.socket == Some(w.mine) <==> w.socket == Some(w.mine) && !Removed(before + between))
      && (outcome == SocketLeftBehind <==> examined && seen.socket == Some(w.mine))
      && (outcome == Clean <==> !(examined && seen.socket == Some(w.mine)))
      && (outcome == Clean && (examined || w.socket.None?) ==> end.socket != Some(w.mine))
  {
    AfterSplits(w, before + between, later);
    AfterSplits(w, before, between);
    OriginalSocketUntilRemoved(w, before + between);
    OriginalSocketUntilRemoved(After(w, before), between) by {
      OriginalSocketUntilRemoved(w, before);
    }
    OriginalSocketUntilRemoved(After(w, before + between), later);
  }

  /** Without the inode `Clean` says nothing about the socket: a daemon that left it behind is not noticed. */
  lemma UnexaminedSaysNothing(w: World)
    requires Opened(w) && w.socket == Some(w.mine) && w.lockHeld
    ensures Happens(w, [Release]) && !After(w, [Release]).lockHeld && After(w, [Release]).socket == Some(w.mine)
    ensures WaitForExit(OpenWatch(w, true, false), Acquired, After(w, [Release]).socket) == Clean
  {
    assert [Release][1..] == [];
  }

  /** The world around the end of the command: the watch, the flock and the later look at the path are all of it. */
  ghost predicate Observed(
      w: World, examined: bool, before: seq<Event>, between: seq<Event>,
      watch: ExitWatch, flock: Flock, socketNow: Option<nat>)
  {
    && Opened(w) && Happens(w, before) && Happens(w, before + between)
    && watch == OpenWatch(w, watch.lock, examined)
    && (flock.Acquired? ==> !After(w, before).lockHeld)
    && socketNow == After(w, before + between).socket
  }

  /** The daemon that was killed has let go of its lock, and its socket is never seen again. */
  ghost predicate GoneForGood(w: World, events: seq<Event>) {
    forall later :: Happens(w, events + later) ==>
      !After(w, events + later).lockHeld && After(w, events + later).socket != Some(w.mine)
  }

  lemma CleanIsForGood(
      w: World, examined: bool, before: seq<Event>, between: seq<Event>, watch: ExitWatch, socketNow: Option<nat>)
    requires Observed(w, examined, before, between, watch, Acquired, socketNow)
    requires watch.lock && (examined || w.socket.None?) && WaitForExit(watch, Acquired, socketNow).Clean?
    ensures GoneForGood(w, before + between)
  {
    forall later | Happens(w, before + between + later)
      ensures !After(w, before + between + later).lockHeld && After(w, before + between + later).socket != Some(w.mine)
    {
      CleanMeansGone(w, examined, before, between, later);
    }
  }

  /**
   `kill --wait` from its first kill frame on, in a world that it observes; the loop ends,
   because the ticks reach a verdict.
   */
  method KillAndWait(
      cfg: Config, start: int, sendOk: bool, ticks: seq<Tick>, watch: ExitWatch, flock: Flock, socketNow: Option<nat>,
      ghost w: World, ghost examined: bool, ghost before: seq<Event>, ghost between: seq<Event>)
      returns (code: nat, kills: seq<Option<string>>)
    requires !Watch(cfg, Started(cfg, start), ticks).verdict.Waiting?
    requires Observed(w, examined, before, between, watch, flock, socketNow)
    ensures |kills| <= 2
    ensures kills == [] <==> !sendOk
    ensures !sendOk ==> code == 1
    ensures sendOk ==> var r := Watch(cfg, Started(cfg, start), ticks);
      && kills == r.state.kills
      && (r.verdict.Exit? ==> code == r.verdict.code)
      && (r.verdict.Seen? ==>
            code ==
            if watch.lock && flock.BudgetSpent? then 3
            else if watch.lock && flock.Acquired? && socketNow.Some? && socketNow == watch.inode then 1
            else 0)
    ensures code == 0 && watch.lock ==> flock.Acquired? || flock.Failed?
    ensures code == 0 && watch.lock && flock.Acquired? && (examined || w.socket.None?) ==>
      GoneForGood(w, before + between)
  {
    if !sendOk {
      return 1, [];
    }
    KillTheorem(cfg, start, ticks);
    NoStrayCode(cfg, Started(cfg, start), ticks);
    var r, used := WaitLoop(cfg, start, ticks);
    kills := r.state.kills;
    if r.verdict.Exit? {
      return r.verdict.code, kills;
    }
    var outcome := WaitForExit(watch, flock, socketNow);
    match outcome {
      case SocketLeftBehind => code := 1;
      case TimedOut => code := 3;
      case _ => code := 0;
    }
    if outcome.Clean? && flock.Acquired? && (examined || w.socket.None?) {
      CleanIsForGood(w, examined, before, between, watch, socketNow);
    }
  }

  lemma {:induction false} NoStrayCode(cfg: Config, s: State, ticks: seq<Tick>)
    ensures var v := Watch(cfg, s, ticks).verdict; v.Exit? ==> v.code == 1 || v.code == 3
    decreases |ticks|
  {
    if ticks != [] {
      NoStrayCode(cfg, Iterate(cfg, s, ticks[0]).state, ticks[1..]);
    }
  }
}
