/**
 Registration of a service under a label. Whether an unforced registration is refused is
 decided from the text on disk: it is read back and compared with the new definition on the
 variables that say where files live.
 */
module Registration {
  import opened Options
  import opened Text
  import opened ServiceText
  import opened Environment
  import opened ServiceFile
  import ReadBack
  import ReadBackUnit
  import ReadBackEmpty

  datatype Os = MacOs | Linux

  function Render(os: Os, def: Definition): string {
    match os case MacOs => LaunchdPlist(def) case Linux => SystemdUnit(def)
  }

  // ---- Differences in location ----

  function LocationNames(): seq<string> {
    ["HOME", "XDG_CONFIG_HOME", "XDG_STATE_HOME", "HYOUI_STATE_DIR"]
  }

  datatype Difference = Difference(name: string, registered: Option<string>, current: Option<string>)

  function DriftOn(names: seq<string>, registered: Env, current: Env): seq<Difference> {
    if names == [] then []
    else
      var before, after := Get(registered, names[0]), Get(current, names[0]);
      var rest := DriftOn(names[1..], registered, current);
      if before != after then [Difference(names[0], before, after)] + rest else rest
  }

  function PinnedLocationDrift(registered: Env, current: Env): seq<Difference> {
    DriftOn(LocationNames(), registered, current)
  }

  predicate SamePlaces(a: Env, b: Env) {
    forall i :: 0 <= i < |LocationNames()| ==> Get(a, LocationNames()[i]) == Get(b, LocationNames()[i])
  }

  // ---- The backend ----

  /**
   The definition files by label, the labels loaded by the operating system, and every definition
   handed to `install`.
   */
  datatype State = State(texts: map<string, string>, loaded: set<string>, installs: seq<Definition>)

  datatype Outcome = Installed | NotWritten | NotLoaded

  /**
   What the system answers during one call: which questions fail, how an install ends, and whether a
   failed one leaves the label loaded.
   */
  datatype Conditions = Conditions(
    pathKnown: bool, checkReads: bool, rereads: bool, statusKnown: bool, outcome: Outcome, staysLoaded: bool)

  datatype Result = Ok(changed: bool) | Drifted(differences: seq<Difference>) | Failed

  function WithLoaded(s: State, name: string, on: bool): State {
    s.(loaded := if on then s.loaded + {name} else s.loaded - {name})
  }

  function Install(os: Os, s: State, def: Definition, c: Conditions): (State, Result) {
    var tried := s.(installs := s.installs + [def]);
    var written := tried.(texts := s.texts[def.name := Render(os, def)]);
    match c.outcome
    case Installed => (WithLoaded(written, def.name, true), Ok(true))
    case NotWritten => (WithLoaded(tried, def.name, c.staysLoaded), Failed)
    case NotLoaded => (WithLoaded(written, def.name, c.staysLoaded), Failed)
  }

  function Register(os: Os, s: State, def: Definition, c: Conditions): (State, Result) {
    if !c.pathKnown || !c.statusKnown then (s, Failed)
    else if c.rereads && def.name in s.texts && s.texts[def.name] == Render(os, def) && def.name in s.loaded then
      (s, Ok(false))
    else Install(os, s, def, c)
  }

  function RegisterChecked(os: Os, s: State, def: Definition, force: bool, c: Conditions): (State, Result) {
    if !force && !c.pathKnown then (s, Failed)
    else if !force && c.checkReads && def.name in s.texts then
      var differences := PinnedLocationDrift(EnvIn(s.texts[def.name]), def.env);
      if differences != [] then (s, Drifted(differences)) else Register(os, s, def, c)
    else Register(os, s, def, c)
  }

  /** The backend that the two operations change in place. */
  class Backend {
    const os: Os
    var texts: map<string, string>
    var loaded: set<string>
    var installs: seq<Definition>

    constructor (os: Os)
      ensures this.os == os && Now() == State(map[], {}, [])
    {
      this.os := os;
      texts, loaded, installs := map[], {}, [];
    }

    ghost function Now(): State
      reads this
    {
      State(texts, loaded, installs)
    }

    method InstallNow(def: Definition, c: Conditions) returns (r: Result)
      modifies this
      ensures (Now(), r) == Install(os, old(Now()), def, c)
    {
      hide LaunchdPlist, SystemdUnit;
      installs := installs + [def];
      if c.outcome == NotWritten {
        loaded := if c.staysLoaded then loaded + {def.name} else loaded - {def.name};
        return Failed;
      }
      var text;
      match os {
        case MacOs => text := RenderLaunchdPlist(def);
        case Linux => text := RenderSystemdUnit(def);
      }
      texts := texts[def.name := text];
      if c.outcome == NotLoaded {
        loaded := if c.staysLoaded then loaded + {def.name} else loaded - {def.name};
        return Failed;
      }
      loaded := loaded + {def.name};
      return Ok(true);
    }

    method RegisterNow(def: Definition, c: Conditions) returns (r: Result)
      modifies this
      ensures (Now(), r) == Register(os, old(Now()), def, c)
    {
      hide LaunchdPlist, SystemdUnit, Install;
      if !c.pathKnown {
        return Failed;
      }
      var rendered;
      match os {
        case MacOs => rendered := RenderLaunchdPlist(def);
        case Linux => rendered := RenderSystemdUnit(def);
      }
      var current: Option<string> := if c.rereads && def.name in texts then Some(texts[def.name]) else None;
      if !c.statusKnown {
        return Failed;
      }
      if current == Some(rendered) && def.name in loaded {
        return Ok(false);
      }
      r := InstallNow(def, c);
    }

    method RegisterCheckedNow(def: Definition, force: bool, c: Conditions) returns (r: Result)
      modifies this
      ensures (Now(), r) == RegisterChecked(os, old(Now()), def, force, c)
    {
      hide Register, PinnedLocationDrift, EnvIn;
      if !force {
        if !c.pathKnown {
          return Failed;
        }
        if c.checkReads && def.name in texts {
          var pinned := EnvInDefinition(texts[def.name]);
          var differences := PinnedLocationDrift(pinned, def.env);
          if differences != [] {
            return Drifted(differences);
          }
        }
      }
      r := RegisterNow(def, c);
    }
  }

  // ---- The comparison ----

  lemma {:induction false} DriftOnIs(names: seq<string>, registered: Env, current: Env, d: Difference)
    ensures d in DriftOn(names, registered, current) <==>
      && d.name in names && d.registered == Get(registered, d.name) && d.current == Get(current, d.name)
      && d.registered != d.current
  {
    if names != [] {
      DriftOnIs(names[1..], registered, current, d);
    }
  }

  /** No difference is reported exactly if all location variables agree. */
  lemma NoDriftIff(registered: Env, current: Env)
    ensures PinnedLocationDrift(registered, current) == [] <==> SamePlaces(registered, current)
  {
    hide Get, DriftOn, LocationNames;
    var names := LocationNames();
    var drift := PinnedLocationDrift(registered, current);
    forall i | 0 <= i < |names| ensures Get(registered, names[i]) == Get(current, names[i]) || drift != [] {
      DriftOnIs(names, registered, current, Difference(names[i], Get(registered, names[i]), Get(current, names[i])));
    }
    if drift != [] {
      DriftOnIs(names, registered, current, drift[0]);
      var i :| 0 <= i < |names| && names[i] == drift[0].name;
      assert Get(registered, names[i]) != Get(current, names[i]);
    }
  }

  // ---- What is on disk is read back ----

  /** The definitions whose environment survives rendering and reading. */
  ghost predicate Readable(os: Os, def: Definition) {
    match os
    case MacOs =>
      if def.env == [] then ReadBackEmpty.NoFieldForges(def)
      else forall i :: 0 <= i < |def.env| ==> Trimmed(def.env[i].key)
    case Linux => ReadBackUnit.MarkerFree(def) && forall i :: 0 <= i < |def.env| ==> '=' !in def.env[i].key
  }

  /** Without an environment, and with the launchd marker but no dictionary, nothing is there to lose. */
  ghost predicate EmptyAnyway(os: Os, def: Definition) {
    os == Linux && def.env == [] && !ReadBackUnit.MarkerFree(def)
  }

  /** On both systems; on Linux for the definitions that hold the launchd marker or a dictionary, but not both. */
  lemma ReadBackIff(os: Os, def: Definition)
    requires os == Linux ==> ReadBackUnit.MarkerFree(def) || ReadBackUnit.HoldsNowhere(def, "<dict>")
    ensures EnvIn(Render(os, def)) == def.env <==> Readable(os, def) || EmptyAnyway(os, def)
  {
    hide LaunchdPlist, SystemdUnit, EnvIn, Trimmed, ReadBackUnit.HoldsNowhere, ReadBackEmpty.NoFieldForges;
    match os {
      case MacOs =>
        if def.env == [] {
          ReadBackEmpty.EmptyReadBackIff(def);
        } else {
          ReadBack.LaunchdReadBackIff(def);
        }
      case Linux => ReadBackUnit.SystemdReadBackIff(def);
    }
  }

  lemma ReadableIsReadBack(os: Os, def: Definition)
    requires Readable(os, def)
    ensures EnvIn(Render(os, def)) == def.env
  {
    hide Render, EnvIn, Trimmed, ReadBackEmpty.NoFieldForges, ReadBackUnit.HoldsNowhere;
    ReadBackIff(os, def);
  }

  // ---- One registration after another ----

  /** A successful registration leaves its own text under its label, loaded. */
  lemma SuccessIsInPlace(os: Os, s: State, def: Definition, force: bool, c: Conditions)
    requires RegisterChecked(os, s, def, force, c).1.Ok?
    ensures var (after, r) := RegisterChecked(os, s, def, force, c);
      && def.name in after.texts && after.texts[def.name] == Render(os, def) && def.name in after.loaded
      && after.installs == s.installs + if r.changed then [def] else []
  {
    hide Render, PinnedLocationDrift, EnvIn;
  }

  /** The label holds exactly this definition's text, which can be read, and is loaded. */
  predicate InPlace(os: Os, s: State, def: Definition, c: Conditions) {
    c.rereads && def.name in s.texts && s.texts[def.name] == Render(os, def) && def.name in s.loaded
  }

  /** The text on disk can be read and pins other places. */
  ghost predicate PinsElsewhere(s: State, def: Definition, c: Conditions) {
    c.checkReads && def.name in s.texts && !SamePlaces(EnvIn(s.texts[def.name]), def.env)
  }

  ghost predicate Refuses(s: State, def: Definition, force: bool, c: Conditions) {
    !force && c.pathKnown && PinsElsewhere(s, def, c)
  }

  /** The call gets as far as `install`. */
  ghost predicate Installs(os: Os, s: State, def: Definition, force: bool, c: Conditions) {
    c.pathKnown && c.statusKnown && !Refuses(s, def, force, c) && !InPlace(os, s, def, c)
  }

  /** Every registration: its answer and the whole new state. */
  lemma RegistrationIs(os: Os, s: State, def: Definition, force: bool, c: Conditions)
    ensures var (after, r) := RegisterChecked(os, s, def, force, c);
      var installs := Installs(os, s, def, force, c);
      && (r.Drifted? <==> Refuses(s, def, force, c))
      && (r == Ok(true) <==> installs && c.outcome.Installed?)
      && (r == Ok(false) <==>
            c.pathKnown && c.statusKnown && !Refuses(s, def, force, c) && InPlace(os, s, def, c))
      && (r == Failed <==>
            || !c.pathKnown
            || (!Refuses(s, def, force, c) && !c.statusKnown)
            || (installs && !c.outcome.Installed?))
      && after.texts ==
         (if installs && !c.outcome.NotWritten? then s.texts[def.name := Render(os, def)] else s.texts)
      && after.loaded ==
         (if !installs then s.loaded
          else if c.outcome.Installed? || c.staysLoaded then s.loaded + {def.name} else s.loaded - {def.name})
      && after.installs == s.installs + if installs then [def] else []
  {
    hide Render, PinnedLocationDrift, EnvIn, SamePlaces;
    if def.name in s.texts {
      NoDriftIff(EnvIn(s.texts[def.name]), def.env);
    }
  }

  /** Force is never refused, and if the system plays along it replaces whatever was there. */
  lemma ForceReplaces(os: Os, s: State, def: Definition, c: Conditions)
    ensures !RegisterChecked(os, s, def, true, c).1.Drifted?
    ensures c.pathKnown && c.statusKnown && c.outcome.Installed? ==>
      var (after, r) := RegisterChecked(os, s, def, true, c);
      && r.Ok? && def.name in after.texts && after.texts[def.name] == Render(os, def) && def.name in after.loaded
  {
    hide Render, PinnedLocationDrift, EnvIn, SamePlaces, RegisterChecked;
    RegistrationIs(os, s, def, true, c);
  }

  /**
   After definition `a` was written under a label, an unforced registration of `b` under it is
   refused exactly if they differ on some location variable (as long as the path is known and
   the text can be read), the report lists those variables with both values, and a refusal
   changes nothing.
   */
  lemma RefusedIff(os: Os, s: State, a: Definition, b: Definition, c: Conditions)
    requires Readable(os, a) && a.name == b.name && a.name in s.texts && s.texts[a.name] == Render(os, a)
    ensures var (after, r) := RegisterChecked(os, s, b, false, c);
      && (r.Drifted? <==> c.pathKnown && c.checkReads && !SamePlaces(a.env, b.env))
      && (r.Drifted? ==> after == s && r.differences == PinnedLocationDrift(a.env, b.env))
  {
    hide Render, PinnedLocationDrift, EnvIn, Readable, SamePlaces, Register;
    RegisterNeverDrifts(os, s, b, c);
    ReadableIsReadBack(os, a);
    NoDriftIff(a.env, b.env);
  }

  lemma RegisterNeverDrifts(os: Os, s: State, def: Definition, c: Conditions)
    ensures !Register(os, s, def, c).1.Drifted?
  {
  }

  /** Registering the same definition again, while it is loaded and can be read, installs nothing. */
  lemma AgainIsUnchanged(os: Os, s: State, def: Definition, force: bool, first: Conditions, again: Conditions)
    requires Readable(os, def) && RegisterChecked(os, s, def, force, first).1.Ok?
    requires again.pathKnown && again.rereads && again.statusKnown
    ensures var after := RegisterChecked(os, s, def, force, first).0;
      RegisterChecked(os, after, def, false, again) == (after, Ok(false))
  {
    hide Render, PinnedLocationDrift, EnvIn, Readable, SamePlaces, RegisterChecked;
    var after := RegisterChecked(os, s, def, force, first).0;
    SuccessIsInPlace(os, s, def, force, first);
    RefusedIff(os, after, def, def, again);
    NotRefused(os, after, def, again);
    EveryPlaceIsItself(def.env);
  }

  lemma EveryPlaceIsItself(env: Env)
    ensures SamePlaces(env, env)
  {
  }

  lemma NotRefused(os: Os, s: State, def: Definition, c: Conditions)
    ensures var r := RegisterChecked(os, s, def, false, c);
      !r.1.Drifted? ==> r == Register(os, s, def, c)
  {
    hide Install, PinnedLocationDrift, EnvIn;
  }

  /**
   A unit that holds the launchd marker and no dictionary pins nothing as far as the reader can
   tell: registering the very same definition again is refused exactly if it pins some place.
   */
  lemma MarkerBlocksAgain(s: State, def: Definition, force: bool, first: Conditions, again: Conditions)
    requires !ReadBackUnit.MarkerFree(def) && ReadBackUnit.HoldsNowhere(def, "<dict>")
    requires RegisterChecked(Linux, s, def, force, first).1.Ok? && again.pathKnown && again.checkReads
    ensures var after := RegisterChecked(Linux, s, def, force, first).0;
      RegisterChecked(Linux, after, def, false, again).1.Drifted? <==> !SamePlaces([], def.env)
  {
    hide SystemdUnit, PinnedLocationDrift, EnvIn, SamePlaces, Register;
    hide ReadBackUnit.MarkerFree, ReadBackUnit.HoldsNowhere;
    var after := RegisterChecked(Linux, s, def, force, first).0;
    SuccessIsInPlace(Linux, s, def, force, first);
    ReadBackUnit.MarkerHidesEnvironment(def);
    RegisterNeverDrifts(Linux, after, def, again);
    NoDriftIff([], def.env);
  }

  /** A definition for which that happens: the marker is its program, and it pins a home. */
  function MarkedDefinition(): Definition {
    Definition("l", [Marker()], [Entry("HOME", "h")], None, None)
  }

  lemma MarkedDefinitionIsRefused(again: Conditions)
    requires again.pathKnown && again.checkReads
    ensures var all := Conditions(true, true, true, true, Installed, true);
      var (after, r) := RegisterChecked(Linux, State(map[], {}, []), MarkedDefinition(), false, all);
      r == Ok(true) && RegisterChecked(Linux, after, MarkedDefinition(), false, again).1.Drifted?
  {
    hide SystemdUnit, EnvIn, PinnedLocationDrift, ReadBackUnit.MarkerFree, ReadBackUnit.HoldsNowhere, Marker;
    var def, all := MarkedDefinition(), Conditions(true, true, true, true, Installed, true);
    MarkedIsMarked();
    assert Get(def.env, LocationNames()[0]) == Some("h");
    assert Get([], LocationNames()[0]) == None;
    MarkerBlocksAgain(State(map[], {}, []), def, false, all, again);
  }

  lemma MarkedIsMarked()
    ensures !ReadBackUnit.MarkerFree(MarkedDefinition()) && ReadBackUnit.HoldsNowhere(MarkedDefinition(), "<dict>")
  {
    var def := MarkedDefinition();
    ReadBackUnit.PrefixContains(Marker(), Marker());
    assert Contains(def.args[0], Marker());
    MarkerHoldsNoDict();
    assert Assignment(def.env[0]) == "HOME=h";
    forall i: nat ensures !At("HOME=h", "<dict>", i) {
      ReadBack.Differs("HOME=h", "<dict>", i, 0);
    }
  }

  lemma MarkerHoldsNoDict()
    ensures !Contains(Marker(), "<dict>")
  {
    forall i: nat ensures !At(Marker(), "<dict>", i) {
      ReadBack.Differs(Marker(), "<dict>", i, if i == 0 || i == 25 then 1 else 0);
    }
  }

  // ---- Whole histories ----

  datatype Call = Call(def: Definition, force: bool, conditions: Conditions)

  function After(os: Os, s: State, calls: seq<Call>): State {
    if calls == [] then s
    else
      var n := |calls| - 1;
      RegisterChecked(os, After(os, s, calls[..n]), calls[n].def, calls[n].force, calls[n].conditions).0
  }

  /** Whether a call, made in state `s`, writes its definition. */
  predicate Writes(os: Os, s: State, call: Call) {
    var (after, _) := RegisterChecked(os, s, call.def, call.force, call.conditions);
    after.installs != s.installs && call.conditions.outcome != NotWritten
  }

  /** The definition that the last writing call under a label wrote. */
  function LastWritten(os: Os, s: State, calls: seq<Call>, name: string): Option<Definition> {
    if calls == [] then None
    else
      var n := |calls| - 1;
      if calls[n].def.name == name && Writes(os, After(os, s, calls[..n]), calls[n]) then Some(calls[n].def)
      else LastWritten(os, s, calls[..n], name)
  }

  lemma StepWrites(os: Os, s: State, call: Call)
    ensures RegisterChecked(os, s, call.def, call.force, call.conditions).0.texts ==
      if Writes(os, s, call) then s.texts[call.def.name := Render(os, call.def)] else s.texts
  {
    hide Render, PinnedLocationDrift, EnvIn;
  }

  /** In every history the text under a label is that of the definition last written under it. */
  lemma {:induction false} DiskHoldsLastWritten(os: Os, s: State, calls: seq<Call>, name: string)
    ensures var last := LastWritten(os, s, calls, name);
      var texts := After(os, s, calls).texts;
      && (last.Some? ==> last.value.name == name && name in texts && texts[name] == Render(os, last.value))
      && (last.None? ==> (name in texts <==> name in s.texts) && (name in texts ==> texts[name] == s.texts[name]))
  {
    hide Render, RegisterChecked, Writes;
    if calls != [] {
      var n := |calls| - 1;
      DiskHoldsLastWritten(os, s, calls[..n], name);
      StepWrites(os, After(os, s, calls[..n]), calls[n]);
    }
  }

  /**
   Over every history: an unforced registration is refused exactly if the definition last
   written under its label pins other places.
   */
  lemma RefusalInEveryHistory(os: Os, s: State, calls: seq<Call>, b: Definition, c: Conditions)
    requires var last := LastWritten(os, s, calls, b.name); last.Some? && Readable(os, last.value)
    ensures var (after, r) := RegisterChecked(os, After(os, s, calls), b, false, c);
      && (r.Drifted? <==>
            c.pathKnown && c.checkReads && !SamePlaces(LastWritten(os, s, calls, b.name).value.env, b.env))
      && (r.Drifted? ==> after == After(os, s, calls))
  {
    hide Render, PinnedLocationDrift, EnvIn, Readable, SamePlaces, RegisterChecked, LastWritten, After;
    DiskHoldsLastWritten(os, s, calls, b.name);
    RefusedIff(os, After(os, s, calls), LastWritten(os, s, calls, b.name).value, b, c);
  }

  /** Calls that can neither force their way nor miss the text on disk. */
  predicate Careful(calls: seq<Call>, name: string) {
    forall i :: 0 <= i < |calls| && calls[i].def.name == name ==> !calls[i].force && calls[i].conditions.checkReads
  }

  lemma CarefulWriteKeepsPlaces(os: Os, s: State, a: Definition, call: Call)
    requires Readable(os, a) && a.name == call.def.name && a.name in s.texts && s.texts[a.name] == Render(os, a)
    requires !call.force && call.conditions.checkReads && Writes(os, s, call)
    ensures SamePlaces(a.env, call.def.env)
  {
    hide Render, SamePlaces, Readable, EnvIn, PinnedLocationDrift;
    RefusedIff(os, s, a, call.def, call.conditions);
  }

  lemma PlacesAreTransitive(a: Env, b: Env, c: Env)
    requires SamePlaces(a, b) && SamePlaces(b, c)
    ensures SamePlaces(a, c)
  {
  }

  /** Without force, no history moves the places that a label is pinned to. */
  lemma {:induction false} PlacesNeverMoveUnforced(os: Os, s: State, a: Definition, calls: seq<Call>)
    requires Readable(os, a) && a.name in s.texts && s.texts[a.name] == Render(os, a)
    requires Careful(calls, a.name) && forall i :: 0 <= i < |calls| ==> Readable(os, calls[i].def)
    ensures var last := LastWritten(os, s, calls, a.name);
      (last.Some? ==> Readable(os, last.value) && SamePlaces(a.env, last.value.env))
    ensures a.name in After(os, s, calls).texts && SamePlaces(a.env, EnvIn(After(os, s, calls).texts[a.name]))
  {
    hide Render, SamePlaces, Readable, EnvIn, RegisterChecked, Writes;
    var n := |calls| - 1;
    if calls != [] {
      PlacesNeverMoveUnforced(os, s, a, calls[..n]);
      var before := After(os, s, calls[..n]);
      if calls[n].def.name == a.name && Writes(os, before, calls[n]) {
        DiskHoldsLastWritten(os, s, calls[..n], a.name);
        var last := LastWritten(os, s, calls[..n], a.name);
        var on := if last.Some? then last.value else a;
        EveryPlaceIsItself(a.env);
        CarefulWriteKeepsPlaces(os, before, on, calls[n]);
        PlacesAreTransitive(a.env, on.env, calls[n].def.env);
      }
    }
    DiskHoldsLastWritten(os, s, calls, a.name);
    EveryPlaceIsItself(a.env);
    var last := LastWritten(os, s, calls, a.name);
    ReadableIsReadBack(os, if last.Some? then last.value else a);
  }
}
