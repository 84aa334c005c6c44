/** The definitions that `register` makes: what is pinned from a shell is what a later shell is compared with. */
module PinnedEnv {
  import opened Options
  import opened Text
  import opened Environment
  import opened ServiceFile
  import opened Registration
  import opened ReadBackUnit
  import ReadBack
  import ReadBackEmpty

  datatype Locations = Locations(
    home: Option<string>, configHome: Option<string>, stateHome: Option<string>, stateDir: Option<string>)

  function ValueOf(at: Locations, i: nat): Option<string>
    requires i < 4
  {
    if i == 0 then at.home else if i == 1 then at.configHome else if i == 2 then at.stateHome else at.stateDir
  }

  function Put(env: Env, name: string, value: Option<string>): Env {
    if value.Some? then Insert(env, name, value.value) else env
  }

  function PinFirst(at: Locations, k: nat): Env
    requires k <= 4
  {
    if k == 0 then [] else Put(PinFirst(at, k - 1), LocationNames()[k - 1], ValueOf(at, k - 1))
  }

  /** `path` is the search path after normalisation. */
  function Pinned(at: Locations, path: Option<string>): Env {
    Put(PinFirst(at, 4), "PATH", if path == Some("") then None else path)
  }

  function Labelled(name: string, program: string, log: Option<string>, env: Env): Definition {
    Definition(name, [program, "web", "daemon", "supervise"], env, log, None)
  }

  // ---- What a pinned environment holds ----

  lemma PutGet(env: Env, name: string, value: Option<string>, q: string)
    ensures Get(Put(env, name, value), q) == if q == name && value.Some? then value else Get(env, q)
  {
    if value.Some? {
      PlaceGet(env, name, value.value, q);
    }
  }

  lemma NamesDiffer(i: nat, j: nat)
    requires i < 4 && j < 4
    ensures LocationNames()[i] == LocationNames()[j] <==> i == j
    ensures LocationNames()[i] != "PATH"
  {
    var names := LocationNames();
    assert |names[0]| == 4 && |names[1]| == 15 && |names[2]| == 14 && |names[3]| == 15;
    assert names[1][0] == 'X' && names[3][0] == 'H' && names[0][0] == 'H' && "PATH"[0] == 'P';
  }

  lemma {:induction false} PinFirstGet(at: Locations, k: nat, i: nat)
    requires k <= 4 && i < 4
    ensures Get(PinFirst(at, k), LocationNames()[i]) == if i < k then ValueOf(at, i) else None
  {
    hide Get, LocationNames, Put, ValueOf;
    FourNames();
    if k == 0 {
      NothingPinned(LocationNames()[i]);
    } else {
      PinFirstGet(at, k - 1, i);
      PutGet(PinFirst(at, k - 1), LocationNames()[k - 1], ValueOf(at, k - 1), LocationNames()[i]);
      NamesDiffer(i, k - 1);
    }
  }

  lemma NothingPinned(name: string)
    ensures Get([], name) == None
  {
  }

  /** Each location variable is pinned to its value, or not at all. */
  lemma PinnedGet(at: Locations, path: Option<string>, i: nat)
    requires i < 4
    ensures Get(Pinned(at, path), LocationNames()[i]) == ValueOf(at, i)
  {
    hide Get, LocationNames, Put, PinFirst;
    FourNames();
    PinFirstGet(at, 4, i);
    NamesDiffer(i, i);
    PutGet(PinFirst(at, 4), "PATH", if path == Some("") then None else path, LocationNames()[i]);
  }

  /** Name by name; the search path is pinned too, unless it is empty. */
  lemma PinnedIs(at: Locations, path: Option<string>)
    ensures Get(Pinned(at, path), "HOME") == at.home && Get(Pinned(at, path), "XDG_CONFIG_HOME") == at.configHome
    ensures Get(Pinned(at, path), "XDG_STATE_HOME") == at.stateHome
    ensures Get(Pinned(at, path), "HYOUI_STATE_DIR") == at.stateDir
    ensures Get(Pinned(at, path), "PATH") == if path == Some("") then None else path
  {
    hide Get, Pinned;
    PinnedGet(at, path, 0);
    PinnedGet(at, path, 1);
    PinnedGet(at, path, 2);
    PinnedGet(at, path, 3);
    PathIsPinned(at, path);
  }

  lemma PathIsPinned(at: Locations, path: Option<string>)
    ensures Get(Pinned(at, path), "PATH") == if path == Some("") then None else path
  {
    hide Get, Put, PinFirst;
    PutGet(PinFirst(at, 4), "PATH", if path == Some("") then None else path, "PATH");
    NoPathYet(at, 4);
  }

  lemma {:induction false} NoPathYet(at: Locations, k: nat)
    requires k <= 4
    ensures Get(PinFirst(at, k), "PATH") == None
  {
    hide Get, LocationNames, Put, ValueOf;
    FourNames();
    if k == 0 {
      NothingPinned("PATH");
    } else {
      NoPathYet(at, k - 1);
      NamesDiffer(k - 1, k - 1);
      PutGet(PinFirst(at, k - 1), LocationNames()[k - 1], ValueOf(at, k - 1), "PATH");
    }
  }

  /** Two shells pin the same places exactly if their four location variables agree; the search path does not matter. */
  lemma SamePlacesIff(a: Locations, b: Locations, p: Option<string>, q: Option<string>)
    ensures SamePlaces(Pinned(a, p), Pinned(b, q)) <==> a == b
  {
    hide Get, Pinned;
    forall i: nat | i < 4
      ensures Get(Pinned(a, p), LocationNames()[i]) == ValueOf(a, i)
      ensures Get(Pinned(b, q), LocationNames()[i]) == ValueOf(b, i)
    {
      PinnedGet(a, p, i);
      PinnedGet(b, q, i);
    }
    if SamePlaces(Pinned(a, p), Pinned(b, q)) {
      assert ValueOf(a, 0) == ValueOf(b, 0);
      assert ValueOf(a, 1) == ValueOf(b, 1);
      assert ValueOf(a, 2) == ValueOf(b, 2);
      assert ValueOf(a, 3) == ValueOf(b, 3);
    }
  }

  // ---- It survives rendering ----

  ghost predicate IsPinnedName(name: string) {
    name in LocationNames() || name == "PATH"
  }

  lemma PinnedNameIsPlain(name: string)
    requires IsPinnedName(name)
    ensures Trimmed(name) && '=' !in name && '<' !in name
  {
  }

  lemma PutKeys(env: Env, name: string, value: Option<string>)
    requires IsPinnedName(name) && forall i :: 0 <= i < |env| ==> IsPinnedName(env[i].key)
    ensures var r := Put(env, name, value); forall i :: 0 <= i < |r| ==> IsPinnedName(r[i].key)
  {
    hide IsPinnedName;
    if value.Some? {
      PlaceKeys(env, name, value.value);
    }
  }

  lemma {:induction false} PinFirstKeys(at: Locations, k: nat)
    requires k <= 4
    ensures forall i :: 0 <= i < |PinFirst(at, k)| ==> IsPinnedName(PinFirst(at, k)[i].key)
  {
    hide Put, ValueOf, LocationNames;
    if k > 0 {
      PinFirstKeys(at, k - 1);
      FourNames();
      PutKeys(PinFirst(at, k - 1), LocationNames()[k - 1], ValueOf(at, k - 1));
    }
  }

  lemma FourNames()
    ensures |LocationNames()| == 4
  {
  }

  lemma PinnedKeys(at: Locations, path: Option<string>)
    ensures var env := Pinned(at, path); forall i :: 0 <= i < |env| ==> IsPinnedName(env[i].key)
  {
    hide Put, PinFirst, LocationNames;
    PinFirstKeys(at, 4);
    PutKeys(PinFirst(at, 4), "PATH", if path == Some("") then None else path);
  }

  lemma MarkerOnlyInValue(key: string, value: string)
    requires '<' !in key && !Contains(value, Marker())
    ensures !Contains(Assignment(Entry(key, value)), Marker())
  {
    hide Marker, At;
    ReadBack.MarkerStart();
    var front := key + "=";
    assert Assignment(Entry(key, value)) == front + value;
    forall i: nat ensures !At(front + value, Marker(), i) {
      if i < |front| {
        ReadBack.Differs(front + value, Marker(), i, 0);
      } else {
        ReadBack.AtShift(front, value, Marker(), i - |front|);
      }
    }
  }

  /**
   On macOS a definition without an environment needs fields that forge no line, on Linux nothing may
   hold the launchd marker.
   */
  ghost predicate Plain(os: Os, def: Definition) {
    match os
    case MacOs => def.env == [] ==> ReadBackEmpty.NoFieldForges(def)
    case Linux =>
      && (forall i :: 0 <= i < |def.args| ==> !Contains(def.args[i], Marker()))
      && (forall i :: 0 <= i < |def.env| ==> !Contains(def.env[i].value, Marker()))
  }

  lemma PinnedIsReadable(
      os: Os, name: string, program: string, log: Option<string>, at: Locations, path: Option<string>)
    requires Plain(os, Labelled(name, program, log, Pinned(at, path)))
    ensures Readable(os, Labelled(name, program, log, Pinned(at, path)))
  {
    hide Marker, Pinned, Contains, Trimmed, ReadBackEmpty.NoFieldForges, IsPinnedName, Assignment;
    var def := Labelled(name, program, log, Pinned(at, path));
    PinnedKeys(at, path);
    forall i | 0 <= i < |def.env| ensures Trimmed(def.env[i].key) && '=' !in def.env[i].key && '<' !in def.env[i].key {
      PinnedNameIsPlain(def.env[i].key);
    }
    if os == Linux {
      forall i | 0 <= i < |def.env| ensures !Contains(Assignment(def.env[i]), Marker()) {
        MarkerOnlyInValue(def.env[i].key, def.env[i].value);
      }
    }
  }

  /**
   From shell to shell: after a definition pinned at `a` was registered, registering from a
   shell with locations `b` is refused exactly if some location variable differs.
   */
  lemma ShellIsRefusedIff(os: Os, s: State, name: string, program: string, log: Option<string>,
      a: Locations, p: Option<string>, force: bool, first: Conditions,
      otherProgram: string, otherLog: Option<string>, b: Locations, q: Option<string>, second: Conditions)
    requires Plain(os, Labelled(name, program, log, Pinned(a, p)))
    requires RegisterChecked(os, s, Labelled(name, program, log, Pinned(a, p)), force, first).1.Ok?
    requires second.pathKnown && second.checkReads
    ensures var before := RegisterChecked(os, s, Labelled(name, program, log, Pinned(a, p)), force, first).0;
      var other := Labelled(name, otherProgram, otherLog, Pinned(b, q));
      var (after, r) := RegisterChecked(os, before, other, false, second);
      (r.Drifted? <==> a != b) && (r.Drifted? ==> after == before)
  {
    hide RegisterChecked, Pinned, Plain, Readable, Render, SamePlaces, PinnedLocationDrift;
    var def, other := Labelled(name, program, log, Pinned(a, p)), Labelled(name, otherProgram, otherLog, Pinned(b, q));
    PinnedIsReadable(os, name, program, log, a, p);
    SuccessIsInPlace(os, s, def, force, first);
    RefusedIff(os, RegisterChecked(os, s, def, force, first).0, def, other, second);
    SamePlacesIff(a, b, p, q);
  }
}
