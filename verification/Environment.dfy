/** An ordered map from names to values: the entries in strictly increasing order of their keys. */
module Environment {
  import opened Options

  datatype Entry = Entry(key: string, value: string)

  type Env = e: seq<Entry> | Sorted(e)

  /** Lexicographic order by character. */
  predicate Less(a: string, b: string) {
    b != [] && (a == [] || a[0] < b[0] || (a[0] == b[0] && Less(a[1..], b[1..])))
  }

  predicate Sorted(e: seq<Entry>) {
    forall i, j :: 0 <= i < j < |e| ==> Less(e[i].key, e[j].key)
  }

  function Get(e: seq<Entry>, key: string): Option<string> {
    if e == [] then None else if e[0].key == key then Some(e[0].value) else Get(e[1..], key)
  }

  function Place(e: seq<Entry>, key: string, value: string): seq<Entry> {
    if e == [] then [Entry(key, value)]
    else if e[0].key == key then [Entry(key, value)] + e[1..]
    else if Less(key, e[0].key) then [Entry(key, value)] + e
    else [e[0]] + Place(e[1..], key, value)
  }

  function Insert(e: Env, key: string, value: string): Env {
    PlaceIsSorted(e, key, value);
    Place(e, key, value)
  }

  function InsertAll(e: Env, more: seq<Entry>): Env
    decreases |more|
  {
    if more == [] then e else InsertAll(Insert(e, more[0].key, more[0].value), more[1..])
  }

  predicate HasKey(e: seq<Entry>, key: string) {
    exists i :: 0 <= i < |e| && e[i].key == key
  }

  // ---- Facts ----

  lemma {:induction false} LessIsAsymmetric(a: string, b: string)
    requires Less(a, b)
    ensures a != b && !Less(b, a)
  {
    if a != [] && a[0] == b[0] {
      LessIsAsymmetric(a[1..], b[1..]);
    }
  }

  lemma {:induction false} LessIsTotal(a: string, b: string)
    ensures a == b || Less(a, b) || Less(b, a)
  {
    if a != [] && b != [] && a[0] == b[0] {
      LessIsTotal(a[1..], b[1..]);
      assert a == [a[0]] + a[1..] && b == [b[0]] + b[1..];
    }
  }

  lemma {:induction false} LessIsTransitive(a: string, b: string, c: string)
    requires Less(a, b) && Less(b, c)
    ensures Less(a, c)
  {
    if a != [] && a[0] == b[0] && b[0] == c[0] {
      LessIsTransitive(a[1..], b[1..], c[1..]);
    }
  }

  lemma {:induction false} PlaceKeys(e: seq<Entry>, key: string, value: string)
    ensures forall i :: 0 <= i < |Place(e, key, value)| ==>
      var k := Place(e, key, value)[i].key;
      k == key || exists j :: 0 <= j < |e| && e[j].key == k
  {
    if e != [] && e[0].key != key && !Less(key, e[0].key) {
      PlaceKeys(e[1..], key, value);
      var p, q := Place(e, key, value), Place(e[1..], key, value);
      forall i | 0 <= i < |p| ensures p[i].key == key || exists j :: 0 <= j < |e| && e[j].key == p[i].key {
        if i > 0 && p[i].key != key {
          var j :| 0 <= j < |e[1..]| && e[1..][j].key == q[i - 1].key;
          assert e[j + 1].key == p[i].key;
        }
      }
    }
  }

  lemma {:induction false} PlaceIsSorted(e: seq<Entry>, key: string, value: string)
    requires Sorted(e)
    ensures Sorted(Place(e, key, value))
  {
    if e != [] {
      var head, rest, p := e[0], e[1..], Place(e, key, value);
      if head.key == key {
        assert forall i :: 0 <= i < |p| ==> p[i].key == e[i].key;
      } else if Less(key, head.key) {
        forall j | 0 <= j < |e| ensures Less(key, e[j].key) {
          if j > 0 {
            LessIsTransitive(key, head.key, e[j].key);
          }
        }
      } else {
        PlaceIsSorted(rest, key, value);
        PlaceKeys(rest, key, value);
        LessIsTotal(key, head.key);
        forall j | 0 < j < |p| ensures Less(head.key, p[j].key) {
          assert p[j] == Place(rest, key, value)[j - 1];
        }
      }
    }
  }

  /** Inserting changes exactly one name. */
  lemma {:induction false} PlaceGet(e: seq<Entry>, key: string, value: string, name: string)
    ensures Get(Place(e, key, value), name) == if name == key then Some(value) else Get(e, name)
  {
    if e != [] && e[0].key != key && !Less(key, e[0].key) {
      PlaceGet(e[1..], key, value, name);
    }
  }

  lemma {:induction false} PlaceLast(e: seq<Entry>, key: string, value: string)
    requires forall i :: 0 <= i < |e| ==> Less(e[i].key, key)
    ensures Place(e, key, value) == e + [Entry(key, value)]
  {
    if e != [] {
      LessIsAsymmetric(e[0].key, key);
      PlaceLast(e[1..], key, value);
    }
  }

  /** Inserting the entries of a map one by one, in its own order, rebuilds it. */
  lemma {:induction false} InsertAllRebuilds(e: Env, more: seq<Entry>)
    requires Sorted(e + more)
    ensures InsertAll(e, more) == e + more
    decreases |more|
  {
    if more == [] {
      assert e + more == e;
    } else {
      var next := e + [more[0]];
      forall i | 0 <= i < |e| ensures Less(e[i].key, more[0].key) {
        assert (e + more)[i] == e[i] && (e + more)[|e|] == more[0];
      }
      PlaceLast(e, more[0].key, more[0].value);
      assert next + more[1..] == e + more;
      InsertAllRebuilds(Insert(e, more[0].key, more[0].value), more[1..]);
    }
  }

  /** A map built by inserting has no key that was not inserted. */
  lemma {:induction false} InsertAllKeys(e: Env, more: seq<Entry>, key: string)
    requires HasKey(InsertAll(e, more), key)
    ensures HasKey(e, key) || HasKey(more, key)
    decreases |more|
  {
    if more != [] {
      var next := Insert(e, more[0].key, more[0].value);
      InsertAllKeys(next, more[1..], key);
      if HasKey(next, key) {
        PlaceKeys(e, more[0].key, more[0].value);
      } else {
        var i :| 0 <= i < |more[1..]| && more[1..][i].key == key;
        assert more[i + 1].key == key;
      }
    }
  }

  /**
   A reader that keeps entries with good keys and makes every key good rebuilds exactly the
   maps whose keys were all good.
   */
  lemma RebuiltIff(env: Env, read: seq<Entry>, good: string -> bool)
    requires |read| == |env|
    requires forall i :: 0 <= i < |env| ==> good(read[i].key) && (good(env[i].key) ==> read[i] == env[i])
    ensures InsertAll([], read) == env <==> forall i :: 0 <= i < |env| ==> good(env[i].key)
  {
    hide InsertAll;
    if forall i :: 0 <= i < |env| ==> good(env[i].key) {
      assert read == env && [] + env == env;
      InsertAllRebuilds([], env);
    } else if InsertAll([], read) == env {
      var i :| 0 <= i < |env| && !good(env[i].key);
      assert HasKey(env, env[i].key);
      InsertAllKeys([], read, env[i].key);
    }
  }
}
