/** The string functions of the standard library that the modelled code uses, on sequences of characters. */
module Text {
  import opened Options

  /** `char::is_whitespace`: the Unicode `White_Space` property. */
  predicate IsWhitespace(c: char) {
    || '\t' <= c <= '\r' || c == ' ' || c == '\U{85}' || c == '\U{A0}' || c == '\U{1680}'
    || '\U{2000}' <= c <= '\U{200A}' || c == '\U{2028}' || c == '\U{2029}' || c == '\U{202F}' || c == '\U{205F}'
    || c == '\U{3000}'
  }

  function TrimStart(s: string): string {
    if s != [] && IsWhitespace(s[0]) then TrimStart(s[1..]) else s
  }

  function TrimEnd(s: string): string {
    if s != [] && IsWhitespace(s[|s| - 1]) then TrimEnd(s[..|s| - 1]) else s
  }

  function Trim(s: string): string {
    TrimEnd(TrimStart(s))
  }

  /** No outer whitespace. */
  predicate Trimmed(s: string) {
    s != [] ==> !IsWhitespace(s[0]) && !IsWhitespace(s[|s| - 1])
  }

  function TrimEndMatches(s: string, c: char): string {
    if s != [] && s[|s| - 1] == c then TrimEndMatches(s[..|s| - 1], c) else s
  }

  /** `s` holds `pat` at position `i`. */
  predicate At(s: string, pat: string, i: nat) {
    i + |pat| <= |s| && s[i..i + |pat|] == pat
  }

  /** `str::find`: the first position of `pat`. */
  function Find(s: string, pat: string): (r: Option<nat>)
    ensures r.Some? ==> r.value + |pat| <= |s|
  {
    if |s| < |pat| then None
    else if s[..|pat|] == pat then Some(0)
    else
      var r := Find(s[1..], pat);
      if r.Some? then Some(r.value + 1) else None
  }

  ghost predicate Contains(s: string, pat: string) {
    exists i: nat :: At(s, pat, i)
  }

  /** `str::split_once`. */
  function SplitOnce(s: string, pat: string): (r: Option<(string, string)>)
    ensures r.Some? ==> |r.value.0| + |pat| + |r.value.1| == |s|
  {
    var r := Find(s, pat);
    if r.Some? then Some((s[..r.value], s[r.value + |pat|..])) else None
  }

  /** `str::split` on one character. */
  function Split(s: string, c: char): (r: seq<string>)
    ensures |r| > 0
  {
    if s == [] then [[]]
    else
      var rest := Split(s[1..], c);
      if s[0] == c then [[]] + rest else [[s[0]] + rest[0]] + rest[1..]
  }

  /** `str::rfind` of one character. */
  function RFind(s: string, c: char): (r: Option<nat>)
    ensures r.Some? ==> r.value < |s| && s[r.value] == c && c !in s[r.value + 1..]
    ensures r.None? <==> c !in s
  {
    if s == [] then None
    else if s[|s| - 1] == c then Some(|s| - 1)
    else
      assert s == s[..|s| - 1] + [s[|s| - 1]];
      RFind(s[..|s| - 1], c)
  }

  /** `str::replace`: every occurrence from the left, without overlap. */
  function Replace(s: string, pat: string, with: string): string
    requires pat != []
  {
    if |s| < |pat| then s
    else if s[..|pat|] == pat then with + Replace(s[|pat|..], pat, with)
    else [s[0]] + Replace(s[1..], pat, with)
  }

  function Join(parts: seq<string>, sep: string): string {
    if parts == [] then [] else if |parts| == 1 then parts[0] else parts[0] + sep + Join(parts[1..], sep)
  }

  /** Every character replaced by a string of its own. */
  function MapChars(s: string, f: char -> string): string {
    if s == [] then [] else f(s[0]) + MapChars(s[1..], f)
  }

  // ---- Facts ----

  lemma AtNext(s: string, pat: string, i: nat)
    requires s != []
    ensures At(s, pat, i + 1) <==> At(s[1..], pat, i)
  {
    assert i + 1 + |pat| <= |s| ==> s[1..][i..i + |pat|] == s[i + 1..i + 1 + |pat|];
  }

  /** What `Find` finds is the first occurrence. */
  lemma {:induction false} FindGives(s: string, pat: string)
    ensures var r := Find(s, pat);
      && (r.Some? ==> At(s, pat, r.value) && forall i: nat :: i < r.value ==> !At(s, pat, i))
      && (r.None? ==> forall i: nat :: !At(s, pat, i))
  {
    if |s| >= |pat| && s[..|pat|] != pat {
      FindGives(s[1..], pat);
      var r := Find(s[1..], pat);
      if r.Some? {
        AtNext(s, pat, r.value);
      }
      forall i: nat | if r.Some? then i < r.value + 1 else true ensures !At(s, pat, i) {
        if i > 0 {
          AtNext(s, pat, i - 1);
        }
      }
    }
  }

  /** An occurrence with none before it is the one found. */
  lemma FindIs(s: string, pat: string, i: nat)
    requires At(s, pat, i) && forall j: nat :: j < i ==> !At(s, pat, j)
    ensures Find(s, pat) == Some(i)
    ensures SplitOnce(s, pat) == Some((s[..i], s[i + |pat|..]))
  {
    FindGives(s, pat);
  }

  lemma SplitOnceAtChar(a: string, c: char, b: string)
    requires c !in a
    ensures SplitOnce(a + [c] + b, [c]) == Some((a, b))
  {
    var s := a + [c] + b;
    assert At(s, [c], |a|);
    forall j: nat | j < |a| ensures !At(s, [c], j) {
      assert s[j] == a[j];
      assert s[j..j + 1] == [a[j]];
    }
    FindIs(s, [c], |a|);
    assert s[..|a|] == a && s[|a| + 1..] == b;
  }

  lemma SplitOnceWithoutChar(s: string, c: char)
    ensures SplitOnce(s, [c]).None? <==> c !in s
    ensures SplitOnce(s, [c]).Some? ==>
      var (a, b) := SplitOnce(s, [c]).value; s == a + [c] + b && c !in a
  {
    FindGives(s, [c]);
    forall i: nat ensures At(s, [c], i) <==> i < |s| && s[i] == c {
      if i < |s| {
        assert s[i..i + 1] == [s[i]];
      }
    }
  }

  lemma {:induction false} RFindIs(a: string, c: char, b: string)
    requires c !in b
    ensures RFind(a + [c] + b, c) == Some(|a|)
  {
    if b == [] {
      assert a + [c] + b == a + [c];
    } else {
      var n := |b| - 1;
      assert (a + [c] + b)[..|a| + 1 + n] == a + [c] + b[..n];
      RFindIs(a, c, b[..n]);
    }
  }

  lemma {:induction false} TrimmedIsFixed(s: string)
    requires Trimmed(s)
    ensures Trim(s) == s
  {
  }

  lemma {:induction false} TrimEndGives(s: string)
    ensures TrimEnd(s) <= s
    ensures TrimEnd(s) != [] ==> !IsWhitespace(TrimEnd(s)[|TrimEnd(s)| - 1])
  {
    if s != [] && IsWhitespace(s[|s| - 1]) {
      TrimEndGives(s[..|s| - 1]);
    }
  }

  lemma {:induction false} TrimStartGives(s: string)
    ensures TrimStart(s) != [] ==> !IsWhitespace(TrimStart(s)[0])
  {
    if s != [] && IsWhitespace(s[0]) {
      TrimStartGives(s[1..]);
    }
  }

  lemma TrimGivesTrimmed(s: string)
    ensures Trimmed(Trim(s))
  {
    TrimStartGives(s);
    TrimEndGives(TrimStart(s));
  }

  lemma {:induction false} TrimEndMatchesGives(s: string, c: char)
    ensures TrimEndMatches(s, c) <= s
    ensures var t := TrimEndMatches(s, c); t != [] ==> t[|t| - 1] != c
    ensures forall i :: |TrimEndMatches(s, c)| <= i < |s| ==> s[i] == c
  {
    if s != [] && s[|s| - 1] == c {
      TrimEndMatchesGives(s[..|s| - 1], c);
    }
  }

  /** The only way to split a string into a part not ending in `c` and a run of `c`. */
  lemma {:induction false} TrimEndMatchesIs(s: string, c: char, t: string)
    requires t <= s && (t != [] ==> t[|t| - 1] != c) && forall i :: |t| <= i < |s| ==> s[i] == c
    ensures TrimEndMatches(s, c) == t
  {
    if |t| < |s| {
      assert s[|s| - 1] == c;
      TrimEndMatchesIs(s[..|s| - 1], c, t);
    }
  }

  lemma {:induction false} SplitSnoc(s: string, c: char)
    ensures Split(s + [c], c) == Split(s, c) + [[]]
  {
    if s == [] {
      assert (s + [c])[1..] == [];
    } else {
      assert (s + [c])[1..] == s[1..] + [c];
      SplitSnoc(s[1..], c);
    }
  }

  /** One character at a time: what `Replace` does with a pattern of one character. */
  lemma {:induction false} ReplaceCharConcat(a: string, b: string, c: char, with: string)
    ensures Replace(a + b, [c], with) == Replace(a, [c], with) + Replace(b, [c], with)
  {
    if a == [] {
      assert a + b == b;
    } else {
      assert (a + b)[1..] == a[1..] + b && (a + b)[..1] == a[..1];
      ReplaceCharConcat(a[1..], b, c, with);
    }
  }

  /** Replacing a character after a character map is one character map. */
  lemma {:induction false} ReplaceAfterMap(s: string, f: char -> string, c: char, with: string, g: char -> string)
    requires forall x :: g(x) == Replace(f(x), [c], with)
    ensures Replace(MapChars(s, f), [c], with) == MapChars(s, g)
  {
    if s != [] {
      ReplaceCharConcat(f(s[0]), MapChars(s[1..], f), c, with);
      ReplaceAfterMap(s[1..], f, c, with, g);
    }
  }

  lemma {:induction false} MapCharsIdentity(s: string, f: char -> string)
    requires forall x :: f(x) == [x]
    ensures MapChars(s, f) == s
  {
    if s != [] {
      MapCharsIdentity(s[1..], f);
    }
  }

  lemma {:induction false} MapCharsConcat(a: string, b: string, f: char -> string)
    ensures MapChars(a + b, f) == MapChars(a, f) + MapChars(b, f)
  {
    if a == [] {
      assert a + b == b;
    } else {
      assert (a + b)[1..] == a[1..] + b;
      MapCharsConcat(a[1..], b, f);
    }
  }

  /** A character that no replacement holds is not in the result. */
  lemma {:induction false} MapCharsLacks(s: string, f: char -> string, c: char)
    requires forall x :: c !in f(x)
    ensures c !in MapChars(s, f)
  {
    if s != [] {
      MapCharsLacks(s[1..], f, c);
    }
  }

  lemma {:induction false} SplitFirst(a: string, c: char, b: string)
    requires c !in a
    ensures Split(a, c) == [a]
    ensures Split(a + [c] + b, c) == [a] + Split(b, c)
  {
    var s := a + [c] + b;
    if a == [] {
      assert s[0] == c && s[1..] == b;
    } else {
      assert s[1..] == a[1..] + [c] + b;
      SplitFirst(a[1..], c, b);
      assert [a[0]] + a[1..] == a;
    }
  }

  /** Splitting undoes joining. */
  lemma {:induction false} SplitJoin(parts: seq<string>, c: char)
    requires parts != [] && forall i :: 0 <= i < |parts| ==> c !in parts[i]
    ensures Split(Join(parts, [c]), c) == parts
  {
    if |parts| == 1 {
      SplitFirst(parts[0], c, []);
    } else {
      SplitJoin(parts[1..], c);
      SplitFirst(parts[0], c, Join(parts[1..], [c]));
      assert [parts[0]] + parts[1..] == parts;
    }
  }
}
