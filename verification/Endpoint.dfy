/**
 The canonical form of an endpoint, which keys records in three programs. Acceptance, the
 canonical string and everything derived from it are characterised independently of the
 order in which `parse` looks at its input.
 */
module Endpoint {
  import opened Options
  import opened Text

  datatype Error = UnsupportedScheme | MissingHost | HasQueryOrFragment | Malformed

  datatype Result = Ok(endpoint: string) | Err(error: Error)

  /** A component `.` or `..`. */
  predicate IsDotted(components: seq<string>) {
    exists i :: 0 <= i < |components| && (components[i] == "." || components[i] == "..")
  }

  predicate HasDots(path: string) {
    IsDotted(Split(path, '/'))
  }

  function Parse(input: string): Result {
    var raw := Trim(input);
    if !IsPart(raw) then Err(HasQueryOrFragment)
    else match SplitOnce(raw, "://")
      case None => Err(Malformed)
      case Some((scheme, rest)) =>
        if scheme != "http" && scheme != "https" then Err(UnsupportedScheme)
        else match SplitOnce(rest, "/")
          case Some((authority, path)) => Canonicalize(scheme, authority, path)
          case None => Canonicalize(scheme, rest, "")
  }

  predicate IsPart(s: string) { '?' !in s && '#' !in s }

  function Canonicalize(scheme: string, authority: string, path: string): Result {
    if authority == "" then Err(MissingHost)
    else if HasDots(path) then Err(Malformed)
    else
      var trimmed := TrimEndMatches(path, '/');
      if trimmed == "" then Ok(scheme + "://" + authority + "/")
      else Ok(scheme + "://" + authority + "/" + trimmed + "/")
  }

  function Origin(e: string): string {
    var afterScheme := match Find(e, "://") case Some(i) => i + 3 case None => 0;
    match Find(e[afterScheme..], "/")
    case Some(slash) => e[..afterScheme + slash]
    case None => e
  }

  function RpId(e: string): string {
    var origin := Origin(e);
    var host := origin[match Find(origin, "://") case Some(i) => i + 3 case None => 0..];
    WithoutPort(host)
  }

  function WithoutPort(authority: string): string {
    match RFind(authority, ':')
    case Some(colon) => if ']' !in authority[colon..] then authority[..colon] else authority
    case None => authority
  }

  function CookiePath(e: string): string
    requires |Origin(e)| <= |e|
  {
    var trimmed := TrimEndMatches(e[|Origin(e)|..], '/');
    if trimmed == "" then "/" else trimmed
  }

  // ---- The canonical form, on its own ----

  /** `scheme://authority/` or `scheme://authority/path/`. */
  function Assemble(scheme: string, authority: string, path: string): string {
    scheme + "://" + authority + "/" + if path == "" then "" else path + "/"
  }

  predicate Canonical(scheme: string, authority: string, path: string) {
    && (scheme == "http" || scheme == "https")
    && authority != "" && '/' !in authority && IsPart(authority)
    && IsPart(path) && !HasDots(path) && (path != "" ==> path[|path| - 1] != '/')
  }

  ghost predicate IsCanonical(e: string) {
    exists scheme, authority, path :: Canonical(scheme, authority, path) && e == Assemble(scheme, authority, path)
  }

  /** What is left of an input without outer whitespace and trailing slashes. */
  function Core(input: string): string {
    TrimEndMatches(Trim(input), '/')
  }

  // ---- Facts about the pieces ----

  lemma SchemeIsFirst(scheme: string, rest: string)
    requires scheme == "http" || scheme == "https"
    ensures Find(scheme + "://" + rest, "://") == Some(|scheme|)
    ensures SplitOnce(scheme + "://" + rest, "://") == Some((scheme, rest))
  {
    var s := scheme + "://" + rest;
    assert s[|scheme|..|scheme| + 3] == "://";
    forall j: nat | j < |scheme| ensures !At(s, "://", j) {
      assert s[j] == scheme[j] != ':' && "://"[0] == ':';
    }
    FindIs(s, "://", |scheme|);
    assert s[..|scheme|] == scheme && s[|scheme| + 3..] == rest;
  }

  lemma {:induction false} DotsIgnoreTrailingSlashes(path: string)
    ensures HasDots(TrimEndMatches(path, '/')) <==> HasDots(path)
  {
    if path != [] && path[|path| - 1] == '/' {
      var init := path[..|path| - 1];
      DotsIgnoreTrailingSlashes(init);
      assert path == init + ['/'];
      SplitSnoc(init, '/');
      var parts := Split(init, '/');
      assert Split(path, '/') == parts + [[]];
      assert forall i :: 0 <= i < |parts| ==> Split(path, '/')[i] == parts[i];
    }
  }

  /** An authority followed by nothing, or by a slash and a path: how `parse` takes a canonical input apart. */
  lemma ParseParts(scheme: string, authority: string, tail: string, path: string, input: string)
    requires scheme == "http" || scheme == "https"
    requires '/' !in authority
    requires (tail == "" && path == "") || tail == "/" + path
    requires Trim(input) == scheme + "://" + authority + tail
    ensures Parse(input) ==
      if IsPart(authority) && IsPart(path) then Canonicalize(scheme, authority, path) else Err(HasQueryOrFragment)
  {
    hide SplitOnce, Trim, Canonicalize;
    var rest := authority + tail;
    assert Trim(input) == scheme + "://" + rest;
    SchemeIsFirst(scheme, rest);
    SplitOnceWithoutChar(rest, '/');
    if tail == "" {
      assert rest == authority;
    } else {
      assert rest == authority + ['/'] + path;
      SplitOnceAtChar(authority, '/', path);
    }
    PartsOfWhole(scheme, authority, tail, path);
  }

  lemma PartsOfWhole(scheme: string, authority: string, tail: string, path: string)
    requires scheme == "http" || scheme == "https"
    requires (tail == "" && path == "") || tail == "/" + path
    ensures IsPart(scheme + "://" + authority + tail) <==> IsPart(authority) && IsPart(path)
  {
    assert IsPart(scheme + "://");
    InConcat(scheme + "://" + authority, tail);
    InConcat(scheme + "://", authority);
    InConcat("/", path);
  }

  lemma InConcat(a: string, b: string)
    ensures IsPart(a + b) <==> IsPart(a) && IsPart(b)
  {
    assert forall c :: c in a + b <==> c in a || c in b;
  }

  /** Every input that `parse` accepts has that shape. */
  lemma AcceptedShape(input: string) returns (scheme: string, authority: string, tail: string, path: string)
    requires Parse(input).Ok?
    ensures scheme == "http" || scheme == "https"
    ensures '/' !in authority && ((tail == "" && path == "") || tail == "/" + path)
    ensures Trim(input) == scheme + "://" + authority + tail
  {
    hide SplitOnce, Trim, Canonicalize;
    var rest;
    scheme, rest := SplitScheme(Trim(input));
    SplitOnceWithoutChar(rest, '/');
    match SplitOnce(rest, "/") {
      case None =>
        authority, tail, path := rest, "", "";
      case Some(pair) =>
        authority, path := pair.0, pair.1;
        tail := "/" + path;
        assert rest == authority + tail;
    }
    assert Trim(input) == scheme + "://" + authority + tail;
  }

  lemma SplitScheme(raw: string) returns (scheme: string, rest: string)
    requires SplitOnce(raw, "://").Some?
    ensures SplitOnce(raw, "://") == Some((scheme, rest)) && raw == scheme + "://" + rest
  {
    hide Find;
    FindGives(raw, "://");
    var at := Find(raw, "://").value;
    scheme, rest := raw[..at], raw[at + 3..];
    assert raw == scheme + raw[at..at + 3] + rest;
  }

  lemma CoreOf(scheme: string, authority: string, tail: string, path: string, input: string)
    requires authority != "" && '/' !in authority
    requires (tail == "" && path == "") || tail == "/" + path
    requires Trim(input) == scheme + "://" + authority + tail
    ensures Core(input) + "/" == Assemble(scheme, authority, TrimEndMatches(path, '/'))
  {
    var raw := Trim(input);
    var trimmed := TrimEndMatches(path, '/');
    TrimEndMatchesGives(path, '/');
    var core := scheme + "://" + authority + if trimmed == "" then "" else "/" + trimmed;
    assert core <= raw;
    forall i | |core| <= i < |raw| ensures raw[i] == '/' {
      var k := i - |scheme + "://" + authority|;
      assert raw[i] == tail[k];
    }
    assert core[|core| - 1] == if trimmed == "" then authority[|authority| - 1] else trimmed[|trimmed| - 1];
    TrimEndMatchesIs(raw, '/', core);
  }

  // ---- What the canonical form promises ----

  /** The canonical string is the input without outer whitespace and trailing slashes, and one slash. */
  lemma CanonicalString(input: string)
    requires Parse(input).Ok?
    ensures Parse(input).endpoint == Core(input) + "/"
    ensures IsCanonical(Parse(input).endpoint)
  {
    var scheme, authority, tail, path := AcceptedShape(input);
    ParseParts(scheme, authority, tail, path, input);
    CoreOf(scheme, authority, tail, path, input);
    var trimmed := TrimEndMatches(path, '/');
    TrimEndMatchesGives(path, '/');
    DotsIgnoreTrailingSlashes(path);
    assert Canonical(scheme, authority, trimmed);
  }

  lemma AssembleIsTrimmed(scheme: string, authority: string, path: string)
    requires scheme == "http" || scheme == "https"
    ensures Trim(Assemble(scheme, authority, path)) == Assemble(scheme, authority, path)
  {
    hide Trim;
    var e := Assemble(scheme, authority, path);
    assert e[0] == 'h' && e[|e| - 1] == '/';
    TrimmedIsFixed(e);
  }

  lemma AssembleSplits(scheme: string, authority: string, path: string, rest: string)
    requires rest == if path == "" then "" else path + "/"
    ensures Assemble(scheme, authority, path) == scheme + "://" + authority + ("/" + rest)
  {
  }

  /** Canonical strings are accepted unchanged, so `parse` is idempotent and accepts its own output. */
  lemma CanonicalIsFixed(scheme: string, authority: string, path: string)
    requires Canonical(scheme, authority, path)
    ensures Parse(Assemble(scheme, authority, path)) == Ok(Assemble(scheme, authority, path))
  {
    hide Parse, Trim, HasDots, TrimEndMatches;
    var rest := if path == "" then "" else path + "/";
    AssembleIsTrimmed(scheme, authority, path);
    AssembleSplits(scheme, authority, path, rest);
    InConcat(path, "/");
    ParseParts(scheme, authority, "/" + rest, rest, Assemble(scheme, authority, path));
    TrimEndMatchesIs(rest, '/', path);
    DotsIgnoreTrailingSlashes(rest);
  }

  lemma ParseIsIdempotent(input: string)
    requires Parse(input).Ok?
    ensures Parse(Parse(input).endpoint) == Parse(input)
  {
    CanonicalString(input);
    var endpoint := Parse(input).endpoint;
    var scheme, authority, path :| Canonical(scheme, authority, path) && endpoint == Assemble(scheme, authority, path);
    CanonicalIsFixed(scheme, authority, path);
  }

  /**
   Two accepted inputs name the same endpoint exactly if they differ only in outer whitespace and
   trailing slashes.
   */
  lemma SameEndpointIff(a: string, b: string)
    requires Parse(a).Ok? && Parse(b).Ok?
    ensures Parse(a) == Parse(b) <==> Core(a) == Core(b)
  {
    CanonicalString(a);
    CanonicalString(b);
    assert Core(a) == (Core(a) + "/")[..|Core(a)|] && Core(b) == (Core(b) + "/")[..|Core(b)|];
  }

  /**
   The whole of `parse` in one statement: it accepts exactly the inputs whose core is a canonical
   string without its last slash.
   */
  lemma AcceptedIff(input: string)
    ensures Parse(input).Ok? <==> IsCanonical(Core(input) + "/")
  {
    if Parse(input).Ok? {
      CanonicalString(input);
    } else if IsCanonical(Core(input) + "/") {
      var core := Core(input) + "/";
      var scheme, authority, path :| Canonical(scheme, authority, path) && core == Assemble(scheme, authority, path);
      CoreIsAccepted(input, scheme, authority, path);
      assert false;
    }
  }

  lemma CoreIsAccepted(input: string, scheme: string, authority: string, path: string)
    requires Canonical(scheme, authority, path) && Core(input) + "/" == Assemble(scheme, authority, path)
    ensures Parse(input).Ok?
  {
    hide Parse, Trim, HasDots, TrimEndMatches, IsPart;
    var raw, core := Trim(input), Core(input);
    TrimEndMatchesGives(raw, '/');
    var slashes := raw[|core|..];
    var stem := scheme + "://" + authority + if path == "" then "" else "/" + path;
    assert core + "/" == stem + "/";
    assert core == (core + "/")[..|core|] == stem;
    assert raw == stem + slashes;
    NoPartInSlashes(slashes);
    if path == "" && slashes == "" {
      ParseParts(scheme, authority, "", "", input);
    } else {
      var full := if path == "" then slashes[1..] else path + slashes;
      assert raw == scheme + "://" + authority + ("/" + full);
      NoPartInSlashes(slashes[if path == "" then 1 else 0..]);
      InConcat(path, slashes);
      TrimEndMatchesIs(full, '/', path);
      DotsIgnoreTrailingSlashes(full);
      ParseParts(scheme, authority, "/" + full, full, input);
    }
  }

  lemma NoPartInSlashes(s: string)
    requires forall i :: 0 <= i < |s| ==> s[i] == '/'
    ensures IsPart(s)
  {
  }

  // ---- Why an input is refused ----

  lemma {:induction false} TrimKeepsOthers(s: string, c: char)
    requires !IsWhitespace(c)
    ensures c in Trim(s) <==> c in s
  {
    TrimStartKeeps(s, c);
    TrimEndKeeps(TrimStart(s), c);
  }

  lemma {:induction false} TrimStartKeeps(s: string, c: char)
    requires !IsWhitespace(c)
    ensures c in TrimStart(s) <==> c in s
  {
    if s != [] && IsWhitespace(s[0]) {
      TrimStartKeeps(s[1..], c);
      assert s == [s[0]] + s[1..];
    }
  }

  lemma {:induction false} TrimEndKeeps(s: string, c: char)
    requires !IsWhitespace(c)
    ensures c in TrimEnd(s) <==> c in s
  {
    if s != [] && IsWhitespace(s[|s| - 1]) {
      TrimEndKeeps(s[..|s| - 1], c);
      assert s == s[..|s| - 1] + [s[|s| - 1]];
    }
  }

  predicate HttpLike(raw: string) {
    "http://" <= raw || "https://" <= raw
  }

  /** What follows the scheme of such an input. */
  function Rest(raw: string): string
    requires HttpLike(raw)
  {
    if "http://" <= raw then raw[7..] else raw[8..]
  }

  lemma HttpLikeFrom(scheme: string, rest: string)
    requires scheme == "http" || scheme == "https"
    ensures HttpLike(scheme + "://" + rest)
  {
    var raw := scheme + "://" + rest;
    assert raw[..|scheme| + 3] == scheme + "://";
    assert "http" + "://" == "http://" && "https" + "://" == "https://";
  }

  lemma HttpLikeIs(raw: string)
    ensures HttpLike(raw) <==>
      var split := SplitOnce(raw, "://"); split.Some? && (split.value.0 == "http" || split.value.0 == "https")
    ensures HttpLike(raw) ==> SplitOnce(raw, "://").value.1 == Rest(raw)
    ensures SplitOnce(raw, "://").Some? <==> Contains(raw, "://")
  {
    hide SplitOnce;
    if SplitOnce(raw, "://").Some? {
      var scheme, rest := SplitScheme(raw);
      if scheme == "http" || scheme == "https" {
        HttpLikeFrom(scheme, rest);
      }
    }
    if "http://" <= raw {
      assert raw == "http" + "://" + raw[7..];
      SchemeIsFirst("http", raw[7..]);
    } else if "https://" <= raw {
      assert raw == "https" + "://" + raw[8..];
      SchemeIsFirst("https", raw[8..]);
    }
    SplitOnceFinds(raw, "://");
  }

  lemma SplitOnceFinds(s: string, pat: string)
    ensures SplitOnce(s, pat).Some? <==> Contains(s, pat)
  {
    hide Find, At;
    FindGives(s, pat);
  }

  /**
   Without a scheme and a host there is nothing to look at; a host is missing if a slash or nothing
   follows the scheme.
   */
  predicate HostMissing(raw: string) {
    HttpLike(raw) && (Rest(raw) == "" || Rest(raw)[0] == '/')
  }

  /** Some component after the host is a dot or two. */
  predicate DotsAfterHost(raw: string) {
    HttpLike(raw) && !HostMissing(raw) && IsDotted(Split(Rest(raw), '/')[1..])
  }

  lemma DotsOf(authority: string, path: string)
    requires '/' !in authority
    ensures IsDotted(Split(authority + ['/'] + path, '/')[1..]) <==> HasDots(path)
  {
    hide Split;
    SplitFirst(authority, '/', path);
    assert ([authority] + Split(path, '/'))[1..] == Split(path, '/');
  }

  lemma NoDotsInNothing()
    ensures !HasDots("")
  {
    assert Split("", '/') == [""];
  }

  lemma CanonicalizeRefuses(scheme: string, authority: string, path: string)
    ensures var r := Canonicalize(scheme, authority, path);
      && (r == Err(MissingHost) <==> authority == "")
      && (r == Err(Malformed) <==> authority != "" && HasDots(path))
      && r != Err(HasQueryOrFragment) && r != Err(UnsupportedScheme)
  {
  }

  /** The reason given for a refusal, in terms of the input. */
  lemma RefusedIff(input: string)
    ensures Parse(input) == Err(HasQueryOrFragment) <==> '?' in input || '#' in input
    ensures Parse(input) == Err(UnsupportedScheme) <==>
      IsPart(input) && Contains(Trim(input), "://") && !HttpLike(Trim(input))
    ensures Parse(input) == Err(MissingHost) <==> IsPart(input) && HostMissing(Trim(input))
    ensures Parse(input) == Err(Malformed) <==>
      IsPart(input) && (!Contains(Trim(input), "://") || DotsAfterHost(Trim(input)))
  {
    hide SplitOnce, Trim, Canonicalize, HttpLike, Rest, Contains, Split;
    var raw := Trim(input);
    TrimKeepsOthers(input, '?');
    TrimKeepsOthers(input, '#');
    HttpLikeIs(raw);
    if IsPart(raw) && HttpLike(raw) {
      var scheme, rest := SplitOnce(raw, "://").value.0, Rest(raw);
      SplitOnceWithoutChar(rest, '/');
      match SplitOnce(rest, "/") {
        case Some((authority, path)) =>
          CanonicalizeRefuses(scheme, authority, path);
          SplitFirst(authority, '/', path);
          DotsOf(authority, path);
          assert rest[0] == if authority == "" then '/' else authority[0];
        case None =>
          CanonicalizeRefuses(scheme, rest, "");
          SplitFirst(rest, '/', "");
          NoDotsInNothing();
      }
    }
  }

  /** Empty path components are kept, not refused. */
  lemma EmptyComponentsAreAccepted()
    ensures Parse("http://h/a//b") == Ok("http://h/a//b/")
  {
    hide Parse, Trim, Split, TrimEndMatches;
    var input, path := "http://h/a//b", "a//b";
    TrimmedIsFixed(input);
    assert input == "http" + "://" + "h" + "/a//b" && "/a//b" == "/" + path;
    ParseParts("http", "h", "/a//b", path, input);
    SplitFirst("a", '/', "/b");
    SplitFirst("", '/', "b");
    SplitFirst("b", '/', "");
    assert "a" + ['/'] + "/b" == path && "" + ['/'] + "b" == "/b";
    assert Split(path, '/') == ["a", "", "b"];
    TrimEndMatchesIs(path, '/', path);
  }

  // ---- What is derived from it ----

  lemma OriginOf(e: string, start: string, authority: string, rest: string)
    requires e == start + (authority + ['/'] + rest) && |start| >= 3 && Find(e, "://") == Some(|start| - 3)
    requires '/' !in authority
    ensures Origin(e) == start + authority && e[|start + authority|..] == ['/'] + rest
  {
    hide Find;
    var after := authority + ['/'] + rest;
    assert e[|start|..] == after;
    SplitOnceAtChar(authority, '/', rest);
    assert Find(after, "/") == Some(|authority|) by {
      assert |SplitOnce(after, "/").value.0| == |authority|;
    }
    assert e[..|start| + |authority|] == start + authority;
  }

  lemma OriginOfCanonical(scheme: string, authority: string, path: string, rest: string)
    requires scheme == "http" || scheme == "https"
    requires '/' !in authority && rest == if path == "" then "" else path + "/"
    ensures var e := Assemble(scheme, authority, path);
      Origin(e) == scheme + "://" + authority && |Origin(e)| <= |e| && e[|Origin(e)|..] == ['/'] + rest
        && e == Origin(e) + (['/'] + rest)
  {
    hide Find, Origin, Assemble;
    var e := Assemble(scheme, authority, path);
    AssembleSplits(scheme, authority, path, rest);
    var after := authority + ['/'] + rest;
    assert e == scheme + "://" + after;
    SchemeIsFirst(scheme, after);
    OriginOf(e, scheme + "://", authority, rest);
    assert |e| >= |scheme + "://" + authority|;
  }

  /** Origin, cookie path and the slash between them are the whole canonical string. */
  lemma EndpointIsOriginAndCookiePath(scheme: string, authority: string, path: string)
    requires Canonical(scheme, authority, path)
    ensures var e := Assemble(scheme, authority, path);
      && Origin(e) == scheme + "://" + authority && |Origin(e)| <= |e|
      && CookiePath(e) == "/" + path
      && e == if path == "" then Origin(e) + CookiePath(e) else Origin(e) + CookiePath(e) + "/"
  {
    hide Find, Origin, TrimEndMatches, HasDots, Assemble;
    var e := Assemble(scheme, authority, path);
    var rest := if path == "" then "" else path + "/";
    OriginOfCanonical(scheme, authority, path, rest);
    var trimmed := if path == "" then "" else "/" + path;
    TrimEndMatchesIs(['/'] + rest, '/', trimmed);
  }

  lemma SchemeOf(scheme: string, authority: string, path: string)
    requires Canonical(scheme, authority, path)
    ensures scheme == "http" || scheme == "https"
  {
  }

  lemma RpIdOfAuthority(scheme: string, authority: string, path: string)
    requires Canonical(scheme, authority, path)
    ensures RpId(Assemble(scheme, authority, path)) == WithoutPort(authority)
  {
    hide Find, Origin, CookiePath, WithoutPort, Canonical;
    EndpointIsOriginAndCookiePath(scheme, authority, path);
    assert scheme == "http" || scheme == "https" by { SchemeOf(scheme, authority, path); }
    SchemeIsFirst(scheme, authority);
    assert (scheme + "://" + authority)[|scheme| + 3..] == authority;
  }

  /** A registered name without a colon, or an IP literal in brackets (section 3.2.2 of RFC 3986). */
  predicate IsHost(host: string) {
    ':' !in host || Bracketed(host)
  }

  predicate Bracketed(host: string) {
    |host| >= 2 && host[0] == '[' && host[|host| - 1] == ']'
  }

  predicate IsPort(port: string) {
    forall i :: 0 <= i < |port| ==> '0' <= port[i] <= '9'
  }

  function PortSuffix(port: Option<string>): string {
    if port.Some? then ":" + port.value else ""
  }

  lemma PortIsDropped(host: string, port: string)
    requires IsPort(port)
    ensures WithoutPort(host + (":" + port)) == host
  {
    hide RFind;
    var authority := host + (":" + port);
    assert authority == host + [':'] + port;
    RFindIs(host, ':', port);
    assert authority[|host|..] == ":" + port && authority[..|host|] == host;
  }

  /** A last character `]` keeps everything: no colon is after it. */
  lemma BracketIsKept(authority: string)
    requires authority != "" && authority[|authority| - 1] == ']'
    ensures WithoutPort(authority) == authority
  {
    hide RFind;
    if RFind(authority, ':').Some? {
      var colon := RFind(authority, ':').value;
      assert authority[colon..][|authority| - 1 - colon] == ']';
    }
  }

  lemma NoColonIsKept(authority: string)
    requires ':' !in authority
    ensures WithoutPort(authority) == authority
  {
  }

  /** A colon of the user part is taken for that of a port. */
  lemma UserIsCut(user: string, rest: string)
    requires ':' in user && ']' !in user && ':' !in rest && ']' !in rest
    ensures WithoutPort(user + rest) == user[..RFind(user, ':').value]
  {
    hide RFind;
    var colon := RFind(user, ':').value;
    var before, after := user[..colon], user[colon + 1..] + rest;
    assert user + rest == before + [':'] + after;
    RFindIs(before, ':', after);
    assert (user + rest)[..colon] == before;
    assert forall c :: c in (user + rest)[colon..] ==> c in user || c in rest;
  }

  /** For a plain or bracketed host, the RP ID drops the port and nothing else. */
  lemma RpIdDropsExactlyThePort(scheme: string, host: string, port: Option<string>, path: string)
    requires IsHost(host) && (port.Some? ==> IsPort(port.value))
    requires Canonical(scheme, host + PortSuffix(port), path)
    ensures RpId(Assemble(scheme, host + PortSuffix(port), path)) == host
  {
    hide RpId, Canonical, Assemble, IsPort;
    RpIdOfAuthority(scheme, host + PortSuffix(port), path);
    if port.Some? {
      PortIsDropped(host, port.value);
    } else {
      assert host + "" == host;
      if Bracketed(host) {
        BracketIsKept(host);
      }
    }
  }

  /**
   With user information in front of the host (section 3.2.1 of RFC 3986) the RP ID keeps it,
   unless a colon of the user part is the last one: then what precedes that colon is taken. So
   it is the host only by coincidence.
   */
  lemma RpIdWithUserInformation(scheme: string, user: string, host: string, port: Option<string>, path: string)
    requires IsHost(host) && (port.Some? ==> IsPort(port.value)) && ']' !in user
    requires !Bracketed(host) ==> ']' !in host
    requires Canonical(scheme, user + ("@" + host) + PortSuffix(port), path)
    ensures RpId(Assemble(scheme, user + ("@" + host) + PortSuffix(port), path)) ==
      if port.None? && !Bracketed(host) && ':' in user then user[..RFind(user, ':').value] else user + ("@" + host)
  {
    hide RpId, Canonical, Assemble, IsPort, RFind;
    var whole := user + ("@" + host);
    RpIdOfAuthority(scheme, whole + PortSuffix(port), path);
    if port.Some? {
      PortIsDropped(whole, port.value);
    } else {
      assert whole + "" == whole;
      UserWithoutPort(user, host);
    }
  }

  /** Exactly when the RP ID of an endpoint with user information is its host. */
  lemma RpIdIsHostIff(scheme: string, user: string, host: string, port: Option<string>, path: string)
    requires IsHost(host) && (port.Some? ==> IsPort(port.value)) && ']' !in user
    requires !Bracketed(host) ==> ']' !in host
    requires Canonical(scheme, user + ("@" + host) + PortSuffix(port), path)
    ensures RpId(Assemble(scheme, user + ("@" + host) + PortSuffix(port), path)) == host <==>
      port.None? && !Bracketed(host) && ':' in user && user[..RFind(user, ':').value] == host
  {
    hide RpId, Canonical, Assemble, IsPort, RFind;
    RpIdWithUserInformation(scheme, user, host, port, path);
    assert |user + ("@" + host)| > |host|;
  }

  /** An input where it is not, and one where it is. */
  lemma UserInformationExamples()
    ensures Parse("http://u@h/") == Ok("http://u@h/") && RpId("http://u@h/") == "u@h"
    ensures Parse("http://h:x@h/") == Ok("http://h:x@h/") && RpId("http://h:x@h/") == "h"
  {
    hide Parse, RpId, RFind;
    PlainRoot("u@h");
    PlainRoot("h:x@h");
    assert "http://u@h/" == Assemble("http", "u@h", "") && "http://h:x@h/" == Assemble("http", "h:x@h", "");
    assert "u@h" == "u" + ("@" + "h") + PortSuffix(None) && "h:x@h" == "h:x" + ("@" + "h") + PortSuffix(None);
    RpIdWithUserInformation("http", "u", "h", None, "");
    RpIdWithUserInformation("http", "h:x", "h", None, "");
    RFindIs("h", ':', "x");
    assert "h" + [':'] + "x" == "h:x";
  }

  lemma PlainRoot(authority: string)
    requires authority != "" && '/' !in authority && IsPart(authority)
    ensures Canonical("http", authority, "")
    ensures Parse(Assemble("http", authority, "")) == Ok(Assemble("http", authority, ""))
  {
    hide Parse, Assemble;
    assert Split("", '/') == [""];
    CanonicalIsFixed("http", authority, "");
  }

  lemma UserWithoutPort(user: string, host: string)
    requires IsHost(host) && ']' !in user && (!Bracketed(host) ==> ']' !in host)
    ensures WithoutPort(user + ("@" + host)) ==
      if !Bracketed(host) && ':' in user then user[..RFind(user, ':').value] else user + ("@" + host)
  {
    hide RFind, WithoutPort;
    var rest := "@" + host;
    if Bracketed(host) {
      BracketIsKept(user + rest);
    } else if ':' in user {
      UserIsCut(user, rest);
    } else {
      NoColonIsKept(user + rest);
    }
  }
}
