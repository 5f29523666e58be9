/** Route matching and first-match dispatch (router.go).

    A route is one of three immutable variants: an exact path, a path prefix,
    or a `/`-separated segment pattern whose `:name` segments capture the
    corresponding path segment, optionally checked by validators that are
    consumed in the order the captures are met. A router tries its routes in
    the order they were added and runs the handler of the first that
    matches. */
module Routes {
  import opened Wrappers
  import opened Text
  import opened Http
  import opened Arguments

  /** A validator of a captured path segment (`func(string) bool`). */
  type Validator = string -> bool

  datatype Route =
    | Exact(pattern: string, handler: Handler)
    | Prefix(prefix: string, handler: Handler)
    | Param(segments: seq<string>, validators: seq<Validator>, handler: Handler)
  {
    /** Whether this route claims `url`. */
    predicate Accepts(url: string)
    {
      match this
      case Exact(pattern, _) => ExactMatch(pattern, url)
      case Prefix(prefix, _) => PrefixMatch(prefix, url)
      case Param(segments, validators, _) => ParamMatch(segments, validators, url)
    }

    /** `Match(url)` of the three route types. */
    method Match(url: string) returns (b: bool)
      ensures b == Accepts(url)
    {
      match this
      case Exact(pattern, _) => b := ExactMatch(pattern, url);
      case Prefix(prefix, _) => b := PrefixMatch(prefix, url);
      case Param(segments, validators, _) => b := MatchSegments(segments, validators, url);
    }

    /** `HandlerFunc()`. */
    function HandlerFunc(): (h: Handler)
      ensures h == handler
    {
      handler
    }
  }

  // ----- exact routes -----

  predicate EndsInSlash(s: string) { |s| > 0 && s[|s| - 1] == '/' }

  /** `NewExactMatchRoute`: the pattern gets a trailing `/` unless it has one. */
  function NewExactMatchRoute(pattern: string, handler: Handler): (r: Route)
    ensures r.Exact? && r.handler == handler && EndsInSlash(r.pattern)
    ensures EndsInSlash(pattern) ==> r.pattern == pattern
    ensures !EndsInSlash(pattern) ==> r.pattern == pattern + "/"
  {
    Exact(if EndsInSlash(pattern) then pattern else pattern + "/", handler)
  }

  /** `exactMatchRoute.Match`: a non-empty path without a trailing `/` gets
      one, then the path must equal the pattern. */
  predicate ExactMatch(pattern: string, url: string)
  {
    (if |url| > 0 && url[|url| - 1] != '/' then url + "/" else url) == pattern
  }

  /** For a normalised pattern, an exact route matches the pattern itself
      and the pattern without its final `/`, and nothing else; in particular
      never the empty path. */
  lemma ExactMatchIff(pattern: string, url: string)
    requires EndsInSlash(pattern)
    ensures ExactMatch(pattern, url) <==>
      url == pattern || (url != [] && !EndsInSlash(url) && url + "/" == pattern)
    ensures !ExactMatch(pattern, [])
  {
  }

  // ----- prefix routes -----

  /** `prefixRoute.Match`: `strings.HasPrefix(url, prefix)`. */
  predicate PrefixMatch(prefix: string, url: string)
  {
    prefix <= url
  }

  /** A prefix route matches exactly the paths that extend its prefix. */
  lemma PrefixMatchIff(prefix: string, url: string)
    ensures PrefixMatch(prefix, url) <==> exists rest :: url == prefix + rest
  {
    if PrefixMatch(prefix, url) {
      assert url == prefix + url[|prefix|..];
    }
  }

  /** `NewPrefixRoute`. */
  function NewPrefixRoute(prefix: string, handler: Handler): (r: Route)
    ensures r.Prefix? && r.prefix == prefix && r.handler == handler
    ensures forall url :: r.Accepts(url) <==> prefix <= url
  {
    Prefix(prefix, handler)
  }

  // ----- parametric routes -----

  /** A pattern segment `:name` with a non-empty name captures. */
  predicate IsCapture(segment: string) { |segment| > 1 && segment[0] == ':' }

  /** `segs` without its trailing empty segments. */
  function Stripped(segs: seq<string>): (r: seq<string>)
    ensures r <= segs
    ensures r == [] || r[|r| - 1] != ""
    ensures forall i :: |r| <= i < |segs| ==> segs[i] == ""
    decreases |segs|
  {
    if segs != [] && segs[|segs| - 1] == "" then Stripped(segs[..|segs| - 1]) else segs
  }

  /** Dropping trailing blanks a second time changes nothing. */
  lemma StrippedIdempotent(segs: seq<string>)
    ensures Stripped(Stripped(segs)) == Stripped(segs)
  {
  }

  /** `removeTrailingBlanks`. */
  method RemoveTrailingBlanks(segments: seq<string>) returns (r: seq<string>)
    ensures r == Stripped(segments)
  {
    r := segments;
    while |r| > 0 && r[|r| - 1] == ""
      invariant Stripped(r) == Stripped(segments)
    {
      r := r[..|r| - 1];
    }
  }

  /** The segments a path or pattern is compared by. */
  function PathSegments(url: string): seq<string>
  {
    Stripped(Split(url, '/'))
  }

  /** `NewParamRoute`: the pattern's segments without trailing blanks. */
  function NewParamRoute(pattern: string, handler: Handler, validators: seq<Validator>): (r: Route)
    ensures r.Param? && r.handler == handler && r.validators == validators
    ensures r.segments == [] || r.segments[|r.segments| - 1] != ""
    ensures r.segments <= Split(pattern, '/')
    ensures forall i :: |r.segments| <= i < |Split(pattern, '/')| ==> Split(pattern, '/')[i] == ""
  {
    Param(PathSegments(pattern), validators, handler)
  }

  /** Segment-by-segment comparison of equally long pattern and path, with
      `vs` the validators not yet consumed. */
  predicate SegmentsMatch(pat: seq<string>, segs: seq<string>, vs: seq<Validator>)
    requires |pat| == |segs|
    decreases |pat|
  {
    if pat == [] then true
    else if IsCapture(pat[0]) && segs[0] != "" then
      if vs != [] then vs[0](segs[0]) && SegmentsMatch(pat[1..], segs[1..], vs[1..])
      else SegmentsMatch(pat[1..], segs[1..], vs)
    else segs[0] == pat[0] && SegmentsMatch(pat[1..], segs[1..], vs)
  }

  /** `paramRoute.Match`. */
  predicate ParamMatch(segments: seq<string>, validators: seq<Validator>, url: string)
  {
    var u := PathSegments(url);
    |u| == |segments| && SegmentsMatch(segments, u, validators)
  }

  /** The loop of `paramRoute.Match`. */
  method MatchSegments(segments: seq<string>, validators: seq<Validator>, url: string) returns (b: bool)
    ensures b == ParamMatch(segments, validators, url)
  {
    var urlSegments := RemoveTrailingBlanks(Split(url, '/'));
    if |urlSegments| != |segments| {
      return false;
    }
    var validatorIndex := 0;
    var i := 0;
    while i < |urlSegments|
      invariant 0 <= i <= |urlSegments| == |segments|
      invariant 0 <= validatorIndex <= |validators|
      invariant ParamMatch(segments, validators, url) ==
        SegmentsMatch(segments[i..], urlSegments[i..], validators[validatorIndex..])
    {
      var segment := urlSegments[i];
      assert segments[i..][1..] == segments[i + 1..];
      assert urlSegments[i..][1..] == urlSegments[i + 1..];
      if IsCapture(segments[i]) && |segment| > 0 {
        if validatorIndex < |validators| {
          assert validators[validatorIndex..][1..] == validators[validatorIndex + 1..];
          var valid := validators[validatorIndex](segment);
          if !valid {
            return false;
          }
          validatorIndex := validatorIndex + 1;
        }
      } else if segment != segments[i] {
        return false;
      }
      i := i + 1;
    }
    return true;
  }

  /** A path with one more trailing `/` splits into the same segments. */
  lemma {:induction false} PathSegmentsTrailingSlash(url: string)
    ensures PathSegments(url + "/") == PathSegments(url)
  {
    SplitAppendSep(url, '/');
    assert Split(url + "/", '/')[..|Split(url, '/')|] == Split(url, '/');
  }

  /** Trailing-slash invariance of parametric matching. */
  lemma {:induction false} ParamMatchTrailingSlash(segments: seq<string>, validators: seq<Validator>, url: string)
    ensures ParamMatch(segments, validators, url + "/") == ParamMatch(segments, validators, url)
  {
    PathSegmentsTrailingSlash(url);
  }

  /** A parametric route whose pattern has a trailing `/` is the route without it. */
  lemma {:induction false} NewParamRouteTrailingSlash(pattern: string, handler: Handler, validators: seq<Validator>)
    ensures NewParamRoute(pattern + "/", handler, validators).segments ==
      NewParamRoute(pattern, handler, validators).segments
  {
    PathSegmentsTrailingSlash(pattern);
  }

  /** The number of captures among the first `i` pattern segments: the index
      of the validator that the capture at position `i` consumes. */
  function CapturesBefore(pat: seq<string>, i: nat): nat
    requires i <= |pat|
  {
    if i == 0 then 0 else CapturesBefore(pat, i - 1) + (if IsCapture(pat[i - 1]) then 1 else 0)
  }

  lemma {:induction false} CapturesBeforeTail(pat: seq<string>, i: nat)
    requires 1 <= i <= |pat|
    ensures CapturesBefore(pat, i) == (if IsCapture(pat[0]) then 1 else 0) + CapturesBefore(pat[1..], i - 1)
  {
    if i > 1 {
      CapturesBeforeTail(pat, i - 1);
      assert pat[1..][i - 2] == pat[i - 1];
    }
  }

  /** Every segment that is not a capture equals the path segment. */
  ghost predicate LiteralsAgree(pat: seq<string>, segs: seq<string>)
    requires |pat| == |segs|
  {
    forall i :: 0 <= i < |pat| && !IsCapture(pat[i]) ==> segs[i] == pat[i]
  }

  /** Every capture faces a non-empty path segment. */
  ghost predicate CapturesFilled(pat: seq<string>, segs: seq<string>)
    requires |pat| == |segs|
  {
    forall i :: 0 <= i < |pat| && IsCapture(pat[i]) ==> segs[i] != ""
  }

  /** The k-th capture's segment passes the k-th validator, for every k that
      has a validator; later captures go unchecked. */
  ghost predicate ValidatorsAccept(pat: seq<string>, segs: seq<string>, vs: seq<Validator>)
    requires |pat| == |segs|
  {
    forall i :: 0 <= i < |pat| && IsCapture(pat[i]) && CapturesBefore(pat, i) < |vs| ==>
      vs[CapturesBefore(pat, i)](segs[i])
  }

  /** The matching rule of parametric routes, stated position by position. */
  lemma {:induction false} SegmentsMatchIff(pat: seq<string>, segs: seq<string>, vs: seq<Validator>)
    requires |pat| == |segs|
    ensures SegmentsMatch(pat, segs, vs) <==>
      LiteralsAgree(pat, segs) && CapturesFilled(pat, segs) && ValidatorsAccept(pat, segs, vs)
    decreases |pat|
  {
    if pat != [] {
      var pat', segs' := pat[1..], segs[1..];
      var c := IsCapture(pat[0]);
      var vs' := if c && vs != [] then vs[1..] else vs;
      var shift := if c then 1 else 0;
      SegmentsMatchIff(pat', segs', vs');
      forall i | 1 <= i <= |pat'|
        ensures CapturesBefore(pat, i) == shift + CapturesBefore(pat', i - 1)
      {
        CapturesBeforeTail(pat, i);
      }
      var head := if c then segs[0] != "" && (vs != [] ==> vs[0](segs[0])) else segs[0] == pat[0];
      assert CapturesBefore(pat, 0) == 0;
      if head && LiteralsAgree(pat', segs') && CapturesFilled(pat', segs') && ValidatorsAccept(pat', segs', vs') {
        forall i | 1 <= i < |pat| && IsCapture(pat[i]) && CapturesBefore(pat, i) < |vs|
          ensures vs[CapturesBefore(pat, i)](segs[i])
        {
          assert pat'[i - 1] == pat[i] && segs'[i - 1] == segs[i];
          if c && vs == [] {
          } else if c {
            assert vs'[CapturesBefore(pat', i - 1)] == vs[CapturesBefore(pat, i)];
          }
        }
        assert LiteralsAgree(pat, segs) by {
          forall i | 1 <= i < |pat| && !IsCapture(pat[i]) ensures segs[i] == pat[i] {
            assert pat'[i - 1] == pat[i] && segs'[i - 1] == segs[i];
          }
        }
        assert CapturesFilled(pat, segs) by {
          forall i | 1 <= i < |pat| && IsCapture(pat[i]) ensures segs[i] != "" {
            assert pat'[i - 1] == pat[i] && segs'[i - 1] == segs[i];
          }
        }
      }
      if LiteralsAgree(pat, segs) && CapturesFilled(pat, segs) && ValidatorsAccept(pat, segs, vs) {
        assert head;
        forall i | 0 <= i < |pat'| && IsCapture(pat'[i]) && CapturesBefore(pat', i) < |vs'|
          ensures vs'[CapturesBefore(pat', i)](segs'[i])
        {
          assert pat'[i] == pat[i + 1] && segs'[i] == segs[i + 1];
          if c && vs != [] {
            assert vs'[CapturesBefore(pat', i)] == vs[CapturesBefore(pat, i + 1)];
          }
        }
        assert LiteralsAgree(pat', segs') by {
          forall i | 0 <= i < |pat'| && !IsCapture(pat'[i]) ensures segs'[i] == pat'[i] {
            assert pat'[i] == pat[i + 1] && segs'[i] == segs[i + 1];
          }
        }
        assert CapturesFilled(pat', segs') by {
          forall i | 0 <= i < |pat'| && IsCapture(pat'[i]) ensures segs'[i] != "" {
            assert pat'[i] == pat[i + 1] && segs'[i] == segs[i + 1];
          }
        }
      }
    }
  }

  /** A parametric match therefore needs as many path segments as pattern
      segments, after trailing blanks are dropped from both. */
  lemma ParamMatchNeedsEqualCount(segments: seq<string>, validators: seq<Validator>, url: string)
    requires |PathSegments(url)| != |segments|
    ensures !ParamMatch(segments, validators, url)
  {
  }

  // ----- parameter extraction -----

  /** The map `getParams` has built after walking the path segments `segs`
      against the pattern: each capture name, without its `:`, bound to the
      segment at its position, a later capture overriding an earlier one of
      the same name. */
  function Captured(pat: seq<string>, segs: seq<string>): map<string, string>
    requires |segs| <= |pat|
    decreases |segs|
  {
    if segs == [] then map[]
    else
      var i := |segs| - 1;
      var m := Captured(pat, segs[..i]);
      if IsCapture(pat[i]) then m[pat[i][1..] := segs[i]] else m
  }

  /** The name a capture segment binds. */
  function CaptureName(segment: string): string
    requires IsCapture(segment)
  {
    segment[1..]
  }

  /** No capture after position `i` among the first `n` segments has the
      same name as the capture at `i`. */
  ghost predicate LastCapture(pat: seq<string>, n: nat, i: nat)
    requires n <= |pat| && i < n && IsCapture(pat[i])
  {
    forall j :: i < j < n && IsCapture(pat[j]) ==> CaptureName(pat[j]) != CaptureName(pat[i])
  }

  /** `Captured` binds exactly the capture names, each to the segment at the
      last position that captures it. */
  lemma {:induction false} CapturedSpec(pat: seq<string>, segs: seq<string>)
    requires |segs| <= |pat|
    ensures forall name :: name in Captured(pat, segs) <==>
      exists i :: 0 <= i < |segs| && IsCapture(pat[i]) && CaptureName(pat[i]) == name
    ensures forall i :: 0 <= i < |segs| && IsCapture(pat[i]) && LastCapture(pat, |segs|, i) ==>
      Captured(pat, segs)[CaptureName(pat[i])] == segs[i]
    decreases |segs|
  {
    if segs != [] {
      var n := |segs| - 1;
      var init := segs[..n];
      CapturedSpec(pat, init);
      forall i | 0 <= i < n ensures init[i] == segs[i] { }
    }
  }

  /** `paramRoute.getParams`: requires no more path segments than pattern
      segments, as the source indexes the pattern by path position. */
  method GetParams(segments: seq<string>, url: string) returns (args: map<string, string>)
    requires |PathSegments(url)| <= |segments|
    ensures args == Captured(segments, PathSegments(url))
  {
    var urlSegments := RemoveTrailingBlanks(Split(url, '/'));
    args := map[];
    var i := 0;
    while i < |urlSegments|
      invariant 0 <= i <= |urlSegments|
      invariant args == Captured(segments, urlSegments[..i])
    {
      assert urlSegments[..i + 1][..i] == urlSegments[..i];
      var segment := urlSegments[i];
      if IsCapture(segments[i]) {
        args := args[segments[i][1..] := segment];
      }
      i := i + 1;
    }
    assert urlSegments[..i] == urlSegments;
  }

  /** After a successful match, the parameters of a parametric route are the
      capture names bound to the path segments at the capture positions. */
  lemma ParamsAfterMatch(segments: seq<string>, validators: seq<Validator>, url: string)
    requires ParamMatch(segments, validators, url)
    ensures var u := PathSegments(url);
      var m := Captured(segments, u);
      (forall name :: name in m <==>
        exists i :: 0 <= i < |u| && IsCapture(segments[i]) && CaptureName(segments[i]) == name) &&
      (forall i :: 0 <= i < |u| && IsCapture(segments[i]) && LastCapture(segments, |u|, i) ==>
        m[CaptureName(segments[i])] == u[i] && u[i] != "")
  {
    var u := PathSegments(url);
    CapturedSpec(segments, u);
    SegmentsMatchIff(segments, u, validators);
  }

  // ----- the UUID validator -----

  predicate IsDashPosition(i: int) { i == 8 || i == 13 || i == 18 || i == 23 }

  /** An ASCII digit or a lower-case hex letter. */
  predicate IsLowerHex(c: char) { '0' <= c <= '9' || 'a' <= c <= 'f' }

  /** A lower-case hyphenated UUID: 36 characters, `-` at positions 8, 13, 18
      and 23, lower-case hex digits everywhere else. */
  predicate IsUuid(s: string)
  {
    |s| == 36 && forall i :: 0 <= i < |s| ==> if IsDashPosition(i) then s[i] == '-' else IsLowerHex(s[i])
  }

  /** `UUIDValidator`, over ASCII text. */
  method UUIDValidator(s: string) returns (ok: bool)
    ensures ok == IsUuid(s)
  {
    if |s| != 36 {
      return false;
    }
    var i := 0;
    while i < |s|
      invariant 0 <= i <= |s|
      invariant forall k :: 0 <= k < i ==> if IsDashPosition(k) then s[k] == '-' else IsLowerHex(s[k])
    {
      var r := s[i];
      if i == 8 || i == 13 || i == 18 || i == 23 {
        if r != '-' {
          return false;
        }
      } else if !(('0' <= r <= '9') || r == 'a' || r == 'b' || r == 'c' || r == 'd' || r == 'e' || r == 'f') {
        return false;
      }
      i := i + 1;
    }
    return true;
  }

  /** Upper-case hex letters are rejected. */
  lemma UuidRejectsUpperCase(s: string, i: int)
    requires 0 <= i < |s| && 'A' <= s[i] <= 'F'
    ensures !IsUuid(s)
  {
  }

  /** A route `/users/:id` whose capture must be a UUID does not match
      `/users/123`, and matches a path whose last segment is a UUID. */
  lemma UsersRouteExample(handler: Handler, id: string)
    requires IsUuid(id)
    ensures var route := NewParamRoute("/users/:id", handler, [IsUuid]);
      !route.Accepts("/users/123") && route.Accepts("/users/" + id)
  {
    var route := NewParamRoute("/users/:id", handler, [IsUuid]);
    UsersPattern();
    UsersRouteRejects(route);
    UsersRouteAccepts(route, id);
  }

  lemma UsersPattern()
    ensures PathSegments("/users/:id") == ["", "users", ":id"]
  {
    SplitThree("users", ":id");
    assert "/users/:id" == "" + "/" + "users" + "/" + ":id";
  }

  lemma UsersRouteRejects(route: Route)
    requires route.Param? && route.segments == ["", "users", ":id"] && route.validators == [IsUuid]
    ensures !route.Accepts("/users/123")
  {
    SplitThree("users", "123");
    assert "/users/123" == "" + "/" + "users" + "/" + "123";
    assert !IsUuid("123");
    CaptureThird("users", ":id", "123", [IsUuid]);
  }

  lemma UsersRouteAccepts(route: Route, id: string)
    requires route.Param? && route.segments == ["", "users", ":id"] && route.validators == [IsUuid]
    requires IsUuid(id)
    ensures route.Accepts("/users/" + id)
  {
    assert '/' !in id;
    SplitThree("users", id);
    assert "/users/" + id == "" + "/" + "users" + "/" + id;
    CaptureThird("users", ":id", id, [IsUuid]);
  }

  /** A lower-case UUID is accepted; the same UUID in upper case is not. */
  lemma UuidExamples()
    ensures IsUuid("123e4567-e89b-12d3-a456-426614174000")
    ensures !IsUuid("123E4567-E89B-12D3-A456-426614174000")
  {
    var id := "123e4567-e89b-12d3-a456-426614174000";
    forall i | 0 <= i < |id| ensures if IsDashPosition(i) then id[i] == '-' else IsLowerHex(id[i]) {
    }
    UuidRejectsUpperCase("123E4567-E89B-12D3-A456-426614174000", 3);
  }

  /** Matching `["", a, c]` against `["", a, v]` for a capture `c`. */
  lemma CaptureThird(a: string, c: string, v: string, vs: seq<Validator>)
    requires IsCapture(c) && !IsCapture(a) && v != "" && |vs| == 1
    ensures SegmentsMatch(["", a, c], ["", a, v], vs) == vs[0](v)
  {
    assert ["", a, c][1..] == [a, c] && ["", a, v][1..] == [a, v];
    assert [a, c][1..] == [c] && [a, v][1..] == [v];
    assert [c][1..] == [] && [v][1..] == [];
    assert SegmentsMatch([c], [v], vs) == vs[0](v);
    assert SegmentsMatch([a, c], [a, v], vs) == SegmentsMatch([c], [v], vs);
  }

  /** How a path `/a/b` with slash-free `a` and `b` splits. */
  lemma SplitThree(a: string, b: string)
    requires '/' !in a && '/' !in b && b != ""
    ensures Split("" + "/" + a + "/" + b, '/') == ["", a, b]
    ensures PathSegments("" + "/" + a + "/" + b) == ["", a, b]
  {
    SplitNoSep(b, '/');
    SplitPiece(a, b, '/');
    SplitPiece("", a + "/" + b, '/');
    assert "" + "/" + a + "/" + b == "" + "/" + (a + "/" + b);
    assert a + "/" + b == a + ['/'] + b;
  }

  // ----- the router -----

  /** The index of the first route that claims `path`, if any. */
  function FirstMatch(routes: seq<Route>, path: string): (r: Option<nat>)
    ensures r.Some? ==>
      (r.value < |routes| && routes[r.value].Accepts(path) &&
       forall j :: 0 <= j < r.value ==> !routes[j].Accepts(path))
    ensures r.None? ==> forall j :: 0 <= j < |routes| ==> !routes[j].Accepts(path)
    decreases |routes|
  {
    if routes == [] then None
    else if routes[0].Accepts(path) then Some(0)
    else match FirstMatch(routes[1..], path)
      case None => None
      case Some(k) => Some(k + 1)
  }

  /** What a router does with a request: run the handler of route `i`, send
      the default 404 response, send nothing at all, or run the configured
      not-found handler. */
  datatype Answer = Routed(index: nat) | DefaultNotFound | Unanswered | CustomNotFound

  /** `router.ServeHTTP` as written: with no matching route it answers 404
      only when no not-found handler is set, and otherwise does nothing. */
  function AnswerAsWritten(routes: seq<Route>, notFound: Option<Handler>, path: string): Answer
  {
    match FirstMatch(routes, path)
    case Some(i) => Routed(i)
    case None => if notFound.None? then DefaultNotFound else Unanswered
  }

  /** The evidently intended rule: a configured not-found handler runs. */
  function IntendedAnswer(routes: seq<Route>, notFound: Option<Handler>, path: string): Answer
  {
    match FirstMatch(routes, path)
    case Some(i) => Routed(i)
    case None => if notFound.None? then DefaultNotFound else CustomNotFound
  }

  /** The writer calls an answer amounts to. */
  function AnswerScript(routes: seq<Route>, notFound: Option<Handler>, a: Answer): seq<Op>
    requires a.Routed? ==> a.index < |routes|
    requires a.CustomNotFound? ==> notFound.Some?
  {
    match a
    case Routed(i) => routes[i].handler.script
    case DefaultNotFound => NotFoundScript
    case Unanswered => []
    case CustomNotFound => notFound.value.script
  }

  /** As written, a router with a not-found handler and no route for the path
      leaves the response untouched, and the handler never runs. */
  lemma NotFoundHandlerIgnored(routes: seq<Route>, h: Handler, path: string)
    requires FirstMatch(routes, path).None?
    ensures AnswerAsWritten(routes, Some(h), path) == Unanswered
    ensures AnswerScript(routes, Some(h), AnswerAsWritten(routes, Some(h), path)) == []
  {
  }

  /** Under the intended rule every request is answered, and the answer
      differs from the code's only where the code stays silent. */
  lemma IntendedAnswerAlwaysResponds(routes: seq<Route>, notFound: Option<Handler>, path: string)
    ensures IntendedAnswer(routes, notFound, path) != Unanswered
    ensures AnswerAsWritten(routes, notFound, path) != Unanswered ==>
      IntendedAnswer(routes, notFound, path) == AnswerAsWritten(routes, notFound, path)
    ensures AnswerAsWritten(routes, notFound, path) == Unanswered ==>
      IntendedAnswer(routes, notFound, path) == CustomNotFound
  {
  }

  /** `router`: routes in priority order and an optional not-found handler. */
  class Router {
    var routes: seq<Route>
    var notFound: Option<Handler>

    /** `NewRouter`. */
    constructor ()
      ensures routes == [] && notFound == None
    {
      routes, notFound := [], None;
    }

    /** `NewRouterWithStatic`: one prefix route serving `files`, the file
        server behind the prefix. */
    constructor WithStatic(staticPrefix: string, files: Handler)
      ensures routes == [Prefix(staticPrefix, files)] && notFound == None
    {
      routes, notFound := [NewPrefixRoute(staticPrefix, files)], None;
    }

    /** `AddRoute`: appends, with no check for overlap. */
    method AddRoute(route: Route)
      modifies this
      ensures routes == old(routes) + [route] && notFound == old(notFound)
    {
      routes := routes + [route];
    }

    /** The route loop of `ServeHTTP`: on the first matching route, stores the
        request's argument view in its context, binds the captures of a
        parametric route into that view's URL parameters, and runs the
        route's handler with the request. */
    method RouteRequest(w: ResponseWriter, req: Request) returns (chosen: Option<nat>, served: Option<Request>)
      requires FirstMatch(routes, req.path).Some? ==> ContentTypeReadable(req)
      modifies w, req.context
      ensures chosen == FirstMatch(routes, req.path)
      ensures chosen.None? ==> served.None? && w.State() == old(w.State())
      ensures chosen.None? && req.context != null ==> req.context.urlParams == old(req.context.urlParams)
      ensures chosen.Some? ==>
        (served.Some? && served.value.context != null &&
         served.value == req.(context := served.value.context) &&
         w.State() == Run(old(w.State()), routes[chosen.value].handler.script))
      ensures chosen.Some? && req.context != null ==> served.value.context == req.context
      ensures chosen.Some? && req.context == null ==>
        (fresh(served.value.context) &&
         served.value.context.headers == req.header && served.value.context.queryParams == req.query &&
         served.value.context.bodyParams == BodyParamsOf(req))
      ensures chosen.Some? && routes[chosen.value].Param? ==>
        served.value.context.urlParams == Captured(routes[chosen.value].segments, PathSegments(req.path))
      ensures chosen.Some? && !routes[chosen.value].Param? ==>
        served.value.context.urlParams == if req.context == null then map[] else old(req.context.urlParams)
      ensures req.context != null ==>
        (req.context.headers == old(req.context.headers) &&
         req.context.queryParams == old(req.context.queryParams) &&
         req.context.bodyParams == old(req.context.bodyParams))
    {
      var path := req.path;
      var i := 0;
      while i < |routes|
        invariant 0 <= i <= |routes|
        invariant forall j :: 0 <= j < i ==> !routes[j].Accepts(path)
        invariant w.State() == old(w.State())
        invariant req.context != null ==> req.context.urlParams == old(req.context.urlParams)
        invariant req.context != null ==>
          (req.context.headers == old(req.context.headers) &&
           req.context.queryParams == old(req.context.queryParams) &&
           req.context.bodyParams == old(req.context.bodyParams))
      {
        var route := routes[i];
        var m := route.Match(path);
        if m {
          FirstMatchIsFirst(routes, path, i);
          var parsed := ParsedRequest(Some(req));
          if route.Param? {
            var args := Args(parsed);
            if args.Success? {
              ParamsAfterMatchLength(route.segments, route.validators, path);
              var params := GetParams(route.segments, path);
              args.value.urlParams := params;
            }
          }
          w.Play(route.HandlerFunc().script);
          return Some(i), parsed;
        }
        i := i + 1;
      }
      return None, None;
    }

    /** `ServeHTTP` as written: with no matching route, the default 404 is sent
        only when no not-found handler is set. */
    method ServeHTTP(w: ResponseWriter, req: Request) returns (chosen: Option<nat>, served: Option<Request>)
      requires FirstMatch(routes, req.path).Some? ==> ContentTypeReadable(req)
      modifies w, req.context
      ensures chosen == FirstMatch(routes, req.path)
      ensures w.State() == Run(old(w.State()), AnswerScript(routes, notFound, AnswerAsWritten(routes, notFound, req.path)))
      ensures chosen.None? ==> served.None?
      ensures chosen.None? && req.context != null ==> req.context.urlParams == old(req.context.urlParams)
      ensures chosen.Some? ==>
        (served.Some? && served.value.context != null &&
         served.value == req.(context := served.value.context))
      ensures chosen.Some? && req.context != null ==> served.value.context == req.context
      ensures chosen.Some? && req.context == null ==>
        (fresh(served.value.context) &&
         served.value.context.headers == req.header && served.value.context.queryParams == req.query &&
         served.value.context.bodyParams == BodyParamsOf(req))
      ensures chosen.Some? && routes[chosen.value].Param? ==>
        served.value.context.urlParams == Captured(routes[chosen.value].segments, PathSegments(req.path))
      ensures chosen.Some? && !routes[chosen.value].Param? ==>
        served.value.context.urlParams == if req.context == null then map[] else old(req.context.urlParams)
      ensures req.context != null ==>
        (req.context.headers == old(req.context.headers) &&
         req.context.queryParams == old(req.context.queryParams) &&
         req.context.bodyParams == old(req.context.bodyParams))
    {
      chosen, served := RouteRequest(w, req);
      if chosen.None? && notFound.None? {
        w.Play(NotFoundScript);
      }
    }

    /** `ServeHTTP` with the evidently intended fallback: a configured
        not-found handler runs when no route matches. */
    method ServeHTTPWithFallback(w: ResponseWriter, req: Request) returns (chosen: Option<nat>, served: Option<Request>)
      requires FirstMatch(routes, req.path).Some? ==> ContentTypeReadable(req)
      modifies w, req.context
      ensures chosen == FirstMatch(routes, req.path)
      ensures w.State() == Run(old(w.State()), AnswerScript(routes, notFound, IntendedAnswer(routes, notFound, req.path)))
      ensures chosen.None? ==> served.None?
      ensures chosen.None? && req.context != null ==> req.context.urlParams == old(req.context.urlParams)
      ensures chosen.Some? ==>
        (served.Some? && served.value.context != null &&
         served.value == req.(context := served.value.context))
      ensures chosen.Some? && req.context != null ==> served.value.context == req.context
      ensures chosen.Some? && req.context == null ==>
        (fresh(served.value.context) &&
         served.value.context.headers == req.header && served.value.context.queryParams == req.query &&
         served.value.context.bodyParams == BodyParamsOf(req))
      ensures chosen.Some? && routes[chosen.value].Param? ==>
        served.value.context.urlParams == Captured(routes[chosen.value].segments, PathSegments(req.path))
      ensures chosen.Some? && !routes[chosen.value].Param? ==>
        served.value.context.urlParams == if req.context == null then map[] else old(req.context.urlParams)
      ensures req.context != null ==>
        (req.context.headers == old(req.context.headers) &&
         req.context.queryParams == old(req.context.queryParams) &&
         req.context.bodyParams == old(req.context.bodyParams))
    {
      chosen, served := RouteRequest(w, req);
      if chosen.None? {
        match notFound
        case None => w.Play(NotFoundScript);
        case Some(h) => w.Play(h.script);
      }
    }
  }

  lemma ParamsAfterMatchLength(segments: seq<string>, validators: seq<Validator>, url: string)
    requires ParamMatch(segments, validators, url)
    ensures |PathSegments(url)| <= |segments|
  {
  }

  /** `FirstMatch` picks the first route that claims the path. */
  lemma {:induction false} FirstMatchIsFirst(routes: seq<Route>, path: string, i: nat)
    requires i < |routes| && routes[i].Accepts(path)
    requires forall j :: 0 <= j < i ==> !routes[j].Accepts(path)
    ensures FirstMatch(routes, path) == Some(i)
    decreases i
  {
    if i > 0 {
      FirstMatchIsFirst(routes[1..], path, i - 1);
    }
  }
}
