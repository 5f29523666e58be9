/** The method dispatcher built by `AllowMethods` (allow.go).

    From a map of method names to handlers it builds a canonical map (keys
    upper-cased and trimmed), the list of allowed methods, and synthetic HEAD
    and OPTIONS handlers where the map has none. The dispatcher sets the
    `Allow` header on every response, runs the handler registered under the
    request's method exactly as spelled, and answers 405 otherwise. */
module Allow {
  import opened Wrappers
  import opened Text
  import opened Http
  import opened Arguments
  import opened ResponseWrappers

  /** The canonical spelling of a registered method name. */
  function Canonical(key: string): (c: string)
    ensures |c| <= |key|
    ensures c == [] || (!IsSpace(c[0]) && !IsSpace(c[|c| - 1]))
  {
    TrimSpace(ToUpper(key))
  }

  /** A canonical name has no lower-case letter. */
  lemma CanonicalHasNoLowerCase(key: string)
    ensures forall c :: c in Canonical(key) ==> !IsLower(c)
  {
    var u := ToUpper(key);
    forall c | c in u ensures !IsLower(c) {
      var i :| 0 <= i < |u| && u[i] == c;
    }
  }

  /** A name already upper-case, with no white space at either end, is its
      own canonical spelling. */
  lemma CanonicalOfCanonical(key: string)
    requires forall i :: 0 <= i < |key| ==> !IsLower(key[i])
    requires key != [] ==> !IsSpace(key[0]) && !IsSpace(key[|key| - 1])
    ensures Canonical(key) == key
  {
    assert ToUpper(key) == key;
  }

  /** The canonical names of the registered methods. */
  function CanonicalKeys(methods: map<string, Handler>): set<string>
  {
    set k | k in methods :: Canonical(k)
  }

  /** What the canonical map holds under a method name. */
  datatype Entry = UserHandler(h: Handler) | SyntheticHead | SyntheticOptions

  predicate Distinct(s: seq<string>)
  {
    forall i, j :: 0 <= i < j < |s| ==> s[i] != s[j]
  }

  /** `s` lists every element of `keys` exactly once, and nothing else. */
  ghost predicate Enumerates(s: seq<string>, keys: set<string>)
  {
    Distinct(s) && forall x :: x in s <==> x in keys
  }

  /** The names appended to `allowed` after the registered ones: HEAD if it
      is missing, then OPTIONS if it is missing. */
  function Synthesised(keys: set<string>): seq<string>
  {
    (if "HEAD" in keys then [] else ["HEAD"]) + (if "OPTIONS" in keys then [] else ["OPTIONS"])
  }

  /** Some registered key with canonical name `c` holds `h`. */
  ghost predicate Registered(methods: map<string, Handler>, c: string, h: Handler)
  {
    exists k :: k in methods && Canonical(k) == c && methods[k] == h
  }

  /** The handler `AllowMethods` returns: the canonical map and the
      `allowed` list it closes over. */
  datatype Dispatcher = Dispatcher(canon: map<string, Entry>, allowed: seq<string>)
  {
    /** The GET entry, which the synthetic HEAD handler runs, is a user handler. */
    predicate Valid()
    {
      "GET" in canon ==> canon["GET"].UserHandler?
    }

    /** The `Allow` header value. */
    function AllowValue(): string
    {
      Join(allowed, ", ")
    }

    /** The writer calls an entry of the canonical map makes. */
    function EntryScript(e: Entry): seq<Op>
      requires Valid()
    {
      match e
      case UserHandler(h) => h.script
      case SyntheticHead =>
        [SetHeader("Allow", AllowValue())] +
        (if "GET" in canon then Dropped(canon["GET"].h.script) else [WriteHeader(200)])
      case SyntheticOptions => [SetHeader("Allow", AllowValue()), WriteHeader(200)]
    }

    /** The writer calls the dispatcher makes for a request with method
        `httpMethod`; the first always sets the `Allow` header. */
    function Respond(httpMethod: string): (ops: seq<Op>)
      requires Valid()
      ensures |ops| >= 1 && ops[0] == SetHeader("Allow", AllowValue())
      ensures httpMethod !in canon ==> ops == [SetHeader("Allow", AllowValue()), WriteHeader(405)]
    {
      [SetHeader("Allow", AllowValue())] +
      if httpMethod in canon then EntryScript(canon[httpMethod]) else [WriteHeader(405)]
    }

    /** The returned closure. */
    method ServeHTTP(w: ResponseWriter, req: Request)
      requires Valid()
      modifies w
      ensures w.State() == Run(old(w.State()), Respond(req.httpMethod))
    {
      var allow := Join(allowed, ", ");
      var setAllow := SetHeader("Allow", allow);
      if req.httpMethod in canon {
        w.SetHeader("Allow", allow);
        ghost var afterAllow := w.State();
        assert afterAllow == Run(old(w.State()), [setAllow]);
        var entry := canon[req.httpMethod];
        if entry.UserHandler? {
          w.Play(entry.h.script);
          RunConcat(old(w.State()), [setAllow], entry.h.script);
        } else if entry.SyntheticHead? {
          w.SetHeader("Allow", allow);
          assert w.State() == Run(afterAllow, [setAllow]);
          if "GET" in canon {
            var dropper := new BodyDropper.DropBody(w);
            dropper.Play(canon["GET"].h.script);
            RunConcat(afterAllow, [setAllow], Dropped(canon["GET"].h.script));
          } else {
            w.WriteHeader(200);
            RunConcat(afterAllow, [setAllow], [WriteHeader(200)]);
          }
          RunConcat(old(w.State()), [setAllow], EntryScript(SyntheticHead));
        } else {
          w.SetHeader("Allow", allow);
          w.WriteHeader(200);
          RunConcat(old(w.State()), [setAllow], EntryScript(SyntheticOptions));
          RunConcat(afterAllow, [setAllow], [WriteHeader(200)]);
        }
        return;
      }
      w.SetHeader("Allow", allow);
      w.WriteHeader(405);
      RunConcat(old(w.State()), [setAllow], [WriteHeader(405)]);
    }
  }

  /** What `AllowMethods(methods)` builds: the canonical map holds every
      canonical name with a handler registered under it, plus HEAD and
      OPTIONS, synthetic when not registered; `allowed` lists the canonical
      names once each in some order, then the synthesised names. */
  ghost predicate BuiltFrom(d: Dispatcher, methods: map<string, Handler>)
  {
    BuiltOver(d, methods, CanonicalKeys(methods))
  }

  /** `BuiltFrom`, with the canonical names of `methods` given as `keys`. */
  ghost predicate BuiltOver(d: Dispatcher, methods: map<string, Handler>, keys: set<string>)
  {
    AllowedLayout(d.allowed, keys) && CanonLayout(d.canon, methods, keys)
  }

  /** `allowed` lists `keys` once each in some order, then the synthesised
      names. */
  ghost predicate AllowedLayout(allowed: seq<string>, keys: set<string>)
  {
    var extra := Synthesised(keys);
    var n := |allowed| - |extra|;
    n >= 0 && Enumerates(allowed[..n], keys) && allowed[n..] == extra
  }

  /** The canonical map holds a registered handler under each of `keys`, and
      synthetic HEAD and OPTIONS entries where those are not among them. */
  ghost predicate CanonLayout(canon: map<string, Entry>, methods: map<string, Handler>, keys: set<string>)
  {
    canon.Keys == keys + {"HEAD", "OPTIONS"} &&
    (forall c :: c in keys ==> canon[c].UserHandler? && Registered(methods, c, canon[c].h)) &&
    ("HEAD" !in keys ==> canon["HEAD"] == SyntheticHead) &&
    ("OPTIONS" !in keys ==> canon["OPTIONS"] == SyntheticOptions)
  }

  /** The first loop of `AllowMethods`: every key canonicalised, keys read
      in an arbitrary order (Go's map iteration is unordered), so that of two
      keys with one canonical name either may win. */
  method CanonicalMethods(methods: map<string, Handler>) returns (canon: map<string, Entry>)
    ensures canon.Keys == CanonicalKeys(methods)
    ensures forall c :: c in canon ==> canon[c].UserHandler? && Registered(methods, c, canon[c].h)
  {
    canon := map[];
    var rest := methods.Keys;
    while rest != {}
      invariant rest <= methods.Keys
      invariant canon.Keys == set k | k in methods.Keys - rest :: Canonical(k)
      invariant forall c :: c in canon ==> canon[c].UserHandler? && Registered(methods, c, canon[c].h)
      decreases rest
    {
      var key :| key in rest;
      canon := canon[Canonical(key) := UserHandler(methods[key])];
      rest := rest - {key};
    }
  }

  /** The second loop of `AllowMethods`: the keys in an arbitrary order. */
  method ListKeys(keys: set<string>) returns (allowed: seq<string>)
    ensures Enumerates(allowed, keys)
  {
    allowed := [];
    var pending := keys;
    while pending != {}
      invariant pending <= keys
      invariant Distinct(allowed)
      invariant forall x :: x in allowed <==> x in keys && x !in pending
      decreases pending
    {
      var key :| key in pending;
      allowed := allowed + [key];
      pending := pending - {key};
    }
  }

  /** The HEAD and OPTIONS steps of `AllowMethods`: each missing name is
      appended to `allowed` and gets a synthetic entry, HEAD first. */
  method AddSynthetic(canon: map<string, Entry>, allowed: seq<string>)
    returns (canon': map<string, Entry>, allowed': seq<string>)
    ensures canon' == WithSynthetic(canon)
    ensures allowed' == allowed + Synthesised(canon.Keys)
  {
    canon', allowed' := canon, allowed;
    if "HEAD" !in canon' {
      allowed' := allowed' + ["HEAD"];
      canon' := canon'["HEAD" := SyntheticHead];
    }
    if "OPTIONS" !in canon' {
      allowed' := allowed' + ["OPTIONS"];
      canon' := canon'["OPTIONS" := SyntheticOptions];
    }
  }

  /** `AllowMethods`. */
  method AllowMethods(methods: map<string, Handler>) returns (d: Dispatcher)
    ensures d.Valid() && BuiltFrom(d, methods)
  {
    var canonicalMethods := CanonicalMethods(methods);
    var allowed := ListKeys(canonicalMethods.Keys);
    var canon, allowedAll := AddSynthetic(canonicalMethods, allowed);
    d := Dispatcher(canon, allowedAll);
    Assembled(methods, canonicalMethods, allowed, d);
  }

  /** The canonical map with the synthetic entries added where missing. */
  function WithSynthetic(canon: map<string, Entry>): map<string, Entry>
  {
    var withHead := if "HEAD" in canon then canon else canon["HEAD" := SyntheticHead];
    if "OPTIONS" in withHead then withHead else withHead["OPTIONS" := SyntheticOptions]
  }

  /** The last step of `AllowMethods`: adding the synthetic entries. */
  lemma Assembled(methods: map<string, Handler>, canon: map<string, Entry>, base: seq<string>, d: Dispatcher)
    requires canon.Keys == CanonicalKeys(methods)
    requires forall c :: c in canon ==> canon[c].UserHandler? && Registered(methods, c, canon[c].h)
    requires Enumerates(base, canon.Keys)
    requires d.allowed == base + Synthesised(canon.Keys)
    requires d.canon == WithSynthetic(canon)
    ensures d.Valid() && BuiltFrom(d, methods)
  {
    LayoutOfAppended(base, canon.Keys);
    LayoutOfSynthetic(methods, canon);
  }

  lemma LayoutOfAppended(base: seq<string>, keys: set<string>)
    requires Enumerates(base, keys)
    ensures AllowedLayout(base + Synthesised(keys), keys)
  {
    var allowed := base + Synthesised(keys);
    assert allowed[..|base|] == base && allowed[|base|..] == Synthesised(keys);
  }

  lemma LayoutOfSynthetic(methods: map<string, Handler>, canon: map<string, Entry>)
    requires forall c :: c in canon ==> canon[c].UserHandler? && Registered(methods, c, canon[c].h)
    ensures CanonLayout(WithSynthetic(canon), methods, canon.Keys)
    ensures Dispatcher(WithSynthetic(canon), []).Valid()
  {
    var w := WithSynthetic(canon);
    WithSyntheticKeeps(canon);
    forall c | c in canon.Keys ensures w[c].UserHandler? && Registered(methods, c, w[c].h) {
      assert w[c] == canon[c];
    }
  }

  /** Adding the synthetic entries keeps every existing entry. */
  lemma WithSyntheticKeeps(canon: map<string, Entry>)
    ensures WithSynthetic(canon).Keys == canon.Keys + {"HEAD", "OPTIONS"}
    ensures forall c :: c in canon ==> WithSynthetic(canon)[c] == canon[c]
    ensures "HEAD" !in canon ==> WithSynthetic(canon)["HEAD"] == SyntheticHead
    ensures "OPTIONS" !in canon ==> WithSynthetic(canon)["OPTIONS"] == SyntheticOptions
  {
  }

  /** The response to a request answered by the dispatcher alone, with
      status `code`. */
  function Answered(d: Dispatcher, r: Response, code: int): Response
  {
    Response(r.statuses + [code], r.header["Allow" := [d.AllowValue()]], r.body)
  }

  /** `allowed` names every method of the canonical map exactly once. */
  lemma AllowedListsEachMethodOnce(d: Dispatcher, methods: map<string, Handler>)
    requires BuiltFrom(d, methods)
    ensures Distinct(d.allowed)
    ensures forall x :: x in d.allowed <==> x in d.canon
  {
    AllowedOver(d, methods, CanonicalKeys(methods));
  }

  lemma AllowedOver(d: Dispatcher, methods: map<string, Handler>, keys: set<string>)
    requires BuiltOver(d, methods, keys)
    ensures Distinct(d.allowed)
    ensures forall x :: x in d.allowed <==> x in d.canon
  {
    var extra := Synthesised(keys);
    var n := |d.allowed| - |extra|;
    var base := d.allowed[..n];
    assert d.allowed == base + extra;
    forall i, j | 0 <= i < j < |d.allowed| ensures d.allowed[i] != d.allowed[j] {
      if j < n {
        assert d.allowed[i] == base[i] && d.allowed[j] == base[j];
      } else if i < n {
        assert d.allowed[i] in base && d.allowed[j] in extra;
      }
    }
  }

  /** A method outside the canonical map gets 405 with the `Allow` header,
      and no handler runs. */
  lemma UnknownMethodGets405(d: Dispatcher, methods: map<string, Handler>, r: Response, m: string)
    requires BuiltFrom(d, methods) && m !in d.canon
    ensures d.Valid() && Run(r, d.Respond(m)) == Answered(d, r, 405)
  {
    UnknownOver(d, methods, CanonicalKeys(methods), r, m);
  }

  lemma UnknownOver(d: Dispatcher, methods: map<string, Handler>, keys: set<string>, r: Response, m: string)
    requires BuiltOver(d, methods, keys) && m !in d.canon
    ensures d.Valid() && Run(r, d.Respond(m)) == Answered(d, r, 405)
  {
    RunShort(r, SetHeader("Allow", d.AllowValue()), WriteHeader(405));
  }

  /** Lookup uses the method exactly as the request spells it: one with a
      lower-case letter is never found, even when its upper-case spelling
      is registered. */
  lemma MethodLookupIsCaseSensitive(d: Dispatcher, methods: map<string, Handler>, m: string, i: int)
    requires BuiltFrom(d, methods) && 0 <= i < |m| && IsLower(m[i])
    ensures m !in d.canon
  {
    if m in CanonicalKeys(methods) {
      var k :| k in methods && Canonical(k) == m;
      CanonicalHasNoLowerCase(k);
    }
  }

  /** A registered method, HEAD and OPTIONS included, runs the handler
      registered under it after the `Allow` header is set. */
  lemma RegisteredMethodRunsItsHandler(d: Dispatcher, methods: map<string, Handler>, m: string)
    requires BuiltFrom(d, methods) && m in CanonicalKeys(methods)
    ensures d.Valid() && d.canon[m].UserHandler? && Registered(methods, m, d.canon[m].h)
    ensures d.Respond(m) == [SetHeader("Allow", d.AllowValue())] + d.canon[m].h.script
  {
  }

  /** Setting the `Allow` header twice and then running `ops` is setting it
      once and running `ops`. */
  lemma AllowTwiceThen(r: Response, setAllow: Op, ops: seq<Op>)
    requires setAllow.SetHeader?
    ensures Run(r, [setAllow, setAllow] + ops) == Run(Run(r, [setAllow]), ops)
  {
    RunConcat(r, [setAllow, setAllow], ops);
    RunShort(r, setAllow, setAllow);
    var r1 := Apply(r, setAllow);
    assert r1.header[setAllow.key := [setAllow.value]] == r1.header;
  }

  /** What the synthetic HEAD entry does. */
  lemma SyntheticHeadScript(d: Dispatcher)
    requires d.Valid() && "HEAD" in d.canon && d.canon["HEAD"] == SyntheticHead
    ensures var setAllow := SetHeader("Allow", d.AllowValue());
      d.Respond("HEAD") == [setAllow, setAllow] +
        if "GET" in d.canon then Dropped(d.canon["GET"].h.script) else [WriteHeader(200)]
  {
  }

  /** The synthetic HEAD answer of a resource with a GET handler has the
      status codes and headers of the GET answer, and leaves the body as it
      was. */
  lemma HeadMirrorsGet(d: Dispatcher, methods: map<string, Handler>, r: Response)
    requires BuiltFrom(d, methods)
    requires "HEAD" !in CanonicalKeys(methods) && "GET" in CanonicalKeys(methods)
    ensures d.Valid()
    ensures var head := Run(r, d.Respond("HEAD"));
      var get := Run(r, d.Respond("GET"));
      head.statuses == get.statuses && head.header == get.header && head.body == r.body
  {
    var setAllow := SetHeader("Allow", d.AllowValue());
    var g := d.canon["GET"].h.script;
    var r1 := Run(r, [setAllow]);
    RunShort(r, setAllow, setAllow);
    SyntheticHeadScript(d);
    AllowTwiceThen(r, setAllow, Dropped(g));
    RunDropped(r1, g);
    RegisteredMethodRunsItsHandler(d, methods, "GET");
    RunConcat(r, [setAllow], g);
  }

  /** Without a GET handler the synthetic HEAD answer is a bare 200. */
  lemma HeadWithoutGet(d: Dispatcher, methods: map<string, Handler>, r: Response)
    requires BuiltFrom(d, methods)
    requires "HEAD" !in CanonicalKeys(methods) && "GET" !in CanonicalKeys(methods)
    ensures d.Valid() && Run(r, d.Respond("HEAD")) == Answered(d, r, 200)
  {
    var setAllow := SetHeader("Allow", d.AllowValue());
    SyntheticHeadScript(d);
    AllowTwiceThen(r, setAllow, [WriteHeader(200)]);
    RunShort(r, setAllow, WriteHeader(200));
    RunShort(Run(r, [setAllow]), WriteHeader(200), WriteHeader(200));
  }

  /** The synthetic OPTIONS answer is a bare 200 whose `Allow` header lists
      every registered method, HEAD and OPTIONS. */
  lemma OptionsAnswer(d: Dispatcher, methods: map<string, Handler>, r: Response)
    requires BuiltFrom(d, methods) && "OPTIONS" !in CanonicalKeys(methods)
    ensures d.Valid() && Run(r, d.Respond("OPTIONS")) == Answered(d, r, 200)
    ensures forall m :: m in CanonicalKeys(methods) ==> m in d.allowed
    ensures "HEAD" in d.allowed && "OPTIONS" in d.allowed
  {
    SyntheticOptionsAnswer(d, r);
    AllowedListsEachMethodOnce(d, methods);
  }

  /** What the synthetic OPTIONS entry does. */
  lemma SyntheticOptionsAnswer(d: Dispatcher, r: Response)
    requires d.Valid() && "OPTIONS" in d.canon && d.canon["OPTIONS"] == SyntheticOptions
    ensures Run(r, d.Respond("OPTIONS")) == Answered(d, r, 200)
  {
    var setAllow := SetHeader("Allow", d.AllowValue());
    assert d.Respond("OPTIONS") == [setAllow, setAllow] + [WriteHeader(200)];
    AllowTwiceThen(r, setAllow, [WriteHeader(200)]);
    RunShort(r, setAllow, WriteHeader(200));
    RunShort(Run(r, [setAllow]), WriteHeader(200), WriteHeader(200));
  }

  /** A list that enumerates a set is as long as the set is large. */
  lemma {:induction false} EnumeratesLength(s: seq<string>, keys: set<string>)
    requires Enumerates(s, keys)
    ensures |s| == |keys|
    decreases |s|
  {
    if s != [] {
      var last := s[|s| - 1];
      var init := s[..|s| - 1];
      assert s == init + [last];
      assert Enumerates(init, keys - {last}) by {
        forall x ensures x in init <==> x in keys - {last} {
          if x in init {
            var i :| 0 <= i < |init| && init[i] == x;
            assert s[i] == x && i < |s| - 1;
          }
        }
      }
      EnumeratesLength(init, keys - {last});
    }
  }

  /** `{GET, POST}`: DELETE gets 405, and `allowed` is GET and POST in some
      order followed by HEAD and OPTIONS. */
  lemma GetPostExample(h: Handler, h2: Handler, d: Dispatcher, r: Response)
    requires BuiltFrom(d, map["GET" := h, "POST" := h2])
    ensures d.Valid() && Run(r, d.Respond("DELETE")) == Answered(d, r, 405)
    ensures |d.allowed| == 4 && d.allowed[2..] == ["HEAD", "OPTIONS"]
    ensures forall x :: x in d.allowed <==> x in {"GET", "POST", "HEAD", "OPTIONS"}
  {
    GetPostKeys(h, h2);
    PairAnswers("GET", "POST", map["GET" := h, "POST" := h2], d, r, "DELETE");
  }

  /** Two registered canonical names other than HEAD and OPTIONS. */
  lemma PairAnswers(a: string, b: string, methods: map<string, Handler>, d: Dispatcher, r: Response, m: string)
    requires BuiltOver(d, methods, {a, b}) && a != b
    requires Synthesised({a, b}) == ["HEAD", "OPTIONS"]
    requires m != a && m != b && m != "HEAD" && m != "OPTIONS"
    ensures d.Valid() && Run(r, d.Respond(m)) == Answered(d, r, 405)
    ensures |d.allowed| == 4 && d.allowed[2..] == ["HEAD", "OPTIONS"]
    ensures forall x :: x in d.allowed <==> x in {a, b, "HEAD", "OPTIONS"}
  {
    PairLayout(d.allowed, a, b);
    PairMembers(d, methods, a, b);
    UnknownOver(d, methods, {a, b}, r, m);
  }

  lemma PairMembers(d: Dispatcher, methods: map<string, Handler>, a: string, b: string)
    requires BuiltOver(d, methods, {a, b})
    ensures forall x :: x in d.allowed <==> x in {a, b, "HEAD", "OPTIONS"}
    ensures d.canon.Keys == {a, b, "HEAD", "OPTIONS"}
  {
    AllowedOver(d, methods, {a, b});
    PairKeys(d.allowed, d.canon, a, b);
  }

  lemma PairKeys(allowed: seq<string>, canon: map<string, Entry>, a: string, b: string)
    requires forall x :: x in allowed <==> x in canon
    requires canon.Keys == {a, b} + {"HEAD", "OPTIONS"}
    ensures forall x :: x in allowed <==> x in {a, b, "HEAD", "OPTIONS"}
    ensures canon.Keys == {a, b, "HEAD", "OPTIONS"}
  {
  }

  /** Two names other than HEAD and OPTIONS are listed first, then HEAD
      and OPTIONS. */
  lemma PairLayout(allowed: seq<string>, a: string, b: string)
    requires AllowedLayout(allowed, {a, b}) && a != b
    requires Synthesised({a, b}) == ["HEAD", "OPTIONS"]
    ensures |allowed| == 4 && allowed[2..] == ["HEAD", "OPTIONS"]
  {
    EnumeratesLength(allowed[..|allowed| - 2], {a, b});
  }

  lemma GetPostKeys(h: Handler, h2: Handler)
    ensures CanonicalKeys(map["GET" := h, "POST" := h2]) == {"GET", "POST"}
    ensures Synthesised({"GET", "POST"}) == ["HEAD", "OPTIONS"]
  {
    CanonicalOfCanonical("GET");
    CanonicalOfCanonical("POST");
    CanonicalKeysOfTwo("GET", "POST", h, h2);
  }

  lemma CanonicalKeysOfTwo(a: string, b: string, h: Handler, h2: Handler)
    requires Canonical(a) == a && Canonical(b) == b
    ensures CanonicalKeys(map[a := h, b := h2]) == {a, b}
  {
    var methods := map[a := h, b := h2];
    assert methods.Keys == {a, b};
  }

  lemma GetKeys(h: Handler)
    ensures CanonicalKeys(map["GET" := h]) == {"GET"}
  {
    CanonicalOfCanonical("GET");
    CanonicalKeysOfOne("GET", h);
  }

  lemma CanonicalKeysOfOne(a: string, h: Handler)
    requires Canonical(a) == a
    ensures CanonicalKeys(map[a := h]) == {a}
  {
    assert map[a := h].Keys == {a};
  }

  /** `{GET}` on a fresh writer: HEAD gets the status codes and headers of
      GET, with an empty body. */
  lemma GetOnlyHeadExample(h: Handler, d: Dispatcher)
    requires BuiltFrom(d, map["GET" := h])
    ensures d.Valid()
    ensures var head := Run(Blank, d.Respond("HEAD"));
      var get := Run(Blank, d.Respond("GET"));
      head.statuses == get.statuses && head.header == get.header && head.body == []
  {
    GetKeys(h);
    HeadMirrorsGet(d, map["GET" := h], Blank);
  }
}
