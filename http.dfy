/** Stand-ins for the parts of Go's `net/http` that the core talks to: the
    response a handler produces, the calls a handler makes on its
    `http.ResponseWriter`, and a recording writer that receives them.

    A handler is an abstract value: the fixed script of writer calls it makes
    when it runs. Running a handler on a writer performs that script. */
module Http {

  type Bytes = seq<bv8>

  /** One call a handler makes on the writer it is given:
      `Header().Set(key, value)`, `WriteHeader(code)` or `Write(data)`. */
  datatype Op = SetHeader(key: string, value: string) | WriteHeader(code: int) | Write(data: Bytes)

  /** A handler, identified with the writer calls it makes. */
  datatype Handler = Handler(script: seq<Op>)

  /** What a writer has received: every status code passed to `WriteHeader`
      in order, the header map, and the body bytes. */
  datatype Response = Response(statuses: seq<int>, header: map<string, seq<string>>, body: Bytes)

  const Blank := Response([], map[], [])

  /** The effect of one call on the response. `Header().Set` replaces every
      value of the key by the single given value. */
  function Apply(r: Response, op: Op): (r': Response)
    ensures op.SetHeader? ==> r'.header == r.header[op.key := [op.value]] && r'.statuses == r.statuses && r'.body == r.body
    ensures op.WriteHeader? ==> r'.statuses == r.statuses + [op.code] && r'.header == r.header && r'.body == r.body
    ensures op.Write? ==> r'.body == r.body + op.data && r'.header == r.header && r'.statuses == r.statuses
  {
    match op
    case SetHeader(k, v) => r.(header := r.header[k := [v]])
    case WriteHeader(c) => r.(statuses := r.statuses + [c])
    case Write(data) => r.(body := r.body + data)
  }

  /** The response after performing `ops` in order, starting from `r`. */
  function Run(r: Response, ops: seq<Op>): Response
    decreases |ops|
  {
    if ops == [] then r else Apply(Run(r, ops[..|ops| - 1]), ops[|ops| - 1])
  }

  /** The calls of `ops` that are not body writes, in order. */
  function Dropped(ops: seq<Op>): (d: seq<Op>)
    ensures forall i :: 0 <= i < |d| ==> !d[i].Write?
    ensures |d| <= |ops|
    decreases |ops|
  {
    if ops == [] then []
    else Dropped(ops[..|ops| - 1]) + (if ops[|ops| - 1].Write? then [] else [ops[|ops| - 1]])
  }

  /** Performing two scripts one after the other is performing their concatenation. */
  lemma {:induction false} RunConcat(r: Response, a: seq<Op>, b: seq<Op>)
    ensures Run(r, a + b) == Run(Run(r, a), b)
    decreases |b|
  {
    if b == [] {
      assert a + b == a;
    } else {
      assert (a + b)[..|a + b| - 1] == a + b[..|b| - 1];
      RunConcat(r, a, b[..|b| - 1]);
    }
  }

  /** A script of one or two calls. */
  lemma RunShort(r: Response, a: Op, b: Op)
    ensures Run(r, [a]) == Apply(r, a)
    ensures Run(r, [a, b]) == Apply(Apply(r, a), b)
  {
    assert [a][..0] == [];
    assert [a, b][..1] == [a];
  }

  /** Leaving out the body writes of a script changes nothing but the body,
      which stays as it was. */
  lemma {:induction false} RunDropped(r: Response, ops: seq<Op>)
    ensures Run(r, Dropped(ops)) == Run(r, ops).(body := r.body)
    decreases |ops|
  {
    if ops != [] {
      var init, last := ops[..|ops| - 1], ops[|ops| - 1];
      RunDropped(r, init);
      if last.Write? {
        assert Dropped(ops) == Dropped(init) + [];
        assert Dropped(init) + [] == Dropped(init);
      } else {
        RunConcat(r, Dropped(init), [last]);
        assert [last][..0] == [];
      }
    }
  }

  /** The bytes of an ASCII string. */
  function Ascii(s: string): (b: Bytes)
    ensures |b| == |s|
  {
    seq(|s|, i requires 0 <= i < |s| => (s[i] as int % 256) as bv8)
  }

  /** What `http.NotFound` does to a writer: the plain-text headers, status
      404 and the line "404 page not found". */
  const NotFoundScript: seq<Op> := [
    SetHeader("Content-Type", "text/plain; charset=utf-8"),
    SetHeader("X-Content-Type-Options", "nosniff"),
    WriteHeader(404),
    Write(Ascii("404 page not found\n"))
  ]

  /** `http.NotFound` sets the plain-text content type and `nosniff`, writes
      status 404, and appends the not-found line to the body. */
  lemma NotFoundResponse(r: Response)
    ensures Run(r, NotFoundScript) == Response(
      r.statuses + [404],
      r.header["Content-Type" := ["text/plain; charset=utf-8"]]["X-Content-Type-Options" := ["nosniff"]],
      r.body + Ascii("404 page not found\n"))
  {
    var a, b := NotFoundScript[0], NotFoundScript[1];
    var c, d := NotFoundScript[2], NotFoundScript[3];
    assert NotFoundScript == [a, b] + [c, d];
    RunConcat(r, [a, b], [c, d]);
    RunShort(r, a, b);
    RunShort(Run(r, [a, b]), c, d);
  }

  /** The writer the server hands to the outermost handler. It records every
      call made on it. */
  class ResponseWriter {
    var statuses: seq<int>
    var header: map<string, seq<string>>
    var body: Bytes

    function State(): Response
      reads this
    {
      Response(statuses, header, body)
    }

    constructor ()
      ensures State() == Blank
    {
      statuses, header, body := [], map[], [];
    }

    method SetHeader(key: string, value: string)
      modifies this
      ensures State() == Apply(old(State()), Op.SetHeader(key, value))
    {
      header := header[key := [value]];
    }

    method WriteHeader(code: int)
      modifies this
      ensures State() == Apply(old(State()), Op.WriteHeader(code))
    {
      statuses := statuses + [code];
    }

    method Write(data: Bytes) returns (n: int)
      modifies this
      ensures n == |data|
      ensures State() == Apply(old(State()), Op.Write(data))
    {
      body := body + data;
      n := |data|;
    }

    method Perform(op: Op)
      modifies this
      ensures State() == Apply(old(State()), op)
    {
      match op
      case SetHeader(k, v) => SetHeader(k, v);
      case WriteHeader(c) => WriteHeader(c);
      case Write(data) => var _ := Write(data);
    }

    /** Runs a handler whose script is `ops` on this writer. */
    method Play(ops: seq<Op>)
      modifies this
      ensures State() == Run(old(State()), ops)
    {
      var i := 0;
      while i < |ops|
        invariant 0 <= i <= |ops|
        invariant State() == Run(old(State()), ops[..i])
      {
        Perform(ops[i]);
        assert ops[..i + 1][..i] == ops[..i];
        i := i + 1;
      }
      assert ops[..|ops|] == ops;
    }
  }
}
