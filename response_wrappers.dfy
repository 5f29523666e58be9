/** The two response-writer decorators of the core: a status recorder, used
    by request logging, and a body dropper, used to answer HEAD with a GET
    handler. Each wraps a writer and forwards to it every call it does not
    override. */
module ResponseWrappers {
  import opened Wrappers
  import opened Http

  /** The status a recorder that starts at `initial` reports once the wrapped
      handler has made the calls `ops`: the code of the last `WriteHeader`. */
  function RecordedStatus(initial: int, ops: seq<Op>): int
    decreases |ops|
  {
    if ops == [] then initial
    else if ops[|ops| - 1].WriteHeader? then ops[|ops| - 1].code
    else RecordedStatus(initial, ops[..|ops| - 1])
  }

  /** A fresh recorder reports the last status code that reached the wrapped
      writer, and 200 when the handler wrote none. */
  lemma {:induction false} RecordedStatusIsLastForwarded(r: Response, ops: seq<Op>)
    ensures var after := Run(r, ops).statuses;
      |after| >= |r.statuses| && after[..|r.statuses|] == r.statuses &&
      RecordedStatus(200, ops) == if |after| == |r.statuses| then 200 else after[|after| - 1]
    decreases |ops|
  {
    if ops != [] {
      RecordedStatusIsLastForwarded(r, ops[..|ops| - 1]);
    }
  }

  /** `StatusRecorder`: remembers the last code passed to `WriteHeader`. */
  class StatusRecorder {
    const inner: ResponseWriter
    var status: int

    /** `RecordStatus(w)`: wraps `w`, with the status defaulting to 200. */
    constructor RecordStatus(w: ResponseWriter)
      ensures inner == w && GetStatus() == 200
    {
      inner := w;
      status := 200;
    }

    function GetStatus(): (s: int)
      reads this
      ensures s == status
    {
      status
    }

    /** Records `code` and forwards it unchanged. */
    method WriteHeader(code: int)
      modifies this, inner
      ensures GetStatus() == code
      ensures inner.State() == Apply(old(inner.State()), Op.WriteHeader(code))
    {
      status := code;
      inner.WriteHeader(code);
    }

    /** Promoted from the wrapped writer. */
    method SetHeader(key: string, value: string)
      modifies inner
      ensures inner.State() == Apply(old(inner.State()), Op.SetHeader(key, value))
    {
      inner.SetHeader(key, value);
    }

    /** Promoted from the wrapped writer. */
    method Write(data: Bytes) returns (n: int)
      modifies inner
      ensures n == |data|
      ensures inner.State() == Apply(old(inner.State()), Op.Write(data))
    {
      n := inner.Write(data);
    }

    method Perform(op: Op)
      modifies this, inner
      ensures GetStatus() == RecordedStatus(old(GetStatus()), [op])
      ensures inner.State() == Apply(old(inner.State()), op)
    {
      match op
      case SetHeader(k, v) => SetHeader(k, v);
      case WriteHeader(c) => WriteHeader(c);
      case Write(data) => var _ := Write(data);
    }

    /** Runs a handler whose script is `ops` on this recorder. */
    method Play(ops: seq<Op>)
      modifies this, inner
      ensures GetStatus() == RecordedStatus(old(GetStatus()), ops)
      ensures inner.State() == Run(old(inner.State()), ops)
    {
      var i := 0;
      while i < |ops|
        invariant 0 <= i <= |ops|
        invariant GetStatus() == RecordedStatus(old(GetStatus()), ops[..i])
        invariant inner.State() == Run(old(inner.State()), ops[..i])
      {
        Perform(ops[i]);
        assert ops[..i + 1][..i] == ops[..i];
        i := i + 1;
      }
      assert ops[..|ops|] == ops;
    }
  }

  /** `BodyDropper`: accepts body writes without forwarding them. */
  class BodyDropper {
    const inner: ResponseWriter

    /** `DropBody(w)`. */
    constructor DropBody(w: ResponseWriter)
      ensures inner == w
    {
      inner := w;
    }

    /** Reports the whole body as written, with no error, and changes nothing. */
    method Write(data: Bytes) returns (n: int, err: Option<string>)
      ensures n == |data| && err == None
    {
      n, err := |data|, None;
    }

    /** Promoted from the wrapped writer. */
    method SetHeader(key: string, value: string)
      modifies inner
      ensures inner.State() == Apply(old(inner.State()), Op.SetHeader(key, value))
    {
      inner.SetHeader(key, value);
    }

    /** Promoted from the wrapped writer. */
    method WriteHeader(code: int)
      modifies inner
      ensures inner.State() == Apply(old(inner.State()), Op.WriteHeader(code))
    {
      inner.WriteHeader(code);
    }

    method Perform(op: Op)
      modifies inner
      ensures inner.State() == Run(old(inner.State()), Dropped([op]))
    {
      assert [op][..0] == [];
      match op
      case SetHeader(k, v) => SetHeader(k, v);
      case WriteHeader(c) => WriteHeader(c);
      case Write(data) => var _, _ := Write(data);
    }

    /** Runs a handler whose script is `ops` on this dropper: the wrapped
        writer receives every call except the body writes. */
    method Play(ops: seq<Op>)
      modifies inner
      ensures inner.State() == Run(old(inner.State()), Dropped(ops))
      ensures inner.State() == Run(old(inner.State()), ops).(body := old(inner.State()).body)
    {
      var i := 0;
      while i < |ops|
        invariant 0 <= i <= |ops|
        invariant inner.State() == Run(old(inner.State()), Dropped(ops[..i]))
      {
        Perform(ops[i]);
        assert [ops[i]][..0] == [];
        assert ops[..i + 1][..i] == ops[..i];
        RunConcat(old(inner.State()), Dropped(ops[..i]), Dropped([ops[i]]));
        i := i + 1;
      }
      assert ops[..|ops|] == ops;
      RunDropped(old(inner.State()), ops);
    }
  }
}
