/** The response recorder: nothing a handler writes reaches the client before its idempotency claim is settled. */
module Recorder {
  import opened Schema
  import opened Idempotency

  /** The connection to the client: the first status wins, written bytes append. */
  class Wire {
    var status: Option<int>
    var body: string

    constructor ()
      ensures status == None && body == ""
    {
      status, body := None, "";
    }

    method WriteHeader(code: int)
      modifies this
      ensures body == old(body) && status == if old(status).None? then Some(code) else old(status)
    {
      if status.None? { status := Some(code); }
    }

    method Write(data: string)
      modifies this
      ensures body == old(body) + data && status == if old(status).None? then Some(200) else old(status)
    {
      WriteHeader(200);
      body := body + data;
    }
  }

  class ResponseRecorder {
    const underlying: Wire
    var status: int
    var body: string

    constructor (underlying: Wire)
      ensures this.underlying == underlying && status == 0 && body == ""
    {
      this.underlying := underlying;
      status, body := 0, "";
    }

    function Status(): int
      reads this
    {
      if status == 0 then 200 else status
    }

    method WriteHeader(code: int)
      modifies this
      ensures body == old(body) && status == if old(status) == 0 then code else old(status)
    {
      if status == 0 { status := code; }
    }

    method Write(data: string)
      modifies this
      ensures body == old(body) + data && status == if old(status) == 0 then 200 else old(status)
    {
      WriteHeader(200);
      body := body + data;
    }

    method Flush()
      modifies this
      ensures body == old(body) && status == if old(status) == 0 then 200 else old(status)
    {
      WriteHeader(200);
    }

    /** Sends what was recorded. */
    method Commit()
      modifies underlying
      ensures underlying.status == if old(underlying.status).None? then Some(Status()) else old(underlying.status)
      ensures underlying.body == old(underlying.body) + body
    {
      underlying.WriteHeader(Status());
      if |body| > 0 { underlying.Write(body); }
    }
  }

  datatype Write = Header(code: int) | Data(bytes: string) | Flushed

  /** What a client with no recorder in between would have received. */
  function Status(writes: seq<Write>): int {
    if writes == [] then 0
    else
      var before := Status(writes[..|writes| - 1]);
      if before != 0 then before else if writes[|writes| - 1].Header? then writes[|writes| - 1].code else 200
  }

  function Body(writes: seq<Write>): string {
    if writes == [] then ""
    else Body(writes[..|writes| - 1]) + if writes[|writes| - 1].Data? then writes[|writes| - 1].bytes else ""
  }

  /** The middleware around an executing handler that performs `writes`. `completes` says whether `Complete` succeeds.
      The client sees a success only when the claim was completed, and then exactly the response that was stored;
      any failure of the handler is passed on, and a success that could not be stored is withheld. */
  method Execute(wire: Wire, writes: seq<Write>, completes: bool, problem: string) returns (stored: Option<Response>)
    requires wire.status.None? && wire.body == ""
    modifies wire
    ensures wire.status.Some?
    ensures var answer := Response(if Status(writes) == 0 then 200 else Status(writes), Body(writes));
      && stored == (if Successful(answer) && completes then Some(answer) else None)
      && Response(wire.status.value, wire.body) == if Successful(answer) && !completes then Response(500, problem) else answer
  {
    var recorder := new ResponseRecorder(wire);
    for j := 0 to |writes|
      invariant fresh(recorder) && recorder.underlying == wire && wire.status.None? && wire.body == ""
      invariant recorder.status == Status(writes[..j]) && recorder.body == Body(writes[..j])
    {
      assert writes[..j + 1][..j] == writes[..j];
      match writes[j] {
        case Header(code) => recorder.WriteHeader(code);
        case Data(bytes) => recorder.Write(bytes);
        case Flushed => recorder.Flush();
      }
    }
    assert writes[..|writes|] == writes;
    var status := recorder.Status();
    if status >= 200 && status < 300 {
      if !completes {
        wire.WriteHeader(500);
        wire.Write(problem);
        return None;
      }
      stored := Some(Response(status, recorder.body));
    } else {
      stored := None;
    }
    recorder.Commit();
  }
}
