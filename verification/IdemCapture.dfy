/** captureWriter of idem/idem.go: passes a response on and keeps a copy, up to a limit. */
module IdemCapture {
  import opened IdemResponse

  class CaptureWriter {
    const limit: nat
    var status: int
    var buf: Bytes
    var overflow: bool
    var writeFailed: bool
    var header: Headers
    var calls: seq<Call>      // what the underlying writer was asked to do
    ghost var failures: bool

    // The copy is whole exactly as long as everything written fits the limit.
    ghost predicate Valid()
      reads this
    {
      && status == Noted(calls) && header == LastHeaders(calls) && AllLegal(calls)
      && (overflow <==> |BodyOf(calls)| > limit)
      && buf == (if overflow then [] else BodyOf(calls))
      && writeFailed == failures
    }

    constructor (limit: nat)
      ensures Valid() && calls == [] && !failures && this.limit == limit
    {
      this.limit := limit;
      status, buf, overflow, writeFailed := 0, [], false, false;
      header, calls, failures := map[], [], false;
    }

    method WriteHeader(code: int)
      requires Valid() && 100 <= code <= 999
      modifies this
      ensures Valid() && calls == old(calls) + [Call.WriteHeader(code)] && failures == old(failures)
    {
      hide Noted, BodyOf, LastHeaders;
      if status == 0 {
        status := code;
      }
      NotedAfter(calls, Call.WriteHeader(code));
      calls := calls + [Call.WriteHeader(code)];
    }

    /** n and failed are what the underlying writer reports. */
    method Write(data: Bytes, n: nat, failed: bool)
      requires Valid() && n <= |data|
      modifies this
      ensures Valid() && calls == old(calls) + [Call.Write(data)]
      ensures failures == (old(failures) || failed || n != |data|)
    {
      hide Noted, BodyOf, LastHeaders;
      if status == 0 {
        status := 200;
      }
      if !overflow {
        if |buf| + |data| > limit {
          overflow := true;
          buf := [];
        } else {
          buf := buf + data;
        }
      }
      if failed || n != |data| {
        writeFailed := true;
      }
      NotedAfter(calls, Call.Write(data));
      calls, failures := calls + [Call.Write(data)], failures || failed || n != |data|;
    }

    // Passed on; the writer takes no status from it.
    method Flush()
      requires Valid()
      modifies this
      ensures Valid() && calls == old(calls) + [Call.Flush] && failures == old(failures)
    {
      hide Noted, BodyOf, LastHeaders;
      NotedAfter(calls, Call.Flush);
      calls := calls + [Call.Flush];
    }

    // The handler changes the header map, which is that of the underlying writer.
    method SetHeaders(headers: Headers)
      requires Valid()
      modifies this
      ensures Valid() && calls == old(calls) + [Call.SetHeaders(headers)] && failures == old(failures)
    {
      hide Noted, BodyOf, LastHeaders;
      NotedAfter(calls, Call.SetHeaders(headers));
      header := headers;
      calls := calls + [Call.SetHeaders(headers)];
    }
  }

  lemma {:induction false} NotedAfter(calls: seq<Call>, call: Call)
    requires Legal(call) && AllLegal(calls)
    ensures Noted(calls + [call]) ==
              if Noted(calls) != 0 then Noted(calls)
              else if call.WriteHeader? then call.code else if call.Write? then 200 else 0
    ensures BodyOf(calls + [call]) == BodyOf(calls) + (if call.Write? then call.data else [])
    ensures LastHeaders(calls + [call]) == if call.SetHeaders? then call.headers else LastHeaders(calls)
  {
    assert (calls + [call])[..|calls|] == calls;
    if calls != [] {
      NotedAfter(calls[1..], call);
      assert (calls + [call])[1..] == calls[1..] + [call];
    }
  }
}
