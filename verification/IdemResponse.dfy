/** What a handler does to its response writer, what the client gets of it and what is recorded of it
    (net/http's response under captureWriter of idem/idem.go). */
module IdemResponse {
  type Bytes = string
  type Headers = map<string, seq<string>>

  // SetHeaders is any change of the header map, with the map it leaves.
  datatype Call = WriteHeader(code: int) | Write(data: Bytes) | Flush | SetHeaders(headers: Headers)

  datatype Response = Response(status: int, headers: Headers, body: Bytes)

  // Status codes net/http accepts; the informational ones do not end the header.
  predicate Legal(call: Call) { call.WriteHeader? ==> 100 <= call.code <= 999 }

  predicate AllLegal(calls: seq<Call>) { forall i :: 0 <= i < |calls| ==> Legal(calls[i]) }

  predicate Informational(call: Call) { call.WriteHeader? && 100 <= call.code <= 199 && call.code != 101 }

  // Whether the call makes net/http send the final header, if nothing did before: a flush does.
  predicate EndsHeader(call: Call) { !call.SetHeaders? && !Informational(call) }

  function BodyOf(calls: seq<Call>): Bytes {
    if calls == [] then []
    else
      var last := calls[|calls| - 1];
      BodyOf(calls[..|calls| - 1]) + (if last.Write? then last.data else [])
  }

  // ---- what the client gets --------------------------------------------------------------

  // The status of the first call that ends the header; without one it is sent when the handler returns.
  function Sent(calls: seq<Call>): int {
    if calls == [] then 200
    else if !EndsHeader(calls[0]) then Sent(calls[1..])
    else if calls[0].WriteHeader? then calls[0].code else 200
  }

  // The header map at that call; `headers` is what the map holds now.
  function SentHeaders(calls: seq<Call>, headers: Headers): Headers {
    if calls == [] || EndsHeader(calls[0]) then headers
    else SentHeaders(calls[1..], if calls[0].SetHeaders? then calls[0].headers else headers)
  }

  function SentResponse(calls: seq<Call>): Response {
    Response(Sent(calls), SentHeaders(calls, map[]), BodyOf(calls))
  }

  // ---- what is recorded ------------------------------------------------------------------

  // The status the capturing writer notes: that of the first header or write, informational or not.
  // It sees a flush but takes no status from it.
  function Noted(calls: seq<Call>): int {
    if calls == [] then 0
    else match calls[0]
      case WriteHeader(code) => code
      case Write(_) => 200
      case _ => Noted(calls[1..])
  }

  // The header map when the handler has returned.
  function LastHeaders(calls: seq<Call>): Headers {
    if calls == [] then map[]
    else
      var last := calls[|calls| - 1];
      if last.SetHeaders? then last.headers else LastHeaders(calls[..|calls| - 1])
  }

  // Nothing noted means an implicit 200.
  function Recorded(calls: seq<Call>): int { if Noted(calls) == 0 then 200 else Noted(calls) }

  function RecordedResponse(calls: seq<Call>): Response {
    Response(Recorded(calls), LastHeaders(calls), BodyOf(calls))
  }

  // ---- when the two agree ----------------------------------------------------------------

  predicate Quiet(call: Call) { call.Flush? || call.SetHeaders? }

  ghost predicate AllQuiet(calls: seq<Call>) { forall i :: 0 <= i < |calls| ==> Quiet(calls[i]) }

  /** The first header the handler writes before any body, if it writes one, is a 200, or it is neither
      informational nor preceded by a flush. */
  ghost predicate StatusKept(calls: seq<Call>) {
    forall i :: 0 <= i < |calls| && calls[i].WriteHeader? && AllQuiet(calls[..i]) ==>
      calls[i].code == 200 || (!Informational(calls[i]) && Flush !in calls[..i])
  }

  // The header map is left alone once the header has gone out.
  ghost predicate NoLateHeaders(calls: seq<Call>) {
    forall i, j :: 0 <= i < j < |calls| && EndsHeader(calls[i]) ==> !calls[j].SetHeaders?
  }

  lemma {:induction false} SentIsFinal(calls: seq<Call>)
    requires AllLegal(calls)
    ensures !Informational(WriteHeader(Sent(calls)))
  {
    if calls != [] && !EndsHeader(calls[0]) {
      SentIsFinal(calls[1..]);
    }
  }

  lemma {:induction false} NotedAfterFlush(calls: seq<Call>)
    requires AllLegal(calls)
    ensures Recorded(calls) == 200 <==>
      forall i :: 0 <= i < |calls| && calls[i].WriteHeader? && AllQuiet(calls[..i]) ==> calls[i].code == 200
  {
    if calls != [] && Quiet(calls[0]) {
      var rest := calls[1..];
      NotedAfterFlush(rest);
      forall i | 0 <= i < |rest| ensures AllQuiet(rest[..i]) <==> AllQuiet(calls[..i + 1]) {
        QuietTail(calls, i);
      }
      if i :| 0 <= i < |calls| && calls[i].WriteHeader? && AllQuiet(calls[..i]) && calls[i].code != 200 {
        assert rest[i - 1] == calls[i];
      }
      if i :| 0 <= i < |rest| && rest[i].WriteHeader? && AllQuiet(rest[..i]) && rest[i].code != 200 {
        assert calls[i + 1] == rest[i];
      }
    } else if calls != [] {
      assert AllQuiet(calls[..0]);
      forall i | 0 < i < |calls| ensures !AllQuiet(calls[..i]) {
        assert calls[..i][0] == calls[0];
      }
    }
  }

  lemma QuietTail(calls: seq<Call>, i: nat)
    requires i < |calls| - 1 && Quiet(calls[0])
    ensures AllQuiet(calls[1..][..i]) <==> AllQuiet(calls[..i + 1])
    ensures calls[..i + 1] == [calls[0]] + calls[1..][..i]
  {
    assert calls[..i + 1] == [calls[0]] + calls[1..][..i];
    forall k | 0 <= k < i ensures calls[1..][..i][k] == calls[..i + 1][k + 1] { }
  }

  /** The recorded status is the one the client got, exactly under that condition. */
  lemma {:induction false} RecordedIsSentIff(calls: seq<Call>)
    requires AllLegal(calls)
    ensures Recorded(calls) == Sent(calls) <==> StatusKept(calls)
  {
    if calls == [] {
    } else if calls[0].SetHeaders? {
      RecordedIsSentIff(calls[1..]);
      StatusKeptTail(calls);
    } else if calls[0].Flush? {
      NotedAfterFlush(calls);
      assert forall i :: 0 < i <= |calls| ==> calls[..i][0] == Flush;
    } else {
      SentIsFinal(calls);
      assert AllQuiet(calls[..0]);
      forall i | 0 < i < |calls| ensures !AllQuiet(calls[..i]) {
        assert calls[..i][0] == calls[0];
      }
    }
  }

  lemma StatusKeptTail(calls: seq<Call>)
    requires calls != [] && calls[0].SetHeaders?
    ensures StatusKept(calls) <==> StatusKept(calls[1..])
  {
    var rest := calls[1..];
    forall i | 0 <= i < |rest|
      ensures AllQuiet(rest[..i]) <==> AllQuiet(calls[..i + 1])
      ensures Flush in rest[..i] <==> Flush in calls[..i + 1]
    {
      QuietTail(calls, i);
    }
    if i :| 0 <= i < |calls| && calls[i].WriteHeader? && AllQuiet(calls[..i])
            && calls[i].code != 200 && (Informational(calls[i]) || Flush in calls[..i]) {
      assert rest[i - 1] == calls[i];
    }
    if i :| 0 <= i < |rest| && rest[i].WriteHeader? && AllQuiet(rest[..i])
            && rest[i].code != 200 && (Informational(rest[i]) || Flush in rest[..i]) {
      assert calls[i + 1] == rest[i];
    }
  }

  /** An informational header first: the record says 103, the client got 200. */
  lemma InformationalFirst()
    ensures var calls := [WriteHeader(103), WriteHeader(200)];
            AllLegal(calls) && Recorded(calls) == 103 && Sent(calls) == 200
  {
    assert [WriteHeader(103), WriteHeader(200)][1..] == [WriteHeader(200)];
  }

  /** A flush first: the record says 404, the client got 200. */
  lemma FlushFirst()
    ensures var calls := [Flush, WriteHeader(404)];
            AllLegal(calls) && Recorded(calls) == 404 && Sent(calls) == 200
  {
    assert [Flush, WriteHeader(404)][1..] == [WriteHeader(404)];
  }

  /** A header changed after the first write: it is recorded, and the client did not get it. */
  lemma LateHeader(h: string, v: string)
    ensures var calls := [Write("x"), SetHeaders(map[h := [v]])];
            && RecordedResponse(calls).headers == map[h := [v]] && SentResponse(calls).headers == map[]
            && Recorded(calls) == Sent(calls)
  {
  }

  lemma {:induction false} SentHeadersAre(calls: seq<Call>, headers: Headers)
    requires NoLateHeaders(calls)
    ensures SentHeaders(calls, headers) ==
      if exists i :: 0 <= i < |calls| && calls[i].SetHeaders? then LastHeaders(calls) else headers
  {
    if calls != [] && !EndsHeader(calls[0]) {
      var now := if calls[0].SetHeaders? then calls[0].headers else headers;
      SentHeadersAre(calls[1..], now);
      LastHeadersTail(calls);
      assert forall i :: 0 < i < |calls| ==> calls[i] == calls[1..][i - 1];
    }
  }

  lemma {:induction false} LastHeadersTail(calls: seq<Call>)
    requires calls != []
    ensures LastHeaders(calls) ==
      if exists i :: 0 < i < |calls| && calls[i].SetHeaders? then LastHeaders(calls[1..])
      else if calls[0].SetHeaders? then calls[0].headers else map[]
  {
    var n := |calls|;
    if n > 1 && !calls[n - 1].SetHeaders? {
      LastHeadersTail(calls[..n - 1]);
      assert calls[..n - 1][1..] == calls[1..][..n - 2];
      assert forall i :: 0 < i < n - 1 ==> calls[..n - 1][i] == calls[i];
    }
  }

  lemma {:induction false} NoHeadersSet(calls: seq<Call>)
    requires forall i :: 0 <= i < |calls| ==> !calls[i].SetHeaders?
    ensures LastHeaders(calls) == map[]
  {
    if calls != [] {
      NoHeadersSet(calls[..|calls| - 1]);
    }
  }

  /** A handler that leaves the header map alone after the header has gone out, and writes its status as
      above, is recorded just as its client saw it. */
  lemma RecordedWhole(calls: seq<Call>)
    requires AllLegal(calls) && NoLateHeaders(calls)
    ensures LastHeaders(calls) == SentHeaders(calls, map[])
    ensures RecordedResponse(calls) == SentResponse(calls) <==> StatusKept(calls)
  {
    RecordedIsSentIff(calls);
    SentHeadersAre(calls, map[]);
    if forall i :: 0 <= i < |calls| ==> !calls[i].SetHeaders? {
      NoHeadersSet(calls);
    }
  }

  // ---- what a replay sends ---------------------------------------------------------------

  const NON_REPLAYABLE: set<string> := {
    "Connection", "Keep-Alive", "Proxy-Authenticate", "Proxy-Authorization", "Te", "Trailer",
    "Transfer-Encoding", "Upgrade", "Set-Cookie"}

  // What is kept of a response.
  function Kept(response: Response): Response {
    response.(headers := map h | h in response.headers && h !in NON_REPLAYABLE :: response.headers[h])
  }

  // The header that tells a replay from an execution.
  const REPLAY_MARK: string := "Idempotency-Replayed"

  function Marked(headers: Headers): Headers { headers[REPLAY_MARK := ["true"]] }

  // What `replyExisting` does to the writer of the request it answers from a record.
  function ReplayCalls(record: Response): seq<Call> {
    [SetHeaders(Marked(record.headers)), WriteHeader(if record.status == 0 then 200 else record.status), Write(record.body)]
  }

  // A response as a perfect replay repeats it: less the headers never replayed, and marked.
  function AsReplayed(sent: Response): Response { Kept(sent).(headers := Marked(Kept(sent).headers)) }

  /** The status of the replay is that of the response: it was recorded as it was sent, or an
      informational one was recorded, which does not end the header of the replay either, and what was
      sent is the 200 that follows then. */
  ghost predicate StatusReplayed(calls: seq<Call>) {
    StatusKept(calls) || (Informational(WriteHeader(Recorded(calls))) && Sent(calls) == 200)
  }

  // An informational status in a record is sent as such, and the body then ends the header with a 200.
  lemma ReplaySends(record: Response)
    requires record.status != 0
    ensures var got := SentResponse(ReplayCalls(record));
            && got.status == (if Informational(WriteHeader(record.status)) then 200 else record.status)
            && got.headers == Marked(record.headers) && got.body == record.body
  {
    var calls := ReplayCalls(record);
    var mark, header, write := calls[0], calls[1], calls[2];
    assert calls[1..] == [header, write] && [header, write][1..] == [write];
    assert Sent([write]) == 200 && SentHeaders([write], mark.headers) == mark.headers;
    assert Sent([header, write]) == if Informational(header) then Sent([write]) else header.code;
    assert Sent(calls) == Sent([header, write]);
    assert SentHeaders([header, write], mark.headers) == mark.headers;
    assert SentHeaders(calls, map[]) == SentHeaders([header, write], mark.headers);
    assert calls[..2] == [mark, header] && [mark, header][..1] == [mark] && [mark][..0] == [];
    assert BodyOf([mark]) == BodyOf([]) + [];
    assert BodyOf([mark, header]) == BodyOf([mark]) + [];
    assert BodyOf(calls) == BodyOf([mark, header]) + write.data;
  }

  /** What the client of a replay gets: the body always, the status exactly under that condition, and the
      whole response, for a handler that left the header map alone after the header had gone out, too. */
  lemma ReplayIsSentIff(calls: seq<Call>)
    requires AllLegal(calls)
    ensures var got := SentResponse(ReplayCalls(Kept(RecordedResponse(calls))));
            && got.body == BodyOf(calls)
            && (got.status == Sent(calls) <==> StatusReplayed(calls))
            && (NoLateHeaders(calls) ==> (got == AsReplayed(SentResponse(calls)) <==> StatusReplayed(calls)))
  {
    hide Sent, SentHeaders, BodyOf, Noted, LastHeaders, StatusKept, NoLateHeaders, ReplayCalls;
    var record := Kept(RecordedResponse(calls));
    RecordedLegal(calls);
    ReplaySends(record);
    RecordedIsSentIff(calls);
    SentIsFinal(calls);
    if NoLateHeaders(calls) {
      RecordedWhole(calls);
    }
  }

  lemma {:induction false} RecordedLegal(calls: seq<Call>)
    requires AllLegal(calls)
    ensures Legal(WriteHeader(Recorded(calls)))
  {
    if calls != [] && Quiet(calls[0]) {
      RecordedLegal(calls[1..]);
    }
  }

  /** 103 is recorded and a 200 was sent: the record is wrong, and the replay is right all the same. */
  lemma InformationalReplayed()
    ensures var calls := [WriteHeader(103), WriteHeader(200), Write("x")];
            && AllLegal(calls) && NoLateHeaders(calls) && !StatusKept(calls)
            && SentResponse(ReplayCalls(Kept(RecordedResponse(calls)))) == AsReplayed(SentResponse(calls))
  {
    var calls := [WriteHeader(103), WriteHeader(200), Write("x")];
    assert calls[1..][0] == WriteHeader(200);
    RecordedIsSentIff(calls);
    ReplayIsSentIff(calls);
  }

  /** 103 is recorded and a 404 was sent: the replay sends a 200. */
  lemma InformationalMisreplayed()
    ensures var calls := [WriteHeader(103), WriteHeader(404)];
            && AllLegal(calls) && NoLateHeaders(calls) && Sent(calls) == 404
            && SentResponse(ReplayCalls(Kept(RecordedResponse(calls)))).status == 200
  {
    var calls := [WriteHeader(103), WriteHeader(404)];
    assert calls[1..][0] == WriteHeader(404);
    ReplaySends(Kept(RecordedResponse(calls)));
  }
}
