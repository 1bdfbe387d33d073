/**
 * The demo verification script: a health probe, two monitors that poll the
 * status endpoint, the signing request, the scoring of its response, the
 * event-log listing and the exit code of the whole run. Every HTTP exchange
 * is an input (the reply, or the exception the request raised); the wall
 * clock that ends a monitor becomes the number of polls it makes.
 */
module VerifyDemo {
  import opened Wrappers
  import opened Primitives
  import opened PyValue

  /** What `requests` gave back: a status code and the body `.json()` reads (None when it raises), or an exception. */
  datatype HttpReply = Reply(statusCode: nat, body: Option<Json>) | RequestFailed

  const HttpOk := 200

  /** The exit codes of the script. */
  const ExitPassed := 0
  const ExitFailed := 1
  const ExitInterrupted := 130

  // ------------------------------------------------------------------
  // Step 1: health check
  // ------------------------------------------------------------------

  /**
   * `check_health`: a 200 reply whose body reads as JSON and answers `.get`
   * for the three fields it prints. Any exception on the way counts as failure.
   */
  function CheckHealth(reply: HttpReply): (ok: bool)
    ensures ok <==> reply.Reply? && reply.statusCode == HttpOk && reply.body.Some? && reply.body.value.JObject?
  {
    match reply
    case RequestFailed => false
    case Reply(code, body) =>
      code == HttpOk && body.Some? &&
      AttrGet(body.value, "service", JStr("N/A")).Returns? &&
      AttrGet(body.value, "version", JStr("N/A")).Returns? &&
      AttrGet(body.value, "status", JStr("N/A")).Returns?
  }

  // ------------------------------------------------------------------
  // Step 2: initial status monitor
  // ------------------------------------------------------------------

  /** The status line `monitor_status` prints formats without raising. */
  predicate StatusLineRenders(status: Json)
  {
    status.JObject? &&
    Get(status.fields, "current_phase", JStr("Unknown")).JStr? &&
    IsNumber(Get(status.fields, "progress", JFloat(0.0))) &&
    IsIntegral(Get(status.fields, "total_messages", JInt(0))) &&
    IsIntegral(Get(status.fields, "total_bytes", JInt(0))) &&
    IsIntegral(Get(status.fields, "total_retries", JInt(0))) &&
    IsIntegral(Get(status.fields, "rssi", JInt(0)))
  }

  /**
   * `last_status` after the polls: a 200 reply's body is kept before its line
   * is printed, a non-200 reply is passed over, and an exception (the request,
   * `.json()` or the printing) ends the loop.
   */
  function StatusFold(polls: seq<HttpReply>, last: Json): Json
  {
    if polls == [] then last
    else match polls[0]
      case RequestFailed => last
      case Reply(code, body) =>
        if code != HttpOk then StatusFold(polls[1..], last)
        else if body.None? then last
        else if !StatusLineRenders(body.value) then body.value
        else StatusFold(polls[1..], body.value)
  }

  /** What `monitor_status` returns: the last status when it is truthy. */
  function MonitorResult(polls: seq<HttpReply>): Option<Json>
  {
    var last := StatusFold(polls, JNull);
    if Truthy(last) then Some(last) else None
  }

  /** `monitor_status`, one poll per iteration until the polls run out or one raises. */
  method MonitorStatus(polls: seq<HttpReply>) returns (r: Option<Json>)
    ensures r == MonitorResult(polls)
  {
    var lastStatus := JNull;
    var i := 0;
    while i < |polls|
      invariant 0 <= i <= |polls|
      invariant StatusFold(polls, JNull) == StatusFold(polls[i..], lastStatus)
    {
      match polls[i]
      case RequestFailed =>
        break;
      case Reply(code, body) =>
        if code == HttpOk {
          if body.None? {
            break;
          }
          lastStatus := body.value;
          if !StatusLineRenders(body.value) {
            break;
          }
        }
      i := i + 1;
    }
    if Truthy(lastStatus) {
      r := Some(lastStatus);
    } else {
      r := None;
    }
  }

  /** The snapshot kept is one the server sent with status 200 (or the starting value). */
  lemma {:induction false} StatusFoldReceived(polls: seq<HttpReply>, last: Json)
    ensures StatusFold(polls, last) == last ||
      exists i | 0 <= i < |polls| :: polls[i] == Reply(HttpOk, Some(StatusFold(polls, last)))
  {
    if polls != [] && polls[0].Reply? && polls[0].statusCode == HttpOk && polls[0].body.Some? {
      var v := polls[0].body.value;
      if StatusLineRenders(v) {
        StatusFoldReceived(polls[1..], v);
        var r := StatusFold(polls[1..], v);
        if r != v {
          var i :| 0 <= i < |polls[1..]| && polls[1..][i] == Reply(HttpOk, Some(r));
          assert polls[i + 1] == Reply(HttpOk, Some(r));
        } else {
          assert polls[0] == Reply(HttpOk, Some(v));
        }
      } else {
        assert polls[0] == Reply(HttpOk, Some(v));
      }
    } else if polls != [] && polls[0].Reply? && polls[0].statusCode != HttpOk {
      StatusFoldReceived(polls[1..], last);
      var r := StatusFold(polls[1..], last);
      if r != last {
        var i :| 0 <= i < |polls[1..]| && polls[1..][i] == Reply(HttpOk, Some(r));
        assert polls[i + 1] == Reply(HttpOk, Some(r));
      }
    }
  }

  /** `monitor_status` returns only a status it was sent with code 200. */
  lemma MonitorReturnsReceived(polls: seq<HttpReply>)
    ensures MonitorResult(polls).Some? ==>
      exists i | 0 <= i < |polls| :: polls[i] == Reply(HttpOk, Some(MonitorResult(polls).value))
  {
    StatusFoldReceived(polls, JNull);
  }

  /** Polls after a failed request are never made. */
  lemma {:induction false} StatusFoldStopsAtFailure(polls: seq<HttpReply>, last: Json, k: nat)
    requires k < |polls| && polls[k] == RequestFailed
    ensures StatusFold(polls, last) == StatusFold(polls[..k], last)
  {
    if k > 0 {
      assert polls[..k][1..] == polls[1..][..k - 1];
      match polls[0]
      case RequestFailed =>
      case Reply(code, body) =>
        if code != HttpOk {
          StatusFoldStopsAtFailure(polls[1..], last, k - 1);
        } else if body.Some? && StatusLineRenders(body.value) {
          StatusFoldStopsAtFailure(polls[1..], body.value, k - 1);
        }
    }
  }

  /** When every poll answers 200 with a printable status, the monitor keeps the last one. */
  lemma {:induction false} StatusFoldKeepsLast(polls: seq<HttpReply>, last: Json)
    requires polls != []
    requires forall i | 0 <= i < |polls| ::
      polls[i].Reply? && polls[i].statusCode == HttpOk && polls[i].body.Some? && StatusLineRenders(polls[i].body.value)
    ensures StatusFold(polls, last) == polls[|polls| - 1].body.value
  {
    if |polls| > 1 {
      StatusFoldKeepsLast(polls[1..], polls[0].body.value);
    }
  }

  // ------------------------------------------------------------------
  // Step 3: the signing request
  // ------------------------------------------------------------------

  /** A snapshot read with `.json()` (the status code is not looked at) that answers `.get`. */
  function Snapshot(reply: HttpReply): Option<map<string, Json>>
  {
    if reply.Reply? && reply.body.Some? && reply.body.value.JObject? then Some(reply.body.value.fields) else None
  }

  /** The snapshot taken before the request prints its progress with `.2f`. */
  predicate UsableBefore(before: HttpReply)
  {
    Snapshot(before).Some? && IsNumber(Get(Snapshot(before).value, "progress", JFloat(0.0)))
  }

  /** The snapshot taken after prints its progress with `.2f`, and its byte count compares with the earlier one. */
  predicate UsableAfter(before: HttpReply, after: HttpReply)
    requires UsableBefore(before)
  {
    Snapshot(after).Some? && IsNumber(Get(Snapshot(after).value, "progress", JFloat(0.0))) &&
    Orderable(Get(Snapshot(after).value, "total_bytes", JInt(0)), Get(Snapshot(before).value, "total_bytes", JInt(0)))
  }

  /**
   * `send_sign_request`: the status before, the POST, the status after. The
   * byte and progress comparisons only choose between a success line and a
   * warning; any exception, or a reply other than 200, gives None.
   */
  function SendSignRequest(before: HttpReply, post: HttpReply, after: HttpReply): (r: Option<map<string, Json>>)
    ensures r.Some? ==> post == Reply(HttpOk, Some(JObject(r.value)))
    ensures r.Some? ==> UsableBefore(before) && UsableAfter(before, after)
    ensures post.RequestFailed? || post.statusCode != HttpOk ==> r.None?
    ensures (UsableBefore(before) && UsableAfter(before, after) && post.Reply? && post.statusCode == HttpOk &&
        post.body.Some? && post.body.value.JObject? && Sliceable(Get(post.body.value.fields, "signature", JStr("N/A")))) ==>
      r == Some(post.body.value.fields)
  {
    if !UsableBefore(before) then None
    else match post
      case RequestFailed => None
      case Reply(code, body) =>
        if code != HttpOk then None
        else if body.None? || !body.value.JObject? then None
        else
          var result := body.value.fields;
          if !Sliceable(Get(result, "signature", JStr("N/A"))) then None
          else if !UsableAfter(before, after) then None
          else Some(result)
  }

  /**
   * Whether the bytes grew and whether progress reached 0.99 make no difference
   * to the result: any two usable snapshots afterwards give the same answer.
   */
  lemma WarningsDoNotChangeResult(before: HttpReply, post: HttpReply, after1: HttpReply, after2: HttpReply)
    requires UsableBefore(before) && UsableAfter(before, after1) && UsableAfter(before, after2)
    ensures SendSignRequest(before, post, after1) == SendSignRequest(before, post, after2)
  {
  }

  // ------------------------------------------------------------------
  // Step 5: scoring the signing response
  // ------------------------------------------------------------------

  /** Check 1: a truthy `signature` that does not start with `Error:`; a truthy non-string has no `startswith`. */
  function SignatureCheck(result: map<string, Json>): Py<bool>
  {
    if "signature" !in result || !Truthy(result["signature"]) then Returns(false)
    else if !result["signature"].JStr? then Raises
    else Returns(!("Error:" <= result["signature"].s))
  }

  /** Check 2: `verified` is the value True itself. */
  function VerifiedCheck(result: map<string, Json>): bool
  {
    "verified" in result && result["verified"] == JBool(true)
  }

  /** Check 3: the `message` key is present. */
  function MessageCheck(result: map<string, Json>): bool
  {
    "message" in result
  }

  /** Check 4: `signer_ids` is present and a list. */
  function SignerIdsCheck(result: map<string, Json>): bool
  {
    "signer_ids" in result && result["signer_ids"].JArray?
  }

  function Point(passed: bool): nat { if passed then 1 else 0 }

  /** `checks_passed` once all four checks have run. */
  function ChecksPassed(result: map<string, Json>): (n: nat)
    requires SignatureCheck(result).Returns?
    ensures n <= 4
  {
    Point(SignatureCheck(result).value) + Point(VerifiedCheck(result)) + Point(MessageCheck(result)) + Point(SignerIdsCheck(result))
  }

  /** What `verify_signature_response` returns, or that it raises. */
  function ResponseVerdict(result: map<string, Json>): Py<bool>
  {
    if SignatureCheck(result).Raises? then Raises else Returns(ChecksPassed(result) == 4)
  }

  /** `verify_signature_response`: every check runs and adds its point to the counter. */
  method VerifySignatureResponse(result: map<string, Json>) returns (r: Py<bool>)
    ensures r == ResponseVerdict(result)
  {
    var checksPassed := 0;
    var totalChecks := 4;
    if "signature" in result && Truthy(result["signature"]) {
      if !result["signature"].JStr? {
        return Raises;
      }
      if !("Error:" <= result["signature"].s) {
        checksPassed := checksPassed + 1;
      }
    }
    if "verified" in result && result["verified"] == JBool(true) {
      checksPassed := checksPassed + 1;
    }
    if "message" in result {
      checksPassed := checksPassed + 1;
    }
    if "signer_ids" in result && result["signer_ids"].JArray? {
      checksPassed := checksPassed + 1;
    }
    r := Returns(checksPassed == totalChecks);
  }

  /** The response passes exactly when each of the four checks passes. */
  lemma VerdictIsConjunction(result: map<string, Json>)
    ensures ResponseVerdict(result) == Returns(true) <==>
      SignatureCheck(result) == Returns(true) && VerifiedCheck(result) && MessageCheck(result) && SignerIdsCheck(result)
  {
  }

  /**
   * An empty signature, or one starting with `Error:`, costs that one point and
   * nothing else, compared with any acceptable signature.
   */
  lemma BadSignatureCostsOnePoint(result: map<string, Json>, bad: string, good: string)
    requires bad == "" || "Error:" <= bad
    requires good != "" && !("Error:" <= good)
    ensures SignatureCheck(result["signature" := JStr(bad)]) == Returns(false)
    ensures SignatureCheck(result["signature" := JStr(good)]) == Returns(true)
    ensures ChecksPassed(result["signature" := JStr(bad)]) + 1 == ChecksPassed(result["signature" := JStr(good)])
  {
    var b := result["signature" := JStr(bad)];
    var g := result["signature" := JStr(good)];
    assert VerifiedCheck(b) == VerifiedCheck(g) by {
      assert "verified" in b <==> "verified" in g;
      if "verified" in b { assert b["verified"] == g["verified"]; }
    }
    assert SignerIdsCheck(b) == SignerIdsCheck(g) by {
      assert "signer_ids" in b <==> "signer_ids" in g;
      if "signer_ids" in b { assert b["signer_ids"] == g["signer_ids"]; }
    }
  }

  /** `verified` passes for True only: 1, "true" or a missing key do not. */
  lemma VerifiedOnlyForTrue(result: map<string, Json>)
    ensures VerifiedCheck(result["verified" := JBool(true)])
    ensures !VerifiedCheck(result["verified" := JInt(1)])
    ensures !VerifiedCheck(result["verified" := JStr("true")])
    ensures !VerifiedCheck(result - {"verified"})
  {
  }

  /** `message` passes on presence, whatever its value, even None. */
  lemma MessagePresenceSuffices(result: map<string, Json>, v: Json)
    ensures MessageCheck(result["message" := v])
    ensures !MessageCheck(result - {"message"})
  {
  }

  // ------------------------------------------------------------------
  // Step 6: the event log
  // ------------------------------------------------------------------

  /** The line printed for each of the five known event tags, with the fields it shows. */
  datatype EventLine =
    | StartLine(from: Json, to: Json, messageType: Json)
    | FragmentLine(fragmentId: Json, totalFragments: Json, bytes: Json)
    | LostLine(lostFragment: Json, retry: Json)
    | RetryOkLine(retriedFragment: Json, retries: Json)
    | CompleteLine(totalTimeMs: Json, totalRetries: Json)

  /** A printed line with the number `enumerate(..., 1)` gave it. */
  datatype NumberedLine = NumberedLine(number: nat, line: EventLine)

  /**
   * What `check_event_log` prints: nothing but a warning for an empty log;
   * the lines of the listing; or the lines printed before an exception ended it.
   */
  datatype EventLogReport =
    | EmptyLog
    | Listed(count: nat, lines: seq<NumberedLine>)
    | ListingFailed(printed: seq<NumberedLine>)

  /** The most events the listing shows. */
  const ShownEvents := 10

  /** The line for an event, or None for a tag that is not one of the five (a missing tag reads `Unknown`). */
  function Classify(event: map<string, Json>): Option<EventLine>
  {
    var tag := Get(event, "type", JStr("Unknown"));
    if tag == JStr("TransmitStart") then
      Some(StartLine(Get(event, "from", JStr("N/A")), Get(event, "to", JStr("N/A")), Get(event, "message_type", JStr("N/A"))))
    else if tag == JStr("TransmitFragment") then
      Some(FragmentLine(Get(event, "fragment_id", JInt(0)), Get(event, "total_fragments", JInt(0)), Get(event, "bytes", JInt(0))))
    else if tag == JStr("PacketLost") then
      Some(LostLine(Get(event, "fragment_id", JInt(0)), Get(event, "retry_count", JInt(0))))
    else if tag == JStr("RetrySuccess") then
      Some(RetryOkLine(Get(event, "fragment_id", JInt(0)), Get(event, "retry_count", JInt(0))))
    else if tag == JStr("TransmitComplete") then
      Some(CompleteLine(Get(event, "total_time_ms", JInt(0)), Get(event, "retries", JInt(0))))
    else None
  }

  /** The outcome of listing a run of events numbered from `first`. */
  datatype Scan = Scan(lines: seq<NumberedLine>, completed: bool)

  /**
   * The `for` loop over the selected events: a dict event prints its line (or
   * nothing for an unknown tag) and a non-dict one raises on `.get`.
   */
  function ScanEvents(events: seq<Json>, first: nat): (r: Scan)
    ensures r.completed <==> forall k | 0 <= k < |events| :: events[k].JObject?
    decreases |events|
  {
    if events == [] then Scan([], true)
    else if !events[0].JObject? then Scan([], false)
    else
      var rest := ScanEvents(events[1..], first + 1);
      Scan(HeadLine(events[0].fields, first) + rest.lines, rest.completed)
  }

  /** The line one event contributes: none for an unknown tag. */
  function HeadLine(event: map<string, Json>, number: nat): (h: seq<NumberedLine>)
    ensures |h| <= 1
    ensures h != [] <==> Classify(event).Some?
    ensures h != [] ==> h[0] == NumberedLine(number, Classify(event).value)
  {
    match Classify(event)
    case Some(line) => [NumberedLine(number, line)]
    case None => []
  }

  /** A line carries the number of an event in the run (counted from `first`) and that dict event's line. */
  predicate LineMatches(events: seq<Json>, first: nat, l: NumberedLine)
  {
    first <= l.number < first + |events| &&
    events[l.number - first].JObject? &&
    Classify(events[l.number - first].fields) == Some(l.line)
  }

  predicate LinesMatch(events: seq<Json>, first: nat, lines: seq<NumberedLine>)
  {
    forall j | 0 <= j < |lines| :: LineMatches(events, first, lines[j])
  }

  /** A line of the run after the first event is a line of the whole run. */
  lemma LineMatchesShift(events: seq<Json>, first: nat, l: NumberedLine)
    requires events != [] && LineMatches(events[1..], first + 1, l)
    ensures LineMatches(events, first, l)
  {
    assert events[l.number - first] == events[1..][l.number - (first + 1)];
  }

  predicate Increasing(lines: seq<NumberedLine>)
  {
    forall j, k | 0 <= j < k < |lines| :: lines[j].number < lines[k].number
  }

  /** Each line's number lies in the run (counted from `first`). */
  predicate NumbersWithin(lines: seq<NumberedLine>, first: nat, n: nat)
  {
    forall j | 0 <= j < |lines| :: first <= lines[j].number < first + n
  }

  /** The printed numbers lie within the run and increase. */
  lemma {:induction false} ScanNumbered(events: seq<Json>, first: nat)
    ensures NumbersWithin(ScanEvents(events, first).lines, first, |events|)
    ensures Increasing(ScanEvents(events, first).lines)
    decreases |events|
  {
    if events != [] && events[0].JObject? {
      ScanNumbered(events[1..], first + 1);
      var rest := ScanEvents(events[1..], first + 1).lines;
      var head := HeadLine(events[0].fields, first);
      var lines := ScanEvents(events, first).lines;
      assert lines == head + rest;
      forall j | |head| <= j < |lines|
        ensures lines[j] == rest[j - |head|]
      {
      }
    }
  }

  /** Every printed line carries the number of its event and that event's line. */
  lemma {:induction false} ScanSound(events: seq<Json>, first: nat)
    ensures LinesMatch(events, first, ScanEvents(events, first).lines)
    decreases |events|
  {
    if events != [] && events[0].JObject? {
      ScanSound(events[1..], first + 1);
      var rest := ScanEvents(events[1..], first + 1).lines;
      var head := HeadLine(events[0].fields, first);
      var lines := ScanEvents(events, first).lines;
      assert lines == head + rest;
      forall j | 0 <= j < |lines|
        ensures LineMatches(events, first, lines[j])
      {
        if j < |head| {
          assert lines[j] == head[0] && lines[j].number == first;
        } else {
          assert lines[j] == rest[j - |head|];
          LineMatchesShift(events, first, rest[j - |head|]);
        }
      }
      assert LinesMatch(events, first, lines);
    }
  }

  /** A listing that runs to the end prints a line for every event of a known tag. */
  lemma {:induction false} ScanComplete(events: seq<Json>, first: nat, k: nat)
    requires k < |events| && ScanEvents(events, first).completed
    requires events[k].JObject? && Classify(events[k].fields).Some?
    ensures exists j | 0 <= j < |ScanEvents(events, first).lines| :: ScanEvents(events, first).lines[j].number == first + k
    decreases |events|
  {
    var rest := ScanEvents(events[1..], first + 1);
    var head := HeadLine(events[0].fields, first);
    var r := ScanEvents(events, first);
    assert r.lines == head + rest.lines;
    if k == 0 {
      assert r.lines[0].number == first;
    } else {
      assert events[1..][k - 1] == events[k];
      ScanComplete(events[1..], first + 1, k - 1);
      var j :| 0 <= j < |rest.lines| && rest.lines[j].number == first + 1 + (k - 1);
      assert r.lines[|head| + j] == rest.lines[j];
    }
  }

  /** `events[-10:]`: the last min(10, n) events, in their order. */
  function LastEvents(events: seq<Json>): (w: seq<Json>)
    ensures |w| == Min(ShownEvents, |events|)
    ensures forall k | 0 <= k < |w| :: w[k] == events[|events| - |w| + k]
  {
    events[|events| - Min(ShownEvents, |events|)..]
  }

  /**
   * `check_event_log`. The listing covers only a list of events (`len` or the
   * slice raises for a number or a dict, `.get` for the characters of a string);
   * every exception is caught and ends the listing.
   */
  function CheckEventLog(reply: HttpReply): EventLogReport
  {
    if !(reply.Reply? && reply.body.Some?) then ListingFailed([])
    else
      var events := AttrGet(reply.body.value, "recent_events", JArray([]));
      if events.Raises? then ListingFailed([])
      else if !Truthy(events.value) then EmptyLog
      else if !events.value.JArray? then ListingFailed([])
      else
        var scan := ScanEvents(LastEvents(events.value.items), 1);
        if scan.completed then Listed(|events.value.items|, scan.lines) else ListingFailed(scan.lines)
  }

  /**
   * A listing comes only from a non-empty list of events, and its lines are
   * those of the last min(10, n) events numbered from 1.
   */
  lemma EventLogListed(reply: HttpReply)
    requires CheckEventLog(reply).Listed?
    ensures reply.Reply? && reply.body.Some? && reply.body.value.JObject? && "recent_events" in reply.body.value.fields
    ensures reply.body.value.fields["recent_events"].JArray? && reply.body.value.fields["recent_events"].items != []
    ensures var events := reply.body.value.fields["recent_events"].items;
      ScanEvents(LastEvents(events), 1).completed &&
      CheckEventLog(reply) == Listed(|events|, ScanEvents(LastEvents(events), 1).lines)
  {
    var events := AttrGet(reply.body.value, "recent_events", JArray([]));
    assert events.Returns? && Truthy(events.value) && events.value.JArray?;
    assert reply.body.value.JObject?;
    assert "recent_events" in reply.body.value.fields;
  }

  /**
   * The listing of a run of events shows at most one line per event, numbered
   * from 1 in increasing order, each the line of the event at that position;
   * an event of a known tag always gets its line and an unknown one is skipped.
   */
  lemma ListingShowsEvents(window: seq<Json>)
    requires ScanEvents(window, 1).completed
    ensures |ScanEvents(window, 1).lines| <= |window|
    ensures LinesMatch(window, 1, ScanEvents(window, 1).lines) && Increasing(ScanEvents(window, 1).lines)
    ensures forall k | 0 <= k < |window| ::
      window[k].JObject? &&
      (Classify(window[k].fields).Some? <==>
        exists j | 0 <= j < |ScanEvents(window, 1).lines| :: ScanEvents(window, 1).lines[j].number == k + 1)
  {
    var lines := ScanEvents(window, 1).lines;
    ScanNumbered(window, 1);
    ScanSound(window, 1);
    StrictlyIncreasingBounded(lines, 1, |window|);
    forall k | 0 <= k < |window| && Classify(window[k].fields).Some?
      ensures exists j | 0 <= j < |lines| :: lines[j].number == k + 1
    {
      ScanComplete(window, 1, k);
    }
  }

  /** Strictly increasing numbers in `[lo, lo + n)` number at most `n`. */
  lemma {:induction false} StrictlyIncreasingBounded(lines: seq<NumberedLine>, lo: nat, n: nat)
    requires NumbersWithin(lines, lo, n) && Increasing(lines)
    ensures |lines| <= n
  {
    if lines != [] {
      StrictlyIncreasingBounded(lines[1..], lines[0].number + 1, lo + n - lines[0].number - 1);
    }
  }

  /** An event list that is missing or empty prints only the warning. */
  lemma EmptyLogReturnsEarly(fields: map<string, Json>)
    requires "recent_events" !in fields || fields["recent_events"] == JArray([])
    ensures CheckEventLog(Reply(HttpOk, Some(JObject(fields)))) == EmptyLog
  {
  }

  // ------------------------------------------------------------------
  // Step 4 (defined, not run by the script): the signing monitor
  // ------------------------------------------------------------------

  /** The aggregates `monitor_signing_process` keeps across polls. */
  datatype SigningState = SigningState(seenPhases: set<Json>, maxProgress: real, maxRetries: real)

  /** The summary it prints at the end: the phases seen, maximum progress and maximum retries. */
  datatype SigningSummary = SigningSummary(phases: set<string>, maxProgress: real, maxRetries: real)

  const InitialSigningState := SigningState({}, 0.0, 0.0)

  /**
   * One 200 snapshot: the phase is added, then the maxima are updated, then
   * the line is printed; each step raises for a value of the wrong kind (the
   * loop stops) and keeps what the steps before it did. The second component
   * says whether the loop goes on.
   */
  function SigningStep(st: SigningState, status: map<string, Json>): (SigningState, bool)
  {
    var phase := Get(status, "current_phase", JStr("Unknown"));
    var progress := Get(status, "progress", JFloat(0.0));
    var retries := Get(status, "total_retries", JInt(0));
    if !Hashable(phase) then (st, false)
    else
      var st1 := st.(seenPhases := st.seenPhases + {phase});
      if !IsNumber(progress) then (st1, false)
      else
        var st2 := st1.(maxProgress := MaxReal(st.maxProgress, NumValue(progress)));
        if !IsNumber(retries) then (st2, false)
        else
          var st3 := st2.(maxRetries := MaxReal(st.maxRetries, NumValue(retries)));
          (st3, phase.JStr? && IsIntegral(retries))
  }

  /** The aggregates after the polls. */
  function SigningFold(polls: seq<HttpReply>, st: SigningState): SigningState
  {
    if polls == [] then st
    else match polls[0]
      case RequestFailed => st
      case Reply(code, body) =>
        if code != HttpOk then SigningFold(polls[1..], st)
        else if body.None? || !body.value.JObject? then st
        else
          var (st1, goOn) := SigningStep(st, body.value.fields);
          if goOn then SigningFold(polls[1..], st1) else st1
  }

  /** The final summary; joining the phases raises when one of them is not a string. */
  function Summarize(st: SigningState): Py<SigningSummary>
  {
    if forall p | p in st.seenPhases :: p.JStr? then
      Returns(SigningSummary(set p | p in st.seenPhases :: p.s, st.maxProgress, st.maxRetries))
    else Raises
  }

  /** `monitor_signing_process`. */
  method MonitorSigningProcess(polls: seq<HttpReply>) returns (r: Py<SigningSummary>)
    ensures r == Summarize(SigningFold(polls, InitialSigningState))
  {
    var seenPhases: set<Json> := {};
    var maxProgress: real := 0.0;
    var maxRetries: real := 0.0;
    var i := 0;
    while i < |polls|
      invariant 0 <= i <= |polls|
      invariant SigningFold(polls, InitialSigningState) == SigningFold(polls[i..], SigningState(seenPhases, maxProgress, maxRetries))
    {
      match polls[i]
      case RequestFailed =>
        break;
      case Reply(code, body) =>
        if code == HttpOk {
          if body.None? || !body.value.JObject? {
            break;
          }
          var status := body.value.fields;
          var phase := Get(status, "current_phase", JStr("Unknown"));
          var progress := Get(status, "progress", JFloat(0.0));
          var retries := Get(status, "total_retries", JInt(0));
          if !Hashable(phase) {
            break;
          }
          seenPhases := seenPhases + {phase};
          if !IsNumber(progress) {
            break;
          }
          maxProgress := MaxReal(maxProgress, NumValue(progress));
          if !IsNumber(retries) {
            break;
          }
          maxRetries := MaxReal(maxRetries, NumValue(retries));
          if !phase.JStr? || !IsIntegral(retries) {
            break;
          }
        }
      i := i + 1;
    }
    r := Summarize(SigningState(seenPhases, maxProgress, maxRetries));
  }

  /** A poll the signing monitor digests without raising. */
  predicate WellFormedPoll(p: HttpReply)
  {
    p.Reply? &&
    (p.statusCode == HttpOk ==>
      p.body.Some? && p.body.value.JObject? &&
      Get(p.body.value.fields, "current_phase", JStr("Unknown")).JStr? &&
      IsNumber(Get(p.body.value.fields, "progress", JFloat(0.0))) &&
      IsIntegral(Get(p.body.value.fields, "total_retries", JInt(0))))
  }

  predicate IsSnapshot(p: HttpReply) { p.Reply? && p.statusCode == HttpOk }

  function RetriesOf(p: HttpReply): real
    requires WellFormedPoll(p) && IsSnapshot(p)
  {
    NumValue(Get(p.body.value.fields, "total_retries", JInt(0)))
  }

  function PhaseOf(p: HttpReply): Json
    requires WellFormedPoll(p) && IsSnapshot(p)
  {
    Get(p.body.value.fields, "current_phase", JStr("Unknown"))
  }

  /**
   * Over well-formed polls the fold is a true maximum: it is at least every
   * snapshot's retries and equals the start or one of them.
   */
  lemma {:induction false} SigningFoldMaximum(polls: seq<HttpReply>, st: SigningState)
    requires forall i | 0 <= i < |polls| :: WellFormedPoll(polls[i])
    ensures SigningFold(polls, st).maxRetries >= st.maxRetries
    ensures forall i | 0 <= i < |polls| && IsSnapshot(polls[i]) :: SigningFold(polls, st).maxRetries >= RetriesOf(polls[i])
    ensures SigningFold(polls, st).maxRetries == st.maxRetries ||
      exists i | 0 <= i < |polls| && IsSnapshot(polls[i]) :: SigningFold(polls, st).maxRetries == RetriesOf(polls[i])
  {
    if polls != [] {
      var p := polls[0];
      var st1 := if IsSnapshot(p) then SigningStep(st, p.body.value.fields).0 else st;
      assert SigningFold(polls, st) == SigningFold(polls[1..], st1);
      SigningFoldMaximum(polls[1..], st1);
      var r := SigningFold(polls, st);
      forall i | 0 <= i < |polls| && IsSnapshot(polls[i])
        ensures r.maxRetries >= RetriesOf(polls[i])
      {
        if i > 0 { assert polls[1..][i - 1] == polls[i]; }
      }
      if r.maxRetries != st.maxRetries && r.maxRetries != st1.maxRetries {
        var i :| 0 <= i < |polls[1..]| && IsSnapshot(polls[1..][i]) && r.maxRetries == RetriesOf(polls[1..][i]);
        assert polls[i + 1] == polls[1..][i];
      }
    }
  }

  /** The phases seen over well-formed polls are exactly the snapshots' phases. */
  lemma {:induction false} SigningFoldPhases(polls: seq<HttpReply>, st: SigningState)
    requires forall i | 0 <= i < |polls| :: WellFormedPoll(polls[i])
    ensures SigningFold(polls, st).seenPhases == st.seenPhases + set i | 0 <= i < |polls| && IsSnapshot(polls[i]) :: PhaseOf(polls[i])
  {
    if polls != [] {
      var p := polls[0];
      var st1 := if IsSnapshot(p) then SigningStep(st, p.body.value.fields).0 else st;
      assert SigningFold(polls, st) == SigningFold(polls[1..], st1);
      SigningFoldPhases(polls[1..], st1);
      var tail := set i | 0 <= i < |polls[1..]| && IsSnapshot(polls[1..][i]) :: PhaseOf(polls[1..][i]);
      var all := set i | 0 <= i < |polls| && IsSnapshot(polls[i]) :: PhaseOf(polls[i]);
      var here: set<Json> := if IsSnapshot(p) then {PhaseOf(p)} else {};
      assert st1.seenPhases == st.seenPhases + here;
      assert all == here + tail by {
        forall x | x in all ensures x in here + tail {
          var i :| 0 <= i < |polls| && IsSnapshot(polls[i]) && x == PhaseOf(polls[i]);
          if i > 0 { assert polls[1..][i - 1] == polls[i]; }
        }
        forall x | x in tail ensures x in all {
          var i :| 0 <= i < |polls[1..]| && IsSnapshot(polls[1..][i]) && x == PhaseOf(polls[1..][i]);
          assert polls[i + 1] == polls[1..][i];
        }
      }
    }
  }

  /** From the initial state, retries are reported as observed exactly when some snapshot had retries above zero. */
  lemma RetriesObservedIff(polls: seq<HttpReply>)
    requires forall i | 0 <= i < |polls| :: WellFormedPoll(polls[i])
    ensures Summarize(SigningFold(polls, InitialSigningState)).Returns?
    ensures Summarize(SigningFold(polls, InitialSigningState)).value.maxRetries > 0.0 <==>
      exists i | 0 <= i < |polls| && IsSnapshot(polls[i]) :: RetriesOf(polls[i]) > 0.0
  {
    SigningFoldMaximum(polls, InitialSigningState);
    SigningFoldPhases(polls, InitialSigningState);
    var r := SigningFold(polls, InitialSigningState);
    forall x | x in r.seenPhases ensures x.JStr? {
      var i :| 0 <= i < |polls| && IsSnapshot(polls[i]) && x == PhaseOf(polls[i]);
    }
  }

  // ------------------------------------------------------------------
  // main
  // ------------------------------------------------------------------

  /** Every recorded check passed (`all(all_checks)`). */
  predicate AllPassed(checks: seq<bool>)
  {
    forall i | 0 <= i < |checks| :: checks[i]
  }

  /**
   * The verdict main reaches: health, an initial status, a signing result,
   * and, only when that result is a non-empty dict, its scoring.
   */
  predicate RunPasses(health: HttpReply, polls: seq<HttpReply>, before: HttpReply, post: HttpReply, after: HttpReply)
  {
    var sign := SendSignRequest(before, post, after);
    CheckHealth(health) && MonitorResult(polls).Some? && sign.Some? &&
    (sign.value != map[] ==> ResponseVerdict(sign.value) == Returns(true))
  }

  /**
   * `main` under the `__main__` guard. The replies of the six exchanges are
   * inputs; `interrupted` says that Ctrl-C arrived while it ran.
   */
  method RunVerification(health: HttpReply, polls: seq<HttpReply>, before: HttpReply, post: HttpReply, after: HttpReply,
                         eventStatus: HttpReply, interrupted: bool)
    returns (exitCode: nat)
    ensures exitCode in {ExitPassed, ExitFailed, ExitInterrupted}
    ensures interrupted <==> exitCode == ExitInterrupted
    ensures !interrupted && !CheckHealth(health) ==> exitCode == ExitFailed
    ensures exitCode == ExitPassed <==> !interrupted && RunPasses(health, polls, before, post, after)
  {
    if interrupted {
      return ExitInterrupted;
    }
    var allChecks: seq<bool> := [];
    var healthOk := CheckHealth(health);
    AllPassedAppend(allChecks, healthOk);
    allChecks := allChecks + [healthOk];
    if !healthOk {
      return ExitFailed;
    }
    var initialStatus := MonitorStatus(polls);
    AllPassedAppend(allChecks, initialStatus.Some?);
    allChecks := allChecks + [initialStatus.Some?];
    var signResult := SendSignRequest(before, post, after);
    AllPassedAppend(allChecks, signResult.Some?);
    allChecks := allChecks + [signResult.Some?];
    if signResult.Some? && signResult.value != map[] {
      var resultValid := VerifySignatureResponse(signResult.value);
      if resultValid.Raises? {
        // The exception reaches the handler around `main`.
        return ExitFailed;
      }
      AllPassedAppend(allChecks, resultValid.value);
      allChecks := allChecks + [resultValid.value];
    }
    var eventLog := CheckEventLog(eventStatus);
    var allPassed := AllPassed(allChecks);
    exitCode := if allPassed then ExitPassed else ExitFailed;
  }

  lemma AllPassedAppend(checks: seq<bool>, b: bool)
    ensures AllPassed(checks + [b]) <==> AllPassed(checks) && b
  {
    assert (checks + [b])[|checks|] == b;
    assert forall i | 0 <= i < |checks| :: (checks + [b])[i] == checks[i];
  }

  /** An empty dict from the signing endpoint is never scored, so it does not fail the run. */
  lemma EmptySignResultNotScored(health: HttpReply, polls: seq<HttpReply>, before: HttpReply, after: HttpReply)
    requires CheckHealth(health) && MonitorResult(polls).Some?
    requires UsableBefore(before) && UsableAfter(before, after)
    ensures RunPasses(health, polls, before, Reply(HttpOk, Some(JObject(map[]))), after)
  {
  }
}
