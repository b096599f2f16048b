/** src/ingestion/scripts/airbyte_sync_poll.py: the loop that mirrors a job's status, over any trace
    of answers and clock readings. */
module PollLoop {
  import opened Common

  datatype Json = Null | Bool(b: bool) | Num(n: real) | Str(s: string) | Arr(items: seq<Json>)
      | Obj(fields: map<string, Json>)

  datatype JobStatus = Pending | Queued | Running | Incomplete | Succeeded | Failed | Cancelled

  datatype SyncFailure = SyncFailure(failureType: string, origin: string, external: string, internal: string)

  datatype Progress = Progress(status: Json, bytes: int, records: int, states: int)

  /** The counters of an answer: there are none yet, reading them raised, or these. */
  datatype Counters = NoAttempts | Broken | Counted(progress: Progress)

  /** How one poll settled. */
  datatype Answer = Fatal | Transient | Response(resp: Json)

  /** A poll and the clock when the loop judged it. */
  datatype Reading = Reading(answer: Answer, at: real)

  datatype Event =
    | Retrying
    | PollFailed
    | CountersUnreadable
    | Progressed(status: JobStatus, progress: Progress)
    | Waiting(status: JobStatus)
    | NotRun(streams: nat)
    | FailureReason(failure: SyncFailure)
    | Completed(status: JobStatus, bytes: int, records: int, exitCode: nat)

  datatype Config = Config(startedAt: real, interval: int, threshold: int, countersOf: Json -> Counters)

  const FAILURE_MESSAGE_MAX_CHARS := 500

  // ---- reading an answer ----

  /** `.get(key)` of a dict; of anything else, nothing. */
  function Get(j: Json, key: string): Json {
    if j.Obj? && key in j.fields then j.fields[key] else Null
  }

  function LatestAttempt(resp: Json): Option<Json> {
    var attempts := Get(resp, "attempts");
    if !attempts.Arr? || attempts.items == [] then None
    else
      var attempt := Get(attempts.items[|attempts.items| - 1], "attempt");
      if attempt.Obj? then Some(attempt) else None
  }

  function ReadText(j: Json): (s: string)
    ensures |s| <= FAILURE_MESSAGE_MAX_CHARS && (s != "" ==> j.Str? && s <= j.s)
    ensures j.Str? && |s| < FAILURE_MESSAGE_MAX_CHARS ==> s == j.s
  {
    if !j.Str? then "" else if |j.s| <= FAILURE_MESSAGE_MAX_CHARS then j.s else j.s[..FAILURE_MESSAGE_MAX_CHARS]
  }

  function OrUnknown(s: string): string { if s == "" then "unknown" else s }

  function ReadFailures(entries: seq<Json>): seq<SyncFailure> {
    if entries == [] then []
    else
      var e := entries[0];
      (if e.Obj? then
         [SyncFailure(OrUnknown(ReadText(Get(e, "failureType"))), OrUnknown(ReadText(Get(e, "failureOrigin"))),
                      ReadText(Get(e, "externalMessage")), ReadText(Get(e, "internalMessage")))]
       else [])
      + ReadFailures(entries[1..])
  }

  function AttemptFailures(resp: Json): seq<SyncFailure> {
    var attempt := LatestAttempt(resp);
    if attempt.None? then []
    else
      var entries := Get(Get(attempt.value, "failureSummary"), "failures");
      if entries.Arr? then ReadFailures(entries.items) else []
  }

  function StreamCount(resp: Json): nat {
    var attempt := LatestAttempt(resp);
    if attempt.None? then 0
    else
      var streams := Get(attempt.value, "streamStats");
      if streams.Arr? then |streams.items| else 0
  }

  predicate SucceededWithoutSyncing(resp: Json) {
    AttemptFailures(resp) != [] || StreamCount(resp) == 0
  }

  function StatusOf(resp: Json): Option<JobStatus> {
    var status := Get(Get(resp, "job"), "status");
    if !status.Str? then None
    else if status.s == "pending" then Some(Pending)
    else if status.s == "queued" then Some(Queued)
    else if status.s == "running" then Some(Running)
    else if status.s == "incomplete" then Some(Incomplete)
    else if status.s == "succeeded" then Some(Succeeded)
    else if status.s == "failed" then Some(Failed)
    else if status.s == "cancelled" then Some(Cancelled)
    else None
  }

  /** The exit code a readable answer settles on, if its status is a last one. */
  function ExitOf(resp: Json): Option<nat>
    requires StatusOf(resp).Some?
  {
    match StatusOf(resp).value
    case Succeeded => Some(if SucceededWithoutSyncing(resp) then 1 else 0)
    case Failed => Some(1)
    case Cancelled => Some(1)
    case _ => None
  }

  // ---- what a trace means ----

  predicate Readable(r: Reading) {
    r.answer.Response? && StatusOf(r.answer.resp).Some?
  }

  predicate Unreadable(r: Reading) { !r.answer.Fatal? && !Readable(r) }

  /** When the server was last readable before reading `k`; at the start, when the loop started. */
  function LastReadable(c: Config, trace: seq<Reading>, k: nat): real
    requires k <= |trace|
  {
    if k == 0 then c.startedAt
    else if Readable(trace[k - 1]) then trace[k - 1].at
    else LastReadable(c, trace, k - 1)
  }

  /** The last counters read before reading `k`. */
  function LastProgress(c: Config, trace: seq<Reading>, k: nat): Option<Progress>
    requires k <= |trace|
  {
    if k == 0 then None
    else if Readable(trace[k - 1]) && c.countersOf(trace[k - 1].answer.resp).Counted?
    then Some(c.countersOf(trace[k - 1].answer.resp).progress)
    else LastProgress(c, trace, k - 1)
  }

  /** The exit code reading `k` settles on, if it settles. */
  function Verdict(c: Config, trace: seq<Reading>, k: nat): Option<nat>
    requires k < |trace|
  {
    var r := trace[k];
    if r.answer.Fatal? then Some(1)
    else if !Readable(r) then
      if r.at - LastReadable(c, trace, k) >= c.threshold as real then Some(2) else None
    else ExitOf(r.answer.resp)
  }

  function Reasons(failures: seq<SyncFailure>): seq<Event> {
    if failures == [] then [] else [FailureReason(failures[0])] + Reasons(failures[1..])
  }

  function Finished(status: JobStatus, exitCode: nat, progress: Option<Progress>): Event {
    if progress.Some? then Completed(status, progress.value.bytes, progress.value.records, exitCode)
    else Completed(status, 0, 0, exitCode)
  }

  function ProgressEvents(c: Config, trace: seq<Reading>, k: nat): seq<Event>
    requires k < |trace| && Readable(trace[k])
  {
    var status := StatusOf(trace[k].answer.resp).value;
    var counters := c.countersOf(trace[k].answer.resp);
    (if counters.Broken? then [CountersUnreadable] else [])
    + if counters.Counted? && LastProgress(c, trace, k) != Some(counters.progress)
      then [Progressed(status, counters.progress)] else [Waiting(status)]
  }

  /** What a readable answer says of the outcome, if its status is a last one. */
  function OutcomeEvents(resp: Json, progress: Option<Progress>): seq<Event>
    requires StatusOf(resp).Some?
  {
    match StatusOf(resp).value
    case Succeeded =>
      if SucceededWithoutSyncing(resp)
      then [NotRun(StreamCount(resp))] + Reasons(AttemptFailures(resp)) + [Finished(Failed, 1, progress)]
      else [Finished(Succeeded, 0, progress)]
    case Failed => Reasons(AttemptFailures(resp)) + [Finished(Failed, 1, progress)]
    case Cancelled => Reasons(AttemptFailures(resp)) + [Finished(Cancelled, 1, progress)]
    case _ => []
  }

  /** What reading `k` logs, last of all the outcome if it has one. */
  function EventsAt(c: Config, trace: seq<Reading>, k: nat): seq<Event>
    requires k < |trace|
  {
    var r := trace[k];
    if r.answer.Fatal? then [PollFailed]
    else if !Readable(r) then [if Verdict(c, trace, k).Some? then PollFailed else Retrying]
    else
      ProgressEvents(c, trace, k) + OutcomeEvents(r.answer.resp, LastProgress(c, trace, k + 1))
  }

  function LogUpTo(c: Config, trace: seq<Reading>, k: nat): seq<Event>
    requires k <= |trace|
  {
    if k == 0 then [] else LogUpTo(c, trace, k - 1) + EventsAt(c, trace, k - 1)
  }

  /** The loop read `used` answers and stopped at the first that settles, or ran out of trace. */
  ghost predicate Ran(c: Config, trace: seq<Reading>, exit: Option<nat>, used: nat) {
    && used <= |trace| && (exit.None? ==> used == |trace|) && (exit.Some? ==> used > 0)
    && (forall k :: 0 <= k < used && !(exit.Some? && k == used - 1) ==> Verdict(c, trace, k).None?)
    && (exit.Some? ==> exit == Verdict(c, trace, used - 1))
  }

  // ---- the loop ----

  method EmitReasons(failures: seq<SyncFailure>, before: seq<Event>) returns (log: seq<Event>)
    ensures log == before + Reasons(failures)
  {
    log := before;
    assert failures[0..] == failures;
    for n := 0 to |failures|
      invariant before + Reasons(failures) == log + Reasons(failures[n..])
    {
      assert failures[n..][0] == failures[n] && failures[n..][1..] == failures[n + 1..];
      assert log + Reasons(failures[n..]) == log + [FailureReason(failures[n])] + Reasons(failures[n + 1..]);
      log := log + [FailureReason(failures[n])];
    }
    assert failures[|failures|..] == [];
  }

  /** The counters of reading `k`: logged when they differ from the last ones. */
  method NoteProgress(c: Config, trace: seq<Reading>, k: nat, lastProgress: Option<Progress>, before: seq<Event>)
    returns (log: seq<Event>, progress: Option<Progress>)
    requires k < |trace| && Readable(trace[k]) && lastProgress == LastProgress(c, trace, k)
    ensures log == before + ProgressEvents(c, trace, k) && progress == LastProgress(c, trace, k + 1)
  {
    hide StatusOf;
    log, progress := before, lastProgress;
    var status := StatusOf(trace[k].answer.resp).value;
    var counters := c.countersOf(trace[k].answer.resp);
    if counters.Broken? { log := log + [CountersUnreadable]; }
    if counters.Counted? && Some(counters.progress) != lastProgress {
      progress := Some(counters.progress);
      log := log + [Progressed(status, counters.progress)];
    } else {
      log := log + [Waiting(status)];
    }
  }

  /** The end of an iteration: a last status is reported and settles the exit code. */
  method Conclude(resp: Json, status: JobStatus, lastProgress: Option<Progress>, before: seq<Event>)
    returns (exit: Option<nat>, log: seq<Event>)
    requires StatusOf(resp) == Some(status)
    ensures exit == ExitOf(resp) && log == before + OutcomeEvents(resp, lastProgress)
  {
    hide StatusOf, SucceededWithoutSyncing, AttemptFailures, StreamCount, Finished, Reasons;
    log := before;
    ghost var reasons := Reasons(AttemptFailures(resp));
    if status.Succeeded? && SucceededWithoutSyncing(resp) {
      log := log + [NotRun(StreamCount(resp))];
      log := EmitReasons(AttemptFailures(resp), log);
      log := log + [Finished(Failed, 1, lastProgress)];
      assert log == before + ([NotRun(StreamCount(resp))] + reasons + [Finished(Failed, 1, lastProgress)]);
      return Some(1), log;
    }
    if status.Succeeded? {
      log := log + [Finished(Succeeded, 0, lastProgress)];
      return Some(0), log;
    }
    if status.Failed? || status.Cancelled? {
      log := EmitReasons(AttemptFailures(resp), log);
      log := log + [Finished(status, 1, lastProgress)];
      assert log == before + (reasons + [Finished(status, 1, lastProgress)]);
      return Some(1), log;
    }
    assert log == before + [];
    exit := None;
  }

  lemma FatalReading(c: Config, trace: seq<Reading>, k: nat)
    requires k < |trace| && trace[k].answer.Fatal?
    ensures Verdict(c, trace, k) == Some(1) && EventsAt(c, trace, k) == [PollFailed]
  {
  }

  lemma UnreadableReading(c: Config, trace: seq<Reading>, k: nat)
    requires k < |trace| && Unreadable(trace[k])
    ensures var over := trace[k].at - LastReadable(c, trace, k) >= c.threshold as real;
            && Verdict(c, trace, k) == (if over then Some(2) else None)
            && EventsAt(c, trace, k) == [if over then PollFailed else Retrying]
    ensures LastReadable(c, trace, k + 1) == LastReadable(c, trace, k)
    ensures LastProgress(c, trace, k + 1) == LastProgress(c, trace, k)
  {
  }

  lemma ReadableReading(c: Config, trace: seq<Reading>, k: nat)
    requires k < |trace| && Readable(trace[k])
    ensures Verdict(c, trace, k) == ExitOf(trace[k].answer.resp) && LastReadable(c, trace, k + 1) == trace[k].at
    ensures EventsAt(c, trace, k)
            == ProgressEvents(c, trace, k) + OutcomeEvents(trace[k].answer.resp, LastProgress(c, trace, k + 1))
  {
    hide ExitOf, ProgressEvents, OutcomeEvents, LastProgress;
  }

  lemma NothingRead(c: Config, trace: seq<Reading>)
    ensures LastReadable(c, trace, 0) == c.startedAt && LastProgress(c, trace, 0) == None
  {
  }

  method Poll(c: Config, trace: seq<Reading>) returns (exit: Option<nat>, used: nat, log: seq<Event>)
    ensures Ran(c, trace, exit, used)
    ensures log == LogUpTo(c, trace, used)
  {
    hide StatusOf, ProgressEvents, OutcomeEvents, ExitOf, Verdict, EventsAt, LastReadable, LastProgress;
    var lastProgress: Option<Progress> := None;
    var lastReadableAt := c.startedAt;
    log, used := [], 0;
    NothingRead(c, trace);
    while used < |trace|
      invariant used <= |trace| && log == LogUpTo(c, trace, used)
      invariant lastReadableAt == LastReadable(c, trace, used) && lastProgress == LastProgress(c, trace, used)
      invariant forall k :: 0 <= k < used ==> Verdict(c, trace, k).None?
    {
      var reading := trace[used];
      ghost var before := log;
      used := used + 1;
      if reading.answer.Fatal? {
        FatalReading(c, trace, used - 1);
        log := log + [PollFailed];
        return Some(1), used, log;
      }
      if reading.answer.Transient? || StatusOf(reading.answer.resp).None? {
        UnreadableReading(c, trace, used - 1);
        if reading.at - lastReadableAt >= c.threshold as real {
          log := log + [PollFailed];
          return Some(2), used, log;
        }
        log := log + [Retrying];
        continue;
      }
      ReadableReading(c, trace, used - 1);
      var resp := reading.answer.resp;
      var status := StatusOf(resp).value;
      lastReadableAt := reading.at;
      log, lastProgress := NoteProgress(c, trace, used - 1, lastProgress, log);
      exit, log := Conclude(resp, status, lastProgress, log);
      assert before + ProgressEvents(c, trace, used - 1) + OutcomeEvents(resp, lastProgress)
             == before + (ProgressEvents(c, trace, used - 1) + OutcomeEvents(resp, lastProgress));
      if exit.Some? { return; }
    }
    exit := None;
  }

  // ---- what the answer's JSON says ----

  /** The object `j` has `v` under `key`. */
  predicate Has(j: Json, key: string, v: Json) {
    j.Obj? && key in j.fields && j.fields[key] == v
  }

  ghost predicate StatusText(resp: Json, text: string) {
    exists job :: Has(resp, "job", job) && Has(job, "status", Str(text))
  }

  /** The last item of `attempts` holds this attempt, whatever the earlier ones hold. */
  ghost predicate Latest(resp: Json, attempt: Json) {
    exists items: seq<Json> ::
      Has(resp, "attempts", Arr(items)) && items != [] && Has(items[|items| - 1], "attempt", attempt) && attempt.Obj?
  }

  ghost predicate HasStreams(resp: Json) {
    exists attempt, streams: seq<Json> ::
      Latest(resp, attempt) && Has(attempt, "streamStats", Arr(streams)) && streams != []
  }

  /** These are the entries of the latest attempt's failure list. */
  ghost predicate ListsFailures(resp: Json, entries: seq<Json>) {
    exists attempt, summary ::
      Latest(resp, attempt) && Has(attempt, "failureSummary", summary) && Has(summary, "failures", Arr(entries))
  }

  ghost predicate HasFailure(resp: Json) {
    exists entries: seq<Json>, i :: ListsFailures(resp, entries) && 0 <= i < |entries| && entries[i].Obj?
  }

  lemma StatusMeans(resp: Json)
    ensures StatusOf(resp) == Some(Succeeded) <==> StatusText(resp, "succeeded")
    ensures StatusOf(resp) == Some(Failed) <==> StatusText(resp, "failed")
    ensures StatusOf(resp) == Some(Cancelled) <==> StatusText(resp, "cancelled")
    ensures StatusOf(resp).Some? <==>
              exists text :: text in {"pending", "queued", "running", "incomplete", "succeeded", "failed", "cancelled"}
                             && StatusText(resp, text)
  {
    var job := Get(resp, "job");
    var status := Get(job, "status");
    if resp.Obj? && "job" in resp.fields && status.Str? {
      assert Has(resp, "job", job) && Has(job, "status", Str(status.s));
      assert StatusText(resp, status.s);
    }
    assert forall text :: StatusText(resp, text) ==> status == Str(text);
  }

  lemma LatestMeans(resp: Json, attempt: Json)
    ensures LatestAttempt(resp) == Some(attempt) <==> Latest(resp, attempt)
  {
    var attempts := Get(resp, "attempts");
    if LatestAttempt(resp) == Some(attempt) {
      assert Has(resp, "attempts", Arr(attempts.items));
    }
  }

  lemma StreamsMean(resp: Json)
    ensures StreamCount(resp) >= 1 <==> HasStreams(resp)
    ensures forall attempt, streams: seq<Json> ::
              Latest(resp, attempt) && Has(attempt, "streamStats", Arr(streams)) ==> StreamCount(resp) == |streams|
  {
    hide LatestAttempt, Latest;
    forall attempt, streams: seq<Json> | Latest(resp, attempt) && Has(attempt, "streamStats", Arr(streams))
      ensures StreamCount(resp) == |streams|
    {
      LatestMeans(resp, attempt);
    }
    if LatestAttempt(resp).Some? {
      var attempt := LatestAttempt(resp).value;
      LatestMeans(resp, attempt);
      var streams := Get(attempt, "streamStats");
      if streams.Arr? && streams.items != [] { assert Has(attempt, "streamStats", Arr(streams.items)); }
    }
    if attempt, streams: seq<Json> :|
         Latest(resp, attempt) && Has(attempt, "streamStats", Arr(streams)) && streams != []
    {
      LatestMeans(resp, attempt);
    }
  }

  /** The failure list, or that there is none. */
  lemma FailureList(resp: Json) returns (entries: seq<Json>)
    ensures AttemptFailures(resp) == ReadFailures(entries)
    ensures ListsFailures(resp, entries) || (entries == [] && forall any :: !ListsFailures(resp, any))
    ensures forall any :: ListsFailures(resp, any) ==> any == entries
  {
    hide LatestAttempt, Latest, ReadFailures;
    entries := [];
    assert ReadFailures([]) == [] by { NoFailures(); }
    forall any | ListsFailures(resp, any)
      ensures LatestAttempt(resp).Some?
              && Get(Get(LatestAttempt(resp).value, "failureSummary"), "failures") == Arr(any)
    {
      var attempt, summary :|
        Latest(resp, attempt) && Has(attempt, "failureSummary", summary) && Has(summary, "failures", Arr(any));
      LatestMeans(resp, attempt);
    }
    if LatestAttempt(resp).Some? {
      var attempt := LatestAttempt(resp).value;
      LatestMeans(resp, attempt);
      var summary := Get(attempt, "failureSummary");
      var failures := Get(summary, "failures");
      if failures.Arr? {
        assert Has(attempt, "failureSummary", summary) && Has(summary, "failures", Arr(failures.items));
        entries := failures.items;
      }
    }
  }

  lemma NoFailures()
    ensures ReadFailures([]) == []
  {
  }

  /** What is read of a text field: its first 500 characters, or `fallback` if it is empty or no text. */
  predicate ReadsAs(e: Json, key: string, fallback: string, text: string) {
    if e.Obj? && key in e.fields && e.fields[key].Str? && e.fields[key].s != ""
    then text == (if |e.fields[key].s| <= 500 then e.fields[key].s else e.fields[key].s[..500])
    else text == fallback
  }

  predicate IsFailureOf(e: Json, f: SyncFailure) {
    && e.Obj? && ReadsAs(e, "failureType", "unknown", f.failureType) && ReadsAs(e, "failureOrigin", "unknown", f.origin)
    && ReadsAs(e, "externalMessage", "", f.external) && ReadsAs(e, "internalMessage", "", f.internal)
  }

  /** `failures` holds one failure for each object among the entries, in their order; `at` says where. */
  ghost predicate ReadsInto(entries: seq<Json>, failures: seq<SyncFailure>, at: seq<nat>) {
    && |at| == |failures| && (forall i, j :: 0 <= i < j < |at| ==> at[i] < at[j])
    && (forall i :: 0 <= i < |at| ==> at[i] < |entries| && IsFailureOf(entries[at[i]], failures[i]))
    && forall k :: 0 <= k < |entries| && entries[k].Obj? ==> k in at
  }

  lemma ReadsSkip(e: Json, entries: seq<Json>, failures: seq<SyncFailure>, at: seq<nat>)
    requires ReadsInto(entries, failures, at) && !e.Obj?
    ensures ReadsInto([e] + entries, failures, Shifted(at))
  {
    hide IsFailureOf, Shifted;
    forall k | 0 <= k < |[e] + entries| && ([e] + entries)[k].Obj? ensures k in Shifted(at) {
      var i :| 0 <= i < |at| && at[i] == k - 1;
      assert Shifted(at)[i] == k;
    }
  }

  lemma ReadsTake(e: Json, f: SyncFailure, entries: seq<Json>, failures: seq<SyncFailure>, at: seq<nat>)
    requires ReadsInto(entries, failures, at) && IsFailureOf(e, f)
    ensures ReadsInto([e] + entries, [f] + failures, [0] + Shifted(at))
  {
    hide IsFailureOf, Shifted;
    forall k | 0 <= k < |[e] + entries| && ([e] + entries)[k].Obj? ensures k in [0] + Shifted(at) {
      if k > 0 {
        var i :| 0 <= i < |at| && at[i] == k - 1;
        assert ([0] + Shifted(at))[i + 1] == k;
      } else {
        assert ([0] + Shifted(at))[0] == k;
      }
    }
  }

  lemma {:induction false} FailuresAre(entries: seq<Json>) returns (at: seq<nat>)
    ensures ReadsInto(entries, ReadFailures(entries), at)
  {
    hide IsFailureOf, ReadText, OrUnknown, Get, Shifted;
    if entries == [] {
      at := [];
    } else {
      var rest := FailuresAre(entries[1..]);
      hide ReadsInto;
      assert entries == [entries[0]] + entries[1..];
      if entries[0].Obj? {
        FirstFailure(entries[0]);
        ReadsTake(entries[0], ReadFailures(entries)[0], entries[1..], ReadFailures(entries[1..]), rest);
        at := [0] + Shifted(rest);
      } else {
        ReadsSkip(entries[0], entries[1..], ReadFailures(entries[1..]), rest);
        at := Shifted(rest);
        assert [] + ReadFailures(entries[1..]) == ReadFailures(entries[1..]);
      }
    }
  }

  lemma FirstFailure(e: Json)
    requires e.Obj?
    ensures IsFailureOf(e, SyncFailure(OrUnknown(ReadText(Get(e, "failureType"))),
                                       OrUnknown(ReadText(Get(e, "failureOrigin"))),
                                       ReadText(Get(e, "externalMessage")), ReadText(Get(e, "internalMessage"))))
  {
  }

  function Shifted(at: seq<nat>): (r: seq<nat>)
    ensures |r| == |at| && forall i :: 0 <= i < |r| ==> r[i] == at[i] + 1
  {
    if at == [] then [] else [at[0] + 1] + Shifted(at[1..])
  }

  lemma FailuresMean(resp: Json)
    ensures AttemptFailures(resp) != [] <==> HasFailure(resp)
  {
    hide AttemptFailures, ListsFailures, IsFailureOf;
    var entries := FailureList(resp);
    var at := FailuresAre(entries);
    if at != [] {
      assert at[0] < |entries| && IsFailureOf(entries[at[0]], ReadFailures(entries)[0]);
      FailureIsObject(entries[at[0]], ReadFailures(entries)[0]);
    }
  }

  lemma FailureIsObject(e: Json, f: SyncFailure)
    requires IsFailureOf(e, f)
    ensures e.Obj?
  {
  }

  // ---- what the exit codes mean ----

  /** The job is said to have succeeded, and its latest attempt bears that out: a stream, and no failure. */
  ghost predicate Synced(resp: Json) {
    StatusText(resp, "succeeded") && HasStreams(resp) && !HasFailure(resp)
  }

  /** It failed, was cancelled, or is said to have succeeded without that. */
  ghost predicate NotSynced(resp: Json) {
    || StatusText(resp, "failed") || StatusText(resp, "cancelled")
    || (StatusText(resp, "succeeded") && (!HasStreams(resp) || HasFailure(resp)))
  }

  /** Exit 0 exactly if the last answer read says "succeeded", and the last of its attempts lists a stream and no
      failure, whatever the attempts before it list. */
  lemma ExitZeroMeans(c: Config, trace: seq<Reading>, exit: Option<nat>, used: nat)
    requires Ran(c, trace, exit, used)
    ensures exit == Some(0) <==> used > 0 && trace[used - 1].answer.Response? && Synced(trace[used - 1].answer.resp)
  {
    hide Ran, StatusOf, AttemptFailures, StreamCount, StatusText, HasStreams, HasFailure;
    ExitZeroIs(c, trace, exit, used);
    RanWithin(c, trace, exit, used);
    if used > 0 && trace[used - 1].answer.Response? { AnswerMeans(trace[used - 1].answer.resp); }
  }

  lemma AnswerMeans(resp: Json)
    ensures StatusOf(resp) == Some(Succeeded) <==> StatusText(resp, "succeeded")
    ensures StatusOf(resp) == Some(Failed) <==> StatusText(resp, "failed")
    ensures StatusOf(resp) == Some(Cancelled) <==> StatusText(resp, "cancelled")
    ensures StreamCount(resp) >= 1 <==> HasStreams(resp)
    ensures AttemptFailures(resp) != [] <==> HasFailure(resp)
  {
    hide StatusOf, AttemptFailures, StreamCount, StatusText, HasStreams, HasFailure;
    StatusMeans(resp);
    StreamsMean(resp);
    FailuresMean(resp);
  }

  /** Exit 1 exactly on a fatal error, or on a last answer that says "failed" or "cancelled", or "succeeded"
      with no stream or with a failure in the last of its attempts. */
  lemma ExitOneMeans(c: Config, trace: seq<Reading>, exit: Option<nat>, used: nat)
    requires Ran(c, trace, exit, used)
    ensures exit == Some(1) <==>
              && used > 0
              && (trace[used - 1].answer.Fatal?
                  || (trace[used - 1].answer.Response? && NotSynced(trace[used - 1].answer.resp)))
  {
    hide Ran, StatusOf, AttemptFailures, StreamCount, StatusText, HasStreams, HasFailure;
    ExitOneIs(c, trace, exit, used);
    RanWithin(c, trace, exit, used);
    if used > 0 && trace[used - 1].answer.Response? { AnswerMeans(trace[used - 1].answer.resp); }
  }

  lemma RanWithin(c: Config, trace: seq<Reading>, exit: Option<nat>, used: nat)
    requires Ran(c, trace, exit, used)
    ensures used <= |trace|
  {
  }

  lemma ExitZeroIs(c: Config, trace: seq<Reading>, exit: Option<nat>, used: nat)
    requires Ran(c, trace, exit, used)
    ensures exit == Some(0) <==>
              && used > 0 && trace[used - 1].answer.Response?
              && var resp := trace[used - 1].answer.resp;
                 StatusOf(resp) == Some(Succeeded) && AttemptFailures(resp) == [] && StreamCount(resp) >= 1
  {
    hide StatusOf, AttemptFailures, StreamCount;
    if exit.None? && used > 0 { assert Verdict(c, trace, used - 1).None?; }
  }

  lemma ExitOneIs(c: Config, trace: seq<Reading>, exit: Option<nat>, used: nat)
    requires Ran(c, trace, exit, used)
    ensures exit == Some(1) <==>
              && used > 0
              && (trace[used - 1].answer.Fatal?
                  || (trace[used - 1].answer.Response?
                      && var resp := trace[used - 1].answer.resp;
                         || StatusOf(resp) in {Some(Failed), Some(Cancelled)}
                         || (StatusOf(resp) == Some(Succeeded) && SucceededWithoutSyncing(resp))))
  {
    hide StatusOf, AttemptFailures, StreamCount;
    if exit.None? && used > 0 { assert Verdict(c, trace, used - 1).None?; }
  }

  /** Readings `j` to `k` are an unbroken unreadable stretch, back to the last readable answer or
      the start, and it has lasted the threshold at reading `k`. */
  ghost predicate Outage(c: Config, trace: seq<Reading>, j: nat, k: nat)
    requires j <= k < |trace|
  {
    && (forall i :: j <= i <= k ==> Unreadable(trace[i]))
    && (j == 0 || Readable(trace[j - 1]))
    && trace[k].at - (if j == 0 then c.startedAt else trace[j - 1].at) >= c.threshold as real
  }

  ghost predicate EndsOutage(c: Config, trace: seq<Reading>, k: nat)
    requires k < |trace|
  {
    exists j :: 0 <= j <= k && Outage(c, trace, j, k)
  }

  /** A stretch has one beginning. */
  lemma OneBeginning(c: Config, trace: seq<Reading>, i: nat, j: nat, k: nat)
    requires i <= k < |trace| && j <= k && Outage(c, trace, i, k)
    requires (forall n :: j <= n <= k ==> Unreadable(trace[n])) && (j == 0 || Readable(trace[j - 1]))
    ensures i == j
  {
    if j > 0 { assert !Unreadable(trace[j - 1]); }
    if i > 0 { assert !Unreadable(trace[i - 1]); }
  }

  lemma {:induction false} StretchBegins(c: Config, trace: seq<Reading>, k: nat) returns (j: nat)
    requires k <= |trace| && forall i :: 0 <= i < k ==> !trace[i].answer.Fatal?
    ensures j <= k && (forall i :: j <= i < k ==> Unreadable(trace[i])) && (j == 0 || Readable(trace[j - 1]))
    ensures LastReadable(c, trace, k) == if j == 0 then c.startedAt else trace[j - 1].at
  {
    if k == 0 || Readable(trace[k - 1]) { return k; }
    j := StretchBegins(c, trace, k - 1);
  }

  /** Exit 2 exactly at the end of such a stretch: one readable answer starts the count again. */
  lemma ExitTwoMeans(c: Config, trace: seq<Reading>, exit: Option<nat>, used: nat)
    requires Ran(c, trace, exit, used)
    ensures exit == Some(2) <==> used > 0 && EndsOutage(c, trace, used - 1)
  {
    hide StatusOf, ExitOf;
    if used > 0 {
      var k := used - 1;
      forall i | 0 <= i < k ensures !trace[i].answer.Fatal? { assert Verdict(c, trace, i).None?; }
      var j := StretchBegins(c, trace, k);
      if !Unreadable(trace[k]) { ExitOfReadable(c, trace, k); }
      if Unreadable(trace[k]) {
        if EndsOutage(c, trace, k) {
          var i :| 0 <= i <= k && Outage(c, trace, i, k);
          OneBeginning(c, trace, i, j, k);
        }
        if Verdict(c, trace, k) == Some(2) { assert Outage(c, trace, j, k); }
        assert EndsOutage(c, trace, k) <==> Verdict(c, trace, k) == Some(2);
      }
      if exit.None? { assert Verdict(c, trace, k).None?; }
    }
  }

  lemma ExitOfReadable(c: Config, trace: seq<Reading>, k: nat)
    requires k < |trace| && !Unreadable(trace[k])
    ensures Verdict(c, trace, k) != Some(2) && !EndsOutage(c, trace, k)
  {
  }

  // ---- sync.completed ----

  function CompletedIn(log: seq<Event>): nat {
    if log == [] then 0 else (if log[0].Completed? then 1 else 0) + CompletedIn(log[1..])
  }

  lemma {:induction false} CompletedAppend(a: seq<Event>, b: seq<Event>)
    ensures CompletedIn(a + b) == CompletedIn(a) + CompletedIn(b)
  {
    if a == [] {
      assert a + b == b;
    } else {
      CompletedAppend(a[1..], b);
      assert (a + b)[1..] == a[1..] + b;
    }
  }

  lemma {:induction false} ReasonsComplete(failures: seq<SyncFailure>)
    ensures CompletedIn(Reasons(failures)) == 0
  {
    if failures != [] { ReasonsComplete(failures[1..]); }
  }

  predicate Terminal(r: Reading) {
    r.answer.Response? && StatusOf(r.answer.resp) in {Some(Succeeded), Some(Failed), Some(Cancelled)}
  }

  lemma CompletedAt(c: Config, trace: seq<Reading>, k: nat)
    requires k < |trace|
    ensures CompletedIn(EventsAt(c, trace, k)) == if Terminal(trace[k]) then 1 else 0
    ensures Terminal(trace[k]) ==> Verdict(c, trace, k).Some?
    ensures Terminal(trace[k]) ==>
              var events := EventsAt(c, trace, k);
              events != [] && events[|events| - 1].Completed?
                  && Some(events[|events| - 1].exitCode) == Verdict(c, trace, k)
  {
    hide StatusOf, ProgressEvents, OutcomeEvents, ExitOf;
    if Readable(trace[k]) {
      var progress := LastProgress(c, trace, k + 1);
      var resp := trace[k].answer.resp;
      NoneCompletedInProgress(c, trace, k);
      OutcomeCompletes(resp, progress);
      CompletedAppend(ProgressEvents(c, trace, k), OutcomeEvents(resp, progress));
    }
  }

  lemma OutcomeCompletes(resp: Json, progress: Option<Progress>)
    requires StatusOf(resp).Some?
    ensures var events := OutcomeEvents(resp, progress);
            if StatusOf(resp) in {Some(Succeeded), Some(Failed), Some(Cancelled)}
            then CompletedIn(events) == 1 && events[|events| - 1].Completed?
                && Some(events[|events| - 1].exitCode) == ExitOf(resp)
            else events == []
  {
    hide StatusOf, AttemptFailures, StreamCount, SucceededWithoutSyncing, Reasons, CompletedIn, Finished;
    var reasons, notRun := Reasons(AttemptFailures(resp)), [NotRun(StreamCount(resp))];
    ReasonsComplete(AttemptFailures(resp));
    OneEvent(NotRun(StreamCount(resp)));
    CompletedAppend(notRun, reasons);
    forall status, code: nat
      ensures CompletedIn([Finished(status, code, progress)]) == 1 && Finished(status, code, progress).Completed?
              && Finished(status, code, progress).exitCode == code
    {
      OneFinish(status, code, progress);
    }
    forall status, code: nat { CompletedAppend(reasons, [Finished(status, code, progress)]); }
    CompletedAppend(notRun + reasons, [Finished(Failed, 1, progress)]);
  }

  lemma OneEvent(e: Event)
    ensures CompletedIn([e]) == if e.Completed? then 1 else 0
  {
    assert [e][1..] == [];
  }

  lemma OneFinish(status: JobStatus, code: nat, progress: Option<Progress>)
    ensures CompletedIn([Finished(status, code, progress)]) == 1 && Finished(status, code, progress).Completed?
    ensures Finished(status, code, progress).exitCode == code
  {
    OneEvent(Finished(status, code, progress));
  }

  lemma NoneCompletedInProgress(c: Config, trace: seq<Reading>, k: nat)
    requires k < |trace| && Readable(trace[k])
    ensures CompletedIn(ProgressEvents(c, trace, k)) == 0
  {
    hide StatusOf, CompletedIn, LastProgress;
    var status := StatusOf(trace[k].answer.resp).value;
    var counters := c.countersOf(trace[k].answer.resp);
    var first := if counters.Broken? then [CountersUnreadable] else [];
    var second := if counters.Counted? && LastProgress(c, trace, k) != Some(counters.progress)
                  then Progressed(status, counters.progress) else Waiting(status);
    assert ProgressEvents(c, trace, k) == first + [second];
    CompletedAppend(first, [second]);
    OneEvent(second);
    OneEvent(CountersUnreadable);
    NoEvents();
  }

  lemma NoEvents()
    ensures CompletedIn([]) == 0
  {
  }

  lemma {:induction false} NothingCompletedBefore(c: Config, trace: seq<Reading>, k: nat)
    requires k <= |trace| && forall i :: 0 <= i < k ==> Verdict(c, trace, i).None?
    ensures CompletedIn(LogUpTo(c, trace, k)) == 0
  {
    hide EventsAt, Verdict, Terminal;
    if k > 0 {
      NothingCompletedBefore(c, trace, k - 1);
      CompletedAt(c, trace, k - 1);
      CompletedAppend(LogUpTo(c, trace, k - 1), EventsAt(c, trace, k - 1));
    }
  }

  /** `sync.completed` is logged once, as the last word and with the exit code, if the loop ended on
      a terminal status, and never if it ended otherwise or is still polling. */
  lemma CompletedExactlyOnce(c: Config, trace: seq<Reading>, exit: Option<nat>, used: nat)
    requires Ran(c, trace, exit, used)
    ensures var log := LogUpTo(c, trace, used);
            && CompletedIn(log) == (if used > 0 && Terminal(trace[used - 1]) then 1 else 0)
            && (CompletedIn(log) == 1 ==>
                  log != [] && log[|log| - 1].Completed? && exit == Some(log[|log| - 1].exitCode))
  {
    hide Verdict, EventsAt, Terminal;
    if used > 0 {
      NothingCompletedBefore(c, trace, used - 1);
      CompletedAt(c, trace, used - 1);
      CompletedAppend(LogUpTo(c, trace, used - 1), EventsAt(c, trace, used - 1));
    }
  }

  // ---- what the log says at the end ----

  /** These are the counters of the last reading before `k` that had some. */
  ghost predicate CountedLast(c: Config, trace: seq<Reading>, k: nat, p: Progress)
    requires k <= |trace|
  {
    exists j :: 0 <= j < k && HasCounters(c, trace[j]) && c.countersOf(trace[j].answer.resp).progress == p
                && forall i :: j < i < k ==> !HasCounters(c, trace[i])
  }

  predicate HasCounters(c: Config, r: Reading) {
    Readable(r) && c.countersOf(r.answer.resp).Counted?
  }

  lemma {:induction false} LastProgressMeans(c: Config, trace: seq<Reading>, k: nat)
    requires k <= |trace|
    ensures LastProgress(c, trace, k).Some? ==> CountedLast(c, trace, k, LastProgress(c, trace, k).value)
    ensures LastProgress(c, trace, k).None? ==> forall j :: 0 <= j < k ==> !HasCounters(c, trace[j])
  {
    hide StatusOf;
    if k > 0 && !HasCounters(c, trace[k - 1]) {
      LastProgressMeans(c, trace, k - 1);
      if LastProgress(c, trace, k - 1).Some? {
        var p := LastProgress(c, trace, k - 1).value;
        var j :| 0 <= j < k - 1 && HasCounters(c, trace[j]) && c.countersOf(trace[j].answer.resp).progress == p
                 && forall i :: j < i < k - 1 ==> !HasCounters(c, trace[i]);
        assert CountedLast(c, trace, k, p);
      }
    }
  }

  /** A reading is logged as progress exactly if it has counters and they are not the ones read last. */
  lemma ProgressLogged(c: Config, trace: seq<Reading>, k: nat, p: Progress)
    requires k < |trace| && Readable(trace[k])
    ensures (exists status :: Progressed(status, p) in EventsAt(c, trace, k)) <==>
              c.countersOf(trace[k].answer.resp) == Counted(p) && !CountedLast(c, trace, k, p)
  {
    hide StatusOf, LastProgress, CountedLast, OutcomeEvents;
    LastProgressMeans(c, trace, k);
    NoProgressInOutcome(trace[k].answer.resp, LastProgress(c, trace, k + 1));
    var counters := c.countersOf(trace[k].answer.resp);
    if LastProgress(c, trace, k).Some? && CountedLast(c, trace, k, p) {
      OneLast(c, trace, k, LastProgress(c, trace, k).value, p);
    }
    if LastProgress(c, trace, k).None? { NoLast(c, trace, k, p); }
    if counters == Counted(p) && !CountedLast(c, trace, k, p) {
      var status := StatusOf(trace[k].answer.resp).value;
      assert ProgressEvents(c, trace, k) == [Progressed(status, p)];
      assert EventsAt(c, trace, k)[0] == Progressed(status, p);
    }
  }

  lemma OneLast(c: Config, trace: seq<Reading>, k: nat, p: Progress, q: Progress)
    requires k <= |trace| && CountedLast(c, trace, k, p) && CountedLast(c, trace, k, q)
    ensures p == q
  {
    hide HasCounters;
  }

  lemma NoLast(c: Config, trace: seq<Reading>, k: nat, p: Progress)
    requires k <= |trace| && forall j :: 0 <= j < k ==> !HasCounters(c, trace[j])
    ensures !CountedLast(c, trace, k, p)
  {
  }

  lemma NoProgressInOutcome(resp: Json, progress: Option<Progress>)
    requires StatusOf(resp).Some?
    ensures forall e :: e in OutcomeEvents(resp, progress) ==> !e.Progressed?
  {
    hide StatusOf, AttemptFailures, StreamCount;
    ReasonsAre(AttemptFailures(resp));
  }

  lemma {:induction false} ReasonsAre(failures: seq<SyncFailure>)
    ensures |Reasons(failures)| == |failures|
    ensures forall i :: 0 <= i < |failures| ==> Reasons(failures)[i] == FailureReason(failures[i])
  {
    if failures != [] { ReasonsAre(failures[1..]); }
  }

  /** The last word on a job: its bytes and records are those last read, or 0 if none ever were. */
  ghost predicate LastWord(c: Config, trace: seq<Reading>, used: nat, e: Event, status: JobStatus, exitCode: nat)
    requires used <= |trace|
  {
    && e.Completed? && e.status == status && e.exitCode == exitCode
    && (forall p :: CountedLast(c, trace, used, p) ==> e.bytes == p.bytes && e.records == p.records)
    && ((forall p :: !CountedLast(c, trace, used, p)) ==> e.bytes == 0 && e.records == 0)
  }

  lemma FinishedIsLastWord(c: Config, trace: seq<Reading>, used: nat, status: JobStatus, exitCode: nat)
    requires used <= |trace|
    ensures LastWord(c, trace, used, Finished(status, exitCode, LastProgress(c, trace, used)), status, exitCode)
  {
    hide CountedLast, HasCounters, LastProgress;
    LastProgressMeans(c, trace, used);
    var last := LastProgress(c, trace, used);
    forall p | CountedLast(c, trace, used, p) ensures last == Some(p) {
      if last.Some? { OneLast(c, trace, used, p, last.value); } else { NoLast(c, trace, used, p); }
    }
  }

  /** The log of a job that did not sync ends with one reason for each failure of its latest attempt, in
      order, and the last word: cancelled if it was, else failed. If it was said to have succeeded, the number
      of its streams comes first. */
  lemma FailureIsLogged(c: Config, trace: seq<Reading>, exit: Option<nat>, used: nat)
    returns (before: seq<Event>, entries: seq<Json>, failures: seq<SyncFailure>, at: seq<nat>, reasons: seq<Event>,
             last: Event)
    requires Ran(c, trace, exit, used) && used > 0 && trace[used - 1].answer.Response?
    requires NotSynced(trace[used - 1].answer.resp)
    ensures LogUpTo(c, trace, used) == before + reasons + [last] && |reasons| == |failures|
    ensures forall i :: 0 <= i < |reasons| ==> reasons[i] == FailureReason(failures[i])
    ensures ReadsInto(entries, failures, at)
    ensures var resp := trace[used - 1].answer.resp;
            && (ListsFailures(resp, entries) || (entries == [] && forall any :: !ListsFailures(resp, any)))
            && LastWord(c, trace, used, last, if StatusText(resp, "cancelled") then Cancelled else Failed, 1)
            && (StatusText(resp, "succeeded") ==> before != [] && before[|before| - 1] == NotRun(StreamCount(resp)))
  {
    hide Ran, StatusOf, AttemptFailures, StreamCount, StatusText, HasStreams, HasFailure, ListsFailures, Reasons,
      LastProgress, ReadsInto, LastWord, ProgressEvents, ReadFailures, Finished, LogUpTo, OutcomeEvents;
    RanWithin(c, trace, exit, used);
    var resp := trace[used - 1].answer.resp;
    AnswerMeans(resp);
    entries := FailureList(resp);
    failures := AttemptFailures(resp);
    at := FailuresAre(entries);
    reasons := Reasons(failures);
    ReasonsAre(failures);
    var progress := LastProgress(c, trace, used);
    FinishedIsLastWord(c, trace, used, Failed, 1);
    FinishedIsLastWord(c, trace, used, Cancelled, 1);
    last := Finished(if StatusOf(resp) == Some(Cancelled) then Cancelled else Failed, 1, progress);
    var start := LogUpTo(c, trace, used - 1) + ProgressEvents(c, trace, used - 1);
    before := if StatusOf(resp) == Some(Succeeded) then start + [NotRun(StreamCount(resp))] else start;
    LogEnds(c, trace, used);
    FailureEvents(resp, progress);
    var notRun := [NotRun(StreamCount(resp))];
    assert start + (notRun + reasons + [last]) == start + notRun + reasons + [last];
    assert start + (reasons + [last]) == start + reasons + [last];
  }

  lemma LogEnds(c: Config, trace: seq<Reading>, used: nat)
    requires 0 < used <= |trace| && Readable(trace[used - 1])
    ensures LogUpTo(c, trace, used)
            == LogUpTo(c, trace, used - 1) + ProgressEvents(c, trace, used - 1)
               + OutcomeEvents(trace[used - 1].answer.resp, LastProgress(c, trace, used))
  {
    hide StatusOf, ProgressEvents, OutcomeEvents, LastProgress;
    var before, last := LogUpTo(c, trace, used - 1), trace[used - 1].answer.resp;
    var progress, outcome := ProgressEvents(c, trace, used - 1), OutcomeEvents(last, LastProgress(c, trace, used));
    assert before + (progress + outcome) == before + progress + outcome;
  }

  lemma FailureEvents(resp: Json, progress: Option<Progress>)
    requires StatusOf(resp) in {Some(Failed), Some(Cancelled)}
             || (StatusOf(resp) == Some(Succeeded) && (AttemptFailures(resp) != [] || StreamCount(resp) == 0))
    ensures var last := Finished(if StatusOf(resp) == Some(Cancelled) then Cancelled else Failed, 1, progress);
            OutcomeEvents(resp, progress)
            == (if StatusOf(resp) == Some(Succeeded) then [NotRun(StreamCount(resp))] else [])
               + Reasons(AttemptFailures(resp)) + [last]
  {
    hide StatusOf, AttemptFailures, StreamCount, Reasons, Finished;
    assert [] + Reasons(AttemptFailures(resp)) == Reasons(AttemptFailures(resp));
  }

  /** And that of a job that did ends with that word alone. */
  lemma SuccessIsLogged(c: Config, trace: seq<Reading>, exit: Option<nat>, used: nat)
    requires Ran(c, trace, exit, used) && used > 0 && trace[used - 1].answer.Response?
    requires Synced(trace[used - 1].answer.resp)
    ensures var log := LogUpTo(c, trace, used);
            log != [] && LastWord(c, trace, used, log[|log| - 1], Succeeded, 0)
  {
    hide Ran, StatusOf, AttemptFailures, StreamCount, StatusText, HasStreams, HasFailure, LastProgress, LastWord,
      ProgressEvents, Finished;
    RanWithin(c, trace, exit, used);
    var resp := trace[used - 1].answer.resp;
    AnswerMeans(resp);
    FinishedIsLastWord(c, trace, used, Succeeded, 0);
    assert OutcomeEvents(resp, LastProgress(c, trace, used)) == [Finished(Succeeded, 0, LastProgress(c, trace, used))];
  }

  // ---- a server that stays unreadable ----

  /** The clock does not run back, and between two polls the loop sleeps an interval. */
  ghost predicate Slept(c: Config, trace: seq<Reading>) {
    && (trace != [] ==> trace[0].at >= c.startedAt)
    && forall i :: 0 < i < |trace| ==> trace[i].at >= trace[i - 1].at + c.interval as real
  }

  lemma {:induction false} StretchGrows(c: Config, trace: seq<Reading>, j: nat, n: nat)
    requires Slept(c, trace) && j + n < |trace| && c.interval > 0
    requires forall i :: j <= i < j + n ==> !Readable(trace[i])
    ensures trace[j + n].at - LastReadable(c, trace, j + n) >= (n * c.interval) as real
  {
    if n > 0 {
      StretchGrows(c, trace, j, n - 1);
      assert (n * c.interval) == (n - 1) * c.interval + c.interval;
    } else {
      NotReadAhead(c, trace, j);
    }
  }

  lemma {:induction false} NotReadAhead(c: Config, trace: seq<Reading>, k: nat)
    requires Slept(c, trace) && k < |trace| && c.interval > 0
    ensures LastReadable(c, trace, k) <= trace[k].at
  {
    if k > 0 { NotReadAhead(c, trace, k - 1); }
  }

  /** A server that turns unreadable for good ends the loop within ceil(threshold / interval) + 1
      failed reads, whichever kind of failure each of them is. */
  lemma UnreadableServerEndsLoop(c: Config, trace: seq<Reading>, exit: Option<nat>, used: nat, j: nat, n: nat)
    requires Ran(c, trace, exit, used) && Slept(c, trace) && c.interval > 0
    requires n * c.interval >= c.threshold && j + n < |trace|
    requires forall i :: j <= i <= j + n ==> !Readable(trace[i])
    ensures exit.Some? && used <= j + n + 1
  {
    StretchGrows(c, trace, j, n);
    assert Verdict(c, trace, j + n).Some?;
  }
}
