/** Log uploads: only the latest GetLog writes the log status, except that an
    extended trigger reads the status and writes it back later. */
module LogUpload {
  import opened Station

  datatype LogStatus = Idle | Uploading | Uploaded

  datatype LogAnswer = LogAccepted | LogAcceptedCanceled

  /** The locked fields: 0 means that there was no request yet. */
  datatype Job = Job(requestID: int, status: LogStatus)

  predicate Superseded(job: Job, requestID: int) {
    job.requestID != 0 && job.requestID != requestID
  }

  /** What a report leaves: one by another request than the current is dropped. */
  function Written(job: Job, id: int, status: LogStatus): Job {
    if Superseded(job, id) then job else Job(id, status)
  }

  function AnswerTo(job: Job, id: int): LogAnswer {
    if job.status == Uploading && job.requestID != id then LogAcceptedCanceled else LogAccepted
  }

  class LogUploader {
    var requestID: int
    var status: LogStatus

    function Contents(): Job
      reads this
    {
      Job(requestID, status)
    }

    constructor ()
      ensures Contents() == Job(0, Idle)
    {
      requestID, status := 0, Idle;
    }

    method OnGetLog(id: int) returns (answer: LogAnswer)
      modifies this
      ensures Contents() == Job(id, Uploading)
      ensures answer == AnswerTo(old(Contents()), id)
    {
      answer := LogAccepted;
      if status == Uploading && requestID != id {
        answer := LogAcceptedCanceled;
      }
      requestID := id;
      status := Uploading;
    }

    method SendLogStatus(id: int, next: LogStatus) returns (written: bool)
      modifies this
      ensures written <==> old(requestID) == 0 || old(requestID) == id
      ensures requestID == (if written then id else old(requestID)) && status == (if written then next else old(status))
      ensures Contents() == Written(old(Contents()), id, next)
    {
      if requestID != 0 && requestID != id {
        return false;
      }
      requestID := id;
      status := next;
      return true;
    }
  }

  // ---------------------------------------------------------------------
  // Interleaved uploads and triggers
  // ---------------------------------------------------------------------

  /** The goroutine of a GetLog; `sent` once it has reported Uploading. */
  datatype Upload = Upload(requestID: int, sent: bool)

  /** `triggers` hold what a trigger read and has still to write back. */
  datatype State = State(job: Job, used: set<int>, uploads: map<nat, Upload>, triggers: map<nat, Job>)

  datatype Event =
    | GetLog(started: Option<nat>, id: int, answer: LogAnswer)
    | ReportUploading(thread: nat)
    | ReportUploaded(thread: nat)
    | EndUpload(thread: nat)
    | TriggerReads(thread: nat)
    | TriggerWrites(thread: nat)

  /** The central system uses each positive identifier once. */
  ghost predicate GetLogStep(s: State, started: Option<nat>, id: int, answer: LogAnswer, s': State) {
    && id > 0 && id !in s.used
    && (started.Some? ==> started.value !in s.uploads)
    && answer == AnswerTo(s.job, id)
    && s' == State(Job(id, Uploading), s.used + {id},
                   if started.Some? then s.uploads[started.value := Upload(id, false)] else s.uploads,
                   s.triggers)
  }

  ghost predicate Next(s: State, e: Event, s': State) {
    match e
    case GetLog(started, id, answer) => GetLogStep(s, started, id, answer, s')
    case ReportUploading(t) =>
      && t in s.uploads && !s.uploads[t].sent
      && s' == s.(job := Written(s.job, s.uploads[t].requestID, Uploading),
                  uploads := s.uploads[t := Upload(s.uploads[t].requestID, true)])
    case ReportUploaded(t) =>
      && t in s.uploads && s.uploads[t].sent
      && s' == s.(job := Written(s.job, s.uploads[t].requestID, Uploaded), uploads := s.uploads - {t})
    case EndUpload(t) => t in s.uploads && s' == s.(uploads := s.uploads - {t})
    case TriggerReads(t) => t !in s.triggers && s' == s.(triggers := s.triggers[t := s.job])
    case TriggerWrites(t) =>
      && t in s.triggers
      && s' == s.(job := Written(s.job, s.triggers[t].requestID, s.triggers[t].status), triggers := s.triggers - {t})
  }

  datatype Run = Run(states: seq<State>, events: seq<Event>)

  ghost predicate IsRun(run: Run) {
    && |run.states| == |run.events| + 1
    && run.states[0] == State(Job(0, Idle), {}, map[], map[])
    && forall i :: 0 <= i < |run.events| ==> Next(run.states[i], run.events[i], run.states[i + 1])
  }

  // ---------------------------------------------------------------------
  // Invariant
  // ---------------------------------------------------------------------

  /** The job of request `id` has been Uploaded, or a trigger says so. */
  ghost predicate SaidUploaded(s: State, id: int) {
    s.job == Job(id, Uploaded) || exists t :: t in s.triggers && s.triggers[t] == Job(id, Uploaded)
  }

  ghost predicate Inv(s: State) {
    && (s.job.requestID == 0 ==> s.job.status == Idle && s.used == {})
    && (s.job.requestID != 0 ==> s.job.requestID in s.used && s.job.status != Idle)
    && (forall id :: id in s.used ==> id > 0)
    && (forall t :: t in s.uploads ==> s.uploads[t].requestID in s.used && !SaidUploaded(s, s.uploads[t].requestID))
    && (forall t :: t in s.triggers ==>
          s.triggers[t] == Job(0, Idle) || (s.triggers[t].requestID in s.used && s.triggers[t].status != Idle))
    && (forall t, u :: t in s.uploads && u in s.uploads && t != u ==> s.uploads[t].requestID != s.uploads[u].requestID)
  }

  lemma GetLogKeepsInv(s: State, started: Option<nat>, id: int, answer: LogAnswer, s': State)
    requires Inv(s) && GetLogStep(s, started, id, answer, s')
    ensures Inv(s')
  {
    forall t | t in s'.uploads
      ensures s'.uploads[t].requestID in s'.used && !SaidUploaded(s', s'.uploads[t].requestID)
    {
      if started == Some(t) {
        assert s'.uploads[t].requestID == id;
      } else {
        assert !SaidUploaded(s, s.uploads[t].requestID);
      }
    }
  }

  lemma UploadKeepsInv(s: State, e: Event, s': State)
    requires Inv(s) && Next(s, e, s') && (e.ReportUploading? || e.ReportUploaded? || e.EndUpload?)
    ensures Inv(s')
  {
    forall t | t in s'.uploads
      ensures s'.uploads[t].requestID in s'.used && !SaidUploaded(s', s'.uploads[t].requestID)
    {
      assert !SaidUploaded(s, s.uploads[t].requestID);
    }
  }

  lemma TriggerKeepsInv(s: State, e: Event, s': State)
    requires Inv(s) && Next(s, e, s') && (e.TriggerReads? || e.TriggerWrites?)
    ensures Inv(s')
  {
    forall t | t in s'.uploads
      ensures s'.uploads[t].requestID in s'.used && !SaidUploaded(s', s'.uploads[t].requestID)
    {
      assert !SaidUploaded(s, s.uploads[t].requestID);
    }
  }

  lemma {:induction false} InvInRun(run: Run, i: nat)
    requires IsRun(run) && i < |run.states|
    ensures Inv(run.states[i])
  {
    if i > 0 {
      InvInRun(run, i - 1);
      var s, e, s' := run.states[i - 1], run.events[i - 1], run.states[i];
      assert Next(s, e, s');
      match e
      case GetLog(started, id, answer) => GetLogKeepsInv(s, started, id, answer, s');
      case ReportUploading(_) => UploadKeepsInv(s, e, s');
      case ReportUploaded(_) => UploadKeepsInv(s, e, s');
      case EndUpload(_) => UploadKeepsInv(s, e, s');
      case _ => TriggerKeepsInv(s, e, s');
    }
  }

  // ---------------------------------------------------------------------
  // Theorems
  // ---------------------------------------------------------------------

  /** The identifier of the last GetLog, 0 before the first. */
  function Latest(events: seq<Event>): int {
    if events == [] then 0
    else
      var e := events[|events| - 1];
      if e.GetLog? then e.id else Latest(events[..|events| - 1])
  }

  /** The stored identifier is always the latest GetLog's: no other goroutine,
      and no trigger, ever writes the log status for another request. */
  lemma {:induction false} OnlyLatestWrites(run: Run, i: nat)
    requires IsRun(run) && i < |run.states|
    ensures run.states[i].job.requestID == Latest(run.events[..i])
  {
    if i > 0 {
      OnlyLatestWrites(run, i - 1);
      InvInRun(run, i - 1);
      assert Next(run.states[i - 1], run.events[i - 1], run.states[i]);
      var so := run.events[..i];
      assert so[..|so| - 1] == run.events[..i - 1] && so[|so| - 1] == run.events[i - 1];
    }
  }

  /** A report of the latest request is the status from then on; one of an
      earlier request changes nothing. */
  lemma ReportsOfLatestAreWritten(run: Run, i: nat)
    requires IsRun(run) && i < |run.events| && (run.events[i].ReportUploading? || run.events[i].ReportUploaded?)
    ensures run.events[i].thread in run.states[i].uploads
    ensures run.states[i + 1].job ==
      if run.states[i].uploads[run.events[i].thread].requestID == Latest(run.events[..i])
      then Job(Latest(run.events[..i]), if run.events[i].ReportUploading? then Uploading else Uploaded)
      else run.states[i].job
  {
    OnlyLatestWrites(run, i);
    InvInRun(run, i);
    assert Next(run.states[i], run.events[i], run.states[i + 1]);
  }

  /** A request cancels exactly when another one is still Uploading. */
  lemma CancelsExactlyUploading(run: Run, i: nat)
    requires IsRun(run) && i < |run.events| && run.events[i].GetLog?
    ensures run.events[i].answer == LogAcceptedCanceled <==>
      Latest(run.events[..i]) != 0 && run.states[i].job.status == Uploading
  {
    OnlyLatestWrites(run, i);
    InvInRun(run, i);
    assert Next(run.states[i], run.events[i], run.states[i + 1]);
  }

  /** Event `i` takes the status of a request back from Uploaded. */
  ghost predicate GoesBack(run: Run, i: nat)
    requires |run.states| == |run.events| + 1 && i < |run.events|
  {
    && run.states[i].job.status == Uploaded
    && run.states[i + 1].job.requestID == run.states[i].job.requestID
    && run.states[i + 1].job.status != Uploaded
  }

  /** The status of a request goes back from Uploaded exactly when a trigger
      writes back the Uploading it read for that request. */
  lemma GoesBackExactlyByTrigger(run: Run, i: nat)
    requires IsRun(run) && i < |run.events| && run.states[i].job.status == Uploaded
    ensures GoesBack(run, i) <==>
      && run.events[i].TriggerWrites?
      && run.events[i].thread in run.states[i].triggers
      && run.states[i].triggers[run.events[i].thread] == Job(run.states[i].job.requestID, Uploading)
  {
    InvInRun(run, i);
    var s, e, s' := run.states[i], run.events[i], run.states[i + 1];
    assert Next(s, e, s');
    assert SaidUploaded(s, s.job.requestID);
  }

  lemma {:induction false} NoTriggersWithoutReads(run: Run, i: nat)
    requires IsRun(run) && i < |run.states|
    requires forall k :: 0 <= k < i ==> !run.events[k].TriggerReads?
    ensures run.states[i].triggers == map[]
  {
    if i > 0 {
      NoTriggersWithoutReads(run, i - 1);
      assert Next(run.states[i - 1], run.events[i - 1], run.states[i]);
      assert !run.events[i - 1].TriggerReads?;
    }
  }

  /** Without log-status triggers the status of a request never goes back. */
  lemma UploadedStays(run: Run, i: nat)
    requires IsRun(run) && i < |run.events|
    requires forall k :: 0 <= k < i ==> !run.events[k].TriggerReads?
    ensures !GoesBack(run, i)
  {
    NoTriggersWithoutReads(run, i);
    if run.states[i].job.status == Uploaded {
      GoesBackExactlyByTrigger(run, i);
    }
  }

  /** With a trigger it can: it reads Uploading, the upload finishes, and the
      trigger puts Uploading back for good. */
  lemma TriggerTakesItBack() returns (run: Run)
    ensures IsRun(run) && |run.events| == 5 && GoesBack(run, 4)
    ensures run.states[5].uploads == map[]
  {
    var s0 := State(Job(0, Idle), {}, map[], map[]);
    var s1 := State(Job(1, Uploading), {1}, map[0 := Upload(1, false)], map[]);
    var s2 := s1.(uploads := map[0 := Upload(1, true)]);
    var s3 := s2.(triggers := map[0 := Job(1, Uploading)]);
    var s4 := s3.(job := Job(1, Uploaded), uploads := map[]);
    var s5 := s4.(job := Job(1, Uploading), triggers := map[]);
    var e0 := GetLog(Some(0), 1, LogAccepted);
    assert Next(s0, e0, s1);
    assert Next(s1, ReportUploading(0), s2);
    assert Next(s2, TriggerReads(0), s3);
    assert Next(s3, ReportUploaded(0), s4);
    assert Next(s4, TriggerWrites(0), s5);
    run := Run([s0, s1, s2, s3, s4, s5],
               [e0, ReportUploading(0), TriggerReads(0), ReportUploaded(0), TriggerWrites(0)]);
    forall i | 0 <= i < |run.events|
      ensures Next(run.states[i], run.events[i], run.states[i + 1])
    {
      if i == 0 {
      } else if i == 1 {
      } else if i == 2 {
      } else if i == 3 {
      }
    }
  }
}
