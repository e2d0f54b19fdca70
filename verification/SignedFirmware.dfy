/** Signed firmware updates: a newer request silences the goroutine of an older
    one.  A goroutine sleeps and notifies between its writes, so any number of
    requests and goroutines interleave. */
module SignedFirmware {
  import opened Station

  /** `InstallScheduled` counts as active but is never written. */
  datatype FirmwareStatus =
    | Idle | DownloadScheduled | Downloading | Downloaded | SignatureVerified
    | InstallScheduled | Installing | Installed

  datatype FirmwareRequest = FirmwareRequest(
    requestID: int,
    hasRetrieveDate: bool,
    blankLocation: bool,
    blankCertificate: bool,
    blankSignature: bool)

  datatype FirmwareAnswer = FirmwareAccepted | FirmwareAcceptedCanceled | FirmwareRejected | InvalidCertificate

  /** The locked fields: 0 means that there was no request yet. */
  datatype Job = Job(requestID: int, status: FirmwareStatus)

  /** The statuses of one update, in order; the request itself writes the first. */
  const PROGRESS := [DownloadScheduled, Downloading, Downloaded, SignatureVerified, Installing, Installed]

  predicate Active(status: FirmwareStatus) {
    status != Idle && status != Installed
  }

  predicate WellFormed(request: FirmwareRequest) {
    request.hasRetrieveDate && !request.blankLocation && !request.blankCertificate && !request.blankSignature
  }

  function AnswerTo(job: Job, request: FirmwareRequest): FirmwareAnswer {
    if !request.hasRetrieveDate || request.blankLocation then FirmwareRejected
    else if request.blankCertificate || request.blankSignature then InvalidCertificate
    else if Active(job.status) && job.requestID != request.requestID then FirmwareAcceptedCanceled
    else FirmwareAccepted
  }

  /** A report by another request than the current one is dropped. */
  predicate Superseded(job: Job, requestID: int) {
    job.requestID != 0 && job.requestID != requestID
  }

  function Written(job: Job, requestID: int, status: FirmwareStatus): Job {
    if Superseded(job, requestID) then job else Job(requestID, status)
  }

  function Requested(job: Job, request: FirmwareRequest): Job {
    if WellFormed(request) then Job(request.requestID, DownloadScheduled) else job
  }

  class FirmwareUpdater {
    var requestID: int
    var status: FirmwareStatus

    function Contents(): Job
      reads this
    {
      Job(requestID, status)
    }

    constructor ()
      ensures Contents() == Job(0, Idle)
    {
      requestID, status := 0, Idle;
    }

    method OnSignedUpdateFirmware(request: FirmwareRequest) returns (answer: FirmwareAnswer)
      modifies this
      ensures answer == AnswerTo(old(Contents()), request)
      ensures Contents() == Requested(old(Contents()), request)
    {
      if !request.hasRetrieveDate || request.blankLocation {
        return FirmwareRejected;
      }
      if request.blankCertificate || request.blankSignature {
        return InvalidCertificate;
      }
      answer := FirmwareAccepted;
      if Active(status) && requestID != request.requestID {
        answer := FirmwareAcceptedCanceled;
      }
      requestID := request.requestID;
      status := DownloadScheduled;
    }

    method SendSignedFirmwareStatus(id: int, next: FirmwareStatus) returns (written: bool)
      modifies this
      ensures written <==> old(requestID) == 0 || old(requestID) == id
      ensures requestID == (if written then id else old(requestID)) && status == (if written then next else old(status))
      ensures Contents() == Written(old(Contents()), id, next)
    {
      if requestID != 0 && requestID != id {
        return false;
      }
      requestID := id;
      status := next;
      return true;
    }
  }

  // ---------------------------------------------------------------------
  // Interleaved updates
  // ---------------------------------------------------------------------

  /** The goroutine of one request; it reports `PROGRESS[next]` next. */
  datatype Updater = Updater(requestID: int, next: nat)

  /** `recorded` lists, for each accepted request, the statuses written for it. */
  datatype State = State(job: Job, threads: map<nat, Updater>, recorded: map<int, seq<FirmwareStatus>>)

  datatype Event =
    | Request(started: Option<nat>, request: FirmwareRequest, answer: FirmwareAnswer)
    | Report(thread: nat)
    | End(thread: nat)

  /** The goroutine is started only when the station is connected.  The central
      system uses each positive identifier once. */
  ghost predicate RequestStep(
      s: State, thread: Option<nat>, request: FirmwareRequest, answer: FirmwareAnswer, s': State) {
    && answer == AnswerTo(s.job, request)
    && if !WellFormed(request) then s' == s
       else
         && request.requestID > 0 && request.requestID !in s.recorded
         && (thread.Some? ==> thread.value !in s.threads)
         && s' == State(
              Requested(s.job, request),
              if thread.Some? then s.threads[thread.value := Updater(request.requestID, 1)] else s.threads,
              s.recorded[request.requestID := [DownloadScheduled]])
  }

  ghost predicate ReportStep(s: State, t: nat, s': State) {
    && t in s.threads && s.threads[t].next < |PROGRESS|
    && var id, status := s.threads[t].requestID, PROGRESS[s.threads[t].next];
       && var moved := s.(job := Written(s.job, id, status),
                          threads := s.threads[t := Updater(id, s.threads[t].next + 1)]);
          s' == if Superseded(s.job, id) then moved
                else moved.(recorded := s.recorded[id := (if id in s.recorded then s.recorded[id] else []) + [status]])
  }

  ghost predicate Next(s: State, e: Event, s': State) {
    match e
    case Request(thread, request, answer) => RequestStep(s, thread, request, answer, s')
    case Report(t) => ReportStep(s, t, s')
    case End(t) => t in s.threads && s' == s.(threads := s.threads - {t})
  }

  datatype Run = Run(states: seq<State>, events: seq<Event>)

  ghost predicate IsRun(run: Run) {
    && |run.states| == |run.events| + 1
    && run.states[0] == State(Job(0, Idle), map[], map[])
    && forall i :: 0 <= i < |run.events| ==> Next(run.states[i], run.events[i], run.states[i + 1])
  }

  // ---------------------------------------------------------------------
  // Invariant
  // ---------------------------------------------------------------------

  ghost predicate IsPrefix(statuses: seq<FirmwareStatus>) {
    1 <= |statuses| && statuses <= PROGRESS
  }

  ghost predicate ThreadFits(s: State, t: nat)
    requires t in s.threads
  {
    var id := s.threads[t].requestID;
    && id in s.recorded
    && 1 <= s.threads[t].next
    && (id == s.job.requestID ==> s.threads[t].next == |s.recorded[id]|)
  }

  ghost predicate Inv(s: State) {
    && (s.job.requestID == 0 ==> s.job.status == Idle && s.recorded == map[])
    && (s.job.requestID != 0 ==>
          && s.job.requestID in s.recorded && s.recorded[s.job.requestID] != []
          && s.recorded[s.job.requestID][|s.recorded[s.job.requestID]| - 1] == s.job.status)
    && (forall id :: id in s.recorded ==> id > 0 && IsPrefix(s.recorded[id]))
    && (forall t :: t in s.threads ==> ThreadFits(s, t))
    && (forall t, u :: t in s.threads && u in s.threads && t != u ==> s.threads[t].requestID != s.threads[u].requestID)
  }

  lemma ReportExtendsPrefix(statuses: seq<FirmwareStatus>)
    requires IsPrefix(statuses) && |statuses| < |PROGRESS|
    ensures IsPrefix(statuses + [PROGRESS[|statuses|]])
  {}

  lemma RequestKeepsInv(s: State, thread: Option<nat>, request: FirmwareRequest, answer: FirmwareAnswer, s': State)
    requires Inv(s) && RequestStep(s, thread, request, answer, s')
    ensures Inv(s')
  {
    if WellFormed(request) {
      assert forall t :: t in s.threads ==> ThreadFits(s, t);
      forall t | t in s'.threads
        ensures ThreadFits(s', t)
      {}
      assert IsPrefix([DownloadScheduled]);
    }
  }

  lemma DroppedReportKeepsInv(s: State, t: nat, s': State)
    requires Inv(s) && ReportStep(s, t, s') && Superseded(s.job, s.threads[t].requestID)
    ensures Inv(s')
  {
    assert forall u :: u in s.threads ==> ThreadFits(s, u);
  }

  lemma WrittenReportKeepsInv(s: State, t: nat, s': State)
    requires Inv(s) && ReportStep(s, t, s') && !Superseded(s.job, s.threads[t].requestID)
    ensures Inv(s')
  {
    var id := s.threads[t].requestID;
    assert forall u :: u in s.threads ==> ThreadFits(s, u);
    ReportExtendsPrefix(s.recorded[id]);
    forall u | u in s'.threads
      ensures ThreadFits(s', u)
    {}
  }

  lemma StepKeepsInv(s: State, e: Event, s': State)
    requires Inv(s) && Next(s, e, s')
    ensures Inv(s')
  {
    match e
    case Request(started, request, answer) => RequestKeepsInv(s, started, request, answer, s');
    case Report(t) =>
      if Superseded(s.job, s.threads[t].requestID) {
        DroppedReportKeepsInv(s, t, s');
      } else {
        WrittenReportKeepsInv(s, t, s');
      }
    case End(_) =>
      assert forall t :: t in s.threads ==> ThreadFits(s, t);
  }

  lemma {:induction false} InvInRun(run: Run, i: nat)
    requires IsRun(run) && i < |run.states|
    ensures Inv(run.states[i])
  {
    if i > 0 {
      InvInRun(run, i - 1);
      assert Next(run.states[i - 1], run.events[i - 1], run.states[i]);
      StepKeepsInv(run.states[i - 1], run.events[i - 1], run.states[i]);
    }
  }

  // ---------------------------------------------------------------------
  // Theorems
  // ---------------------------------------------------------------------

  /** What is recorded for a request is a prefix of the progress of an update,
      and the current status is the last record of the current request. */
  lemma RecordsAreProgress(run: Run, i: nat, id: int)
    requires IsRun(run) && i < |run.states| && id in run.states[i].recorded
    ensures run.states[i].recorded[id] != []
    ensures run.states[i].recorded[id] <=
      [DownloadScheduled, Downloading, Downloaded, SignatureVerified, Installing, Installed]
    ensures var s := run.states[i];
      id == s.job.requestID ==> s.recorded[id][|s.recorded[id]| - 1] == s.job.status
  {
    InvInRun(run, i);
  }

  /** Once another request is accepted, the record of the old one is closed:
      its goroutine writes nothing any more. */
  lemma {:induction false} SupersededIsSilent(run: Run, i: nat, j: nat, id: int)
    requires IsRun(run) && i <= j < |run.states|
    requires id in run.states[i].recorded && run.states[i].job.requestID != id
    ensures id in run.states[j].recorded && run.states[j].recorded[id] == run.states[i].recorded[id]
    ensures run.states[j].job.requestID != id
    decreases j - i
  {
    if i < j {
      SupersededIsSilent(run, i, j - 1, id);
      InvInRun(run, j - 1);
      var s, e := run.states[j - 1], run.events[j - 1];
      assert Next(s, e, run.states[j]);
      if e.Report? {
        assert ThreadFits(s, e.thread);
      }
    }
  }

  /** A report is recorded, and is the status from then on, exactly if no other
      request is current. */
  lemma ReportsOfCurrentAreWritten(run: Run, i: nat)
    requires IsRun(run) && i < |run.events| && run.events[i].Report?
    ensures run.events[i].thread in run.states[i].threads
    ensures var s, s' := run.states[i], run.states[i + 1];
      var id := s.threads[run.events[i].thread].requestID;
      && id in s.recorded && id in s'.recorded
      && (if s.job.requestID == id
          then |s'.recorded[id]| == |s.recorded[id]| + 1 && s'.recorded[id][|s.recorded[id]|] == s'.job.status
          else s'.recorded == s.recorded && s'.job == s.job)
  {
    InvInRun(run, i);
    var s, e := run.states[i], run.events[i];
    assert Next(s, e, run.states[i + 1]);
    assert ThreadFits(s, e.thread);
  }

  /** The answer to a request names its first defect; a request without one is
      accepted, and is the current one from then on. */
  lemma AnswersInFields(run: Run, i: nat)
    requires IsRun(run) && i < |run.events| && run.events[i].Request?
    ensures var request, answer := run.events[i].request, run.events[i].answer;
      var located, signed := request.hasRetrieveDate && !request.blankLocation,
                             !request.blankCertificate && !request.blankSignature;
      && (answer == FirmwareRejected <==> !located)
      && (answer == InvalidCertificate <==> located && !signed)
      && (if located && signed
          then run.states[i + 1].job == Job(request.requestID, DownloadScheduled)
          else run.states[i + 1] == run.states[i])
  {
    assert Next(run.states[i], run.events[i], run.states[i + 1]);
  }

  /** A well-formed request cancels exactly when there was one before it that
      had not reached Installed. */
  lemma CancelsExactlyUnfinished(run: Run, i: nat)
    requires IsRun(run) && i < |run.events| && run.events[i].Request? && WellFormed(run.events[i].request)
    ensures var s := run.states[i];
      run.events[i].answer == FirmwareAcceptedCanceled <==>
        s.job.requestID != 0 && s.job.requestID in s.recorded && s.recorded[s.job.requestID] != PROGRESS
    ensures run.events[i].answer == FirmwareAcceptedCanceled || run.events[i].answer == FirmwareAccepted
  {
    InvInRun(run, i);
    assert Next(run.states[i], run.events[i], run.states[i + 1]);
    var s := run.states[i];
    if s.job.requestID != 0 {
      var statuses := s.recorded[s.job.requestID];
      assert IsPrefix(statuses);
      assert s.job.status == PROGRESS[|statuses| - 1];
      assert statuses == PROGRESS[..|statuses|];
      assert |statuses| == |PROGRESS| ==> statuses == PROGRESS;
    }
  }

  /** A goroutine that got through all its reports without being superseded
      has recorded the whole update. */
  lemma FinishedIsInstalled(run: Run, i: nat, t: nat)
    requires IsRun(run) && i < |run.states| && t in run.states[i].threads
    requires var s := run.states[i];
      s.threads[t].next == |PROGRESS| && s.threads[t].requestID == s.job.requestID
    ensures run.states[i].job.status == Installed
    ensures run.states[i].job.requestID in run.states[i].recorded
    ensures run.states[i].recorded[run.states[i].job.requestID]
         == [DownloadScheduled, Downloading, Downloaded, SignatureVerified, Installing, Installed]
  {
    InvInRun(run, i);
    var s := run.states[i];
    assert ThreadFits(s, t);
    var statuses := s.recorded[s.job.requestID];
    assert IsPrefix(statuses);
    assert statuses == PROGRESS[..|statuses|];
  }
}
