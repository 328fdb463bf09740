/** The aggregation consumer around the callback
    (`consume_and_aggregate_messages` and `upload_aggregated_data_to_gcs`):
    settings validation, the choice of subscription path, the wait for the
    completion flag or an interrupt, the drain, and the final upload.

    The broker and the storage client are abstract: what the broker
    delivers is a sequence of arrivals, callbacks that complete after the
    wait has returned are a second sequence, and the drain and write
    outcomes are inputs. */
module Consumer {
  import opened Common
  import opened Accumulator

  /** The consumer's five settings as the caller passes them. */
  datatype Settings = Settings(
    projectId: Option<string>,
    subscriptionId: Option<string>,
    bucket: Option<string>,
    filename: Option<string>,
    expectedCount: int)

  /** Settings that passed validation. */
  datatype Job = Job(project: string, subscription: string, bucket: string, filename: string, expected: int)

  datatype SettingsError = MissingSetting | NonPositiveCount

  /** The two early returns of `consume_and_aggregate_messages`, in its order: a missing setting is
      reported before a non-positive count. */
  function CheckSettings(s: Settings): (r: Result<Job, SettingsError>)
    ensures r.Success? <==>
              AllGiven([s.projectId, s.subscriptionId, s.bucket, s.filename]) && s.expectedCount > 0
    ensures !AllGiven([s.projectId, s.subscriptionId, s.bucket, s.filename]) ==>
              r == Failure(MissingSetting)
    ensures r.Success? ==>
              && r.value.expected == s.expectedCount >= 1
              && Some(r.value.project) == s.projectId
              && Some(r.value.subscription) == s.subscriptionId
              && Some(r.value.bucket) == s.bucket
              && Some(r.value.filename) == s.filename
  {
    if !AllGiven([s.projectId, s.subscriptionId, s.bucket, s.filename]) then
      Failure(MissingSetting)
    else if s.expectedCount <= 0 then
      Failure(NonPositiveCount)
    else
      assert Given([s.projectId, s.subscriptionId, s.bucket, s.filename][0]);
      assert Given([s.projectId, s.subscriptionId, s.bucket, s.filename][1]);
      assert Given([s.projectId, s.subscriptionId, s.bucket, s.filename][2]);
      assert Given([s.projectId, s.subscriptionId, s.bucket, s.filename][3]);
      Success(Job(s.projectId.value, s.subscriptionId.value, s.bucket.value,
                  s.filename.value, s.expectedCount))
  }

  /** A subscription id that names both a project and a subscription. */
  ghost predicate IsFullPath(id: string) {
    IsSubstring("projects/", id) && IsSubstring("/subscriptions/", id)
  }

  /** The full path the library builds from a project and a short id. */
  function BuiltPath(project: string, sub: string): string {
    "projects/" + project + "/subscriptions/" + sub
  }

  lemma BuiltPathIsFull(project: string, sub: string)
    ensures IsFullPath(BuiltPath(project, sub))
  {
    var p := BuiltPath(project, sub);
    assert p[0..9] == "projects/";
    assert OccursAt("projects/", p, 0);
    var k := 9 + |project|;
    assert p[k..k + 15] == "/subscriptions/";
    assert OccursAt("/subscriptions/", p, k);
  }

  /** The subscription path used: the id itself when it already contains
      both markers, otherwise the path built from project and id. The
      result is always a full path. */
  function SubscriptionPath(project: string, sub: string): (path: string)
    ensures IsFullPath(path)
    ensures IsFullPath(sub) ==> path == sub
    ensures !IsFullPath(sub) ==> path == BuiltPath(project, sub)
  {
    if Contains(sub, "projects/") && Contains(sub, "/subscriptions/") then
      sub
    else
      BuiltPathIsFull(project, sub);
      BuiltPath(project, sub)
  }

  /** Choosing the path a second time changes nothing. */
  lemma SubscriptionPathIdempotent(project: string, sub: string)
    ensures SubscriptionPath(project, SubscriptionPath(project, sub)) == SubscriptionPath(project, sub)
  {
  }

  /** One object written to storage: destination and the records serialized
      into it as a single JSON array. */
  datatype Artifact<J> = Artifact(bucket: string, name: string, records: seq<J>)

  datatype UploadReport = NothingToUpload | Uploaded(count: nat) | UploadFailed

  /** The upload's report and the objects it left in storage. */
  datatype Upload<J> = Upload(report: UploadReport, written: seq<Artifact<J>>)

  /** `upload_aggregated_data_to_gcs`: an empty list writes nothing; a
      non-empty list is written once, and a failed write is reported, not
      raised. `writeOk` is the storage client's answer. */
  function UploadAggregate<J>(bucket: string, name: string, data: seq<J>, writeOk: bool): (r: Upload<J>)
    ensures r.report == NothingToUpload <==> data == []
    ensures data == [] ==> r.written == []
    ensures r.report.Uploaded? <==> data != [] && writeOk
    ensures r.report.Uploaded? ==> r.report.count == |data|
    ensures r.written != [] <==> r.report.Uploaded?
    ensures r.written != [] ==> r.written == [Artifact(bucket, name, data)]
  {
    if data == [] then Upload(NothingToUpload, [])
    else if writeOk then Upload(Uploaded(|data|), [Artifact(bucket, name, data)])
    else Upload(UploadFailed, [])
  }

  /** What reaches the consumer while it waits: a delivered message (its
      callback runs) or an external interrupt. */
  datatype Arrival = Deliver(msg: Message) | Interrupt

  datatype WaitEnd = Completed | Interrupted

  /** The messages delivered by a sequence of arrivals, in order. */
  function Delivered(arrivals: seq<Arrival>): seq<Message>
    decreases |arrivals|
  {
    if arrivals == [] then []
    else match arrivals[0]
      case Deliver(m) => [m] + Delivered(arrivals[1..])
      case Interrupt => Delivered(arrivals[1..])
  }

  /** The waiting phase: how many arrivals it consumed, the messages among
      them, the state it leaves, and how it ended (`None`: still waiting
      when the arrivals run out). */
  datatype Waiting<J> = Waiting(consumed: nat, delivered: seq<Message>, state: State<J>, end: Option<WaitEnd>)

  /** Waiting on the completion flag with no timeout: it returns as soon as
      the flag is set (also when set before the wait) or an interrupt
      arrives, and otherwise keeps running callbacks. */
  function Listen<J>(dec: Decoder<J>, target: int, s: State<J>, arrivals: seq<Arrival>): (r: Waiting<J>)
    ensures r.state == Run(dec, target, s, r.delivered)
    ensures r.end == Some(Completed) <==> r.state.done
    decreases |arrivals|
  {
    if s.done then
      Waiting(0, [], s, Some(Completed))
    else if arrivals == [] then
      Waiting(0, [], s, None)
    else
      match arrivals[0]
      case Interrupt => Waiting(0, [], s, Some(Interrupted))
      case Deliver(m) =>
        var rest := Listen(dec, target, Step(dec, target, s, m), arrivals[1..]);
        Waiting(rest.consumed + 1, [m] + rest.delivered, rest.state, rest.end)
  }

  /** The wait consumes a prefix of the arrivals made only of deliveries;
      an interrupt ends it at that interrupt, and a wait still running has
      consumed every arrival. */
  lemma {:induction false} ListenConsumesPrefix<J>(dec: Decoder<J>, target: int, s: State<J>, arrivals: seq<Arrival>)
    ensures var r := Listen(dec, target, s, arrivals);
            && r.consumed <= |arrivals|
            && r.delivered == Delivered(arrivals[..r.consumed])
            && (forall i :: 0 <= i < r.consumed ==> arrivals[i].Deliver?)
            && (r.end == Some(Interrupted) ==> r.consumed < |arrivals| && arrivals[r.consumed] == Interrupt)
            && (r.end == None ==> r.consumed == |arrivals|)
    decreases |arrivals|
  {
    if !s.done && arrivals != [] {
      match arrivals[0]
      case Interrupt =>
        assert arrivals[..0] == [];
      case Deliver(m) =>
        var s' := Step(dec, target, s, m);
        ListenConsumesPrefix(dec, target, s', arrivals[1..]);
        var rest := Listen(dec, target, s', arrivals[1..]);
        assert arrivals[..rest.consumed + 1][1..] == arrivals[1..][..rest.consumed];
    }
  }

  /** No proper prefix of `msgs` sets the flag when run from `s`. */
  ghost predicate NoEarlierCompletion<J>(dec: Decoder<J>, target: int, s: State<J>, msgs: seq<Message>) {
    forall k :: 0 <= k < |msgs| ==> !Run(dec, target, s, msgs[..k]).done
  }

  /** The waiting phase stops at the first callback that sets the flag:
      no shorter run of the delivered messages had set it. */
  lemma {:induction false} ListenStopsAtFirstCompletion<J>(dec: Decoder<J>, target: int, s: State<J>, arrivals: seq<Arrival>)
    ensures NoEarlierCompletion(dec, target, s, Listen(dec, target, s, arrivals).delivered)
    decreases |arrivals|
  {
    var w := Listen(dec, target, s, arrivals);
    if !s.done && arrivals != [] && arrivals[0].Deliver? {
      var m := arrivals[0].msg;
      var s' := Step(dec, target, s, m);
      var rest := Listen(dec, target, s', arrivals[1..]);
      ListenStopsAtFirstCompletion(dec, target, s', arrivals[1..]);
      assert w.delivered == [m] + rest.delivered;
      forall k | 0 <= k < |w.delivered|
        ensures !Run(dec, target, s, w.delivered[..k]).done
      {
        var pre := w.delivered[..k];
        if k == 0 {
          assert pre == [];
        } else {
          assert pre[0] == m;
          assert pre[1..] == rest.delivered[..k - 1];
        }
      }
    }
  }

  /** How waiting for the cancelled stream (`streaming_pull_future.result`)
      ended when one of the `finally` block's handlers covers it: it
      returned, it timed out, or it raised another exception. In every case
      the function goes on to close the client and upload. The `subscribe`
      call does not ask the client to wait for running callbacks on
      shutdown, so even a clean return can leave callbacks running; `late`
      are the callbacks that still complete after the upload has read the
      list. */
  datatype DrainEnd =
    | Closed(late: seq<Message>)
    | DrainTimedOut(late: seq<Message>)
    | DrainFailed(late: seq<Message>)

  /** How the shutdown after the wait ended. A keyboard interrupt during
      the drain is not an `Exception`: no handler catches it, so it leaves
      `consume_and_aggregate_messages` before the client is closed and
      before the upload. */
  datatype Shutdown = Drained(how: DrainEnd) | DrainInterrupted

  /** How a consumer run ends. `Blocked`: the wait never returned within the
      given arrivals (the wait has no timeout). `Aborted`: the wait ended
      but an interrupt during the drain escaped, so nothing was uploaded.
      `Finished`: `state` is the state the upload read; the drain end
      carries the callbacks that complete after it. */
  datatype Consumption<J> =
    | Rejected(error: SettingsError)
    | Blocked(path: string, state: State<J>)
    | Aborted(path: string, wait: WaitEnd, state: State<J>)
    | Finished(path: string, wait: WaitEnd, drain: DrainEnd, state: State<J>, upload: Upload<J>)

  /** `consume_and_aggregate_messages` after validation: choose the path,
      wait, cancel and drain (callbacks already dispatched, `inflight`,
      still complete), then upload whatever the list holds, unless an
      interrupt during the drain escapes first. */
  function RunJob<J>(job: Job, dec: Decoder<J>, arrivals: seq<Arrival>,
                     inflight: seq<Message>, shutdown: Shutdown, writeOk: bool): (r: Consumption<J>)
    ensures !r.Rejected?
    ensures r.path == SubscriptionPath(job.project, job.subscription)
    ensures r.Finished? ==> shutdown == Drained(r.drain)
    ensures r.Finished? ==> r.upload == UploadAggregate(job.bucket, job.filename, r.state.accumulated, writeOk)
    ensures r.Aborted? ==> shutdown == DrainInterrupted
  {
    var path := SubscriptionPath(job.project, job.subscription);
    var w := Listen(dec, job.expected, Init(), arrivals);
    match w.end
    case None => Blocked(path, w.state)
    case Some(how) =>
      var final := Run(dec, job.expected, w.state, inflight);
      match shutdown
      case DrainInterrupted => Aborted(path, how, final)
      case Drained(drain) =>
        Finished(path, how, drain, final,
                 UploadAggregate(job.bucket, job.filename, final.accumulated, writeOk))
  }

  /** `consume_and_aggregate_messages`: invalid settings end the run before
      subscribing; valid ones run the job they describe. */
  function Consume<J>(settings: Settings, dec: Decoder<J>, arrivals: seq<Arrival>,
                      inflight: seq<Message>, shutdown: Shutdown, writeOk: bool): (r: Consumption<J>)
    ensures r.Rejected? <==> CheckSettings(settings).Failure?
    ensures r.Rejected? ==> r.error == CheckSettings(settings).error
    ensures !r.Rejected? ==> r.path == SubscriptionPath(settings.projectId.value, settings.subscriptionId.value)
    ensures !r.Rejected? ==> IsFullPath(r.path)
    ensures r.Finished? ==> shutdown == Drained(r.drain)
    ensures r.Finished? ==>
              r.upload == UploadAggregate(settings.bucket.value, settings.filename.value, r.state.accumulated, writeOk)
    ensures r.Aborted? ==> shutdown == DrainInterrupted
    ensures CheckSettings(settings).Success? ==>
              r == RunJob(CheckSettings(settings).value, dec, arrivals, inflight, shutdown, writeOk)
  {
    match CheckSettings(settings)
    case Failure(e) => Rejected(e)
    case Success(job) => RunJob(job, dec, arrivals, inflight, shutdown, writeOk)
  }

  /** The state a finished run uploads is the run of every message whose
      callback completed before the upload. */
  lemma FinishedRunsAll<J>(job: Job, dec: Decoder<J>, arrivals: seq<Arrival>,
                           inflight: seq<Message>, shutdown: Shutdown, writeOk: bool)
    requires RunJob(job, dec, arrivals, inflight, shutdown, writeOk).Finished?
    ensures var r := RunJob(job, dec, arrivals, inflight, shutdown, writeOk);
            r.state == Run(dec, job.expected, Init(), Listen(dec, job.expected, Init(), arrivals).delivered + inflight)
  {
    var w := Listen(dec, job.expected, Init(), arrivals);
    RunAppend(dec, job.expected, Init(), w.delivered, inflight);
  }

  /** A finished run of a validated job (positive count) uploads exactly
      the values decoded from every message whose callback completed before
      the upload, in order; every one of those messages was acknowledged;
      the flag agrees with the list length; a run that ended by completion
      holds at least the expected count. */
  lemma ConsumeUploadsWhatWasAccumulated<J>(job: Job, dec: Decoder<J>, arrivals: seq<Arrival>,
                                            inflight: seq<Message>, shutdown: Shutdown, writeOk: bool)
    requires job.expected >= 1
    requires RunJob(job, dec, arrivals, inflight, shutdown, writeOk).Finished?
    ensures var r := RunJob(job, dec, arrivals, inflight, shutdown, writeOk);
            var all := Listen(dec, job.expected, Init(), arrivals).delivered + inflight;
            && r.state.accumulated == Successes(dec, all)
            && r.state.acked == multiset(Ids(all))
            && (r.state.done <==> |r.state.accumulated| >= job.expected)
            && (r.wait == Completed ==> |r.state.accumulated| >= job.expected)
            && (r.state.accumulated == [] ==> r.upload.written == [])
            && (r.state.accumulated != [] && writeOk ==>
                  r.upload.written == [Artifact(job.bucket, job.filename, r.state.accumulated)])
  {
    var target := job.expected;
    var all := Listen(dec, target, Init(), arrivals).delivered + inflight;
    FinishedRunsAll(job, dec, arrivals, inflight, shutdown, writeOk);
    RunAccumulates(dec, target, Init(), all);
    RunAcknowledgesAll(dec, target, Init(), all);
    RunKeepsConsistent(dec, target, Init(), all);
    var r := RunJob(job, dec, arrivals, inflight, shutdown, writeOk);
    if r.wait == Completed {
      RunNeverClears(dec, target, Listen(dec, target, Init(), arrivals).state, inflight);
    }
  }

  /** Given the callbacks that complete before the upload, the drain's
      outcome (closed, timed out, failed) has no effect on the state the
      upload reads or on what is uploaded. */
  lemma DrainOutcomeIrrelevant<J>(job: Job, dec: Decoder<J>, arrivals: seq<Arrival>,
                                  inflight: seq<Message>, d1: DrainEnd, d2: DrainEnd, writeOk: bool)
    requires RunJob(job, dec, arrivals, inflight, Drained(d1), writeOk).Finished?
    ensures var r1 := RunJob(job, dec, arrivals, inflight, Drained(d1), writeOk);
            var r2 := RunJob(job, dec, arrivals, inflight, Drained(d2), writeOk);
            r2.Finished? && r2.state == r1.state && r2.upload == r1.upload && r2.wait == r1.wait
  {
  }

  /** An interrupt during the drain loses the upload: the interrupted run
      has acknowledged every message whose callback ran and holds all their
      decoded values, yet writes nothing, where a handled drain outcome
      would have uploaded that same list. */
  lemma DrainInterruptLosesUpload<J>(job: Job, dec: Decoder<J>, arrivals: seq<Arrival>,
                                     inflight: seq<Message>, d: DrainEnd, writeOk: bool)
    requires RunJob(job, dec, arrivals, inflight, DrainInterrupted, writeOk).Aborted?
    ensures var lost := RunJob(job, dec, arrivals, inflight, DrainInterrupted, writeOk);
            var all := Listen(dec, job.expected, Init(), arrivals).delivered + inflight;
            var done := RunJob(job, dec, arrivals, inflight, Drained(d), writeOk);
            && lost.state.acked == multiset(Ids(all))
            && lost.state.accumulated == Successes(dec, all)
            && done.Finished?
            && done.path == lost.path && done.wait == lost.wait && done.state == lost.state
            && done.upload == UploadAggregate(job.bucket, job.filename, lost.state.accumulated, writeOk)
  {
    var w := Listen(dec, job.expected, Init(), arrivals);
    var all := w.delivered + inflight;
    RunAppend(dec, job.expected, Init(), w.delivered, inflight);
    RunAccumulates(dec, job.expected, Init(), all);
    RunAcknowledgesAll(dec, job.expected, Init(), all);
  }

  /** Callbacks that complete after the upload, which every handled drain
      outcome allows, are acknowledged and their values appended to the
      list, but the artifact holds only the list as the upload read it. */
  lemma LateCallbacksNotUploaded<J>(job: Job, dec: Decoder<J>, arrivals: seq<Arrival>,
                                    inflight: seq<Message>, shutdown: Shutdown, writeOk: bool)
    requires RunJob(job, dec, arrivals, inflight, shutdown, writeOk).Finished?
    ensures var r := RunJob(job, dec, arrivals, inflight, shutdown, writeOk);
            var late := r.drain.late;
            var after := Run(dec, job.expected, r.state, late);
            && after.acked == r.state.acked + multiset(Ids(late))
            && after.accumulated == r.state.accumulated + Successes(dec, late)
            && (r.upload.written != [] ==> r.upload.written[0].records == r.state.accumulated)
  {
    var r := RunJob(job, dec, arrivals, inflight, shutdown, writeOk);
    var late := r.drain.late;
    RunAccumulates(dec, job.expected, r.state, late);
    RunAcknowledgesAll(dec, job.expected, r.state, late);
  }

  /** The wait never returns exactly when no interrupt arrives and fewer
      messages decode than the target. */
  lemma ListenWaitsBelowTarget<J>(dec: Decoder<J>, target: int, arrivals: seq<Arrival>)
    requires target >= 1
    ensures Listen(dec, target, Init(), arrivals).end == None <==>
              && (forall i :: 0 <= i < |arrivals| ==> arrivals[i].Deliver?)
              && |Successes(dec, Delivered(arrivals))| < target
  {
    var w := Listen(dec, target, Init(), arrivals);
    ListenConsumesPrefix(dec, target, Init(), arrivals);
    DeliveredSplit(arrivals, w.consumed);
    SuccessesAppend(dec, w.delivered, Delivered(arrivals[w.consumed..]));
    DoneExactlyWhenTargetReached(dec, target, w.delivered);
    if w.end == None {
      assert arrivals[..w.consumed] == arrivals;
    } else if (forall i :: 0 <= i < |arrivals| ==> arrivals[i].Deliver?)
              && |Successes(dec, Delivered(arrivals))| < target {
      assert !w.state.done;
      match w.end {
        case None =>
        case Some(Completed) => assert false;
        case Some(Interrupted) => assert false;
      }
    }
  }

  /** With valid settings, the consumer keeps waiting, with nothing
      uploaded, exactly when no interrupt arrives and fewer messages
      decode than expected. */
  lemma BlockedBelowTarget<J>(settings: Settings, dec: Decoder<J>, arrivals: seq<Arrival>,
                              inflight: seq<Message>, shutdown: Shutdown, writeOk: bool)
    requires CheckSettings(settings).Success?
    ensures Consume(settings, dec, arrivals, inflight, shutdown, writeOk).Blocked? <==>
              && (forall i :: 0 <= i < |arrivals| ==> arrivals[i].Deliver?)
              && |Successes(dec, Delivered(arrivals))| < settings.expectedCount
  {
    ListenWaitsBelowTarget(dec, settings.expectedCount, arrivals);
  }

  lemma {:induction false} DeliveredSplit(arrivals: seq<Arrival>, k: nat)
    requires k <= |arrivals|
    ensures Delivered(arrivals) == Delivered(arrivals[..k]) + Delivered(arrivals[k..])
    decreases k
  {
    if k > 0 {
      DeliveredSplit(arrivals[1..], k - 1);
      assert arrivals[1..][..k - 1] == arrivals[..k][1..];
      assert arrivals[1..][k - 1..] == arrivals[k..];
    } else {
      assert arrivals[..0] == [] && arrivals[0..] == arrivals;
    }
  }
}
