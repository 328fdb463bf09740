/** The storage-event handler that fans a JSON list out into one broker
    message per element (`gcs_event_handler`), in its two variants: the
    one that then starts the downstream job, and the deployed copy that
    only publishes.

    Storage, the broker, the job runner and the JSON codec are abstract:
    whether the blob exists and what it parses to, the index of the first
    publish the broker rejects, and whether the job starts are inputs;
    serializing one element is the function `encode`. */
module Fanout {
  import opened Common

  /** The fields the handler reads from the storage event. */
  datatype StorageEvent = StorageEvent(bucket: Option<string>, name: Option<string>, metageneration: Option<string>)

  /** The handler's environment settings. The deployed variant reads only
      the first two. */
  datatype Env = Env(projectId: Option<string>, topicId: Option<string>,
                     jobName: Option<string>, jobRegion: Option<string>)

  /** What the uploaded file parses to. */
  datatype Parsed<J> = JsonList(items: seq<J>) | NotAList

  /** The blob as the handler finds it: absent, unreadable (downloading or
      parsing it raises), or present and parsed. */
  datatype Blob<J> = Missing | Unreadable | Found(content: Parsed<J>)

  /** The handler's early returns: nothing is published. */
  datatype SkipReason = NotNewObject | MissingSetting | BlobNotFound | ContentNotAList

  /** Why the handler re-raised. */
  datatype Fault = ReadFailed | PublishFailed(index: nat)

  /** The downstream job: not requested, started, or requested and failed
      (the failure is caught and does not propagate). */
  datatype JobRun = NoJob | JobStarted | JobStartFailed

  /** How one handler invocation ends. `Raised` keeps the payloads that were
      published before the failure: they are not withdrawn. */
  datatype Outcome =
    | Skipped(reason: SkipReason)
    | Raised(fault: Fault, sent: seq<Payload>)
    | Published(payloads: seq<Payload>, job: JobRun)

  /** Every element serialized, in order. */
  function EncodeAll<J>(encode: J -> Payload, items: seq<J>): seq<Payload> {
    seq(|items|, i requires 0 <= i < |items| => encode(items[i]))
  }

  /** The result of the publish loop. */
  datatype Publishing = AllSent(sent: seq<Payload>) | StoppedAt(index: nat, sent: seq<Payload>)

  /** Reference definition of the publish loop: with the broker rejecting
      the publish of element `k` (if `k` is in range), exactly the elements
      before `k` are sent; otherwise all of them. */
  function PublishEach<J>(encode: J -> Payload, items: seq<J>, rejectedAt: Option<nat>): Publishing {
    if rejectedAt.Some? && rejectedAt.value < |items| then
      StoppedAt(rejectedAt.value, EncodeAll(encode, items[..rejectedAt.value]))
    else
      AllSent(EncodeAll(encode, items))
  }

  /** The publish loop of `gcs_event_handler`: serialize, publish and wait for each element in
      turn, counting the successes; a rejected publish ends the loop. */
  method PublishLoop<J>(encode: J -> Payload, items: seq<J>, rejectedAt: Option<nat>)
    returns (sent: seq<Payload>, publishedCount: nat, failed: Option<nat>)
    ensures publishedCount == |sent|
    ensures failed.None? ==> PublishEach(encode, items, rejectedAt) == AllSent(sent)
    ensures failed.Some? ==> PublishEach(encode, items, rejectedAt) == StoppedAt(failed.value, sent)
  {
    sent := [];
    publishedCount := 0;
    failed := None;
    var i := 0;
    while i < |items|
      invariant 0 <= i <= |items|
      invariant publishedCount == i
      invariant sent == EncodeAll(encode, items[..i])
      invariant rejectedAt.None? || rejectedAt.value >= i
    {
      var payload := encode(items[i]);
      if rejectedAt == Some(i) {
        failed := Some(i);
        return;
      }
      sent := sent + [payload];
      publishedCount := publishedCount + 1;
      i := i + 1;
    }
    assert items[..i] == items;
  }

  /** The guards shared by both variants after the settings check: the blob
      must exist and parse to a list; then every element is published. */
  function PublishBlob<J>(blob: Blob<J>, encode: J -> Payload, rejectedAt: Option<nat>): Outcome {
    match blob
    case Missing => Skipped(BlobNotFound)
    case Unreadable => Raised(ReadFailed, [])
    case Found(NotAList) => Skipped(ContentNotAList)
    case Found(JsonList(items)) =>
      match PublishEach(encode, items, rejectedAt)
      case StoppedAt(k, sent) => Raised(PublishFailed(k), sent)
      case AllSent(sent) => Published(sent, NoJob)
  }

  /** Only the first generation of an object is processed. */
  predicate IsNewObject(ev: StorageEvent) {
    ev.metageneration == Some("1")
  }

  /** The handler that starts the downstream job: four settings and both
      event fields are required, and the job is started after a fully
      successful publish of at least one message. */
  function HandleWithJob<J>(env: Env, ev: StorageEvent, blob: Blob<J>, encode: J -> Payload,
                            rejectedAt: Option<nat>, jobStarts: bool): (r: Outcome)
    ensures !IsNewObject(ev) ==> r == Skipped(NotNewObject)
    ensures IsNewObject(ev) &&
            !AllGiven([env.projectId, env.topicId, env.jobName, env.jobRegion, ev.bucket, ev.name]) ==>
              r == Skipped(MissingSetting)
    ensures r.Published? ==>
              && blob.Found? && blob.content.JsonList?
              && |r.payloads| == |blob.content.items|
              && (forall i :: 0 <= i < |r.payloads| ==> r.payloads[i] == encode(blob.content.items[i]))
              && (r.job != NoJob <==> |r.payloads| > 0)
              && (r.job != NoJob ==> (r.job == JobStarted <==> jobStarts))
  {
    if !IsNewObject(ev) then
      Skipped(NotNewObject)
    else if !(AllGiven([env.projectId, env.topicId, env.jobName, env.jobRegion])
              && AllGiven([ev.bucket, ev.name])) then
      assert !AllGiven([env.projectId, env.topicId, env.jobName, env.jobRegion, ev.bucket, ev.name]) by {
        if !AllGiven([env.projectId, env.topicId, env.jobName, env.jobRegion]) {
          var i :| 0 <= i < 4 && !Given([env.projectId, env.topicId, env.jobName, env.jobRegion][i]);
          assert [env.projectId, env.topicId, env.jobName, env.jobRegion, ev.bucket, ev.name][i]
              == [env.projectId, env.topicId, env.jobName, env.jobRegion][i];
        } else {
          var i :| 0 <= i < 2 && !Given([ev.bucket, ev.name][i]);
          assert [env.projectId, env.topicId, env.jobName, env.jobRegion, ev.bucket, ev.name][4 + i]
              == [ev.bucket, ev.name][i];
        }
      }
      Skipped(MissingSetting)
    else
      assert AllGiven([env.projectId, env.topicId, env.jobName, env.jobRegion, ev.bucket, ev.name]) by {
        forall i | 0 <= i < 6
          ensures Given([env.projectId, env.topicId, env.jobName, env.jobRegion, ev.bucket, ev.name][i])
        {
          if i < 4 {
            assert Given([env.projectId, env.topicId, env.jobName, env.jobRegion][i]);
          } else {
            assert Given([ev.bucket, ev.name][i - 4]);
          }
        }
      }
      match PublishBlob(blob, encode, rejectedAt)
      case Published(sent, _) =>
        Published(sent, if |sent| > 0 then (if jobStarts then JobStarted else JobStartFailed) else NoJob)
      case other => other
  }

  /** The deployed variant: only project and topic are required among the
      settings, and no job is started. */
  function HandlePublishOnly<J>(env: Env, ev: StorageEvent, blob: Blob<J>, encode: J -> Payload,
                                rejectedAt: Option<nat>): (r: Outcome)
    ensures !IsNewObject(ev) ==> r == Skipped(NotNewObject)
    ensures IsNewObject(ev) && !AllGiven([env.projectId, env.topicId, ev.bucket, ev.name]) ==>
              r == Skipped(MissingSetting)
    ensures r.Published? ==>
              && r.job == NoJob
              && blob.Found? && blob.content.JsonList?
              && |r.payloads| == |blob.content.items|
              && (forall i :: 0 <= i < |r.payloads| ==> r.payloads[i] == encode(blob.content.items[i]))
    ensures IsNewObject(ev) && AllGiven([env.projectId, env.topicId, ev.bucket, ev.name]) ==>
              && (blob == Missing ==> r == Skipped(BlobNotFound))
              && (blob == Found(NotAList) ==> r == Skipped(ContentNotAList))
              && (blob == Unreadable ==> r == Raised(ReadFailed, []))
              && (blob.Found? && blob.content.JsonList? ==>
                    var items := blob.content.items;
                    if rejectedAt.Some? && rejectedAt.value < |items| then
                      r == Raised(PublishFailed(rejectedAt.value), EncodeAll(encode, items[..rejectedAt.value]))
                    else
                      r == Published(EncodeAll(encode, items), NoJob))
  {
    if !IsNewObject(ev) then
      Skipped(NotNewObject)
    else if !AllGiven([env.projectId, env.topicId, ev.bucket, ev.name]) then
      Skipped(MissingSetting)
    else
      PublishBlob(blob, encode, rejectedAt)
  }

  /** Past the guards, the outcome is decided by the blob alone: absent or
      not a list publishes nothing, unreadable re-raises, and a list is
      published element by element until the broker rejects one. */
  lemma GuardsPassed<J>(env: Env, ev: StorageEvent, blob: Blob<J>, encode: J -> Payload,
                        rejectedAt: Option<nat>, jobStarts: bool)
    requires IsNewObject(ev)
    requires AllGiven([env.projectId, env.topicId, env.jobName, env.jobRegion, ev.bucket, ev.name])
    ensures var r := HandleWithJob(env, ev, blob, encode, rejectedAt, jobStarts);
            && (blob == Missing ==> r == Skipped(BlobNotFound))
            && (blob == Found(NotAList) ==> r == Skipped(ContentNotAList))
            && (blob == Unreadable ==> r == Raised(ReadFailed, []))
            && (blob.Found? && blob.content.JsonList? ==>
                  var items := blob.content.items;
                  if rejectedAt.Some? && rejectedAt.value < |items| then
                    r == Raised(PublishFailed(rejectedAt.value), EncodeAll(encode, items[..rejectedAt.value]))
                  else
                    r.Published? && r.payloads == EncodeAll(encode, items))
  {
    var s := [env.projectId, env.topicId, env.jobName, env.jobRegion, ev.bucket, ev.name];
    assert Given(s[0]) && Given(s[1]) && Given(s[2]) && Given(s[3]) && Given(s[4]) && Given(s[5]);
    assert AllGiven([env.projectId, env.topicId, env.jobName, env.jobRegion]);
    assert AllGiven([ev.bucket, ev.name]);
  }

  /** A publish failure stops the loop with a strict prefix of the list
      sent, re-raises, and starts no job. */
  lemma PublishFailureStopsEarly<J>(env: Env, ev: StorageEvent, blob: Blob<J>, encode: J -> Payload,
                                    rejectedAt: Option<nat>, jobStarts: bool)
    requires HandleWithJob(env, ev, blob, encode, rejectedAt, jobStarts).Raised?
    ensures var r := HandleWithJob(env, ev, blob, encode, rejectedAt, jobStarts);
            r.fault.PublishFailed? ==>
              && blob.Found? && blob.content.JsonList?
              && r.fault.index == |r.sent| < |blob.content.items|
              && r.sent == EncodeAll(encode, blob.content.items[..|r.sent|])
  {
  }

  /** The two variants agree once the job runner's settings are given,
      whatever the deployed copy's own environment says about them (it
      never reads them): the deployed copy publishes the same messages and
      differs only in not starting the job. */
  lemma VariantsAgreeOnPublishing<J>(env: Env, ev: StorageEvent, blob: Blob<J>, encode: J -> Payload,
                                     rejectedAt: Option<nat>, jobStarts: bool,
                                     jobName: string, jobRegion: string)
    requires jobName != "" && jobRegion != ""
    ensures var full := HandleWithJob(env.(jobName := Some(jobName), jobRegion := Some(jobRegion)),
                                      ev, blob, encode, rejectedAt, jobStarts);
            var lean := HandlePublishOnly(env, ev, blob, encode, rejectedAt);
            if full.Published? then lean == Published(full.payloads, NoJob) else lean == full
  {
    var four := [env.projectId, env.topicId, Some(jobName), Some(jobRegion)];
    var two := [ev.bucket, ev.name];
    var lean := [env.projectId, env.topicId, ev.bucket, ev.name];
    assert Given(four[2]) && Given(four[3]);
    assert AllGiven(lean) <==> AllGiven(four) && AllGiven(two) by {
      if AllGiven(lean) {
        assert Given(lean[0]) && Given(lean[1]) && Given(lean[2]) && Given(lean[3]);
        assert AllGiven(four) && AllGiven(two);
      }
      if AllGiven(four) && AllGiven(two) {
        assert Given(four[0]) && Given(four[1]) && Given(two[0]) && Given(two[1]);
      }
    }
  }
}
