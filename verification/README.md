# Aggregation consumer and file fan-out, modelled in Dafny

This project models the two pieces of decision logic in a set of cloud glue
scripts. The scripts move batches of JSON records between a blob store and a
message broker.

1. **The aggregation consumer** (`src/pubsub_subscriber_job/subscriber.py`).
   Each delivered message runs one callback. The callback decodes the payload,
   first as UTF-8 and then as JSON. On success it appends the value to an
   ordered list, acknowledges the message, and sets a completion flag once the
   list holds the expected count. On any failure it acknowledges the message
   and changes nothing else. Around the callback sit four more steps:
   settings validation, the choice of subscription path, a wait for the flag
   or an interrupt, and the upload of the list.
2. **The file-to-messages fan-out** (`gcs_event_handler`, in
   `src/gcs_to_pubsub_publisher_cf/main.py` and its deployed copy
   `infra/function_source/main.py`). The handler is a chain of guards,
   followed by one publish per element of the uploaded JSON list, in order.
   The first variant then starts the downstream job, but only when at least
   one message was published.

Files:

- `common.dfy` (module `Common`) holds optional values and results. It also
  holds the truthiness test that Python's `all([...])` applies to optional
  settings (set and non-empty), the `Payload` type, and substring search for
  Python's `in` on strings.
- `accumulator.dfy` (module `Accumulator`) has the callback as a pure step on
  the state `(accumulated, acked, done)`. It also defines runs of that step
  over any delivery sequence and the inductive lemmas about those runs.
- `consumer.dfy` (module `Consumer`) covers settings validation, the
  subscription path, the upload, the wait phase and the whole consumer run.
- `fanout.dfy` (module `Fanout`) covers both handler variants, the publish
  loop, and the job decision.

The libraries are abstract:

- UTF-8 decoding and `json.loads` are function-valued fields of a `Decoder`.
  `None` stands for the library raising.
- A JSON value is any value of a type parameter `J`.
- `json.dumps` followed by encoding is a function `encode`.
- Acknowledging a message adds its id to the `acked` multiset.
- A storage write is an `Artifact` in the upload's `written` list.
- A publish is a payload in the handler's outcome.

These broker and storage answers are inputs to the model:

- the arrivals during the wait;
- the callbacks that finish after the wait has returned;
- how the drain ended, including an interrupt during it, and the callbacks that
  complete only after the upload;
- whether the write succeeds;
- whether the blob exists and what it parses to;
- which publish is rejected;
- whether the job starts.

A few source details the model makes explicit:

- The callback compares the list length with the module-level
  `EXPECTED_MESSAGES_COUNT`. The validation checks the `expected_count`
  parameter. `main` passes one as the other, so the model uses a single
  target for both.
- `received_all_event.wait()` has no timeout. A run in which the flag is never
  set and no interrupt arrives ends as `Blocked`: the process keeps waiting.
  The program's own comment at `src/pubsub_subscriber_job/subscriber.py:110-111`
  notes that a timeout could be added there; none is.
- The list is not capped at the target. Messages whose callbacks complete
  after the flag is set are still appended.
- When the publish at index `k` fails, the elements before `k` have already
  been published. The outcome `Raised` keeps them, because the re-raise does
  not withdraw them.

## Model

| member | source | states |
|---|---|---|
| `Accumulator.Step` | src/pubsub_subscriber_job/subscriber.py:24-53 | one callback acknowledges its message on every path; a decoded value is appended at the end and the flag is set exactly when it was set or the list reached the target; a decode failure leaves list and flag unchanged; a set flag stays set |
| `Accumulator.RunAccumulates` | src/pubsub_subscriber_job/subscriber.py:32-41 | after any delivery sequence the list is the earlier list followed by exactly the values that decoded, in arrival order, with no cap at the target |
| `Accumulator.RunAcknowledgesAll` | src/pubsub_subscriber_job/subscriber.py:29-53 | after any delivery sequence the acknowledged ids are the earlier ones plus the id of every delivered message, once per delivery, whether it decoded or not |
| `Accumulator.FailuresChangeNothing` | src/pubsub_subscriber_job/subscriber.py:43-53 | messages that all fail to decode leave the list and the flag as they were |
| `Accumulator.RunNeverClears` | src/pubsub_subscriber_job/subscriber.py:39-41 | once the completion flag is set, no later callback clears it |
| `Accumulator.RunKeepsConsistent` | src/pubsub_subscriber_job/subscriber.py:35-41 | if the flag agrees with "list length at least target" before a run, it agrees after it |
| `Accumulator.DoneExactlyWhenTargetReached` | src/pubsub_subscriber_job/subscriber.py:35-41 | from an empty list and unset flag with target at least 1, the flag is set exactly when at least target messages decoded |
| `Accumulator.ListOnlyGrows` | src/pubsub_subscriber_job/subscriber.py:35 | the list after any prefix of a delivery sequence is a prefix of the list after the whole sequence |
| `Accumulator.CrossesAtMostOnce` | src/pubsub_subscriber_job/subscriber.py:39-41 | from a consistent state the flag turns from unset to set at most once, and exactly once when the run brings the list to the target |
| `Accumulator.CompletionSignalledOnce` | src/pubsub_subscriber_job/subscriber.py:39-41 | from the initial state the completion signal fires once if at least target messages decode, never otherwise; later successes re-set it with no effect |
| `Common.Contains` | src/pubsub_subscriber_job/subscriber.py:95 | the substring test answers true exactly when the needle occurs contiguously in the text |
| `Consumer.CheckSettings` | src/pubsub_subscriber_job/subscriber.py:83-91 | validation succeeds if and only if all four text settings are set and non-empty and the count is positive; a missing setting is reported before a bad count; a success carries the given values |
| `Consumer.SubscriptionPath` | src/pubsub_subscriber_job/subscriber.py:94-100 | an id containing both "projects/" and "/subscriptions/" is used verbatim, otherwise the path is built as projects/{project}/subscriptions/{id}; the result always contains both markers |
| `Consumer.BuiltPathIsFull` | src/subscriber.py:21-23 | a path built in the documented form projects/{project}/subscriptions/{id} contains both markers |
| `Consumer.SubscriptionPathIdempotent` | src/pubsub_subscriber_job/subscriber.py:94-100 | choosing the path again from a chosen path returns it unchanged |
| `Consumer.UploadAggregate` | src/pubsub_subscriber_job/subscriber.py:56-72 | an empty list writes nothing and reports nothing to upload; a non-empty list is written once, as one object holding the whole list at the given destination, when the write succeeds; a failed write is reported and leaves nothing written |
| `Consumer.Listen` | src/pubsub_subscriber_job/subscriber.py:108-115 | the state the wait leaves is the run of the callbacks it let through, and the wait ends by completion exactly when that state has the flag set |
| `Consumer.ListenConsumesPrefix` | src/pubsub_subscriber_job/subscriber.py:108-115 | the wait consumes a prefix of the arrivals made only of deliveries; it ends by interrupt only at an interrupt; a wait that has not returned has consumed every arrival |
| `Consumer.ListenStopsAtFirstCompletion` | src/pubsub_subscriber_job/subscriber.py:109-113 | the wait returns at the first callback that sets the flag: no shorter run of the delivered messages had set it |
| `Consumer.ListenWaitsBelowTarget` | src/pubsub_subscriber_job/subscriber.py:108-115 | the wait never returns if and only if no interrupt arrives and fewer messages decode than the target |
| `Consumer.RunJob` | src/pubsub_subscriber_job/subscriber.py:93-132 | a validated run subscribes to the path chosen from the job's project and subscription; when the drain outcome is handled it uploads the list as it stands to the job's bucket and file name; it ends without an upload only through an interrupt during the drain |
| `Consumer.Consume` | src/pubsub_subscriber_job/subscriber.py:75-132 | invalid settings end the run before subscribing, with the validation's error and no upload; valid settings run exactly the job they describe; the run subscribes to the path chosen from the project and subscription settings, which is a full path; a handled drain outcome is only reported and the run uploads the list as it stands to the configured bucket and file name, and an interrupt during the drain ends the run without the upload |
| `Consumer.FinishedRunsAll` | src/pubsub_subscriber_job/subscriber.py:116-132 | after the wait ends, by completion or interrupt, the state the upload reads is the run over every message whose callback completed before the upload, including those finishing during the drain |
| `Consumer.ConsumeUploadsWhatWasAccumulated` | src/pubsub_subscriber_job/subscriber.py:130-132 | a finished run of a validated job uploads exactly the decoded values, in order, of every message whose callback completed before the upload; each of those messages was acknowledged; the flag agrees with the count; a run ended by completion holds at least the expected count; an empty list writes nothing |
| `Consumer.DrainInterruptLosesUpload` | src/pubsub_subscriber_job/subscriber.py:116-132 | a keyboard interrupt while waiting for the cancelled stream escapes every handler: every message whose callback ran is acknowledged and its decoded value is in the list, yet nothing is written, where a handled drain outcome would have uploaded that same list from the same path and state |
| `Consumer.DrainOutcomeIrrelevant` | src/pubsub_subscriber_job/subscriber.py:117-126 | given the callbacks that complete before the upload, a clean close, a drain timeout and a drain error lead to the same state at the upload and the same upload |
| `Consumer.LateCallbacksNotUploaded` | src/pubsub_subscriber_job/subscriber.py:119-132 | callbacks may still be running when the list is uploaded, after a clean drain as well as after a drain timeout or error: those completing later are acknowledged and appended, but the artifact holds only the list as the upload read it |
| `Consumer.BlockedBelowTarget` | src/pubsub_subscriber_job/subscriber.py:105-115 | with valid settings, the consumer keeps waiting, with nothing uploaded, if and only if no interrupt arrives and fewer messages decode than expected |
| `Fanout.PublishLoop` | src/gcs_to_pubsub_publisher_cf/main.py:83-88 | the loop publishes the serialized elements in list order, each once, and counts them; a rejected publish stops it with exactly the earlier elements sent; it agrees with the closed-form reference `PublishEach` |
| `Fanout.HandleWithJob` | src/gcs_to_pubsub_publisher_cf/main.py:40-97 | a metageneration other than "1" skips, before any other check; a missing setting or event field skips; a publish outcome requires an existing blob that parsed to a list and holds one serialized payload per element in order; the job runs if and only if at least one message was published, and its failure does not turn the outcome into an error |
| `Fanout.HandlePublishOnly` | infra/function_source/main.py:24-71 | a metageneration other than "1" skips; a missing project, topic, bucket or file name skips; past those guards a missing blob and content that is not a list skip, an unreadable blob re-raises with nothing published, and a list is published whole, one serialized payload per element in order, or up to the rejected element, which re-raises; no job is ever run |
| `Fanout.GuardsPassed` | src/gcs_to_pubsub_publisher_cf/main.py:66-93 | past the first two guards, a missing blob and content that is not a list publish nothing; an unreadable blob re-raises with nothing published; a list is published whole, or up to the rejected element, which re-raises |
| `Fanout.PublishFailureStopsEarly` | src/gcs_to_pubsub_publisher_cf/main.py:83-97 | a publish failure re-raises after sending exactly a strict prefix of the list, and starts no job |
| `Fanout.VariantsAgreeOnPublishing` | infra/function_source/main.py:33-71 | whatever the deployed variant's environment holds for the job settings it never reads, it has the outcome the job-starting variant has once given job settings: the same messages and the same skips and errors, differing only in starting no job |

## Left out

- Cloud clients are not modelled: storage, the broker's subscribe, publish and close calls, and the job runner. Their results are inputs, and their effects are the `acked` multiset, the `written` artifacts and the published payloads.
- UTF-8 decoding, `json.loads` and `json.dumps` (including `indent=2`) are not modelled. They are library functions, so they are abstract functions and JSON syntax is not modelled.
- Concurrency is not modelled: the threading event, concurrent callbacks and the streaming-pull future's timeouts. Each callback is one atomic step. The callbacks that run after the wait returns are a second delivery sequence, split into those completing before the upload and those completing after it, whatever the drain outcome. Which callback falls on which side is an input, as is the drain outcome.
- Reading environment variables (including the integer parse of the expected count) and all logging are not modelled. They are configuration and I/O.
- `src/subscriber.py` and `src/publisher.py` are not part of this model. They are demo loops around a single client call. The path form documented in `src/subscriber.py` is used for `Consumer.BuiltPath`.
- A failure of `subscribe` itself, and of `blob.exists()`, are not modelled. Both propagate as exceptions in the source. A download or parse failure is modelled, as `Unreadable`.
- The module-level list and event persist across calls in the same process. The model starts each consumer run from the empty state, as the single call from `main` does.
- Event fields are modelled as optional strings. A metageneration sent as a non-string (for example the integer 1) compares unequal to `'1'` in the source and would skip. The model does not represent non-string values.
- Consumer.Consume: says the upload is of the list as the run left it, but not which values that list holds. `Consumer.FinishedRunsAll` and `Consumer.ConsumeUploadsWhatWasAccumulated` state them.
- Consumer.Consume: does not model a keyboard interrupt that arrives after `subscribe` (line 105) and before the `try` (line 108). No handler covers that window either, so that run also ends without closing the client or uploading. The model's interrupts arrive only during the wait, where they are caught, or during the drain, as `DrainInterrupted`.
