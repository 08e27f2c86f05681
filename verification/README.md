# Smart snack box and loud-sound monitor, modelled in Dafny

This project models the decision logic of an IoT system with three parts.

- **The ESP32 smart box** (`project/ProjectEmb/src/main.cpp`). Every 200 ms, `loop()`:
  - turns its sensors into four facts: door open, counter empty, button pressed, hand in path;
  - latches door, item, button and pickup timers;
  - polls the local image API for a new classification;
  - decides one of four states with strict priority: ABNORMAL, WAITING, PROCESSING, NORMAL;
  - every 20 s, uploads the readings to ThingSpeak.
- **The camera host** (`project/camera/image_classifier_w_reading.py`). It:
  - reads the button state back from ThingSpeak;
  - builds the Gemini request (prompt, captured image, reference images per label);
  - posts it with at most five attempts and exponential backoff;
  - extracts the label from the answer.
- **The loud-sound monitor** (`project/sound/`). It:
  - gates microphone chunks on peak or RMS, with a 0.30 s minimum gap;
  - records the next two seconds;
  - names the classifier's top indices from the AudioSet table;
  - keeps the top three;
  - keys every artifact by the trigger's integer-second timestamp;
  - persists the record and e-mails an alert that links to it.

Everything is written as pure functions over immutable datatypes. Time is in integer milliseconds.

Anything the source gets from outside is a parameter of the model:
- hardware readings;
- `millis()` and `time.time()`;
- HTTP answers and the SMTP outcome;
- the classifier's output.

Modules, one per file:

| module | file | models |
|---|---|---|
| `Base`, `Decimal` | `base.dfy` | Option/Result; `str(n)` and `int(s)` for digit strings |
| `Json` | `json.dfy` | decoded JSON values and Python truthiness |
| `ClassificationPoll` | `classification_poll.dfy` | `checkForNewClassifiedImage` |
| `SmartBox` | `smart_box.dfy` | one `loop()` tick |
| `SmartBoxRuns` | `smart_box_runs.dfy` | sequences of ticks |
| `ButtonPoll` | `button_poll.dfy` | `read_button_state` and the camera host's trigger |
| `ImageRequest` | `image_request.dfy` | MIME lookup, reference loading, request parts |
| `ImageRetry` | `image_retry.dfy` | the retry/backoff loop of `classify_image` |
| `ImageResult` | `image_result.dfy` | `process_result` |
| `SoundCapture` | `sound_capture.dfy` | `record_audio` |
| `SoundTrigger` | `sound_trigger.dfy` | the loudness gate and the listening loop |
| `SoundLabels` | `sound_labels.dfy` | `load_audioset_labels`, label lookup, top-3 |
| `RecordStore` | `record_store.dfy` | the Firestore `recordings` collection as a map |
| `EmailAlert` | `email_alert.dfy` | `generate_firestore_link`, `send_alert_email` |
| `SoundEvent` | `sound_event.dfy` | handling one trigger |

### Behaviour worth knowing

- **Recording window.** `int(RATE / CHUNK * duration)` truncates, so a two-second recording is 31 chunks, 63488 samples (`SoundCapture.DefaultWindow`).
- **Retry on 4xx.** `raise_for_status` raises an `HTTPError`, which is a `RequestException`, so every 4xx answer, 429 or not, is followed by a backoff sleep and another POST, like a 5xx (`ImageRetry.BackedOffStatuses`). A 200 whose body is not JSON is too. A 1xx-3xx answer raises nothing: the next POST follows at once, without a sleep.
- **Event identifiers.** Every artifact of an event is keyed by `int(time.time())` alone:
  - Within one run of the loop, two events cannot share a second while the chunk reads are paced and the clock does not step back. The 31 recorded chunks keep the next trigger more than two seconds away (`SoundTrigger.TriggersInDistinctSeconds`, `SoundEvent.PacedEventsKeepArtifacts`).
  - With paced reads, only a wall clock that steps back, or a restart of the monitor, can bring two events into the same second. Then the later event overwrites the earlier one's files and Firestore document (`RecordStore.SameSecondOverwrites`).
- **Delivery.** Only the Gemini request is retried. Firestore and SMTP are called once, and SMTP failures are swallowed.
- **Listening during a recording.** A trigger records the next 31 chunks (about 2 s), and those chunks are never compared with the thresholds (`SoundTrigger.ListenExact`).

## Model

| member | source | states |
|---|---|---|
| `Decimal.NatToString` | project/sound/cloud_upload.py:22 | `str(n)` is a non-empty digit string without a leading zero whose decimal value is n |
| `Decimal.NatToStringInjective` | project/sound/cloud_upload.py:22 | distinct numbers have distinct decimal texts, so document keys never collide across timestamps |
| `Decimal.NumberedNamesDistinct` | project/sound/sound_detect.py:121 | names of the form prefix + str(n) + suffix differ whenever the numbers differ |
| `ClassificationPoll.Check` | project/ProjectEmb/src/main.cpp:182-234 | within 5000 ms of the last check nothing changes and false is returned; otherwise the check is stamped; true exactly when a remembered non-empty id differs from the newest id; the first id is recorded silently; failed fetches keep the remembered id |
| `ClassificationPoll.RunStamps` | project/ProjectEmb/src/main.cpp:183-185 | along a run the check stamp never moves backwards or past the call time; each reported classification comes at least one interval after the start |
| `ClassificationPoll.NewClassificationsSpaced` | project/ProjectEmb/src/main.cpp:183-185 | any two reported classifications are at least 5000 ms apart |
| `SmartBox.Discretise` | project/ProjectEmb/src/main.cpp:281-296 | door open iff the reed switch reads LOW; item on counter iff light <= 2000; hand in path only with the door open and 0 < distance < 35 cm |
| `SmartBox.PollStage` | project/ProjectEmb/src/main.cpp:297-307 | only the hand latch, the poller and the AI-done flag change; the hand latch accumulates this tick's hand; AI-done becomes true exactly when it was, or a new classification arrives for a requested item |
| `SmartBox.ButtonStage` | project/ProjectEmb/src/main.cpp:312-321 | a rising edge with an item on the counter sets the request and clears AI-done; otherwise the item is untouched; the level is always remembered; nothing outside button and item flags changes |
| `SmartBox.DoorStage` | project/ProjectEmb/src/main.cpp:324-339 | an opening edge stamps the time and remembers whether an item was there; a hand is remembered while the door stays open and forgotten on closing; a closing edge after a hand reached in over an empty counter starts the pickup wait, stamped with the time, and nothing else changes the wait; nothing outside door and pickup changes |
| `SmartBox.ItemStage` | project/ProjectEmb/src/main.cpp:344-360 | a newly placed item is stamped with both flags reset; otherwise only the presence flag follows the counter; a pickup wait survives exactly while the counter stays empty |
| `SmartBox.Latch` | project/ProjectEmb/src/main.cpp:290-360 | after the latching stages, the door, item, button level and hand latch follow this tick's facts; the send time and shown state are untouched |
| `SmartBox.LatchItemFlags` | project/ProjectEmb/src/main.cpp:302-350 | the request and AI flags after latching, as a function of the previous state: a button press in the tick the item appears is lost |
| `SmartBox.Alarms` | project/ProjectEmb/src/main.cpp:370-380 | each alarm is raised exactly when its rule holds: item removed before the AI answered; door open over an empty counter for more than 60000 ms; button on an empty counter; pickup wait over 60000 ms; unrequested item on the counter for more than 90000 ms; hand in an open door with an item |
| `SmartBox.WaitReasons` | project/ProjectEmb/src/main.cpp:383-394 | each reason holds exactly when its condition does: pickup wait within 60000 ms; unrequested item for at most 90000 ms; item requested and on the counter with the AI not done |
| `SmartBox.PendingIsWaitOrAlarm` | project/ProjectEmb/src/main.cpp:370-394 | the pickup wait, the unrequested item and the pending classification are each reported exactly once: as a wait while in time, as an alarm otherwise |
| `SmartBox.AlarmsNonEmpty` | project/ProjectEmb/src/main.cpp:370-380 | an alarm is raised exactly when one of the six abnormal rules holds |
| `SmartBox.WaitReasonsNonEmpty` | project/ProjectEmb/src/main.cpp:383-399 | a waiting reason exists exactly when the pickup wait, the unrequested item or the pending classification holds |
| `SmartBox.Decide` | project/ProjectEmb/src/main.cpp:365-427 | strict priority: ABNORMAL iff an alarm; WAITING iff no alarm and a wait reason (without the pickup override); PROCESSING and NORMAL likewise; the override clears both flags and shows NORMAL; only item flags and the shown state change |
| `SmartBox.Supervise` | project/ProjectEmb/src/main.cpp:290-429 | an item removed before the AI answered, or the button held on an empty counter, is ABNORMAL; a rising edge on a known item requests classification; an edge in the item's first tick is lost; a held button changes nothing; AI-done only rises on a new classification; pickup after AI gives NORMAL with flags cleared; an unrequested item is WAITING up to 90000 ms and ABNORMAL after |
| `SmartBox.Transmit` | project/ProjectEmb/src/main.cpp:451-457 | telemetry is sent iff 20000 ms passed since the last send; it carries field2 "1" or "0" and the hand latch, which is then cleared and the send time stamped; otherwise the state is unchanged |
| `SmartBox.Step` | project/ProjectEmb/src/main.cpp:275-460 | a whole tick keeps the clock invariant, remembers the button level, and sends and stamps exactly when the interval elapsed |
| `SmartBoxRuns.RunClocked` | project/ProjectEmb/src/main.cpp:451-452 | along a run every state is consistent with its tick's clock, and each upload is at least 20000 ms after the starting send time |
| `SmartBoxRuns.TelemetrySpaced` | project/ProjectEmb/src/main.cpp:451-457 | any two uploads along a run are at least 20000 ms apart |
| `SmartBoxRuns.UnattendedItem` | project/ProjectEmb/src/main.cpp:344-400 | with an item left on the counter of a closed box and the button untouched, the item stays unrequested since its arrival; the box shows WAITING while at most 90000 ms have passed and ABNORMAL afterwards |
| `ButtonPoll.ReadButtonState` | project/camera/image_classifier_w_reading.py:17-37 | 0 on a failed request, a non-200 status or an undecodable body; a non-zero result comes from a digit-string field2 with that value; a digit field2 gives its value |
| `ButtonPoll.UnusableField2` | project/camera/image_classifier_w_reading.py:32-33 | a field2 that is missing, empty or not all digits reads as 0 |
| `ButtonPoll.NoFeeds` | project/camera/image_classifier_w_reading.py:28-30 | a missing or empty feed list reads as 0 |
| `ButtonPoll.ButtonRelay` | project/camera/image_classifier_w_reading.py:17-37 | the button state the box uploads as field2 is read back unchanged |
| `ButtonPoll.PressStartsCapture` | project/camera/image_classifier_w_reading.py:466-469 | the camera host starts a capture exactly when the last uploaded button state is 1 |
| `ImageRequest.Extension` | project/camera/image_classifier_w_reading.py:295 | `os.path.splitext` suffix: a tail of the path, starting with '.', with no further '.' or '/' |
| `ImageRequest.ExtensionOfName` | project/camera/image_classifier_w_reading.py:295 | a dotted extension appended to a stem with a non-dot character is recovered |
| `ImageRequest.NoExtensionForDotFile` | project/camera/image_classifier_w_reading.py:169 | a last component whose only dot is its first character, such as `.png`, has no extension |
| `ImageRequest.LowerIdempotent` | project/camera/image_classifier_w_reading.py:169 | lower-casing twice is lower-casing once |
| `ImageRequest.KnownMime` | project/camera/image_classifier_w_reading.py:170-175 | .jpg and .jpeg give image/jpeg, .png gives image/png, .webp gives image/webp, and nothing else has a type |
| `ImageRequest.ReferenceMime` | project/camera/image_classifier_w_reading.py:169-179 | a reference file has a MIME type exactly when its lower-cased extension is .jpg, .jpeg, .png or .webp |
| `ImageRequest.CaptureMime` | project/camera/image_classifier_w_reading.py:295-300 | the captured image's MIME type is the known type of its extension, or image/jpeg otherwise |
| `ImageRequest.MimeIgnoresCase` | project/camera/image_classifier_w_reading.py:295-300 | the MIME type depends only on the lower-cased extension |
| `ImageRequest.RefsIn` | project/camera/image_classifier_w_reading.py:163-184 | a label folder's images are at most its entries, all of a supported type; a folder without a supported extension gives none |
| `ImageRequest.RefsInOrder` | project/camera/image_classifier_w_reading.py:163-184 | exactly the regular, readable files with a supported extension are kept, in listing order: each at the position counting the kept files before it, with its bytes and its extension's type |
| `ImageRequest.KeepNonEmptyLabels` | project/camera/image_classifier_w_reading.py:188-189 | a label keeps a group exactly when it has at least one reference image |
| `ImageRequest.LoadReferences` | project/camera/image_classifier_w_reading.py:140-192 | no reference directory gives no groups; every group is a classification label with a folder, holding that folder's supported images, at least one |
| `ImageRequest.LoadReferencesLabels` | project/camera/image_classifier_w_reading.py:154-189 | a label has a group exactly when the directory exists and that label's folder holds a supported file |
| `ImageRequest.KeepNonEmptyInOrder` | project/camera/image_classifier_w_reading.py:158-190 | the kept groups' labels are the label list with some left out, the rest in their order |
| `ImageRequest.LoadReferencesInOrder` | project/camera/image_classifier_w_reading.py:158-190 | the groups follow the order of the classification labels, at most one per label, as the insertion-ordered dict does |
| `ImageRequest.UserQuery` | project/camera/image_classifier_w_reading.py:302 | a non-empty custom prompt is used, otherwise the default prompt |
| `ImageRequest.ReferenceParts` | project/camera/image_classifier_w_reading.py:320-329 | one header per label plus one part per image, the first label's header first |
| `ImageRequest.ReferencePartsAppend` | project/camera/image_classifier_w_reading.py:320-329 | the reference parts of concatenated groups are the concatenation of their parts |
| `ImageRequest.GroupLayout` | project/camera/image_classifier_w_reading.py:320-329 | group i sits at offset i + images of earlier groups: its header, then its images in order |
| `ImageRequest.BuildParts` | project/camera/image_classifier_w_reading.py:307-329 | the parts are the prompt, the captured image, then the reference parts; there are 2 + groups + images of them |
| `ImageRetry.BackedOffStatuses` | project/camera/image_classifier_w_reading.py:368-377 | a non-200 answer is followed by a backoff sleep exactly when its status is at least 400, and raises exactly for 400-599; any other non-200 answer is followed by the next POST without a sleep |
| `ImageRetry.Backoff` | project/camera/image_classifier_w_reading.py:352 | the j-th sleep lasts 2^j seconds |
| `ImageRetry.BackoffTotal` | project/camera/image_classifier_w_reading.py:368-381 | k sleeps add up to 2^k - 1 seconds |
| `ImageRetry.ClassifyImage` | project/camera/image_classifier_w_reading.py:350-386 | at most 5 POSTs; the first success is returned at once; otherwise all five are used and the call exits exactly when the last one raises; one sleep per non-final attempt that backs off, doubling from 1 s, none after the last |
| `ImageRetry.SleepBudget` | project/camera/image_classifier_w_reading.py:351-381 | one call sleeps at most 15 s in total between its POSTs |
| `ImageResult.Strip` | project/camera/image_classifier_w_reading.py:406 | the stripped text is the middle of the input, with only whitespace cut off each side and none left at its ends |
| `ImageResult.StripIdempotent` | project/camera/image_classifier_w_reading.py:406 | stripping twice is stripping once |
| `ImageResult.StripTrimmed` | project/camera/image_classifier_w_reading.py:406 | a text without outer whitespace is unchanged |
| `ImageResult.PartText` | project/camera/image_classifier_w_reading.py:403-404 | a part without `text` contributes nothing; a string `text` contributes that string |
| `ImageResult.ConcatText` | project/camera/image_classifier_w_reading.py:401-404 | the concatenation succeeds exactly when every part's contribution does |
| `ImageResult.ConcatTextAppend` | project/camera/image_classifier_w_reading.py:401-404 | the text of concatenated part lists is the concatenation of their texts |
| `ImageResult.FirstCandidate` | project/camera/image_classifier_w_reading.py:397 | no `candidates` key gives an empty candidate; an empty list raises; otherwise the first candidate |
| `ImageResult.ContentParts` | project/camera/image_classifier_w_reading.py:398 | only a dict candidate yields parts; no content gives an empty list; a dict content with `parts` gives that value whatever its other keys |
| `ImageResult.CandidateParts` | project/camera/image_classifier_w_reading.py:397-398 | no `candidates` key gives no parts; an empty candidate list raises |
| `ImageResult.PrintAttributions` | project/camera/image_classifier_w_reading.py:429-433 | walking the attributions raises unless every one is a dict whose `web`, if present, is a dict |
| `ImageResult.PrintGrounding` | project/camera/image_classifier_w_reading.py:426-433 | the grounding printout raises exactly when the metadata is not a dict, or its attributions are truthy and not a list of readable attributions |
| `ImageResult.ProcessResult` | project/camera/image_classifier_w_reading.py:392-436 | no or falsy result gives no label; a label has no outer whitespace; no candidates gives the empty label; an empty candidate list crashes; a label is returned only for a dict candidate whose grounding the printout can walk |
| `ImageResult.ConcatTextWellFormed` | project/camera/image_classifier_w_reading.py:401-404 | well-formed parts contribute exactly their texts in order, skipping parts without text |
| `ImageResult.CandidatePartsOfAnswer` | project/camera/image_classifier_w_reading.py:397-398 | an answer whose first candidate has a dict content with `parts` yields that candidate and those parts |
| `ImageResult.LabelOfParts` | project/camera/image_classifier_w_reading.py:392-436 | once the candidate and its text are found, the label is the stripped text if the grounding is readable, and the call crashes otherwise |
| `ImageResult.LabelOfAnswer` | project/camera/image_classifier_w_reading.py:392-436 | for well-formed parts under any content dict, the label is the stripped concatenation of the first candidate's texts exactly when its grounding is readable; otherwise the call crashes |
| `ImageResult.LabelOfGeminiAnswer` | project/camera/image_classifier_w_reading.py:392-436 | an answer shaped like Gemini's, with `role` beside `parts`, is labelled with its stripped text |
| `SoundCapture.FlattenLength` | project/sound/sound_detect.py:117 | concatenating n full chunks gives n * 2048 samples |
| `SoundCapture.FlattenIndex` | project/sound/sound_detect.py:114-117 | sample j of chunk k sits at position k * 2048 + j of the concatenation |
| `SoundCapture.NumChunks` | project/sound/sound_detect.py:113 | the chunk count is the floor of RATE / CHUNK * duration |
| `SoundCapture.DefaultWindow` | project/sound/sound_detect.py:21-26 | two seconds at 32 kHz is 31 chunks, 63488 samples |
| `SoundCapture.RecordAudio` | project/sound/sound_detect.py:111-117 | reads exactly the chunk count; concatenation raises when there are no chunks; otherwise the audio is the chunks in read order, of length chunks * 2048 |
| `SoundTrigger.PeakAsWritten` | project/sound/sound_detect.py:177 | the peak as written is the largest int16 `abs` of the frame, attained by some sample |
| `SoundTrigger.Peak` | project/sound/sound_detect.py:177 | the true peak is the largest magnitude of the frame, attained by some sample |
| `SoundTrigger.PeakAsWrittenAbove` | project/sound/sound_detect.py:177-180 | as written, the peak test passes exactly when some sample other than -32768 exceeds 30000 in magnitude |
| `SoundTrigger.PeakAbove` | project/sound/sound_detect.py:177-180 | the corrected peak test passes exactly when some sample exceeds 30000 in magnitude |
| `SoundTrigger.LoudAgreesWithoutMinSample` | project/sound/sound_detect.py:176-180 | the written and corrected loudness tests agree on frames without -32768 |
| `SoundTrigger.MinSampleMissed` | project/sound/sound_detect.py:177-180 | a chunk that is silent except for one -32768 sample is loud, yet the written test misses it |
| `SoundTrigger.Loud` | project/sound/sound_detect.py:176-180 | a frame is loud exactly when some sample's magnitude is above 30000 or the RMS is above 7200 |
| `SoundTrigger.Fires` | project/sound/sound_detect.py:176-180 | a frame fires exactly when more than 300 ms passed since the last trigger and it is loud; as written, a -32768 sample does not count towards the peak |
| `SoundTrigger.Listen` | project/sound/sound_detect.py:172-185 | every event uses up its trigger chunk and the 31 recorded chunks |
| `SoundTrigger.ListenSkips` | project/sound/sound_detect.py:180 | a chunk that does not fire is skipped with the last trigger time unchanged |
| `SoundTrigger.ListenFiresHere` | project/sound/sound_detect.py:180-185 | a chunk that fires with its window in the stream is the next trigger, carrying the next 31 chunks, and listening resumes after them with its time as the last trigger |
| `SoundTrigger.ListenTriggers` | project/sound/sound_detect.py:172-185 | every trigger is a loud chunk of the stream, stamped with its time and integer second, carrying exactly the 31 chunks after it |
| `SoundTrigger.ListenSpaced` | project/sound/sound_detect.py:180-185 | the first trigger is more than 300 ms after the last one, consecutive triggers are more than 300 ms apart, and recorded windows never overlap |
| `SoundTrigger.ListenOrdered` | project/sound/sound_detect.py:180-185 | triggers come in stream order, each after the previous one's recording |
| `SoundTrigger.ListenExact` | project/sound/sound_detect.py:172-185 | a chunk whose window fits is a trigger if and only if no earlier trigger is recording it and it fires against the latest trigger before it |
| `SoundTrigger.QuietNeverFires` | project/sound/sound_detect.py:180 | a stream without loud chunks never triggers |
| `SoundTrigger.TriggersInDistinctSeconds` | project/sound/sound_detect.py:180-185 | with paced reads, any two triggers are at least 32 chunks (2048 ms) apart and have increasing integer seconds |
| `SoundTrigger.SpikeStreamMissed` | project/sound/sound_detect.py:177-185 | a stream led by a chunk silent but for one -32768 sample records nothing as written |
| `SoundTrigger.SpikeStreamCaught` | project/sound/sound_detect.py:177-185 | the same stream records one event with the true peak |
| `SoundLabels.ParseInt` | project/sound/sound_detect.py:42 | `int` accepts exactly an optional sign followed by digits, giving their decimal value |
| `SoundLabels.ParseIntRoundTrip` | project/sound/sound_detect.py:42 | `int(str(n)) == n` for either sign |
| `SoundLabels.LoadedStep` | project/sound/sound_detect.py:42-44 | storing one more row under its parsed index keeps the table equal to "last row wins" over the rows read so far |
| `SoundLabels.LoadTable` | project/sound/sound_detect.py:41-45 | for any index parser: fails exactly when some row's index does not parse; otherwise the keys are exactly the parsed indices and each holds the name of the last row with that index |
| `SoundLabels.LoadAudiosetLabels` | project/sound/sound_detect.py:37-45 | raises exactly when some index is not an integer; otherwise the keys are exactly the row indices and each maps to the name of the last row with that index |
| `SoundLabels.LabelFor` | project/sound/sound_detect.py:155 | a known index gives the table's name; an unknown one gives "Class " followed by its decimal text: digits only, no leading zero, read back by `int` as the index |
| `SoundLabels.FallbackNamesDistinct` | project/sound/sound_detect.py:155 | two missing indices never get the same fallback name |
| `SoundLabels.TopLabels` | project/sound/sound_detect.py:155 | the names follow the classifier's index order, one per index |
| `SoundLabels.Take3` | project/sound/sound_detect.py:193-197 | `[:3]` keeps the first min(3, n) elements unchanged |
| `SoundLabels.Take3Zip` | project/sound/sound_detect.py:193-197 | for equal-length lists, zipping the sliced names and probabilities gives the first three pairs of the zipped lists, so each name keeps its own probability |
| `RecordStore.DocumentKey` | project/sound/cloud_upload.py:22 | the document key is a digit string whose decimal value is the timestamp |
| `RecordStore.Save` | project/sound/cloud_upload.py:21-23 | the record's document holds the record under `str(timestamp)` and no other document changes |
| `RecordStore.SameSecondOverwrites` | project/sound/cloud_upload.py:21-23 | saving two records of the same second leaves only the later one |
| `RecordStore.DistinctSecondsKept` | project/sound/cloud_upload.py:21-23 | records of different seconds are both kept |
| `EmailAlert.FirestoreLink` | project/sound/email_alert.py:19-23 | the link is the collection's console path followed by the timestamp's decimal text |
| `EmailAlert.FirestoreLinkInjective` | project/sound/email_alert.py:19-23 | different timestamps give different links |
| `EmailAlert.LinkAddressesSavedRecord` | project/sound/email_alert.py:15-23 | the link names the collection and document key the store writes to; after saving, it addresses that record |
| `EmailAlert.Subject` | project/sound/email_alert.py:50 | the subject is the alert prefix, then the label, then ')' |
| `EmailAlert.SubjectNamesTopLabel` | project/sound/email_alert.py:50 | the top label can be read back from the subject |
| `EmailAlert.ComposeAlert` | project/sound/email_alert.py:26-52 | raises exactly when fewer than three labels or probabilities are given; otherwise the subject names the top label and the message lists the first three pairs, the timestamp, the WAV URL and the link |
| `EmailAlert.SendAlertEmail` | project/sound/email_alert.py:26-63 | raises only for a malformed message; an SMTP failure is reported as a failed delivery, never raised |
| `SoundEvent.KeyedInjective` | project/sound/sound_detect.py:121-132 | names built from the same prefix and suffix determine their timestamp |
| `SoundEvent.HandleTrigger` | project/sound/sound_detect.py:182-216 | the record carries the trigger's timestamp, the first min(3, n) names and probabilities paired, and the upload URL; the labels file lists the same pairs, the first three of the classifier's zipped names and probabilities; the store holds the saved record; the e-mail gets the same lists and raises exactly when fewer than three predictions exist |
| `SoundEvent.EventKeyedByTimestamp` | project/sound/sound_detect.py:182-216 | the WAV path, labels path, blob name, document key, record and e-mail link all carry the same timestamp |
| `SoundEvent.ArtifactsDistinct` | project/sound/sound_detect.py:121-203 | events in different seconds never share a file, blob or document |
| `SoundEvent.PacedEventsKeepArtifacts` | project/sound/sound_detect.py:172-216 | with paced reads, no two events of one run share a WAV file, labels file, blob or document |

## Left out

- Hardware I/O of the ESP32 is not modelled: pins, LEDs, buzzer, `analogRead`/`digitalRead`, `pulseIn`, `setup()`, the WiFi connection loop and serial printing. Readings and `millis()` are inputs of `SmartBox.Step`.
- `readUltrasonicCM` timing is not modelled; its result is the real-valued input `distanceRaw`. Float rounding of the 35 cm comparison is not modelled.
- `millis()` wrap-around of `unsigned long` is not modelled: time is a monotone natural number of milliseconds.
- HTTP and JSON decoding in `checkForNewClassifiedImage` are not modelled; the fetch outcome is an input.
- `sendToThingSpeak` is not modelled beyond what it is handed: no network I/O and no float formatting.
- CNN14, the mel spectrogram and `torch.topk` are not modelled; they are float numerics in foreign libraries, and the classifier's ranked indices and probabilities are inputs.
- numpy float32 RMS is modelled as an exact integer comparison of the mean square against 7200²; float32 rounding near the threshold is not modelled.
- `time.time()` is an input in milliseconds. The second call that produces `timestamp` is taken to read the same instant as the first.
- pyaudio streams, `wave` writing, the OpenCV webcam capture, and the GCS, Firestore and SMTP clients are not modelled: they are device, file and network I/O. The WAV URL and the SMTP outcome are inputs.
- `upload_wav_to_gcs` of the sound monitor (`cloud_uploader_gcs`) is not part of this model; its URL is an input.
- base64 encoding and JSON serialisation of payloads are not modelled (library calls); image data are opaque byte sequences.
- Reading credentials, passwords and the service-account file is not modelled.
- `save_snack_log` and the Firestore/GCS logging in `process_result` after line 411 are not modelled.
- The `:.3f` formatting of probabilities in the labels file, console and e-mail body is not modelled; probabilities are kept as reals.
- The camera host's `time.sleep` calls are not modelled: the retry loop reports its sleeps as a list.
- `csv.DictReader` is not modelled: rows arrive already split, and a missing `index` column is not modelled.
- `SoundLabels.ParseInt`: Python's `int` also accepts surrounding whitespace, underscores between digits and non-ASCII digits; only ASCII sign-and-digits input is modelled.
- `ButtonPoll.ReadButtonState`: `str.isdigit` accepts non-ASCII digits such as superscripts; only ASCII digits are modelled.
- The messages printed for skipped or unreadable reference files are not modelled; the files themselves are skipped as in the source.
- `ImageRequest.Lower`: only ASCII letters are lower-cased; Unicode case mapping is not modelled.
- `SmartBoxRuns.UnattendedItem`: stated for closed-door runs only, since a hand during an open door overrides the waiting rule.
- `SmartBox.PollStage`: the classification poll is stamped with the tick's `now`. `checkForNewClassifiedImage` reads `millis()` again (main.cpp:183), after the sensor reads; `pulseIn` alone may take up to 30 ms. So the source's check stamp can lie a few milliseconds later than the model's.
- `ImageRetry.SleepBudget`: only the total sleep time is bounded. `timeout=30` bounds the connection wait and each gap between received bytes, not a whole POST, so no bound on a call's total duration is claimed.
- `ImageRetry.ClassifyImage`: a 200 whose body is not JSON counts as a `RequestException`. That holds from `requests` 2.27 on, where `JSONDecodeError` derives from `RequestException`. With older versions the `ValueError` escapes the loop and the call raises.
- The grounding printout's text is not modelled, only whether it raises; `ImageResult.PrintGrounding` also takes every dict's `get` to be the built-in one.

## Findings

| source | as written | input that shows it | evidently intended | confidence | as-written member | corrected member |
|---|---|---|---|---|---|---|
| project/sound/sound_detect.py:177 | `np.max(np.abs(samples))` on int16 samples; `abs(-32768)` wraps to -32768 | a chunk of one -32768 sample followed by 2047 zeros: the peak as written is 0, RMS is about 724, so no trigger | the peak is the largest magnitude, 32768 here, which passes the 30000 threshold | high, not executed | `SoundTrigger.PeakAsWritten` (with `SoundTrigger.MinSampleMissed` and `SoundTrigger.SpikeStreamMissed`) | `SoundTrigger.Peak` (with `SoundTrigger.PeakAbove`; `SoundTrigger.Listen` with the corrected gate, `SoundTrigger.SpikeStreamCaught`) |
