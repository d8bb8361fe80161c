# Honeynet pipeline: a verified model

A Dafny model of the three stateful parts of the honeynet, which together form one
pipeline from an attacker's request to an analyst's detection:

1. **The detection engine of the control plane** (`ingest_api/services.py`,
   `ingest_api/main.py`, `ingest_api/worker.py`). Events are deduplicated, evaluated in
   trailing 10- and 60-minute windows per source, turned into up to nine kinds of detection
   that are upserted by fingerprint, and grouped into investigations with cached aggregates.
   `DetectionEngine` states the engine as a fold over writes; `DetectionStore` runs it as the
   service does, on mutable tables with the same loops, and is proved against that fold.
2. **The store-and-forward relay** (`edge_relay/app.py`). Handlers and one replay thread share
   a bounded spool. `EdgeRelay` has the step relation over all interleavings and the service
   object whose methods are sequences of its steps; `EndToEnd` composes it with the control
   plane's insertion, where a forward may fail before or after the commit.
3. **The decoy's text pipeline** (the C files). Requests are read in arbitrary pieces, parsed,
   form-decoded, tagged, hashed, escaped into fixed buffers and answered from templates.
   Bytes are characters below 256; a C string is a text without its terminator; loops over
   buffers are methods over arrays, proved against functions on texts.

| file | content |
|---|---|
| `DetectionEngine.dfy` | rows, windows, emissions, recording and draining as functions |
| `FindingsHistory.dfy` | what the findings hold after any history of writes |
| `Draining.dfy` | order, batch limits, online against offline processing |
| `Reachability.dfy` | all runs of inserts, engine runs and analyst edits; sliding windows |
| `Windows.dfy` | what is emitted, said on the rows of the event table |
| `Schedules.dfy` | when the interleaving of inserts, runs and edits matters |
| `Sources.dfy` | independence of sources, exactly when it holds |
| `Ingestion.dfy`, `DetectionStore.dfy` | normalisation, insertion, the tables as an object |
| `EdgeRelay.dfy`, `EndToEnd.dfy` | the relay, and relay and control plane together |
| `Tagging.dfy` | which text gives which tag, at the decoy and at the control plane |
| `RequestReading.dfy`, `RequestParser.dfy`, `FormDecoding.dfy`, `HttpRequests.dfy` | receiving, parsing, decoding, tagging and classifying a request |
| `Fingerprint.dfy`, `Json.dfy`, `JsonValues.dfy`, `EventPayload.dfy` | hash, escaping, a JSON reader, the assembled payloads |
| `Dispatch.dfy` | the heartbeat by its keys, the HTTP request around a payload |
| `ResponseBuilder.dfy` | templates and the framed response |
| `Pipeline.dfy` | from a request to the decoy to a row of the control plane |
| `Ascii.dfy`, `CStrings.dfy`, `Sets.dfy`, `Options.dfy` | shared helpers |

Properties that turned out to hold only under a condition carry that condition exactly:

- Sources are independent exactly when no detection fingerprint and no investigation is fed by
  two of them. Fingerprints are plain concatenations with colons, so two sources can collide
  (`Sources.ColonsCanInterfere`). Colon-free addresses rule that out, and so do colon-free decoy
  names and request fingerprints, which covers IPv6 addresses. An event whose address is blank is
  filed under its request fingerprint, which may be another source's address
  (`Sources.BlankSourcesCanInterfere`).
- A stored event posted again gives the same row exactly when it has a source address and its
  texts imply no tag that it lacks. Tags are derived before texts are trimmed, so padded texts can
  gain a tag the second time (`Ingestion.PaddedPathGainsTag`).
- When new events arrive in strictly increasing time order, the schedule of engine runs does not
  matter, except for the three columns an analyst edits: two schedules leave the same tables
  exactly when the edits that found their row agree. An edit made before its row exists is lost
  (`Schedules.EarlyEditIsLost`). Out of that order, or with two events of one moment, the schedule
  can matter without any edit (`Schedules.OutOfOrderMatters`).
- A request is read the same however it is split, except exactly when its content length is left
  blank at the end of the header and a body follows: the number parser skips the line breaks and
  reads into the body (`RequestReading.BlankLengthExample`). In every other case the loop also stops
  by itself at the request's last byte.
- The spool cap is kept exactly when it is at least one, because the slice that enforces it keeps
  everything for zero.
- A drain that fails overwrites lines exactly when something was queued since it took the spool.
- The two classifiers agree except exactly on administrative paths with a probe tag
  (`HttpRequests.ClassifiersDisagree` has the request).
- An event reads back exactly when its texts have no control character but newline, carriage
  return and tab; a form can put one there (`EventPayload.ControlByteRejected`).
- The relay loses nothing exactly when nothing is queued on a full spool and nothing between a
  take and its write-back of failures.
- `union select` is also found across two neighbouring texts, because the control plane joins
  them with a space before it searches (`Tagging.SearchTextUnionSelect`).
- Storing exactly once needs an identifier; without one a retry makes a second row
  (`EndToEnd.MissingIdentifierDuplicates`). A username or password of white space only gets no
  credential row, because both are trimmed first.

## Model

| member | source | states |
|---|---|---|
| Draining.OnlineEqualsOffline | ingest_api/main.py:99-107 | inserting and processing inline after each event leaves the tables of inserting all and processing once, when new events come in strictly increasing time order; repeated identifiers may come at any time |
| Schedules.ScheduleDoesNotMatter | ingest_api/worker.py:9-15 | when new events arrive in strictly increasing time order, any interleaving of inserts with inline and worker runs of any limits and with analyst edits, once drained, leaves the tables of inserting all and processing once, but for the three columns an edit writes, and those too iff no edit that found its row changed one |
| Schedules.SchedulesAgreeExactly | ingest_api/main.py:293-309 | two schedules of the same such arrivals leave the same tables iff the edits that found their row agree |
| Schedules.EarlyEditIsLost | ingest_api/main.py:293-309 | an edit before the engine has run finds no row and leaves no trace; after it, it stays |
| Schedules.OutOfOrderMatters | ingest_api/services.py:445-452 | when one of two enumerating events of a source arrives after the later one, or after one of the same moment, the tables depend on whether the engine ran in between |
| FindingsHistory.EditHistory | ingest_api/main.py:293-309 | each edited column shows the latest edit made since the row's first emission, else its first value |
| Draining.BatchLimitsDoNotMatter | ingest_api/services.py:533-594 | runs empty the backlog iff their limits add up to it, then equal one unlimited run, and a further run changes nothing; positive limits get there within one run per pending row |
| Draining.RunsCompose | ingest_api/services.py:533-594 | two runs in a row are one run with the limits added |
| Draining.RunShrinksBacklog | ingest_api/services.py:536-542 | a run takes exactly the first rows of the backlog, up to its limit |
| Draining.ByTimeSorts | ingest_api/services.py:539-539 | the processing order is a sorted rearrangement of the event table |
| Draining.ByTimeIsStable | ingest_api/services.py:539-539 | rows of one moment keep the order of their insertion |
| Draining.UnprocessedHolds | ingest_api/services.py:536-542 | the backlog holds exactly the rows not yet flagged, each once |
| Sources.NonInterferenceExactly | ingest_api/services.py:547-588 | for every table, blank addresses included, a mixed drain leaves every source the rows its own events alone would leave, iff no detection fingerprint and no investigation is fed by two sources |
| Sources.NamedSourcesSeparate | ingest_api/services.py:497-497 | events with an address never share an investigation across sources |
| Sources.NamedSourceHasOneKey | ingest_api/services.py:497-497 | what a named source alone feeds is its own investigation |
| Sources.BlankSourcesCanInterfere | ingest_api/services.py:497-497 | an event without an address can fall into the investigation of another source |
| Sources.ColonFreeSourcesSeparate | ingest_api/services.py:578-579 | colon-free addresses have distinct scopes |
| Sources.ColonFreeDecoysSeparate | ingest_api/services.py:578-579 | so do any addresses when decoy names and request fingerprints are colon-free |
| Sources.SeparateScopesSuffice | ingest_api/services.py:578-579 | distinct scopes give distinct fingerprints |
| Sources.ColonsCanInterfere | ingest_api/services.py:578-579 | with colons two sources can emit one fingerprint |
| Reachability.SlidingWindowComplete | ingest_api/services.py:445-452 | after a full drain a source has the distributed-scanner detection iff some closed 60-minute span, anchored anywhere, holds its events on three decoys |
| Windows.BruteForceEmittedExactly | ingest_api/services.py:564-565 | an event emits brute force iff it is a POST to /login and at least three rows of its source lie in the closed ten minutes that end with it |
| Windows.StuffingEmittedExactly | ingest_api/services.py:566-567 | stuffing takes five such rows and three different usernames, empty ones aside |
| Windows.DiscoveryEmittedExactly | ingest_api/services.py:562-569 | enumeration takes two sensitive paths in those ten minutes; reconnaissance four paths, or a suspicious event of class recon or scan |
| Windows.DistributedEmittedExactly | ingest_api/services.py:570-571 | distributed scanning takes three decoys in the closed hour |
| Windows.ProbesEmittedExactly | ingest_api/services.py:554-561 | the probe detections follow the tags, the discovery detection the path |
| Windows.EvidenceExactly | ingest_api/services.py:554-571 | the evidence of each emission, said on the rows of the table |
| Windows.DetectedExactly | ingest_api/services.py:573-588 | after a full drain a detection exists iff some event emits it |
| Windows.BruteForceDetectedExactly | ingest_api/services.py:564-565 | after a full drain a scope has a brute-force detection iff one of its events is such a login post |
| Windows.StuffingDetectedExactly | ingest_api/services.py:566-567 | and a stuffing detection iff one of them sees five rows and three usernames |
| Reachability.OneDistributedDetectionPerSource | ingest_api/services.py:570-579 | in every reachable state a source has at most one such detection |
| Reachability.OccurrencesCountEvents | ingest_api/services.py:498-530 | in every reachable state a detection exists iff emitted, its occurrences are the number of processed events that emitted it, and all occurrences sum to the emissions |
| Reachability.StuffingNeverOutnumbersBruteforce | ingest_api/services.py:564-567 | for every scope and reachable state, stuffing occurrences never exceed brute-force occurrences |
| Reachability.ReachableAggregatesAgree | ingest_api/services.py:473-483 | in every reachable state every investigation's cached counts, spread and class are what its current detections give |
| Reachability.AggregatesFromEmitters | ingest_api/services.py:473-483 | in every reachable state an investigation counts the fingerprints whose first emitter falls to it, its spread is the number of different decoys those name (at least one if there is a fingerprint), and it is targeted iff three decoys, opportunistic iff two, unknown otherwise |
| FindingsHistory.ActivityClassOnlyClimbs | ingest_api/services.py:478-483 | between any two moments of a history the class only climbs |
| FindingsHistory.TargetedIsThreeDecoys | ingest_api/services.py:478-483 | the detection-count half of the `targeted` test is implied by the spread |
| FindingsHistory.InvestigationHistory | ingest_api/services.py:455-470 | an investigation exists iff something contributed, starts with the first contribution and its `last_seen` is the maximum over all |
| FindingsHistory.DetectionHistory | ingest_api/services.py:498-528 | a detection describes its first emitter, counts all of them, and carries the time of the latest recorded one, which is not a maximum |
| FindingsHistory.BlockTargetsHistory | ingest_api/services.py:509-526 | `"unknown"` is kept out of the block targets on creation only: the second emission adds it |
| Reachability.EvidenceIsLatest | ingest_api/services.py:524-524 | in every reachable state merging evidence key by key has left exactly the evidence of the latest emission |
| FindingsHistory.FingerprintInjective | ingest_api/services.py:578-579 | equal fingerprints have equal type and scope |
| DetectionStore.Store.InsertEvent | ingest_api/services.py:312-364 | stores the normalised event and its credential row unless the identifier is known, and returns the stored row |
| DetectionStore.Store.FindEvent | ingest_api/services.py:315-317 | finds the row of an identifier, or shows there is none |
| DetectionStore.Store.EnsureInvestigation | ingest_api/services.py:455-470 | creates the investigation or raises its `last_seen`, and touches no other |
| DetectionStore.Store.UpdateInvestigationStats | ingest_api/services.py:473-483 | recomputes one investigation's aggregates, and touches no other |
| DetectionStore.Store.RecordDetection | ingest_api/services.py:486-530 | one upsert of a detection with its investigation, as the fold records it |
| DetectionStore.Store.TypesToEmit | ingest_api/services.py:547-571 | the emitted types and evidence of one event, in the engine's order |
| DetectionStore.Store.ProcessEvent | ingest_api/services.py:573-588 | everything one event records; skipping repeated types never skips anything |
| DetectionStore.Store.MaterializeDetections | ingest_api/services.py:533-594 | processes the oldest pending rows up to the limit, flags exactly those, keeps the tables sound, and returns how many |
| DetectionStore.Store.UpdateDetection | ingest_api/main.py:293-309 | an analyst's edit changes only status, assignee and notes of one row |
| DetectionStore.Store.HandleIngest | ingest_api/main.py:99-112 | a failure while inserting leaves everything as it was; one while processing leaves the event stored and nothing processed |
| DetectionStore.EmissionKindsDistinct | ingest_api/services.py:573-577 | one event never emits a type twice |
| Ingestion.NormalizeTags | ingest_api/services.py:76-94 | the tag set grown step by step is the specified one |
| Tagging.TagsExactly | ingest_api/services.py:76-94 | each tag of a payload exactly when: claimed, or its text occurs in username, password or path whatever the case, or path and method are the named ones; nothing else is added |
| Tagging.SearchTextUnionSelect | ingest_api/services.py:79-79 | the joined text contains `union select` iff one of the three does, or two neighbours have a half each |
| Ingestion.StoredRow | ingest_api/services.py:112-144 | every column of the stored row of any payload, given or defaulted |
| Ingestion.DifferentAddressesStayApart | ingest_api/services.py:120-120 | two payloads are stored under one source iff their trimmed addresses are equal |
| Ingestion.ClassExactly | ingest_api/services.py:97-104 | each class of a tag set exactly when |
| Ingestion.StripExactly | ingest_api/services.py:118-125 | trimming removes exactly the white space at both ends |
| Ingestion.NormalizingTagsTwice | ingest_api/services.py:76-94 | normalising normalised tags again changes nothing, except exactly when no tag came out although the raw list names some |
| Ingestion.RepostReproducesExactly | ingest_api/services.py:112-144 | a stored event posted again, tags in any order and under any clock, gives the same row, iff it has a source address and its trimmed texts imply no tag it lacks |
| Ingestion.TrimmedTextsSuffice | ingest_api/services.py:76-94 | texts that came trimmed imply no such tag |
| Ingestion.PaddedPathGainsTag | ingest_api/services.py:76-94 | a path that came padded can |
| Ingestion.OneCredentialPerCarrier | ingest_api/services.py:352-362 | an event has one credential row if its trimmed username or password is not empty, else none |
| Ingestion.CredentialRowsHold | ingest_api/services.py:352-362 | a credential row exists iff some stored event with credentials has exactly its contents |
| EdgeRelay.RelayConserves | edge_relay/app.py:67-100 | in every interleaving the enqueued lines are, as a multiset, those replayed, spooled, in the thread's hand, evicted and overwritten |
| EdgeRelay.SpoolInEnqueueOrder | edge_relay/app.py:67-100 | the thread's lines followed by the spool are always a subsequence of the enqueue history |
| EdgeRelay.CapHoldsExactly | edge_relay/app.py:72-73 | the cap is kept in every run iff it is at least one |
| EdgeRelay.EvictedExactly | edge_relay/app.py:72-73 | for every cap, no line is ever evicted iff none is queued on a full spool |
| EdgeRelay.OverwrittenExactly | edge_relay/app.py:83-100 | for every cap, nothing is ever overwritten iff no enqueue falls between a take and its write-back of failures |
| EdgeRelay.Service.QueuePayload | edge_relay/app.py:67-75 | one enqueue step on the spool, counted |
| EdgeRelay.Service.DrainSpoolOnce | edge_relay/app.py:78-100 | a drain is take, forwards with any arrivals before each of them, more arrivals, write-back; failures in order replace the spool; counters add up |
| EdgeRelay.Service.ForwardLines | edge_relay/app.py:89-96 | the forwarding loop keeps exactly the failed lines, in order, whatever handlers queue between its forwards |
| EdgeRelay.Service.HandleIngest | edge_relay/app.py:136-148 | forwarded, queued on an expected failure, or failed without touching the spool, also while a drain is under way |
| EndToEnd.ExactlyOnceWithCredential | edge_relay/app.py:136-148 | for every run: when spool and thread are empty, every acknowledged identified payload neither evicted nor overwritten has one event row, and one credential row iff its username or password is not blank, when all payloads under its identifier agree on them |
| EndToEnd.ExactlyOnceWithoutLoss | edge_relay/app.py:67-100 | the same from conditions on the run alone: nothing queued on a full spool, nothing between a take and its write-back of failures |
| EndToEnd.NothingLostExactly | edge_relay/app.py:67-100 | in every run nothing is evicted or overwritten iff those two conditions hold |
| EndToEnd.QuiescentExactlyOnce | edge_relay/app.py:136-148 | the same without agreement: the payload is stored exactly once, and the credential rows are those its stored row calls for, however forwards failed |
| EndToEnd.RelayedEventsAreInserted | ingest_api/services.py:312-364 | behind any interleaving, the control plane's tables are those of inserting one after the other whatever was committed, retries included |
| EndToEnd.CleanDrainDelivers | edge_relay/app.py:78-96 | a drain that completes without failure has delivered everything acknowledged when it took the spool |
| EndToEnd.NeverTwice | ingest_api/services.py:315-317 | in every interleaving each identifier has at most one row |
| EndToEnd.CredentialRowExactly | ingest_api/services.py:352-362 | in every run a stored payload's credential row is there, once, iff its username or password is not blank, when all payloads under its identifier agree on them |
| EndToEnd.CredentialContents | ingest_api/services.py:352-362 | and every credential row under its identifier holds its trimmed username and password |
| EndToEnd.RowIsTheReport | ingest_api/services.py:312-364 | in every run, with one report under an identifier, its row is what that report normalises to |
| EndToEnd.CredentialSource | ingest_api/services.py:352-362 | and its credential row has the report's address, decoy and time |
| EndToEnd.AccountedFor | edge_relay/app.py:67-100 | in every run an acknowledged payload is stored, still held, or lost to the cap or a write-back |
| EndToEnd.PostsAreSettled | edge_relay/app.py:136-148 | in every run the posts are, as a multiset, those answered, those waiting for the spool and those ended by an exception |
| EndToEnd.MissingIdentifierDuplicates | ingest_api/services.py:116-116 | without an identifier a committed but failed forward is replayed into a second row |
| RequestReading.ChunkingDoesNotMatterExactly | unikernel-decoy/src/main.c:303-359 | on every split of a whole request, with interruptions and whatever would follow, the loop ends by itself with exactly that request, iff its length was not left blank in front of a body |
| RequestReading.IncompleteRequest | unikernel-decoy/src/main.c:327-359 | an incomplete request that fits: a peer that closes leaves what it sent, a failed call is an error, otherwise the loop waits |
| RequestReading.BufferFull | unikernel-decoy/src/main.c:330-330 | one that does not fit is cut where the buffer is full |
| RequestReading.BlankLengthExample | unikernel-decoy/src/main.c:312-318 | such a request exists |
| RequestReading.ReadHttpRequest | unikernel-decoy/src/main.c:327-359 | the receive loop stays in bounds, counts what it read, terminates the text, and blocks only when the specification waits |
| RequestReading.ContentLengthFromHeaders | unikernel-decoy/src/main.c:303-324 | the first content length before the blank line, with saturation and wrap-around |
| RequestReading.StrToUlReads | unikernel-decoy/src/main.c:317-317 | white space, sign and digits are read as the number; too large a one saturates, a minus sign counts down from the modulus |
| RequestReading.StrToUlOfNothing | unikernel-decoy/src/main.c:317-317 | and without a digit it is zero |
| RequestReading.LengthInAnyCase | unikernel-decoy/src/main.c:303-324 | the first content-length line counts, its name in any case |
| RequestReading.LengthAbsent | unikernel-decoy/src/main.c:303-324 | without one the length is zero, whatever the body holds |
| RequestReading.StartsWithIgnoringCase | unikernel-decoy/src/main.c:290-300 | prefix comparison without case |
| RequestReading.ContentLengthOfPrefix | unikernel-decoy/src/main.c:303-324 | every cut behind the header shows the same length unless it was left blank, when the header alone shows zero |
| FormDecoding.PreTruncationInvisible | unikernel-decoy/src/request_parser.c:172-200 | decoding into a capacity reads at most three source bytes per decoded byte |
| FormDecoding.PreTruncationTight | unikernel-decoy/src/request_parser.c:172-200 | one byte less would be noticed, for every capacity |
| FormDecoding.FieldIsFullDecoding | unikernel-decoy/src/request_parser.c:203-229 | cutting the encoded value to 383 bytes leaves the first 127 bytes of the full decoding |
| FormDecoding.UrlDecodeInto | unikernel-decoy/src/request_parser.c:172-200 | the decoding loop stays in bounds and writes the bounded decoding, terminated |
| FormDecoding.EscapeDecodes | unikernel-decoy/src/request_parser.c:158-194 | every byte is recovered from its escape, each digit in either case |
| FormDecoding.OthersDecodePlainly | unikernel-decoy/src/request_parser.c:180-198 | a plus sign is a space, and whatever is not an escape stands for itself |
| FormDecoding.FormReads | unikernel-decoy/src/request_parser.c:203-229 | each field of any form holds the first 127 decoded bytes of its own value, up to a zero byte |
| FormDecoding.FieldReadWhereNamed | unikernel-decoy/src/request_parser.c:203-229 | in any body a field is read behind the first place where its name and an equals sign stand, up to the next ampersand |
| FormDecoding.FieldAbsent | unikernel-decoy/src/request_parser.c:214-218 | a body that names it nowhere gives an empty field |
| FormDecoding.FormRoundTrip | unikernel-decoy/src/request_parser.c:203-229 | both fields come back from a form-encoded body, however each byte is spelled |
| HttpRequests.CredentialRoundTrip | unikernel-decoy/src/request_parser.c:275-315 | a username and password of up to 127 bytes, posted to any target with any header lines and any spelling, come back from the whole parser |
| HttpRequests.PostedFields | unikernel-decoy/src/request_parser.c:275-315 | whatever the encoded values are, the parsed request has both fields as the form holds them |
| HttpRequests.HeadersArrive | unikernel-decoy/src/request_parser.c:297-299 | User-Agent, Host and Accept arrive in their own fields, cut to their arrays |
| HttpRequests.PostedPath | unikernel-decoy/src/request_parser.c:275-315 | the path of such a post is its target up to the query string |
| HttpRequests.RequestLineReads | unikernel-decoy/src/request_parser.c:291-296 | a method of up to seven and a target of up to 255 characters, both without blanks, are read as method and path, up to the query string |
| HttpRequests.HeaderRoundTrip | unikernel-decoy/src/request_parser.c:111-155 | a printed header field is read back, its name in any case, whatever header lines without that field come first |
| HttpRequests.HeaderAbsent | unikernel-decoy/src/request_parser.c:124-126 | without such a line there is no value, whatever the body holds |
| HttpRequests.HttpRequest.ParseHttpRequest | unikernel-decoy/src/request_parser.c:275-315 | fills the structure as specified, or reports that there is no request line |
| HttpRequests.HttpRequest.AnalyzeRequest | unikernel-decoy/src/request_parser.c:241-272 | tags and suspicion in the program's order |
| HttpRequests.HttpRequest.AddTag | unikernel-decoy/src/request_parser.c:81-100 | appends a tag unless present or full |
| RequestParser.FindIgnoringCase | unikernel-decoy/src/request_parser.c:48-78 | true iff the needle occurs somewhere, letters compared without case |
| RequestParser.ExtractHeaderValue | unikernel-decoy/src/request_parser.c:111-155 | the first matching field before the blank line |
| RequestParser.ParsedRequestFits | unikernel-decoy/src/request_parser.c:275-315 | every parsed request fits its arrays and its tags are duplicate-free within the vocabulary |
| RequestParser.WordIsLongest | unikernel-decoy/src/request_parser.c:292-292 | a word of the request line is the longest run of non-blank characters within its limit |
| RequestParser.BeforeQuestionExactly | unikernel-decoy/src/request_parser.c:103-108 | the path ends at its first question mark |
| Tagging.DecoyTagsExactly | unikernel-decoy/src/request_parser.c:241-272 | each of the eight tags and the suspicion of every parsed request exactly when, said on its path, method and texts |
| Tagging.OnlyPostsCarryCredentials | unikernel-decoy/src/request_parser.c:308-311 | a request of another method has neither username nor password |
| RequestParser.SoundTagsAreFew | unikernel-decoy/src/request_parser.c:94-96 | at most eight tags, so the cap of twelve never binds |
| HttpRequests.ClassifiersAgreeExactly | unikernel-decoy/src/event_logger.c:164-183 | the decoy's first-match class is the control plane's precedence class, except exactly on an administrative path with a probe tag |
| HttpRequests.ClassifiersDisagree | unikernel-decoy/src/event_logger.c:164-183 | a script tag as the username of a post to any administrative page is discovery to the decoy and a probe to the control plane |
| HttpRequests.EventClassFromRequest | unikernel-decoy/src/event_logger.c:164-183 | the loop returns the class of the first tag that decides |
| Tagging.DecoyClassExactly | unikernel-decoy/src/event_logger.c:164-183 | each class the decoy reports exactly when, said on the request |
| Fingerprint.OneByteCollisionFree | unikernel-decoy/src/event_logger.c:186-202 | requests of equal part lengths that differ in one byte never share a fingerprint |
| Fingerprint.MixInjective | unikernel-decoy/src/event_logger.c:194-195 | each hash step is injective in the hash and in the byte |
| Fingerprint.XorBits | unikernel-decoy/src/event_logger.c:194-194 | the model's exclusive or sets a bit exactly where the two differ |
| Fingerprint.PublishedValues | unikernel-decoy/src/event_logger.c:186-195 | the hash has its published values for the empty text and for "a" |
| Fingerprint.HexReads | unikernel-decoy/src/event_logger.c:201-201 | the eight printed digits read back as the hash |
| Fingerprint.BuildRequestFingerprint | unikernel-decoy/src/event_logger.c:186-202 | the running loop computes that fingerprint |
| Json.EscapeJson | unikernel-decoy/src/event_logger.c:83-117 | the escaping loop stays in bounds, terminates its output and leaves the rest of the buffer alone |
| Json.EscapeIntoIsPrefix | unikernel-decoy/src/event_logger.c:90-116 | the output is the escape of a prefix, never half an escape, and stops only when no two bytes are left |
| Json.EscapeFitsExactly | unikernel-decoy/src/event_logger.c:90-90 | exactly when nothing is cut |
| Json.DoubleBufferSuffices | unikernel-decoy/src/event_logger.c:391-404 | a buffer of twice the field never truncates |
| Json.ReadEscaped | unikernel-decoy/src/event_logger.c:83-117 | the escaped text reads back as the original iff it has no other control character, and is rejected otherwise |
| JsonValues.ReadPrinted | unikernel-decoy/src/event_logger.c:430-485 | every printed value reads back as itself iff its texts can be read, and is rejected otherwise |
| EventPayload.EventRoundTrip | unikernel-decoy/src/event_logger.c:388-485 | reading the assembled event yields exactly the original fields and tags iff no text has other control characters, and is rejected otherwise |
| EventPayload.OriginByKey | unikernel-decoy/src/event_logger.c:434-438 | the members of the event by key: identifier, time, decoy, profile and address |
| EventPayload.RequestByKey | unikernel-decoy/src/event_logger.c:439-443 | method, path, user agent, username and password |
| EventPayload.TagsByKey | unikernel-decoy/src/event_logger.c:444-448 | suspicion, both tag lists, collector version and edge node |
| EventPayload.OutcomeByKey | unikernel-decoy/src/event_logger.c:449-453 | version, status, latency, the two header fields and the endpoint |
| EventPayload.PlaceByKey | unikernel-decoy/src/event_logger.c:454-458 | fingerprint, class, site, environment and role |
| EventPayload.EventIdsDistinct | unikernel-decoy/src/event_logger.c:66-80 | two events share an identifier iff second, microsecond and counter are all the same |
| EventPayload.ControlByteRejected | unikernel-decoy/src/event_logger.c:388-485 | a username of one control byte, posted as a form, makes the assembled event unreadable |
| EventPayload.EventTextPrints | unikernel-decoy/src/event_logger.c:430-485 | the assembled text is the printed object and shorter than 5000 bytes |
| EventPayload.NothingIsTruncated | unikernel-decoy/src/event_logger.c:487-492 | for every configuration and parsed request no truncation branch is taken, in the event, the heartbeat or the wrapped requests |
| EventPayload.HeartbeatFits | unikernel-decoy/src/event_logger.c:523-559 | the heartbeat fits its buffer |
| EventPayload.WrappedFits | unikernel-decoy/src/event_logger.c:330-354 | the wrapped request fits its buffer |
| Dispatch.RequestFramesPayload | unikernel-decoy/src/event_logger.c:330-354 | the wrapped request's header ends where its payload begins, and the content length it is read with is the payload's size |
| Dispatch.RequestCarriesKey | unikernel-decoy/src/event_logger.c:330-354 | a configured ingest key is readable as its own header field |
| Dispatch.RequestNamesCollector | unikernel-decoy/src/event_logger.c:330-354 | it asks for the configured path and names the collector's host and port |
| Dispatch.CollectorReadsEvent | unikernel-decoy/src/event_logger.c:487-492 | what stands behind the header of an event's request reads back as the event |
| Dispatch.HeartbeatRoundTrip | unikernel-decoy/src/event_logger.c:523-559 | reading the assembled heartbeat yields exactly its fields iff the configured texts can be read |
| Dispatch.FirstByKey | unikernel-decoy/src/event_logger.c:527-531 | its members by key: time, decoy, edge node, version and endpoint |
| Dispatch.SecondByKey | unikernel-decoy/src/event_logger.c:532-536 | profile, uptime, port, site and environment |
| Dispatch.ThirdByKey | unikernel-decoy/src/event_logger.c:537-540 | role, state, backlog and relay health |
| EventPayload.BuildTagsJson | unikernel-decoy/src/event_logger.c:140-161 | the tag array as far as the buffer allows, terminated |
| EventPayload.TagsPrint | unikernel-decoy/src/event_logger.c:140-161 | for parsed requests it is the printed list and its buffer never binds |
| CStrings.AppendText | unikernel-decoy/src/response_builder.c:41-54 | the buffer holds the appended text as far as it fits, also when the length has passed the capacity |
| CStrings.ClipIsLongest | unikernel-decoy/src/response_builder.c:48-48 | a bounded print keeps the longest beginning that leaves room for the terminator |
| Ascii.SameLetterExactly | unikernel-decoy/src/request_parser.c:48-78 | two characters count as one letter iff they are equal or the two cases of one |
| ResponseBuilder.RenderWithPlaceholders | unikernel-decoy/src/response_builder.c:74-121 | the buffer holds the beginning of the one-pass substitution that fits |
| ResponseBuilder.SubstituteFills | unikernel-decoy/src/response_builder.c:87-120 | for every reading of a template into slots and literals that hide no mark, rendering fills the slots whatever the inserted texts contain: they are never scanned again |
| ResponseBuilder.RenderingFillsSlots | unikernel-decoy/src/response_builder.c:87-120 | every template has such a reading, the same for all inserted texts |
| ResponseBuilder.MarksStandFor | unikernel-decoy/src/response_builder.c:88-116 | which text each of the five marks stands for |
| ResponseBuilder.SingleBracesHideNoMark | unikernel-decoy/assets/router_login.html:7-43 | literals with single braces, as in the style sheets of the login pages, hide no mark |
| ResponseBuilder.BuildHttpResponse | unikernel-decoy/src/response_builder.c:208-326 | prints the page of the request with its status and returns the length kept |
| ResponseBuilder.Page | unikernel-decoy/src/response_builder.c:221-294 | 401, 403, 405 and 200 exactly for their requests, 404 otherwise |
| ResponseBuilder.PageShows | unikernel-decoy/src/response_builder.c:221-294 | every page but the login page that is not cut shows host, profile and the texts that belong to its path |
| ResponseBuilder.OverviewShows | unikernel-decoy/src/response_builder.c:221-235 | an overview that is not cut shows title, host and status |
| ResponseBuilder.LoginFills | unikernel-decoy/src/response_builder.c:137-169 | the login page fills its template, or the fixed one, with the failure notice exactly after a post |
| ResponseBuilder.StatusLines | unikernel-decoy/src/response_builder.c:10-25 | the status line of each status |
| ResponseBuilder.ResponseFields | unikernel-decoy/src/response_builder.c:302-307 | media type and connection are readable fields of every response |
| ResponseBuilder.ResponseIsWhole | unikernel-decoy/src/response_builder.c:296-325 | the response is cut nowhere, its body follows its header, and its content length is the body's size |
| Pipeline.ReportArrivesExactly | ingest_api/schemas.py:20-56 | the event the decoy prints is read by the ingest endpoint as the payload that reports the request, iff no text has a rejected control character |
| Pipeline.AbsentMembers | ingest_api/schemas.py:20-46 | the defaults of a posted object that names only decoy and profile |
| Pipeline.NamelessRejected | ingest_api/schemas.py:23-24 | an object without decoy or profile is rejected |
| Pipeline.StoredReport | ingest_api/services.py:112-144 | the row of a reported request, column by column: the decoy's identifier, class and fingerprint, the address, time, method, suspicion and trimmed texts, and the decoy's tags with those its texts imply |
| Pipeline.ReportedRowsHold | ingest_api/services.py:312-364 | in every run, with one report under its identifier, the stored row is that one, and the credential row has its address, decoy and time |
| Pipeline.PostedCredentialsAreStored | ingest_api/services.py:352-362 | credentials posted to the decoy as a form, in any spelling, arrive: when the report was acknowledged, nothing was lost and the relay is at rest, there is one event row, and one credential row with both texts trimmed, or none if both are blank |

## Left out

- Sockets, DNS, signals, file access, HTTP client calls, threads and sleeping: they become chunk scripts, outcomes and supplied texts; a locked region of the relay is one step.
- Crashes of the relay during a drain, and two engine runs at the same time on one database: runs are serialised.
- SQLAlchemy, migrations, pydantic coercion, SHA-1, UUID generation and the clock: identifiers, digests and times are supplied to `Normalize`.
- JSON encoding of spool lines: a line is its payload; the two fields the relay fills in by default are not among those the engine reads.
- Ties in event time are broken by insertion order; the database leaves them open.
- Row columns the engine never reads (site, environment, versions, headers, severity, title and summary of a rule), and lists sorted only for display, which are kept as sets.
- Letter case beyond ASCII in `lower` and `upper`, and UTF-8: a byte above 127 in the decoy's JSON stands for itself.
- Authentication, metrics, object storage, exports, reports, the web console, deployment scripts, and fleet inventory with its heartbeat thresholds: no hard property.
- Option parsing, profile tables, log lines, URL parsing and connecting in the decoy; the collector's host, path and port are taken as parsed.
- `send_all` of the decoy: a loop over partial sends with no further property.
- Fixed markup of pages is a parameter of `ResponseBuilder`; the theorems hold for any markup.
- Reading `\u` escapes, white space and fractions in JSON: the decoy writes none.
- HttpRequests.HttpRequest.ParseHttpRequest: says nothing about the fields left behind when there is no request line, because no caller looks at them.
