# Verified model of the Lorkhan bridge

Lorkhan connects a game engine to a loopback HTTP service. This project models the parts of it that keep state under
concurrency, decode untrusted bytes, or must change the game world at most once, and proves what they promise.

- **The bridge protocol** (`Bridge`, `BridgeInvariants`, `BridgeSteps`, `BridgeWorker`, `BridgeTheorems`, `BridgeDelivery`,
  `BridgeWitness`, `BridgeOverflow`, `BridgeAnswers`, `BridgeCalls`, `BridgeFences`).
  One engine thread and one worker, a program counter each; every lock region and every atomic access of
  `components/lorkhan/src/bridge_service.cpp:298-476` is one step, and `ITransport::execute` may answer anything. The
  transition functions follow the source: `StepEnqueue` lines 298-325, `StepPoll` 327-335, `StepCancel` 337-355,
  `StepCancelGeneration` 357-377, `StepHalt` 387-413, `StepBeforeExecute` 424-446 and 474, `StepExecute` 447,
  `StepAfterExecute` 448-473. The theorems speak about every interleaving of any length. A history keeps what the transport
  answered: `BridgeAnswers` says what becomes of it, `BridgeCalls` what each engine call returns and leaves behind, and
  `BridgeFences` which requests the transport is never asked any more.
- **Queues and lifecycle** (`Queues`, `Lifecycle`). The bounded queue, the generation counter and the cancellation registry as
  classes, each method proved against the value functions that the protocol steps use.
- **JSON** (`JsonGrammar`, `JsonReader`, `JsonComplete`, `JsonSound`, `JsonUtf8`, `JsonTheorems`, `JsonParser`, `JsonWriter`,
  `JsonLeaves`) and **UTF-8** (`Utf8`). `JsonGrammar` states RFC 8259 sections 2 to 7 as syntax trees, how they are written and what they
  denote, independently of the reader. `JsonReader` is the reader as functions, `JsonParser` the parser object with its loops,
  and `JsonLeaves` says what escapes, literals and integers denote with every octet spelled out.
- **Codecs** (`Sha256Compression`, `Sha256`, `Sha256Words`, `Base64Url`). The streaming hash object, HMAC and the pairing key text.
- **The client's results** (`InboundLine`, `DeferredLane`). The two-lane inbound queue with its traffic as history, the pumps that
  drain it while the game is paused, the global lane that replays what they deferred, and the tables of awaited requests.
- **The client's actions** (`CommitGate`, `CommitTheorems`, `CommitOutcomes`, `CommitCalls`, `CommitScopes`, `CommitClient`).
  `CommitGate` is one call at a time as a step on the client's state; `CommitTheorems`, `CommitOutcomes` and `CommitScopes`
  are about every history of calls, `CommitCalls` about one call after any history, and each method of `CommitClient.NativeClient` makes
  exactly one such step: its invariant says that the object's fields are the state after the calls made so far.
- **Playback** (`ClipWindow`), **base URLs** (`LoopbackUrl`), and shared vocabulary (`Results`, `Sequences`, `Ascii`, `Bytes`,
  `Decimals`).

Five promises of the repository do not hold as stated; each has its exact condition and a failing run.

- "One result per request" is false at the grain of the bridge's locks: `BridgeTheorems.SecondResultExactlyInWindow` and
  `BridgeWitness.TwoResultsForOneRequest`. A history flag says whether `publishCancelled` made a result, since a transport may
  itself answer with the kind "cancelled".
- An accepted request can end without any result: the worker ignores the refusal of a full inbound queue.
  `BridgeDelivery.DroppedExactlyAtLimit` says exactly when, `BridgeOverflow.OutcomeLost` gives a run.
- The comment at `apps/openmw/mwlua/lorkhanbindings.cpp:2291-2296` promises replay "exactly once and in arrival order". The first
  half holds (`DeferredLane.HandledExactlyOnce`). The order is that of draining, and the queue puts cancelled results in front:
  `InboundLine.ArrivalOrderExact` and `DeferredLane.CancelledOvertake`.
- A report that is sent need not have its record's final status: `CommitTheorems.ReportExact`, `CommitTheorems.SentExact` and
  `CommitTheorems.ReportMayDisagree`.
- The comment at `apps/openmw/mwlua/lorkhanbindings.cpp:1439` promises a commit "exactly once per retained intent". At most once
  holds (`CommitTheorems.CommittedAtMostOnce`). A closure that runs while the client is not ready, or in another session or
  generation, leaves its record queued for good: `CommitOutcomes.PendingWaits`, `CommitOutcomes.StrandedNeverCommits` and
  `CommitOutcomes.PendingCanStrand`.

Bit operators on disjoint fields are written as products, quotients and sums; where a 32-bit or 64-bit word wraps, the wrap is
written out. A double is named by its bit pattern, and the library conversion of a non-integral number is a partial function of
the lexeme given by the environment.

Check everything with `dafny verify dfyconfig.toml`.

## Model

| member | source | states |
|---|---|---|
| `BridgeTheorems.AtMostOneOfEachSort` | components/lorkhan/src/bridge_service.cpp:337-474 | In every reachable interleaving, each request ID has at most one cancelled and at most one other result, published and polled alike |
| `BridgeTheorems.SecondResultExactlyInWindow` | components/lorkhan/src/bridge_service.cpp:337-474 | A request whose outcome is handed to the inbound queue is also handed a cancelled result (or a running `cancel` owes it) if and only if `cancel` stopped it and entered the ledger after the worker sampled the stop flag and before it erased the active entry |
| `BridgeTheorems.WindowMeansOrder` | components/lorkhan/src/bridge_service.cpp:448-454 | The phase counter used by the invariant is exactly that order of four events in the history |
| `BridgeWitness.TwoResultsForOneRequest` | components/lorkhan/src/bridge_service.cpp:337-474 | A concrete reachable run in which one request is polled with a cancelled result and with a failure |
| `BridgeTheorems.ReachableInv` | components/lorkhan/src/bridge_service.cpp:298-476 | Every state of every interleaving, of any length, satisfies the whole protocol invariant |
| `BridgeTheorems.ExecutedOnceInOrder` | components/lorkhan/src/bridge_service.cpp:422-447 | The transport sees each request at most once, and the executed requests are a subsequence of the accepted ones |
| `BridgeTheorems.PolledBelongsToAccepted` | components/lorkhan/src/bridge_service.cpp:455-473 | Whatever the transport answers, every polled result carries the ID and generation of an accepted request |
| `BridgeTheorems.RegistryAccounting` | components/lorkhan/src/bridge_service.cpp:305-323 | Registry entries are exactly the queued, held and half-enqueued requests, plus stopped ones of a generation that is left or being left |
| `BridgeTheorems.WorkerFindsItsToken` | components/lorkhan/src/bridge_service.cpp:427-454 | The worker's token lookup never misses, its token is the registered one, and at most one request is active |
| `BridgeTheorems.RegistrationNeverFails` | components/lorkhan/src/bridge_service.cpp:310-315 | An ID that passed the known-set check is never already registered |
| `BridgeTheorems.RefusedEnqueueRestores` | components/lorkhan/src/bridge_service.cpp:298-325 | A refused `enqueue` leaves the known set and the accepted requests as they were and adds nothing to registry or queue, whatever the worker does meanwhile |
| `BridgeTheorems.GenerationFence` | components/lorkhan/src/bridge_service.cpp:357-377 | After `cancelGeneration(g)` has returned, no later poll of any continuation returns a result of generation g or older |
| `BridgeTheorems.PolledSince` | components/lorkhan/src/bridge_service.cpp:327-335 | Along any run, polls only add results of a generation current at that time, and generations only grow |
| `BridgeTheorems.HaltFence` | components/lorkhan/src/bridge_service.cpp:387-413 | After `halt` has returned, every later poll of any continuation is empty |
| `BridgeTheorems.SilentAfterHalt` | components/lorkhan/src/bridge_service.cpp:387-413 | After `halt` nothing is executed, published or polled any more |
| `BridgeTheorems.WaitsHeldOrHandedOver` | components/lorkhan/src/bridge_service.cpp:422-475 | An accepted request of the live generation waits, is held by the worker, is owed a cancelled result, or had a result handed to the inbound queue |
| `BridgeDelivery.EveryResultKeptOrDropped` | components/lorkhan/src/bridge_service.cpp:327-375 | Counted with multiplicity, polled, waiting and dropped results never exceed those handed over, and equal them while their generation lives: no result is invented, doubled or lost elsewhere |
| `BridgeDelivery.DroppedExactlyAtLimit` | components/lorkhan/src/bridge_service.cpp:415-420 | A result is dropped exactly when its push meets the inbound queue at its limit, 128 for a cancelled result and 124 for an outcome; a closed queue never drops one |
| `BridgeDelivery.DroppedNeverPolled` | components/lorkhan/src/bridge_service.cpp:465-472 | A dropped result is never made up for: in no continuation is a result of its sort polled for that request |
| `BridgeDelivery.LiveRequestAccounted` | components/lorkhan/src/bridge_service.cpp:422-475 | An accepted request of the live generation waits, is held or owed a result, or has one that is polled, on its way to `poll`, or dropped |
| `BridgeAnswers.PublishedIsAnswer` | components/lorkhan/src/bridge_service.cpp:447-473 | Every published result that is no cancellation is the transport's own answer to that request if the answer agrees with it in ID, session and generation, and otherwise the request's failure with its reason; no request has two answers |
| `BridgeAnswers.AnswerDelivered` | components/lorkhan/src/bridge_service.cpp:447-473 | Once the worker is done with an executed request of the live generation that nobody cancelled, exactly that result has been polled, is on its way, or met a full inbound queue |
| `BridgeAnswers.CancelledOnlyIfAsked` | components/lorkhan/src/bridge_service.cpp:428-436 | A cancelled result names an accepted request that `cancel`, `cancelGeneration` or `halt` was asked to stop |
| `BridgeFences.StaleNeverExecuted` | components/lorkhan/src/bridge_service.cpp:439-447 | Once a generation is left, in no continuation is the transport asked for a request of it, except the one the worker had already tested |
| `BridgeFences.StoppedNeverExecuted` | components/lorkhan/src/bridge_service.cpp:427-447 | Once an accepted request is stopped, in no continuation is the transport asked for it, unless the worker had already tested its token |
| `BridgeCalls.EnqueueExact` | components/lorkhan/src/bridge_service.cpp:298-325 | Whatever the worker does meanwhile, `enqueue` answers with the first objection in the order of the source, and otherwise accepts, or finds the queue full only if it held 28 requests |
| `BridgeCalls.PollExact` | components/lorkhan/src/bridge_service.cpp:327-335 | `poll` takes the first results waiting, as many as asked for, and returns those of the current generation in order; the rest stays |
| `BridgeCalls.CancelExact` | components/lorkhan/src/bridge_service.cpp:337-344 | `cancel` succeeds exactly for a registered request not stopped before, and stops that request alone |
| `BridgeCalls.CancelGenerationRefused` | components/lorkhan/src/bridge_service.cpp:357-362 | `cancelGeneration` is refused exactly for a generation that is not current |
| `BridgeCalls.CancelGenerationErases` | components/lorkhan/src/bridge_service.cpp:365-372 | The waiting results of that generation go; all others stay, as often and in the same order |
| `BridgeCalls.CancelGenerationEnds` | components/lorkhan/src/bridge_service.cpp:357-377 | When it returns, nothing of that generation is queued, everything registered for it is stopped, and the next generation is current |
| `BridgeCalls.HaltEnds` | components/lorkhan/src/bridge_service.cpp:387-413 | After `halt` both queues are closed, no result waits, every request is stopped, the tables are empty, every accepted request is of a generation that was left, and the worker is gone |
| `BridgeCalls.HaltReturns` | components/lorkhan/src/bridge_service.cpp:403-406 | `halt` cannot hang on the worker: while it joins, the worker can always move and is gone after at most 13 of its steps |
| `BridgeOverflow.OutcomeLost` | components/lorkhan/src/bridge_service.cpp:465-472 | A reachable run of 125 failing requests without a poll: the last result is dropped while its ID stays known |
| `Queues.BoundedQueue.Create` | components/lorkhan/include/lorkhan/queues.hpp:20-25 | A queue is created exactly when the capacity is positive and exceeds the reserve |
| `Queues.BoundedQueue.TryPush` | components/lorkhan/include/lorkhan/queues.hpp:27-41 | Refuses when closed, full, or (for normal items) at the normal limit; otherwise control items go in front and normal items behind |
| `Queues.BoundedQueue.TryPop` | components/lorkhan/include/lorkhan/queues.hpp:43-51 | Takes the front item, if any, and leaves the rest in order |
| `Queues.BoundedQueue.Drain` | components/lorkhan/include/lorkhan/queues.hpp:64-74 | Takes the first `maximum` items in order and leaves the rest |
| `Queues.BoundedQueue.Close` | components/lorkhan/include/lorkhan/queues.hpp:76-81 | Keeps the items and refuses later pushes |
| `Queues.BoundedQueue.Clear` | components/lorkhan/include/lorkhan/queues.hpp:83-87 | Empties the queue and keeps it open or closed as it was |
| `Queues.BoundedQueue.EraseIf` | components/lorkhan/include/lorkhan/queues.hpp:89-96 | Removes exactly the matching items, keeps the order of the others, and counts the removed ones |
| `Queues.CapacityInvariant` | components/lorkhan/include/lorkhan/queues.hpp:27-96 | After any history the total is within the capacity and the normal items are within capacity minus reserve |
| `Queues.ControlRefusedOnlyByControls` | components/lorkhan/include/lorkhan/queues.hpp:33-34 | An open queue with any history refuses a control push only when at least `reserved` control items are queued |
| `Queues.LaneOrder` | components/lorkhan/include/lorkhan/queues.hpp:35-38 | After any history the normal lane is in push order and the control lane is in reverse push order |
| `Lifecycle.GenerationState.IsCurrent` | components/lorkhan/include/lorkhan/lifecycle.hpp:16 | Compares with the counter |
| `Lifecycle.GenerationState.Invalidate` | components/lorkhan/include/lorkhan/lifecycle.hpp:17 | Moves to the next generation and returns it, so the old one is no longer current |
| `Lifecycle.CancellationRegistry.RegisterRequest` | components/lorkhan/src/lifecycle.cpp:5-14 | Refuses an empty or registered ID; otherwise adds an entry with a fresh, unstopped source |
| `Lifecycle.CancellationRegistry.Cancel` | components/lorkhan/src/lifecycle.cpp:16-21 | True exactly for the first stop request of a registered ID |
| `Lifecycle.CancellationRegistry.Token` | components/lorkhan/src/lifecycle.cpp:23-30 | The registered entry's token, or none |
| `Lifecycle.CancellationRegistry.CancelGeneration` | components/lorkhan/src/lifecycle.cpp:32-42 | Stops exactly the entries of one generation and counts those not stopped before |
| `Lifecycle.CancellationRegistry.CancelAll` | components/lorkhan/src/lifecycle.cpp:44-54 | Stops every entry and counts those not stopped before |
| `Lifecycle.CancellationRegistry.Complete` | components/lorkhan/src/lifecycle.cpp:56-60 | Forgets one entry; its stop state stays visible to tokens already handed out |
| `Utf8.IsValidUtf8` | components/lorkhan/src/validation.cpp:93-120 | Accepts exactly the concatenations of encodings of Unicode scalar values |
| `Utf8.ValidIffEncoded` | components/lorkhan/src/validation.cpp:93-120 | The scanner's language is exactly that of RFC 3629 sections 3 and 4 |
| `Utf8.ValidConcat` | components/lorkhan/src/validation.cpp:93-120 | Validity is closed under concatenation |
| `Utf8.ValidCut` | components/lorkhan/src/validation.cpp:93-120 | Validity is closed under cutting at an ASCII octet |
| `Utf8.EncodeValid` | components/lorkhan/src/json.cpp:160-176 | What `appendUtf8` emits for a scalar value is one valid character |
| `Utf8.EncodeIsPositional` | components/lorkhan/src/json.cpp:160-176 | The number of octets by range, and the number that the payload bits of lead and continuation octets make, is the scalar value (section 3 of RFC 3629) |
| `Utf8.EncodePrefixFree` | components/lorkhan/src/json.cpp:160-176 | No encoding of a scalar value starts another one's, so the encoding is unique |
| `Utf8.DecodingUnique` | components/lorkhan/src/validation.cpp:93-120 | A valid string is the encoding of one sequence of scalar values only |
| `Utf8.ShiftsAreQuotients` | components/lorkhan/src/json.cpp:160-176 | The encoder's shifts and masks are the quotients, remainders and sums of the model |
| `Utf8.MasksAreRanges` | components/lorkhan/src/validation.cpp:112-114 | The scanner's continuation mask and shift are the range test and product of the model |
| `JsonParser.Parser.Run` | components/lorkhan/src/json.cpp:16-31 | The parser object returns `v` exactly when the input is a text of the RFC 8259 grammar within the four limits that denotes `v` |
| `JsonParser.Parser.SkipWhitespace` | components/lorkhan/src/json.cpp:39-47 | Stops at the first octet that is not blank |
| `JsonParser.Parser.ParseValue` | components/lorkhan/src/json.cpp:49-78 | Result, position and value count are those of the specification; recursion is measured by nesting alone and ends at `maximumDepth` |
| `JsonParser.Parser.ParseLiteral` | components/lorkhan/src/json.cpp:80-86 | Accepts exactly its literal |
| `JsonParser.Parser.ParseString` | components/lorkhan/src/json.cpp:88-142 | The decoding loop computes the specified string, error or limit violation |
| `JsonParser.Parser.ParseEscape` | components/lorkhan/src/json.cpp:105-137 | Two-character escapes, code units and surrogate pairs |
| `JsonParser.Parser.ParseHexCodeUnit` | components/lorkhan/src/json.cpp:144-158 | Accepts exactly four hexadecimal digits and returns their value |
| `JsonParser.Parser.AppendUtf8` | components/lorkhan/src/json.cpp:160-176 | Appends the encoding of the scalar value and keeps the output valid |
| `JsonParser.Parser.ParseObject` | components/lorkhan/src/json.cpp:178-207 | The member loop computes the specified object, rejecting repeated keys |
| `JsonParser.Parser.ParseArray` | components/lorkhan/src/json.cpp:209-229 | The element loop computes the specified array |
| `JsonParser.Parser.ParseNumber` | components/lorkhan/src/json.cpp:231-268 | The lexeme, its integrality and its conversion are those of the specification |
| `JsonTheorems.ParseExact` | components/lorkhan/src/json.cpp:16-268 | `parse` accepts exactly the UTF-8 texts of the grammar with distinct keys, paired surrogates, in-range numbers and all limits respected, and returns what the text denotes |
| `JsonTheorems.ParseSound` | components/lorkhan/src/json.cpp:16-268 | Whatever is accepted is such a text |
| `JsonTheorems.ParseComplete` | components/lorkhan/src/json.cpp:16-268 | Every such text is accepted, however it is laid out |
| `JsonTheorems.Unambiguous` | components/lorkhan/src/json.cpp:16-268 | A text has at most one meaning |
| `JsonTheorems.MeaningUtf8` | components/lorkhan/src/json.cpp:88-142 | Every string and key in a result is valid UTF-8, as a consequence of the input being valid |
| `JsonTheorems.SecondCheckNeverDecides` | components/lorkhan/src/json.cpp:96-97 | In valid input, wherever a string starts, dropping the `isValidUtf8(output)` test changes no outcome |
| `JsonLeaves.PairDenotes` | components/lorkhan/src/json.cpp:119-131 | A supplementary character written as the escaped pair of its code units, in any hexadecimal spelling, parses to the text of that character |
| `JsonLeaves.UnitDenotes` | components/lorkhan/src/json.cpp:119-134 | So does every other code unit that is no surrogate |
| `JsonLeaves.EscapeDenotes` | components/lorkhan/src/json.cpp:105-118 | Each two-character escape parses to the octet of section 7 of RFC 8259 |
| `JsonLeaves.IntegerExact` | components/lorkhan/src/json.cpp:231-268 | A printed integer parses to itself if and only if it is a signed 64-bit integer |
| `JsonLeaves.LiteralsDenote` | components/lorkhan/src/json.cpp:80-86 | The three literals, octet by octet and between any blanks, parse to their values |
| `JsonLeaves.OnlyBlanksSkipped` | components/lorkhan/src/json.cpp:39-47 | What is skipped between tokens is space, tab, line feed and carriage return, and nothing else |
| `JsonSound.SoundValue` | components/lorkhan/src/json.cpp:49-78 | Any value read is the written form of a tree of the grammar, with its meaning, depth and size |
| `JsonComplete.ReadsValue` | components/lorkhan/src/json.cpp:49-78 | Any tree of the grammar within the limits is read back where it stands, with its meaning and size |
| `JsonWriter.EscapeJson` | components/lorkhan/src/beast_transport.cpp:68-95 | The text written for a string; reading it back gives the string exactly when it is valid UTF-8 and within the limits |
| `JsonWriter.EscapeOctets` | components/lorkhan/src/beast_transport.cpp:68-95 | How each octet is written: short escapes, lower-case hexadecimal for the other control characters, anything else as it is |
| `JsonWriter.RoundTrip` | components/lorkhan/src/beast_transport.cpp:68-95 | `parse(escapeJson(s))` is the string s if and only if s is valid UTF-8, s and its text fit the limits, and a value is allowed |
| `JsonWriter.EscapedValid` | components/lorkhan/src/beast_transport.cpp:68-95 | Escaping keeps validity |
| `Sha256.Hasher.Update` | components/lorkhan/src/beast_transport.cpp:162-172 | Any split of a message into updates leaves the object holding exactly that message |
| `Sha256.Hasher.Finish` | components/lorkhan/src/beast_transport.cpp:174-192 | The digest is the fold of the compression function over the padded whole message, in both padding cases |
| `Sha256.PadIsStandard` | components/lorkhan/src/voice_capture.cpp:129-146 | The padding is that of FIPS 180-4 section 5.1.1: least number of zero bits, whole blocks, and an exact length field below 2^64 bits |
| `Sha256.PadOctets` | components/lorkhan/src/beast_transport.cpp:174-186 | Octet by octet: the message, the octet 0x80, zeros, eight octets of length |
| `Sha256Words.WordOctetsDecode` | components/lorkhan/src/beast_transport.cpp:187-190 | A word is output most significant octet first |
| `Sha256Words.DigestWord` | components/lorkhan/src/beast_transport.cpp:174-192 | Octets 4 i to 4 i + 4 of a digest spell word i of the state after the whole padded message |
| `Sha256Words.WordValue` | components/lorkhan/src/beast_transport.cpp:208-212 | Four octets of a block make the word they spell, most significant first |
| `Sha256Words.ScheduleWord` | components/lorkhan/src/beast_transport.cpp:208-212 | The first sixteen words of the schedule are the words of the block |
| `Sha256Words.InitialStateIsRoots` | components/lorkhan/src/beast_transport.cpp:231 | The initial state is the fractional parts of the square roots of the first eight primes (section 5.3.3 of FIPS 180-4) |
| `Sha256Words.RoundConstantIsRoot` | components/lorkhan/src/beast_transport.cpp:195-203 | The 64 round constants are the fractional parts of the cube roots of the first 64 primes (section 4.2.2) |
| `Sha256.FinishShort` | components/lorkhan/src/beast_transport.cpp:174-186 | The case with room for the length in the last block |
| `Sha256.FinishLong` | components/lorkhan/src/beast_transport.cpp:177-186 | The case that needs one more block |
| `Sha256.FoldConcat` | components/lorkhan/src/beast_transport.cpp:162-172 | Folding over whole blocks may be interrupted anywhere between blocks |
| `Sha256Compression.Transform` | components/lorkhan/src/beast_transport.cpp:205-231 | The in-place schedule and 64 rounds compute the compression function of FIPS 180-4 section 6.2.2 |
| `Sha256Compression.PrepareWords` | components/lorkhan/src/voice_capture.cpp:165-177 | The schedule loop fills the array with the message schedule |
| `Sha256.Sha256` | components/lorkhan/src/beast_transport.cpp:237-242 | The one-shot digest is the digest of the string |
| `Sha256.HmacSha256` | components/lorkhan/src/beast_transport.cpp:244-262 | Equals the formula of RFC 2104 section 2 for every 32-byte key and every message |
| `Sha256.HmacIsStandard` | components/lorkhan/src/beast_transport.cpp:244-262 | The formula with its two pads told apart octet by octet |
| `Base64Url.AuthorizationToken` | components/lorkhan/src/beast_transport.cpp:1015-1036 | The wrapping 32-bit accumulator writes the unpadded base64url text of RFC 4648 for any secret |
| `Base64Url.DecodePairingKey` | apps/openmw/mwlua/lorkhanbindings.cpp:96-132 | Accepts exactly 43 letters of the alphabet and returns their octets; otherwise only the length or the character error |
| `Base64Url.ReadsExactly` | apps/openmw/mwlua/lorkhanbindings.cpp:116-130 | On 43 letters the exits "too long" and "not 32 bytes" are never taken, with or without a foreign letter |
| `Base64Url.KeyRoundTrip` | apps/openmw/mwlua/lorkhanbindings.cpp:105-132 | Decoding an encoded 32-byte key gives the key |
| `Base64Url.TextRoundTrip` | apps/openmw/mwlua/lorkhanbindings.cpp:105-132 | Encoding a decoded text gives the text if and only if its last letter carries no bits beyond 256 |
| `Base64Url.LetterIsInAlphabet` | apps/openmw/mwlua/lorkhanbindings.cpp:98-104 | Digit d is written as letter d of the alphabet of section 5 of RFC 4648, and only that letter is read as d |
| `Base64Url.GroupIsNumber` | components/lorkhan/src/beast_transport.cpp:1015-1036 | Three octets and their four digits are the same 24-bit number, most significant first |
| `InboundLine.ArrivalOrderExact` | apps/openmw/mwlua/lorkhanbindings.cpp:2291-2296 | Results leave the two-lane inbound queue in their order of arrival if and only if no accepted cancelled result was ever pushed while others waited |
| `InboundLine.NormalsInOrder` | components/lorkhan/include/lorkhan/queues.hpp:35-38 | Cancelled results aside, results always leave in their order of arrival |
| `InboundLine.AfterNumbered` | components/lorkhan/include/lorkhan/queues.hpp:27-74 | Every accepted result is drained or waiting, exactly once, after any traffic |
| `DeferredLane.HandledExactlyOnce` | apps/openmw/mwlua/lorkhanbindings.cpp:2291-2311 | Every result the queue accepted is settled by a pump, handed to the global lane, deferred or waiting: none lost, none twice |
| `DeferredLane.HandedInDrainOrder` | apps/openmw/mwlua/lorkhanbindings.cpp:2393-2400 | What the global lane was handed, followed by what is deferred, is in the order in which results left the queue |
| `DeferredLane.HandedInArrivalOrder` | apps/openmw/mwlua/lorkhanbindings.cpp:2291-2296 | That is the order of arrival if no cancelled result overtook another, always for the other results, and if and only if when no pump settled anything |
| `DeferredLane.CancelledOvertake` | components/lorkhan/include/lorkhan/queues.hpp:35-36 | An outcome and two cancelled results, drained in exactly the opposite of their order of arrival |
| `DeferredLane.HandledByTable` | apps/openmw/mwlua/lorkhanbindings.cpp:2401-2535 | With identifiers of their own the order of the settlement attempts does not matter: the one table awaiting a result settles it, if its kind gets that far |
| `DeferredLane.LanesAgree` | apps/openmw/mwlua/lorkhanbindings.cpp:2254-2272 | A pump leaves the tables as the global lane would, exactly unless a media or menu result answers the controls request |
| `DeferredLane.FlagsExact` | apps/openmw/mwlua/lorkhanbindings.cpp:2305-2310 | A pump settles a result exactly if it awaited the request before the batch and, receipts apart, the result is the first of the batch to answer it |
| `DeferredLane.PumpedExact` | apps/openmw/mwlua/lorkhanbindings.cpp:2305-2310 | After a batch a request is awaited exactly if it was and no result of the batch answered it in this pump's tables |
| `DeferredLane.HandledExact` | apps/openmw/mwlua/lorkhanbindings.cpp:2399-2535 | After the global lane a request is awaited exactly if it was and no handled result reached its table |
| `DeferredLane.ReceiptExact` | apps/openmw/mwlua/lorkhanbindings.cpp:2360-2366 | A disposition receipt is pending exactly if it was and no handled result answered it |
| `DeferredLane.WaitingExact` | apps/openmw/mwlua/lorkhanbindings.cpp:2297-2386 | A pump drains exactly when something is awaited in a table it serves; the rewrite pump also for an answered request not yet given up, the disposition pump for the request it is asked about |
| `DeferredLane.BusyExact` | apps/openmw/mwlua/lorkhanbindings.cpp:1590-1660 | A request is refused exactly while its table awaits an answer, a diary one also while a receipt is awaited, a rewrite also while an answered one is remembered |
| `DeferredLane.DispositionRoom` | apps/openmw/mwlua/lorkhanbindings.cpp:780-789 | A disposition is refused exactly when 128 receipts are still pending, however many settled ones are kept |
| `DeferredLane.Remembered` | apps/openmw/mwlua/lorkhanbindings.cpp:2275-2366 | No answer in either lane makes a rewrite request or a receipt forgotten |
| `DeferredLane.Client.Arrive` | components/lorkhan/include/lorkhan/queues.hpp:27-41 | A published result joins its lane or is refused at 128 or 124, and nothing else changes |
| `DeferredLane.Client.Settle` | apps/openmw/mwlua/lorkhanbindings.cpp:1664-1681 | A settlement function takes a result exactly when it answers one of its requests, and changes only what it answered |
| `DeferredLane.Client.RunPump` | apps/openmw/mwlua/lorkhanbindings.cpp:2297-2386 | A pump drains at most a batch, only when the batch would fit; answers are settled, everything else is deferred in order, and a reported receipt is forgotten |
| `DeferredLane.Client.Handle` | apps/openmw/mwlua/lorkhanbindings.cpp:2401-2535 | One result in the global lane: transfer receipt, disposition, debug, diary, rewrite, then by kind session, events and controls |
| `DeferredLane.Client.Poll` | apps/openmw/mwlua/lorkhanbindings.cpp:2388-2406 | The global lane handles the deferred results first and then its own, in drain order, and leaves nothing deferred |
| `DeferredLane.Client.Ask` | apps/openmw/mwlua/lorkhanbindings.cpp:1590-1602 | A request is refused exactly while its table is busy; a sent one is awaited in its table only, and settled receipts make room for a disposition |
| `DeferredLane.Client.CancelAutochats` | apps/openmw/mwlua/lorkhanbindings.cpp:1989-1999 | One rewrite request or all of them are given up, true exactly if there was one |
| `DeferredLane.Client.CancelGeneration` | apps/openmw/mwlua/lorkhanbindings.cpp:2598-2608 | A new generation starts with nothing deferred and nothing asked for, but transfers keep their own records |
| `CommitGate.ActionCommitGate.Queue` | components/lorkhan/include/lorkhan/actions.hpp:29 | Only a fresh gate is queued |
| `CommitGate.ActionCommitGate.Begin` | components/lorkhan/include/lorkhan/actions.hpp:30 | Only a queued gate begins |
| `CommitGate.ActionCommitGate.Cancel` | components/lorkhan/include/lorkhan/actions.hpp:31 | Only before the commit begins |
| `CommitGate.ActionCommitGate.Finish` | components/lorkhan/include/lorkhan/actions.hpp:32 | Only a begun commit finishes |
| `CommitTheorems.CommittedAtMostOnce` | apps/openmw/mwlua/lorkhanbindings.cpp:1178-1185 | After any calls the world was changed at most once for a retained intent, and never for one that any earlier or later call cancels at its gate |
| `CommitTheorems.StatusSettlesOnce` | apps/openmw/mwlua/lorkhanbindings.cpp:1152-1185 | Once a record's commit has begun its status changes at most once over all continuations, from pending to a terminal value |
| `CommitTheorems.StatusMeans` | apps/openmw/mwlua/lorkhanbindings.cpp:1168-1185 | After any calls: pending without a hook means queued and not begun, pending with a hook means begun, succeeded means committed, and stopped at the gate means cancelled or rejected |
| `CommitOutcomes.TransferStatusExact` | apps/openmw/mwlua/lorkhanbindings.cpp:1440-1556 | After any calls, a committed record that is no spell has succeeded if and only if its one commit was done, observed, not withdrawn and not expired; it is cancelled if and only if withdrawn or unobserved, and failed otherwise |
| `CommitOutcomes.CastStatusExact` | apps/openmw/mwlua/lorkhanbindings.cpp:1440-1471 | After any calls, a committed cast has succeeded if and only if its hook was attached and the first thing to end it was a reported success; it is pending exactly until something ends it |
| `CommitOutcomes.ResentOnlyAfterBadAnswer` | apps/openmw/mwlua/lorkhanbindings.cpp:2181-2200 | Of one retention, a report goes out first or right after the last one was answered badly: never while an answer is awaited, never once it was good |
| `CommitOutcomes.PendingWaits` | apps/openmw/mwlua/lorkhanbindings.cpp:1178-1185 | A pending record that is no cast has its closure queued, unless that closure has run outside its scope |
| `CommitOutcomes.StrandedOnlyOutside` | apps/openmw/mwlua/lorkhanbindings.cpp:1181-1183 | Only a closure that runs while the client is not ready or in another session or generation strands a record |
| `CommitOutcomes.StrandedNeverCommits` | apps/openmw/mwlua/lorkhanbindings.cpp:1439 | A queued record with no closure left is never committed, whatever is called: "exactly once" holds only as "at most once" |
| `CommitOutcomes.PendingCanStrand` | apps/openmw/mwlua/lorkhanbindings.cpp:1181-1183 | The failing input: a run after which the client is ready in the record's own scope, the queue is empty and the record is still pending |
| `CommitScopes.RecordsOfOneScope` | apps/openmw/mwlua/lorkhanbindings.cpp:927-933 | After any calls, everything observed and retained was seen in one session and generation |
| `CommitScopes.CommitScopeExact` | apps/openmw/mwlua/lorkhanbindings.cpp:1178-1185 | A commit is of an intent observed in the client's session and generation if and only if those are the ones it last synchronised with |
| `CommitScopes.CommitsInItsScope` | apps/openmw/mwlua/lorkhanbindings.cpp:1178-1185 | So every commit is, as long as no session and generation is left and entered again |
| `CommitScopes.WithdrawnExact` | apps/openmw/mwlua/lorkhanbindings.cpp:1137-1142 | An observation is withdrawn exactly if some call has ended its turn in the client's session and generation |
| `CommitScopes.EndedTurnNeverCommits` | apps/openmw/mwlua/lorkhanbindings.cpp:1439-1443 | Once a turn has ended, no intent of what it saw changes the world: one not committed by then ends as cancelled if its commit is ever begun |
| `CommitCalls.TurnObserved` | apps/openmw/mwlua/lorkhanbindings.cpp:750-767 | When a turn is observed and with which scope, which observations it leaves, and when the others are forgotten |
| `CommitCalls.IntentKept` | apps/openmw/mwlua/lorkhanbindings.cpp:1133-1150 | An intent is retained exactly if it is of the client's session and generation, not held already, and fewer than 256 are; what the new record is |
| `CommitCalls.TurnCancelled` | apps/openmw/mwlua/lorkhanbindings.cpp:1137-1142 | The end of a turn cancels for good exactly the live records of that turn |
| `CommitCalls.ActionCancelled` | apps/openmw/mwlua/lorkhanbindings.cpp:1152-1160 | A live action is cancelled for good, before its commit unless a cast is under way |
| `CommitCalls.ActionExecuted` | apps/openmw/mwlua/lorkhanbindings.cpp:1162-1186 | The first question queues an intent; a started cast that was interrupted or one that ran out of time has failed; nothing else changes a status |
| `CommitCalls.CommitExact` | apps/openmw/mwlua/lorkhanbindings.cpp:1181-1185 | A commit happens exactly for a queued record named by the first closure while the client is ready in the closure's session and generation; what it found is what was so |
| `CommitCalls.CastMayStart` | apps/openmw/mwlua/lorkhanbindings.cpp:1251-1261 | A cast starts exactly if it is pending, observed in the current scope, unexpired and selected; otherwise it lets go, failed if it was pending |
| `CommitCalls.CastEnds` | apps/openmw/mwlua/lorkhanbindings.cpp:1263-1270 | The end of a cast settles its record and frees its hook, and touches no other |
| `CommitCalls.CastGoesOn` | apps/openmw/mwlua/lorkhanbindings.cpp:1272-1309 | A cast goes on exactly if it could start, has started, is not withdrawn and is aimed |
| `CommitCalls.ReportTaken` | apps/openmw/mwlua/lorkhanbindings.cpp:2159-2204 | What a report changes: an early rejection or cancellation becomes the status, a fitting report is kept first and goes out unless an answer is awaited or was good |
| `CommitCalls.AnswerTaken` | apps/openmw/mwlua/lorkhanbindings.cpp:1222-1240 | An answer settles the first record reported under its request, and changes nothing else |
| `CommitTheorems.OneHookPerCaster` | apps/openmw/mwlua/lorkhanbindings.cpp:1243-1249 | After any calls at most one retained cast holds a caster's hook, casts cancelled but not yet released included |
| `CommitTheorems.FirstReportOnly` | apps/openmw/mwlua/lorkhanbindings.cpp:2188-2200 | Whatever calls come between, all reports sent for one retention are the same, and the first kept report stays |
| `CommitTheorems.ReportExact` | apps/openmw/mwlua/lorkhanbindings.cpp:2188-2194 | After any calls a kept report has its record's status if and only if the turn was observed, the gate is fresh, or the report is not a failure |
| `CommitTheorems.SentExact` | apps/openmw/mwlua/lorkhanbindings.cpp:2188-2200 | A report that is sent has the status reported, exactly unless the intent was never observed and a failure was kept before |
| `CommitTheorems.ReportMayDisagree` | apps/openmw/mwlua/lorkhanbindings.cpp:2188-2194 | The failing input: five calls from an empty client that end with a failure sent for a cancelled record |
| `CommitTheorems.StepMoves` | apps/openmw/mwlua/lorkhanbindings.cpp:1133-1309 | Every call keeps the accounts, only advances records, and forgets nothing of the history |
| `CommitTheorems.AfterSafe` | apps/openmw/mwlua/lorkhanbindings.cpp:1133-1309 | The accounts hold after every history of calls on a new client |
| `CommitTheorems.RunMoves` | apps/openmw/mwlua/lorkhanbindings.cpp:1133-1309 | From any state to any later one records only advance, gates never go back, kept reports stay, and history only grows |
| `CommitTheorems.AfterBounded` | apps/openmw/mwlua/lorkhanbindings.cpp:761-767 | At most 256 intents are held, and exactly the observations of the last 16 turns observed in this session and generation |
| `CommitClient.NativeClient.SyncTransferScope` | apps/openmw/mwlua/lorkhanbindings.cpp:927-933 | Records and observations survive exactly while session and generation stay the same |
| `CommitClient.NativeClient.SubmitTurn` | apps/openmw/mwlua/lorkhanbindings.cpp:750-767 | A ready client synchronises its scope and keeps the first observation of an accepted turn, the oldest of sixteen making room |
| `CommitClient.NativeClient.RetainIntent` | apps/openmw/mwlua/lorkhanbindings.cpp:1133-1150 | Adds exactly one fresh record for a new in-scope intent below the limit, failed at once when its turn was not observed |
| `CommitClient.NativeClient.EndTurn` | apps/openmw/mwlua/lorkhanbindings.cpp:1138-1142 | Withdraws the turn's observation, cancels exactly its records that have not ended, commits and sends nothing |
| `CommitClient.NativeClient.CancelTransfer` | apps/openmw/mwlua/lorkhanbindings.cpp:1152-1160 | Cancels at the gate before the commit, or a cast under way; terminal records are untouched |
| `CommitClient.NativeClient.ExecuteTransfer` | apps/openmw/mwlua/lorkhanbindings.cpp:1162-1186 | Fails interrupted or expired casts, queues one commit for a confirmed action, reports the status |
| `CommitClient.NativeClient.RunQueued` | apps/openmw/mwlua/lorkhanbindings.cpp:1181-1185 | A queued closure commits only in its own session and generation and only through the gate; otherwise nothing changes |
| `CommitClient.NativeClient.CommitTransfer` | apps/openmw/mwlua/lorkhanbindings.cpp:1440-1471 | Status after a commit, and a hook only for a spell whose caster has none |
| `CommitClient.NativeClient.SpellStartAllowed` | apps/openmw/mwlua/lorkhanbindings.cpp:1251-1261 | Allowed exactly when the caster has no hook or its cast is pending, current, unexpired and selected; refusal fails and releases it |
| `CommitClient.NativeClient.SpellFinished` | apps/openmw/mwlua/lorkhanbindings.cpp:1263-1270 | The caster's record gets its terminal status if it was pending, and its hook is released |
| `CommitClient.NativeClient.SpellTarget` | apps/openmw/mwlua/lorkhanbindings.cpp:1272-1309 | Zero exactly without a hook, one only for a current, started, unwithdrawn cast with a target, minus one after releasing the hook |
| `CommitClient.NativeClient.SubmitActionResult` | apps/openmw/mwlua/lorkhanbindings.cpp:2159-2204 | A report for a retained action is refused on a status mismatch, not repeated while one is pending or accepted, and otherwise sends the first kept report |
| `CommitClient.NativeClient.SettleTransferReceipt` | apps/openmw/mwlua/lorkhanbindings.cpp:1222-1240 | Settles exactly the first record whose report this result answers |
| `ClipWindow.PlaybackClipWindow.Append` | components/lorkhan/include/lorkhan/playback.hpp:52-55 | Drops what is left to skip and keeps the rest |
| `ClipWindow.PlaybackClipWindow.Available` | components/lorkhan/include/lorkhan/playback.hpp:56 | What may be read is what is held beyond the last `tail` bytes |
| `ClipWindow.PlaybackClipWindow.Read` | components/lorkhan/include/lorkhan/playback.hpp:57-61 | Returns the oldest available bytes and keeps the others |
| `ClipWindow.AlwaysClipped` | components/lorkhan/include/lorkhan/playback.hpp:47-62 | For any calls, what was read followed by what is held is the stream without its first `skip` bytes, and nothing read lies in the last `tail` bytes seen |
| `ClipWindow.RunIsSlice` | components/lorkhan/include/lorkhan/playback.hpp:46-62 | What was read is a prefix of the slice, and all of it once nothing more is available |
| `ClipWindow.ChunkingDoesNotMatter` | components/lorkhan/include/lorkhan/playback.hpp:46 | Two drained windows given the same stream have produced the same bytes |
| `ClipWindow.ReadProgress` | components/lorkhan/include/lorkhan/playback.hpp:56-61 | A read gets the lesser of what it asks for and what the slice of the stream so far has beyond what was read |
| `ClipWindow.ReadDrains` | components/lorkhan/include/lorkhan/playback.hpp:56-61 | One read of enough bytes leaves at most `tail` bytes held, and the output is the whole slice |
| `LoopbackUrl.ValidIpv4Loopback` | components/lorkhan/src/validation.cpp:49-70 | Accepts exactly the canonical dotted texts of addresses in 127/8 |
| `LoopbackUrl.LoopbackExact` | components/lorkhan/src/validation.cpp:49-70 | The specification of that check, against printed octets, in both directions |
| `LoopbackUrl.ValidPath` | components/lorkhan/src/validation.cpp:72-89 | The segment loop decides exactly: absolute, no empty inner segment, no dot segment, no backslash or percent sign |
| `LoopbackUrl.PortExact` | components/lorkhan/src/validation.cpp:34-47 | A non-empty port text is accepted exactly when it is the canonical decimal of 1 to 65535 |
| `LoopbackUrl.ParseExact` | components/lorkhan/src/validation.cpp:208-254 | A URL parses to r exactly when it is the scheme, the host, a spelling of the port and a spelling of the path of an acceptable r |
| `LoopbackUrl.ParseSound` | components/lorkhan/src/validation.cpp:208-254 | Whatever is accepted is such a spelling, with a plain, valid, normalised path |
| `LoopbackUrl.ParseComplete` | components/lorkhan/src/validation.cpp:208-254 | Every such spelling is accepted and means that URL |
| `LoopbackUrl.ParsePrintFixpoint` | components/lorkhan/src/beast_transport.cpp:1066-1071 | Printing a parsed URL and parsing it again gives the same URL, so the transport's recheck never refuses one |
| `LoopbackUrl.PrintInjective` | components/lorkhan/src/validation.cpp:202-206 | Different accepted URLs print differently |
| `LoopbackUrl.AcceptedOctets` | components/lorkhan/src/validation.cpp:208-215 | An accepted URL starts with `http://` and has no control character, no query or fragment mark, no percent sign and no backslash |
| `Decimals.PrintedDigit` | components/lorkhan/src/validation.cpp:202-206 | Each digit of a printed port, from the right, is the quotient by its power of ten |

## Left out

- The service object itself: `BridgeService` methods are interleaved steps on one state value rather than methods of a class, since their interleaving is the point; update in place happens in the queue and registry classes they use.
- Sockets, deadlines, HTTP and the media cache of the transport: replaced by a transport that answers anything; `interrupt` changes no modelled state.
- `validateRequest`, `serializeRequest`, `validateResponse` and the response field readers: one boolean says whether a request's payload is valid.
- Memory orders, condition variables and fairness: steps are sequentially consistent and only safety is proved.
- `stop_source` and `stop_token`: a source is a name, and stopping it adds the name to a set that tokens read.
- Wrap-around of the 64-bit generation counter: generations are unbounded.
- The character-by-character conversion of integers and doubles by `from_chars`: integers by their decimal value and range, doubles by the environment.
- `JsonParser.Parser.ParseEscape`: a helper for the escape branch that the source writes inside the string loop, as are the three parts of `JsonParser.Parser.ParseNumber`.
- `find`, `requireObjectWithSchema` and the typed readers over parsed values.
- `sha256Hex` and WAV writing: easy members over the digest.
- DeferredLane.Client.Take: models one generation of the service's poll, whose filter for results of left generations is proved with the bridge; such leftovers take up room in the inbound queue that this model does not count.
- DeferredLane.Client.Handle: the media, menu dialogue and turn tables, the documents parsed from payloads and the events emitted to Lua are not part of the tables; retries of the session handshake are not modelled.
- DeferredLane.Client.Ask: the parameters `valid` and `sent` stand for readiness, payload checks, a diary book still being made, and the service's answer, and the service accepts only identifiers it has not seen; a transfer's superseded or forgotten receipt request stays in its table.
- JsonParser.Parser.ParseNumber: the conversion of a non-integral lexeme by `from_chars` is a function given by the environment.
- CommitClient.NativeClient.RetainIntent: intents of kinds that are not retained are not passed to it.
- CommitClient.NativeClient.SubmitTurn: what a turn saw is a name with its scope, its contents are not modelled, and a turn whose fields cannot be read makes no call.
- CommitClient.NativeClient.CommitTransfer: the engine's own preconditions, container and world changes are one outcome, expiry is a parameter, and an actor resolved through an observation is one abstract name.
- CommitClient.NativeClient.SpellStartAllowed: expiry and the caster's selected spell are parameters.
- CommitClient.NativeClient.SpellTarget: expiry, the selected spell, and the checks of caster, target, line of sight and range are parameters.
- The order in which a map is searched for a hook: any match is taken, which is proved to be the only one.
- Playback gain, lip amplitude and settings ranges, which are floating point.
- Canonical response lines (`protocol_response.cpp`), UUID and timestamp checks, `EventTracker`, `ActionResultRegistry`: true but easy.
