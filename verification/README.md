# Verified models of flutter-pi's codecs, frame pacing, planes and buffers

Dafny models of five connected parts of flutter-pi, with proofs about all inputs and all runs.

**Standard message codec** (`Bytes`, `Ieee754`, `StdValue`, `StdWriter`, `StdDecoder`, `StdMethodCall`, `StdWire`, `StdAccept`,
`RawStd`, `RawCheck`, `RawEquals`, `RawRegular`, `RawCompare`). `StdValue.Encodes(m, off, v)` is an independent description of the layout: memory `m` holds
value `v` at offset `off` from an 8-aligned base, whatever the padding bytes are. The size computation, the writer, the
allocating decoder and the zero-copy "raw" walk, check, lookup and comparison are each proved against it. `StdWire.Wire` writes
the format down byte by byte, with literal tags; every encoding is in it, and it says exactly what decoder and check accept.
`Ieee754` gives the numbers that doubles and floats stand for.

**JSON** (`Jsmn`, `JsmnInvariant`, `Json`, `JsonGrammar`, `JsonMeaning`, `JsonTokens`, `JsonDecode`, `JsonTexts`,
`JsonRoundTrip`). `JsonGrammar` holds the concrete syntax of RFC 8259, blanks and escapes included, and `JsonMeaning` what its
strings mean. The tokeniser's array is proved
to be a well-nested forest, its implicit stack to be a bracket matcher's, and every text of the grammar to
yield its own tokens, and printing, tokenising and decoding together to give back exactly what was printed.

**Frame scheduler** (`Scheduler`, `SchedulerWorld`, `SchedulerRuns`, `SchedulerSafety`, `SchedulerMailbox`, `SchedulerPacing`). Every locked section is a step;
callbacks outside the lock are made by any number of threads, in any interleaving, and may call back in. The model
includes the display side: commits, page flips and their dispatch.

**KMS requests** (`KmsPlanes`, `KmsChoice`, `KmsBuilder`, `KmsCommit`, `KmsRuns`, `KmsRetire`, `KmsCallbacks`). Plane allocation with its fallbacks
and rollback, atomic commits against a kernel that applies a request completely or not at all, and the retirement of
reference-counted requests one flip late.

**Buffers and tasks** (`Dmabuf`, `DmabufShown`, `GbmSlots`, `TaskQueue`). Buffer lifetimes over all runs, the dmabuf ones composed with
the requests of `KmsRetire`, and the queue of tasks posted to the platform thread.

Code that updates state in place is modelled by classes and methods; each method is proved equal to a specification
function, and the lemmas are about those functions. Memory of the codecs is a sequence of bytes, addresses are offsets
into it, doubles are 8-byte blocks. The kernel, GBM and other foreign code answer through parameters.

Where the code and what it promises differ, the model follows the code, a lemma gives an input that shows it, and the
exact condition is proved:

- Equality of encoded maps can depend on the order of entries (`RawEquals.DuplicateKeysBreakEquality`). It does not if and
  only if entries with equal keys have equal values (`RawRegular.OrderIgnoredIff`). Comparing a value with all others is
  equality of values if and only if in every map in it the keys are pairwise different or all entries are equal
  (`RawRegular.DecidesIff`).
- The check of a scalar double counts nine bytes and no padding (`RawCheck.CheckOvershoots`, `RawCheck.CheckSound`).
- The printer writes a quote as `\t`, so that a printed string means the string if and only if it holds no quote
  (`JsonMeaning.EscapedMeansIff`), and it writes control characters without a short escape, and keys, as they are
  (`JsonMeaning.EscapedIsGrammaticalIff`, `JsonMeaning.PrintedMeansIff`). The decoder leaves escapes as they are, so that it
  gives what a text means if and only if the text has none (`JsonRoundTrip.JsonTextDecodesIff`, `JsonRoundTrip.RoundTripsIff`).
- Scanout listeners are documented to run after any queued frame has been committed. Another thread that still owes a
  firing of listeners can break that (`SchedulerSafety.ListenerMayOvertakeQueuedFrame`,
  `SchedulerSafety.ListenersRunAfterQueuedFrameIff`).
- A commit disables unused planes only among the first 32 (`KmsRuns.PlaneBeyondReachStaysOn`,
  `KmsCommit.CommitShowsExactlyIff`).
- A commit asserts that its CRTC has no scanout callback configured. The kernel accepts it once the previous flip event is
  sent; if the event was not read, the callback is still there and gets replaced
  (`KmsCallbacks.EarlyCommitTakesCallback`, `KmsCallbacks.AssertionHoldsIff`). Otherwise every flip reports to its own commit
  (`KmsCallbacks.FlipsReportTheirCommits`). The frame scheduler never commits that early
  (`SchedulerSafety.CallbacksAreExpected`).
- A GBM surface can run out of slots while the thread that destroys one has not cleared its flag yet
  (`GbmSlots.FlipHandlerMayHoldTheLastSlot`, `GbmSlots.NoSlotIff`).

## Model

| member | source | states |
|---|---|---|
| `Bytes.LittleEndianRoundTrip` | src/platformchannel.c:117-167 | the bytes of a size or number in little-endian order read back as that number |
| `Bytes.AlignmentsAgree` | src/platformchannel.c:80-86 | the codec's negate-and-mask and the raw API's or-and-increment both give the smallest multiple of 4 or 8 that is not below the address |
| `StdWriter.CalcValueSize` | src/platformchannel.c:247-339 | from any starting size, the result is the offset at which the value's encoding ends there; EINVAL exactly if the value holds a Float32Array |
| `StdWriter.Writer.WriteSize` | src/platformchannel.c:117-140 | writes the 1-, 3- or 5-byte prefix of the size and nothing else |
| `StdWriter.Writer.WriteValue` | src/platformchannel.c:341-432 | the cursor ends where the size computation says, the bytes written encode the value at that offset, no byte outside them changes, and EINVAL is returned exactly for values holding a Float32Array |
| `StdWriter.Writer.WriteList` | src/platformchannel.c:404-414 | a list is the encodings of its items back to back |
| `StdWriter.Writer.WriteMap` | src/platformchannel.c:415-428 | a map is its keys and values, alternating, back to back |
| `StdDecoder.DecodeSizeRoundTrip` | src/platformchannel.c:142-167 | reading a size prefix gives the size written and stops right behind the prefix |
| `StdDecoder.Reader.ReadSize` | src/platformchannel.c:142-167 | reads the prefix as specified, or reports a message that is too short without going past its end |
| `StdDecoder.Reader.DecodeValue` | src/platformchannel.c:553-726 | decodes what the specification decodes, with cursor and remaining size moved alike, or returns EBADMSG exactly where it fails |
| `StdDecoder.DecodeRoundTrip` | src/platformchannel.c:553-726 | at any offset and whatever the padding holds, an encoding of an encodable value decodes to that value, and the decoder stops at the end of the encoding |
| `StdDecoder.DecodeSeqRoundTrip` | src/platformchannel.c:684-722 | the same for values back to back, as in lists, maps and method calls |
| `StdMethodCall.EncodeMethodCall` | src/platformchannel.c:1013-1089 | the buffer is exactly as long as the encodings of name and argument back to back, and holds them |
| `StdMethodCall.DecodeMethodCall` | src/platformchannel.c:930-946 | gives the name and argument the specification decodes, and EBADMSG if either fails or the name is no string |
| `StdMethodCall.MethodCallRoundTrip` | src/platformchannel.c:930-1089 | an encoded method call decodes to its name and argument |
| `StdValue.EncodesFrame` | src/platformchannel.c:341-432 | an encoding depends on no byte outside its own range |
| `StdWire.EncodesIsWire` | src/platformchannel.c:247-432 | every encoding is, byte by byte, the tag (0 to 14), the 1-, 3- or 5-byte size, padding up to the first multiple of 4 or 8 for elements of that size, and the elements, numbers as little-endian two's complement |
| `StdAccept.DecodesIff` | src/platformchannel.c:553-726 | the decoder gives a value and an end if and only if the bytes up to that end are that value in the wire format, where sizes may be written too long, a text stops at its first NUL and byte counts are below 2^31, and the end lies in the message |
| `StdAccept.AcceptsIff` | src/platformchannel.c:2226-2397 | the check accepts if and only if the bytes are a value other than and without LargeInt in the wire format, with minimal sizes, that ends in the buffer, not counting the padding of a scalar double at its end |
| `RawStd.RawStdValueAfter` | src/platformchannel.c:2135-2173 | computes the walk over a value by recursion over its elements, and reports tags it does not know |
| `RawStd.RawAfterRefinesDecode` | src/platformchannel.c:2135-2173 | on every encoding without LargeInt the walk ends where the decoder's cursor ends |
| `RawStd.RawStdListGetNthElement` | src/platformchannel.c:2175-2194 | the pointer to the n-th element of an encoded list holds, and decodes to, the n-th item |
| `RawStd.RawStdMapFindStr` | src/platformchannel.c:2214-2224 | null exactly if looking the string up in the decoded map finds nothing; otherwise a pointer that decodes to the value found |
| `RawStd.StrnEqualIsEquality` | src/platformchannel.c:1861-1865 | comparing as many bytes as the key has, after comparing lengths, is equality of strings without NUL |
| `RawCheck.RawStdValueCheck` | src/platformchannel.c:2269-2397 | computes the specified check, element by element, never reading beyond the buffer |
| `RawCheck.CheckExact` | src/platformchannel.c:2226-2397 | a value is accepted if and only if it is acceptable at all and its end, with padding of a trailing double not counted, lies in the buffer |
| `RawCheck.CheckComplete` | src/platformchannel.c:2269-2397 | every encoding without LargeInt is accepted for every buffer at least as long |
| `RawCheck.CheckSound` | src/platformchannel.c:2269-2397 | walking an accepted value never fails; it ends within the buffer if and only if the value does not end in a scalar double or the padded end fits, and at most 7 bytes beyond it |
| `RawCheck.CheckOvershoots` | src/platformchannel.c:2283 | a nine-byte buffer is accepted for a double whose padded end is at 16 |
| `Ieee754.DoubleEqIsNumeric` | src/platformchannel.c:1951 | two doubles compare as equal if and only if neither is a NaN and the numbers given by their sign, exponent and fraction fields are the same |
| `Ieee754.FloatEqIsNumeric` | src/platformchannel.c:2061-2076 | the same for floats |
| `RawEquals.ValueEqReflexive` | src/platformchannel.c:1930-2078 | equality of values, with maps as finite maps and doubles as numbers, is reflexive without NaN |
| `RawEquals.ValueEqSymmetric` | src/platformchannel.c:1930-2078 | that equality is symmetric |
| `RawEquals.ValueEqTransitive` | src/platformchannel.c:1930-2078 | that equality is transitive |
| `RawEquals.GreedyEqCorrect` | src/platformchannel.c:2007-2060 | through nested lists and maps the greedy matching of map entries decides whether a value equals another one, both without NaN, if in every map in the first the keys are pairwise different or all entries are equal |
| `RawEquals.GreedyEqSound` | src/platformchannel.c:1930-2078 | whatever compares as equal is equal, for all values, also with duplicate keys |
| `RawRegular.OrderIgnoredIff` | src/platformchannel.c:2022-2052 | a map without NaN whose keys and values compare properly is accepted in every order of its entries if and only if entries with equal keys have equal values |
| `RawRegular.DecidesIff` | src/platformchannel.c:2007-2060 | comparing a value without NaN with every other such value gives equality if and only if, in every map in the value, the keys are pairwise different or all entries are equal |
| `RawEquals.GreedyEqReflexive` | src/platformchannel.c:1937-1939 | the shortcut for equal pointers agrees with the comparison, even with duplicate keys |
| `RawEquals.DuplicateKeysBreakEquality` | src/platformchannel.c:2022-2052 | two maps with the same entries in different order compare as different when a key occurs twice |
| `RawCompare.EncodingUnique` | src/platformchannel.c:341-432 | the bytes at an address are the encoding of at most one value |
| `RawCompare.RawStdValueEquals` | src/platformchannel.c:1930-2078 | the comparison in memory gives the answer of the greedy comparison of the values encoded there |
| `RawCompare.CompareMaps` | src/platformchannel.c:2007-2060 | the loops over a's keys and b's unused keys compute the greedy matching |
| `RawCompare.RawStdValueEqualsCorrect` | src/platformchannel.c:1930-2078 | on encodings of values without NaN, the first with different keys or equal entries in each map, the result is true exactly when the decoded values are equal, doubles and floats as the numbers they stand for |
| `Jsmn.Parser.AllocToken` | src/jsmn.h:99-111 | takes the next unused token and resets it, or fails without any change when the array is full |
| `Jsmn.Parser.ParsePrimitive` | src/jsmn.h:126-176 | appends the token from the start to the first delimiter, or fails with the position unchanged |
| `Jsmn.Parser.ParseString` | src/jsmn.h:181-245 | appends the token between the quotes, skipping escapes, or fails with the position unchanged |
| `Jsmn.Parser.OnClose` | src/jsmn.h:289-341 | closes the last open token if its kind matches and makes the next open one the super token; otherwise fails unchanged |
| `Jsmn.Parser.OnComma` | src/jsmn.h:357-373 | after a key's value the super token goes back to the innermost open container |
| `Jsmn.Parser.Parse` | src/jsmn.h:250-428 | with a token array, result, tokens, position and super token are those of the specification; without one, the result is the dry run's count; unused tokens stay untouched |
| `JsmnInvariant.TokeniseKeepsForest` | src/jsmn.h:250-428 | at every point, also when the parse fails, the tokens are ordered, within the text, delimited by their own brackets or quotes, and nested or disjoint, with open tokens enclosing all later ones |
| `JsmnInvariant.ParsedTokensAreNested` | src/jsmn.h:250-428 | on success the result is the number of tokens, all are closed with 0 <= start <= end <= len, starts strictly increase, and any two ranges are disjoint or properly nested in a container |
| `JsmnInvariant.TokeniserMatchesBrackets` | src/jsmn.h:250-428 | for every input and array size the result is that of a parser that keeps a stack of brackets and stores no tokens |
| `JsmnInvariant.StepMovesStack` | src/jsmn.h:256-408 | the kinds of the open tokens are a stack: an accepted opening bracket pushes its kind, a closing one is accepted exactly if its kind is on top and pops it, and everything else leaves it as it is |
| `JsmnInvariant.DryRunPredictsTokens` | src/jsmn.h:250-428 | a successful parse fills as many tokens as a dry run counts, and an array of that size never runs out |
| `Json.CalcValueSize` | src/platformchannel.c:434-480 | the length of the printed text, for every value, escapes included |
| `Json.Writer.WriteValue` | src/platformchannel.c:482-551 | appends exactly the printed text and touches at most one byte behind it, the terminator |
| `Json.Writer.WriteString` | src/platformchannel.c:489-528 | a quoted string with its seven escapes |
| `Json.EncodeJson` | src/platformchannel.c:1001-1007 | one byte more than the computed size is enough, and all but that byte is the text |
| `JsonTokens.Simulate` | src/jsmn.h:250-428 | from any state at the text of a JSON value, with blanks anywhere between its tokens, the tokeniser bumps the super token and appends that value's tokens in preorder, with sizes counting children and every key owning its value |
| `JsonGrammar.QuotableIff` | src/jsmn.h:181-245 | a text scans as a string up to its end if and only if it consists of characters that are neither quote, backslash nor NUL, of the eight two-character escapes, and of `\u` with four hex digits |
| `JsonTexts.StringEndIff` | src/jsmn.h:181-245 | a string token ends at a position if and only if a quote is there and such a text before it |
| `JsonGrammar.PrimitiveEndIff` | src/jsmn.h:126-176 | a primitive ends at a position if and only if all characters before it may stand in one and the next is a delimiter or the end |
| `JsonTokens.TextTokenises` | src/jsmn.h:250-428 | the text of a JSON value, alone or in front of a NUL, yields exactly its tokens and their number |
| `JsonTokens.JsonTextTokenises` | src/jsmn.h:250-428 | in particular every text of the grammar of RFC 8259 does |
| `JsonMeaning.EscapedMeans` | src/platformchannel.c:492-524 | read by section 7 of RFC 8259, the characters printed for a string mean the string with every quote replaced by a tab |
| `JsonMeaning.EscapedMeansIff` | src/platformchannel.c:492-524 | they mean the string itself if and only if it holds no quote |
| `JsonMeaning.EscapedIsGrammaticalIff` | src/platformchannel.c:492-524 | they are a string of the grammar if and only if the string holds no control characters but those with a short escape |
| `JsonMeaning.PrintIsRender` | src/platformchannel.c:482-551 | the printed text is that of a document of the grammar, without blanks |
| `JsonMeaning.PrintedMeansIff` | src/platformchannel.c:482-551 | if the keys of all objects can be read, the printed text means the value if and only if strings hold no quote, keys no escapes, and no number prints as a keyword |
| `JsonTokens.ScanIsLocal` | src/jsmn.h:188-245 | where a string token ends does not depend on what follows its closing quote |
| `JsonDecode.Decoder.DecodeValue` | src/platformchannel.c:754-838 | value, tokens consumed, message contents and EBADMSG are those of the specification |
| `JsonDecode.Decoder.DecodePrimitiveAt` | src/platformchannel.c:762-780 | a number is read up to a temporary NUL, and the message is restored |
| `JsonDecode.DecodeJsonMessage` | src/platformchannel.c:732-752 | tokenises with room for 128 tokens, then decodes the first value; tells when that leaves the message or the token list |
| `JsonTexts.DecodedTextsAreQuotable` | src/platformchannel.c:754-838 | whatever the message, every string and key of the decoded value is the text of a string token up to its closing quote, undisturbed by the NULs written for others |
| `JsonTexts.ScanFromOutside` | src/jsmn.h:188-245 | the text up to the quote that ends a string token is one that the tokeniser reads to its end by itself |
| `JsonRoundTrip.DecodesAsShown` | src/platformchannel.c:728-839 | the text of a JSON value of at most 128 tokens decodes, using exactly those tokens, to the value with its strings as written; one with more tokens is rejected and the message unchanged |
| `JsonMeaning.ShownMeansIff` | src/platformchannel.c:781-790 | strings and keys as written mean what the text means if and only if the text has no escapes |
| `JsonRoundTrip.JsonTextDecodesIff` | src/platformchannel.c:728-839 | every text of the grammar decodes if and only if it has at most 128 tokens, and then to what it means if and only if it has no escapes |
| `JsonRoundTrip.RoundTripsIff` | src/platformchannel.c:434-839 | printing and decoding gives back the value if and only if it fits the token list, its strings and keys can stand between quotes as they are, no string holds an escaped character, and no number prints as a word in n, t or f |
| `JsonRoundTrip.DenotesKept` | src/platformchannel.c:781-790 | decoded strings are pointers into the message, and later writes of the decoder do not disturb them |
| `JsonRoundTrip.QuoteReadsAsTab` | src/platformchannel.c:514-517 | a quote and a tab are printed alike |
| `Scheduler.FrameScheduler.OnVsyncRequest` | src/frame_scheduler.c:185-230 | replies at once or defers the request until the next flip, by present mode and pending commit |
| `Scheduler.FrameScheduler.PresentFrame` | src/frame_scheduler.c:232-279 | presents at once, or queues the frame and cancels the one it displaces |
| `Scheduler.FrameScheduler.OnNextScanout` | src/frame_scheduler.c:281-296 | accepts a listener unless 16 are waiting |
| `Scheduler.FrameScheduler.CancelScanoutListener` | src/frame_scheduler.c:298-310 | true exactly if such a listener waits; takes it out by moving the last one into its place |
| `Scheduler.FrameScheduler.OnPresentFailed` | src/frame_scheduler.c:331-373 | cancels the queued frame, answers the deferred request, fires the listeners |
| `Scheduler.FrameScheduler.OnScanout` | src/frame_scheduler.c:456-524 | answers the deferred request, presents the queued frame, fires the listeners, in that order; an unexpected scanout only fires the listeners |
| `Scheduler.FrameScheduler.TakeScanoutListeners` | src/frame_scheduler.c:313-329 | takes all waiting listeners out before calling any |
| `SchedulerRuns.CancelListenerRemovesOne` | src/frame_scheduler.c:298-310 | swap-removal takes out one matching listener and no other |
| `SchedulerMailbox.MailboxRefinement` | src/frame_scheduler.c:159-524 | over every run, with any number of threads and re-entrant callbacks, the scheduler presents, in order, the frames of the mailbox that holds everything since the last commit, presents the newest at the next flip and discards the rest; the cancel callbacks issued are those of the discarded or displaced frames that have one; the queued frame is the newest held |
| `SchedulerMailbox.MailboxConserves` | src/frame_scheduler.c:159-524 | over every run each frame, with or without a cancel callback, is exactly once among the presented, the discarded and the held |
| `SchedulerSafety.Safety` | src/frame_scheduler.c:159-524 | all invariants hold after every run, with any number of threads and re-entrant callbacks |
| `SchedulerWorld.TokenIsUnique` | src/frame_scheduler.c:28-47 | at any time at most one thread presents a frame, reports its failure or delivers its scanout, and then no commit is in the kernel or waiting for dispatch |
| `SchedulerSafety.OneCommitInFlight` | src/frame_scheduler.c:28-47 | presents minus accepted scanouts minus failures is 0 or 1 and equals `waiting_for_scanout`; at most one flip waits to be dispatched |
| `SchedulerSafety.CallbacksAreExpected` | src/modesetting.c:2113-2120 | a commit never finds another one pending or a scanout callback already configured; failures and scanouts arrive only when waited for |
| `SchedulerSafety.NothingIsStranded` | src/frame_scheduler.c:232-524 | a queued frame or deferred request implies exactly one commit still to be made, pending, or to be reported |
| `SchedulerMailbox.NothingIsLost` | src/frame_scheduler.c:185-524 | at any time every frame is queued, given up, or its present callback was made or is owed, exactly one of these, and exactly the given up ones with a cancel callback have it made or owed; every vsync request and listener is waiting, owed its callback, served or withdrawn, exactly one of these |
| `SchedulerSafety.AtMostOnce` | src/frame_scheduler.c:232-524 | no frame is presented twice, cancelled twice, or both |
| `SchedulerMailbox.ExactlyOnceByDestruction` | src/frame_scheduler.c:159-169 | after destruction every frame was presented or discarded exactly once, and a discarded one cancelled exactly once if it has a cancel callback; every listener was run or withdrawn exactly once; of the vsync requests only one that was still deferred is not answered |
| `SchedulerPacing.VsyncIsPaced` | src/frame_scheduler.c:185-230 | over every run, exactly the last vsync request made with double buffering while a commit was under way waits, until that commit is reported; every other one was answered at once or when displaced |
| `SchedulerPacing.RefusedIffFull` | src/frame_scheduler.c:281-296 | over every run, a listener is refused if and only if 16 accepted ones were neither withdrawn nor run nor taken to be run |
| `SchedulerPacing.ListenersRunInOrder` | src/frame_scheduler.c:281-329 | over every run without withdrawals, listeners are run in the order in which they were registered |
| `SchedulerSafety.PresentedInOrder` | src/frame_scheduler.c:232-524 | frames are presented in the order of submission |
| `SchedulerSafety.WithdrawnNeverRuns` | src/frame_scheduler.c:298-310 | a listener whose cancellation returned true never runs |
| `SchedulerSafety.ListenersRunAfterQueuedFrameIff` | src/frame_scheduler.c:503-523 | the listeners waiting at a flip run after the frame queued then, in every continuation, if and only if no other thread owes a firing of listeners |
| `SchedulerSafety.ListenerMayOvertakeQueuedFrame` | src/frame_scheduler.c:313-329 | a run in which a listener overtakes the queued frame |
| `KmsPlanes.FirstFit` | src/modesetting.c:2337-2385 | the available plane with the lowest index that qualifies, or none if none does |
| `KmsChoice.BestPlaneIsPushed` | src/modesetting.c:2600-2784 | a push takes the best of the available planes that suit the layer (cursor planes first if preferred; then primary planes for the bottom layer and overlay planes for the others, those that keep the rotation first, then those that keep the format or have room above; of these the first), and fails for want of a plane if and only if none suits |
| `KmsChoice.LowestZposIsPushed` | src/modesetting.c:2600-2784 | after any sequence of pushes, the layer gets the lowest zpos in its plane's range that is above all zpos handed out |
| `KmsChoice.MinZposIsLowest` | src/modesetting.c:2450-2473 | the first zpos is the lowest any plane of the CRTC supports |
| `KmsPlanes.PushedLayerIsShowable` | src/modesetting.c:2600-2947 | the plane supports the layer's format and modifier, or for the bottom layer its opaque twin; an enforced rotation is one the plane can do and the request sets it; an explicit fence is in the request |
| `KmsPlanes.PushKeepsInv` | src/modesetting.c:2562-2954 | available and allocated planes partition the usable ones, no plane is used twice, zpos strictly increases, and every non-cursor layer above the first has an in-range higher zpos or a larger plane id than its predecessor |
| `KmsPlanes.RunsKeepInv` | src/modesetting.c:2408-2961 | the same over any sequence of pushes and placeholders, and all zpos handed out, also to placeholders, strictly increase |
| `KmsBuilder.RequestBuilder.constructor` | src/modesetting.c:2408-2485 | all usable planes are available and the next zpos is the lowest any of them supports |
| `KmsBuilder.RequestBuilder.AllocatePlane` | src/modesetting.c:2337-2385 | takes the first fit out of the available planes, or leaves them alone |
| `KmsBuilder.RequestBuilder.ReleasePlane` | src/modesetting.c:2387-2406 | makes the plane with that id available again |
| `KmsBuilder.RequestBuilder.FindPlane` | src/modesetting.c:2600-2779 | tries cursor, primary or overlay planes, opaque formats, zpos, plane id and unrotated planes in the documented order |
| `KmsBuilder.RequestBuilder.AddLayerProps` | src/modesetting.c:2808-2927 | adds all of the layer's properties in order, or stops at the first that does not fit |
| `KmsBuilder.RequestBuilder.PushFbLayer` | src/modesetting.c:2562-2954 | a successful push is the specified one; a failed push restores planes, properties, layers and next zpos exactly |
| `KmsBuilder.RequestBuilder.PushZposPlaceholder` | src/modesetting.c:2956-2961 | hands out the next zpos once |
| `KmsBuilder.FoundPlaneTurns` | src/modesetting.c:2871-2893 | the error for a plane that cannot apply an enforced rotation never occurs |
| `KmsCommit.LayerPropsApplied` | src/modesetting.c:2808-2927 | the last value given to any property of any plane: on the layer's plane its framebuffer, CRTC, destination and source rectangle, zpos, rotation, alpha, blend mode and fence where the plane has them; nothing on other planes |
| `KmsCommit.PushDescribes` | src/modesetting.c:2808-2927 | a request's properties show each layer on its plane, with its framebuffer, destination and source, zpos and blending, and leave all other planes alone or off |
| `KmsCommit.Committer.CommitAtomic` | src/modesetting.c:3149-3242 | adds the disabling properties for unused active planes, as far as the request has room, and remembers the layers exactly if the kernel accepts |
| `KmsCommit.CommitKeepsShadow` | src/modesetting.c:3214-3242 | the remembered state covers every plane active in the kernel, although disabled planes are never cleared from it |
| `KmsCommit.CommitShowsExactlyIff` | src/modesetting.c:3152-3164 | after an accepted commit the planes active on the CRTC are exactly the request's, each showing its layer's framebuffer, from and at its layer's rectangles and at its zpos, if and only if no plane out of the commit's reach was active there |
| `KmsRuns.RunsKeepWorld` | src/modesetting.c:3149-3242 | the invariants hold over all runs that interleave building and committing requests for any CRTCs with planes lost in the kernel |
| `KmsRuns.OnlyTheLayersAreShown` | src/modesetting.c:3152-3242 | with at most 32 planes, every accepted commit of every run leaves exactly its layers on its CRTC, each where and as pushed |
| `KmsRuns.PlaneBeyondReachStaysOn` | src/modesetting.c:3154-3164 | a run in which the 33rd plane stays on screen without a layer |
| `KmsRetire.FlipQueue.OnPageFlip` | src/modesetting.c:1396-1463 | records callback and displaced request in one slot and makes the flipped request the last; drops the event when all 16 slots are taken |
| `KmsRetire.FlipQueue.Pop` | src/modesetting.c:1483-1503 | takes the oldest entry out and moves the others up |
| `KmsRetire.FlipQueue.SetScanoutCallback` | src/modesetting.c:2094-2124 | configures the callback of one CRTC |
| `KmsRetire.DestroyRequest` | src/modesetting.c:2487-2509 | runs every layer's release callback once and closes every owned fence once |
| `KmsRetire.RunsKeepInv` | src/modesetting.c:1396-1514 | over all runs of commits, scanouts, flip events, dispatches and references, the count of a request is the number of its holders |
| `KmsRetire.OnScreenIsHeld` | src/modesetting.c:1450-1462 | a request that is in the kernel, named by an unread flip event, or last flipped to is alive and none of its layers has been released |
| `KmsRetire.FlipsRetireInOrder` | src/modesetting.c:1450-1514 | dispatches happen in the order of the flips, and each retires precisely the request its CRTC was flipped to before |
| `KmsRetire.ReleasedOnceUnheld` | src/modesetting.c:2487-2509 | each release callback and fence is released at most once, and has been released exactly when nobody holds the request |
| `KmsCallbacks.NoCallbackConfigured` | src/modesetting.c:2113-2120 | while no flip was dropped, an accepted commit that comes after the flip events of its CRTC were read finds no scanout callback configured |
| `KmsCallbacks.AssertionHoldsIff` | src/modesetting.c:2113-2120 | in a run without dropped flips whose commits all have callbacks, every accepted commit finds none configured if and only if every accepted commit comes after the flip events of its CRTC were read |
| `KmsCallbacks.EarlyCommitTakesCallback` | src/modesetting.c:2113-2123 | a run in which a commit finds a callback configured and replaces it, so that the first flip reports to the second commit's callback |
| `KmsCallbacks.FlipsFollowCommits` | src/modesetting.c:1396-1463 | while no flip is dropped, the flips recorded on a CRTC, then its unread events and the commit in the kernel, are exactly the requests committed to it, in order |
| `KmsCallbacks.FlipsReportTheirCommits` | src/modesetting.c:1396-1463 | if every commit also comes after the flip events of its CRTC were read, each flip reports to the scanout callback of its own commit |
| `KmsRetire.QueueNeverFull` | src/modesetting.c:1426-1437 | if commits on a CRTC wait until its previous flip event was read and dispatched, at most 16 CRTCs never fill the queue |
| `Dmabuf.RefcountedDmabuf.Unref` | src/dmabuf_surface.c:74-92 | the last reference removes the framebuffer, if any, and then gives the buffer back |
| `Dmabuf.DmabufSurface.PushDmabuf` | src/dmabuf_surface.c:240-288 | a posted buffer replaces the next one, which the caller releases; a rejected one changes nothing |
| `Dmabuf.DmabufSurface.Clear` | src/dmabuf_surface.c:179-188 | the surface offers nothing any more, and the caller releases what it offered |
| `Dmabuf.DmabufSurface.PresentKms` | src/dmabuf_surface.c:295-394 | the layer offered is the buffer's, with its framebuffer, format, modifier and the given rectangle; imports at most once per buffer, remembers a failed import, and keeps a reference exactly if the layer was pushed |
| `DmabufShown.PresentShowsIff` | src/dmabuf_surface.c:295-394 | in every run, presenting a surface adds one layer to the request, with a hold on the next buffer, if and only if that buffer has a framebuffer or did not fail to import and is imported now, and the push is accepted; otherwise at most the import happens |
| `DmabufShown.FailedImportIsFinal` | src/dmabuf_surface.c:295-394 | in every run, a buffer whose import failed is never imported or held by a layer again |
| `Dmabuf.BufferStory` | src/dmabuf_surface.c:74-394 | in every run a rejected push leaves no trace, and an accepted buffer comes back exactly once, when nobody holds it, after its framebuffer was removed |
| `Dmabuf.NextBufferIsKept` | src/dmabuf_surface.c:179-288 | a buffer a surface will show next was not given back |
| `Dmabuf.ScannedOutBufferIsKept` | src/dmabuf_surface.c:354-394 | a buffer with a layer in a live request was not given back |
| `Dmabuf.OnScreenBufferIsKept` | src/dmabuf_surface.c:354-394 | in particular not while its request is in the kernel, named by an unread flip event, or last flipped to |
| `GbmSlots.RenderSurface.QueueRelease` | src/egl_gbm_render_surface.c:97-111 | moves the buffer of an unused slot to the list |
| `GbmSlots.RenderSurface.DrainPendingReleases` | src/egl_gbm_render_surface.c:125-132 | gives back all listed buffers in order and empties the list |
| `GbmSlots.RenderSurface.LockSlot` | src/egl_gbm_render_surface.c:731-809 | puts the buffer into the first slot with a clear flag with one reference, or fails exactly if there is none |
| `GbmSlots.RunsKeepInv` | src/egl_gbm_render_surface.c:97-817 | over all interleavings, every buffer taken from GBM is in exactly one slot, on the list, or just acquired, and a slot's count is the number of its users |
| `GbmSlots.ListNeverOverflows` | src/egl_gbm_render_surface.c:108-110 | with four buffers the list never holds more than four |
| `GbmSlots.TakenSlotIsUnused` | src/egl_gbm_render_surface.c:731-809 | a slot is taken again only when its count is zero |
| `GbmSlots.NoSlotIff` | src/egl_gbm_render_surface.c:97-117 | whenever a buffer was locked, no slot is free if and only if some thread has queued a slot's buffer and not cleared its flag and every other slot holds a buffer; that is, if and only if the number of such slots is 5 plus the listed minus the taken buffers, which is at least 1 |
| `GbmSlots.FlipHandlerMayHoldTheLastSlot` | src/egl_gbm_render_surface.c:665-799 | a run of five frames, each given back, rendered and queued in the usual order, that reaches the error for want of a slot |
| `TaskQueue.Queue.Post` | src/flutter-pi.c:612-643 | a task is appended with one wakeup, or nothing changes and the error is returned |
| `TaskQueue.Queue.OnWakeup` | src/flutter-pi.c:1075-1114 | runs all queued tasks in order and resets the eventfd, or does nothing if it cannot be read |
| `TaskQueue.NoLostWakeup` | src/flutter-pi.c:623-643 | under every interleaving, a queued task outside a poster's critical section implies a non-zero eventfd or a drain in progress |
| `TaskQueue.RunsInPostOrder` | src/flutter-pi.c:1075-1114 | tasks run at most once, in the order of their successful posts; a task whose post failed never runs |
| `TaskQueue.FailedPostLeavesNoTrace` | src/flutter-pi.c:633-640 | a failed post, whatever other threads do while it holds the mutex, leaves queue, eventfd, loop and all other tasks as those threads alone would have |
| `TaskQueue.OthersAreQuiet` | src/flutter-pi.c:612-643 | while a poster holds the mutex, other threads can only wake the loop, read the eventfd or finish a callback |
| `TaskQueue.PostSteps` | src/flutter-pi.c:612-643 | uninterrupted, the steps of a post in the interleaved model change queue and eventfd as the method does |
| `TaskQueue.WakeupSteps` | src/flutter-pi.c:1075-1114 | uninterrupted, the steps of a wakeup in the interleaved model do what the method does |
| `TaskQueue.AsleepMeansDone` | src/flutter-pi.c:1075-1114 | when the loop sleeps and nobody posts, every posted task has run |
| `TaskQueue.WaitingTaskWillRun` | src/flutter-pi.c:1075-1111 | from every state with a waiting task and no post in progress, the loop's own steps, finishing its callback, waking up if asleep and draining, are possible and run all posted tasks in order |

## Left out

- Response envelopes of method calls, and the map comparison of `stdvalue_equals` and `jsvalue_equals`: encoder and decoder do not agree there.
- Allocation failure, except of the properties of a KMS request while layers are pushed; 32-bit hosts; big-endian hosts.
- StdWriter.CalcValueSize: sizes below 2^31, as the length fields of the source are ints.
- StdDecoder.Reader.DecodeValue: array sizes whose product with the element size reaches 2^31; the source computes it in 32 bits and may accept them after it wraps.
- RawStd.RawStdValueAfter: element counts whose product with the element size wraps 32 bits.
- RawStd.RawStdMapFindStr: keys that contain NUL; the iteration macro of an empty map reads the byte behind it, which is not modelled.
- RawCompare.RawStdValueEqualsCorrect: values with NaN or LargeInt, on which the comparison is no equivalence, and maps outside the exact condition of `RawRegular.DecidesIff`, on which it is not equality.
- Assertions are taken as compiled out.
- JSON method calls, which unpack an object by the names of its keys, and the string and binary codecs.
- Number formatting and parsing (`%g`, `strtod`): a JSON number stays the characters it is written with.
- JsonMeaning.PrintedMeansIff: object keys that would break the text, since keys are printed unescaped; such values never come back (`JsonRoundTrip.RoundTripsIff`).
- JsonDecode.DecodeJsonMessage: an access outside the message or the token list, which the source does not check for malformed objects and for a number that ends the message, is a result of its own; what the source does then is not modelled.
- Frame-pacing statistics, tracing, logging and the destroy callback of scanouts.
- SchedulerMailbox.ExactlyOnceByDestruction: a vsync request that is deferred when the scheduler is destroyed is not answered; the code does not answer it.
- Legacy and blocking commits, mode setting, connectors, and the CRTC and connector properties of a request.
- KmsPlanes.RunsKeepInv: zpos is unbounded; planes whose range reaches INT64_MAX are excluded, and a placeholder on a CRTC without any zpos plane would wrap.
- KmsCommit.CommitShowsExactlyIff: a request with room for the disabling properties, whose addition the source does not check.
- KmsBuilder.RequestBuilder.PushFbLayer: the source has room for 32 layers and does not check it; a request never has more layers than usable planes (`KmsPlanes.RunsKeepInv`), so that more than 32 need as many planes on one CRTC.
- KmsRetire.QueueNeverFull: without that discipline a flip that finds the queue full is dropped with its request, as in the source.
- The failure return of `eglSwapBuffers`, framebuffer import of GBM buffers, and the EGL and GBM libraries themselves.
- Posting a task from the platform thread itself, which goes through the event loop's own queue.
