# FlyCockpit verification

Dafny models of five stateful cores of FlyCockpit, with proofs over every input, every run or
every reachable state. `dafny verify dfyconfig.toml` checks the whole project.

**Remote terminal host.** `Osc52Grammar` says what the output filter looks for, as a function on
whole streams. `Osc52Filter` is the filter as a function of its pending bytes; `Osc52Chunking`,
`Osc52Candidate`, `Osc52Bounds`, `Osc52Shapes`, `Osc52Passthrough` and `Osc52Clipboard` carry its laws,
`Osc52Reference` is a scanner that sees one byte at a time, and `TerminalFilter` is the loop itself, proved to compute the filter.
`TerminalModel` has the lock-held sections of one terminal, `HostModel` all terminals and the shared
quota map as a state machine, `HostInvariants`, `HostRuns`, `HostUploads` and `HostOutput` what holds
over every run, `HostAnswers` and `HostCalls` what a caller can rely on, and `TerminalHost` the host object whose methods
perform those steps. `ReplayBuffer`, `Base32`, `Base64` and `Utf8` are the parts they use. The control
functions are OSC and ST of ECMA-48 (sections 8.3.89 and 8.3.143); base64 and base32 are those of sections 4 and 6 of RFC 4648.

**Native identity custody.** `CustodyModel` gives every operation as the list of durable actions it
takes. A death, a transient failure (with or without effect) or a thrown error at any awaited call
leaves a prefix of that list. `CustodyRuns` proves what every reachable disk satisfies,
`CustodyLineage` that lines of descent keep what was admitted at their root, `CustodyRotation` that
rotation is crash-atomic, `CustodyClaims` exactly when, and `CustodyProvider` that the provider's
methods follow their lists.

**CLI logging.** `RotatingLog` and `DeferredLog`.

**Source scanner.** `CommentStripper`, `CommentModes` and `CfgDnf`.

**Image-generation reducer.** `GenerationReducer` and `ReducerReports`.

Constants (caps, limits, backup count, time limits) are parameters. Clocks, random handles, UUIDs,
file read-back, queue room, short writes and the outcome of every awaited call are inputs. SHA-256
is an uninterpreted function.

Five findings about the code are stated as lemmas. The filter forgets a 0xC2 it has already shown,
so a cut between 0xC2 and 0x9D changes the result (`Osc52Filter.CutInvisibleExactly`). A `cfg`
feature named `__test__` is taken for the test flag (`CfgDnf.AnswerRightExactly`). A key made under a
handle other than the requested one is covered by no marker until it is destroyed or marked
(`CustodyRuns.MisreportedKey`). After a rotation whose destroy of the old key fails, rotating the old
identity again is not crash-atomic (`CustodyClaims.AtomicExactly`, `CustodyClaims.EarlierFailureLosesBoth`).
A log record whose write is interrupted part-way is written again from its start, so that part of it is
in the log twice (`DeferredLog.OnceExactly`). Two smaller ones show in the definitions: a refused quota charge
leaves a zero entry in the map, and the filter's fallback to the last shown byte is never reached
with anything shown.

## Model

| member | source | states |
|---|---|---|
| Osc52Filter.ChunkingDoesNotMatter | apps/cli/src/terminal_host.rs:288-521 | for every byte stream and every split that never cuts between 0xC2 and a following 0x9D, the passthrough, the clipboard texts, the overflow flag and the final state equal those of one push of the whole stream |
| Osc52Filter.CutInvisibleExactly | apps/cli/src/terminal_host.rs:332-346 | a cut after a given prefix is invisible to every continuation if and only if the prefix does not end in a 0xC2 that was already shown |
| Osc52Filter.ForgottenC2Shows | apps/cli/src/terminal_host.rs:332-346 | otherwise the single byte 0x9D tells the two apart |
| Osc52Filter.LoneC2Forgotten | apps/cli/src/terminal_host.rs:332-346 | the smallest such prefix is the byte 0xC2 itself: 0xC2 and 0x9D pushed apart and together give different results |
| Osc52Reference.FilterRefinesReference | apps/cli/src/terminal_host.rs:288-521 | the output and final state equal those of a scanner that sees one byte at a time and keeps only the held candidate |
| Osc52Reference.ReferenceReadsGrammar | apps/cli/src/terminal_host.rs:288-521 | that scanner produces exactly the tokens of the grammar, in order, for every stream |
| Osc52Chunking.LexSplit | apps/cli/src/terminal_host.rs:504-514 | reading a stream is reading its first part and then re-reading the held suffix followed by the second part |
| Osc52Bounds.RunConserves | apps/cli/src/terminal_host.rs:288-521 | for every run, however the output is cut and whatever is already held: the tokens read, in order, followed by the held suffix, are the stream, after overflow a proper prefix of it, and the output is that of these tokens; which of their bytes pass is `Osc52Passthrough.PushPasses` |
| Osc52Bounds.SafeRunReadsWhole | apps/cli/src/terminal_host.rs:288-521 | cut safely, a run reads the tokens of the whole stream read at once and conserves it |
| Osc52Shapes.StandsExactly | apps/cli/src/terminal_host.rs:307-500 | the scanner takes a token off the front if and only if the bytes there have the shape of that token: a terminated clipboard sequence within the cap, a terminated rejected one, a mode report within its window, or a byte that begins none of these |
| Osc52Shapes.GivesUpExactly | apps/cli/src/terminal_host.rs:407-500 | it gives up if and only if the bytes have the shape of a candidate that outgrew the cap unterminated |
| Osc52Shapes.WaitsExactly | apps/cli/src/terminal_host.rs:407-514 | it waits if and only if the bytes do not decide yet between these shapes |
| Osc52Shapes.BreaksUpOneWay | apps/cli/src/terminal_host.rs:288-521 | every stream breaks up into tokens of these shapes and a held suffix, and in one way only: the one the filter finds |
| Osc52Passthrough.PushPasses | apps/cli/src/terminal_host.rs:288-521 | for every push, whatever is held: the bytes let through are the stream with exactly its OSC 52 stretches, its mode reports and the held suffix cut out, and the texts are those of its OSC 52 stretches; stretches are given by the shapes of their bytes |
| Osc52Passthrough.AnyRunPasses | apps/cli/src/terminal_host.rs:288-521 | the same push after push for every run, however the output is cut |
| Osc52Passthrough.RunPasses | apps/cli/src/terminal_host.rs:288-521 | the same for the whole stream of a safely cut run |
| Osc52Passthrough.ReadingExists | apps/cli/src/terminal_host.rs:288-521 | every stream has such a reading |
| Osc52Passthrough.ReadingUnique | apps/cli/src/terminal_host.rs:288-521 | and only one |
| Osc52Passthrough.NothingIsLost | apps/cli/src/terminal_host.rs:288-521 | where no OSC 52 sequence and no mode report stands at any position, what is shown followed by what is held is the stream; on overflow a proper prefix is shown |
| Osc52Grammar.LexConserves | apps/cli/src/terminal_host.rs:288-521 | the same for one scan from any position |
| Osc52Bounds.PendingBounded | apps/cli/src/terminal_host.rs:504-514 | what is held back fits the cap after every run, however the output is cut |
| Osc52Bounds.OverflowExactly | apps/cli/src/terminal_host.rs:407-500 | after any run, however cut, the next chunk overflows if and only if at some byte of it a candidate that already holds cap bytes would have to keep that byte |
| Osc52Bounds.NextByteOverflows | apps/cli/src/terminal_host.rs:407-500 | for a single next byte: if and only if what is held is full and would have to keep it |
| Osc52Bounds.OverflowIsFinal | apps/cli/src/terminal_host.rs:288-305 | after overflow nothing is ever released again, whatever is pushed |
| Osc52Clipboard.ParseExact | apps/cli/src/terminal_host.rs:576-643 | a candidate yields a text if and only if it is an introducer, 52;c;, the canonical base64 of that nonempty UTF-8 text, and a terminator |
| Osc52Clipboard.ParseOfSequence | apps/cli/src/terminal_host.rs:576-611 | under both introducers and all three terminators every clipboard text is read back |
| Osc52Clipboard.SequenceIsOneToken | apps/cli/src/terminal_host.rs:407-500 | such a sequence within the cap is taken as one token whatever follows it |
| Osc52Filter.ClipboardRoundTrip | apps/cli/src/terminal_host.rs:288-521 | wherever it stands in a stream, once what precedes it is settled, such a sequence yields its text, shows nothing, and leaves the reading of what precedes and follows it untouched |
| Osc52Filter.NothingHeldIsSettled | apps/cli/src/terminal_host.rs:504-514 | a stream after which nothing is held is settled, whatever follows |
| Base64.DecodeEncode | apps/cli/src/terminal_host.rs:599-610 | decoding an encoding gives the bytes back, for all bytes (section 4 of RFC 4648) |
| Base64.EncodeDecode | apps/cli/src/terminal_host.rs:599-610 | whatever decodes is the one canonical encoding of what it decodes to |
| Base64.AlphabetExactly | apps/cli/src/terminal_host.rs:599-610 | the characters are those of table 1 of RFC 4648, both ways |
| Base64.GroupSpells | apps/cli/src/terminal_host.rs:599-610 | each three bytes are the 24 bits of four characters, most significant first |
| Base64.TailSpells | apps/cli/src/terminal_host.rs:599-610 | one or two bytes left over are filled up with zero bits and padding |
| Utf8.ValidExactly | apps/cli/src/terminal_host.rs:599-611 | the accepted texts are exactly the UTF-8 encodings of sequences of Unicode scalar values |
| TerminalFilter.TerminalOutputFilter.Push | apps/cli/src/terminal_host.rs:288-521 | the loop over modes, with its pending buffer and sticky flag, computes the specified push |
| TerminalFilter.TerminalOutputFilter.Finish | apps/cli/src/terminal_host.rs:524-526 | an incomplete candidate is dropped and the flag stays |
| TerminalFilter.FindReplyEnd | apps/cli/src/terminal_host.rs:562-572 | finds the end of a mode report within its window exactly where the grammar does |
| ReplayBuffer.ReplayBuffer.Push | apps/cli/src/terminal_host.rs:235-246 | after a push the buffer is the last cap bytes of what it held followed by the new data |
| ReplayBuffer.HoldsTail | apps/cli/src/terminal_host.rs:227-250 | after any pushes the buffer is the last min(cap, n) of the n bytes pushed |
| HostOutput.ReplayIsTailOfShown | apps/cli/src/terminal_host.rs:1234-1300 | in every state of every host run, whatever other sections came in between, an open terminal's filter has read exactly the chunks delivered since its spawn and its replay is the tail of what they showed |
| HostOutput.StepKeepsOutput | apps/cli/src/terminal_host.rs:1234-1300 | no step but output and close touches a terminal's filter or replay |
| Base32.RandomBase32 | apps/cli/src/terminal_host.rs:2109-2136 | the shift accumulator, whose high bits fall off, spells the 26 base-32 digits of the 128-bit value times four |
| Base32.NameDeterminesBytes | apps/cli/src/terminal_host.rs:2109-2136 | two 16-byte inputs with the same name are equal |
| Base32.BytesDetermineName | apps/cli/src/terminal_host.rs:2109-2136 | the name is determined by the bytes, so the specification admits one output only |
| Base32.NamesAreCapabilities | apps/cli/src/terminal_host.rs:1589-1595 | every name passes the consumer's syntax check |
| Base32.AlphabetExactly | apps/cli/src/terminal_host.rs:2109-2136 | the letters are those of table 3 of RFC 4648 in lower case, both ways |
| Base32.SyntaxExactly | apps/cli/src/terminal_host.rs:1589-1595 | the syntax check accepts exactly 26 lower-case letters or digits |
| HostInvariants.QuotaConservation | apps/cli/src/terminal_host.rs:1947-1998 | in every state of every run a principal's quota entry equals the count and declared size of its prepared operations over all terminals plus detached releases, and neither limit is exceeded |
| HostInvariants.BufferedWithinLimit | apps/cli/src/terminal_host.rs:904-1029 | upload bytes actually buffered for a principal never exceed the byte limit |
| HostInvariants.StepKeepsOk | apps/cli/src/terminal_host.rs:904-1145 | every lock-held section keeps the journal, binding and close invariants of every terminal and the conservation of quotas |
| HostInvariants.SettleConserves | apps/cli/src/terminal_host.rs:1982-1998 | applying a section's releases leaves the entry equal to what is outstanding, so no subtraction saturates |
| TerminalInvariants.SweepConserves | apps/cli/src/terminal_host.rs:1999-2014 | what a sweep takes out of the journal it hands back as releases |
| TerminalInvariants.FinishConserves | apps/cli/src/terminal_host.rs:1051-1145 | so does a commit, once |
| TerminalInvariants.CloseConserves | apps/cli/src/terminal_host.rs:1418-1420 | and a close returns the charges of all prepared operations |
| HostRuns.ExactlyOnceCommit | apps/cli/src/terminal_host.rs:1051-1145 | in every run the k-th successful finish on a terminal is given sequence k and exactly one paste frame is queued for it |
| HostRuns.CommitTakesNextSequence | apps/cli/src/terminal_host.rs:1104-1145 | a commit happens only when the accepted chunks, concatenated, have the declared size and digest; it takes the next sequence and queues one frame |
| HostRuns.OnlyCommitsPaste | apps/cli/src/terminal_host.rs:1051-1145 | no other section touches the sequence counter or the input queue |
| HostUploads.RepeatedFinish | apps/cli/src/terminal_host.rs:1051-1080 | an upload once committed is never committed again while it is journalled, through every run and hand-over: a later finish queues no frame and is answered with the first sequence or refused, and exactly when is stated |
| HostRuns.ChunkTakenInOrder | apps/cli/src/terminal_host.rs:1001-1029 | a chunk is accepted exactly when it is authorised, starts where the accepted ones end and does not overrun |
| HostUploads.ConsumedOnce | apps/cli/src/terminal_host.rs:1604-1650 | when no two commits draw the same name, an image that was handed out is never handed out again by any terminal, however the run goes on |
| HostUploads.ConsumedImage | apps/cli/src/terminal_host.rs:1604-1650 | an image is handed out only to the owner and session it was committed for, is the declared image, and its operation alone is removed |
| HostAnswers.ConsumeExactly | apps/cli/src/terminal_host.rs:1604-1650 | a terminal has a name exactly when an operation that lasts carries it; the image is handed out exactly when that operation is committed, owner and session match, fewer than ttl have passed since its creation and the file reads back as committed |
| HostAnswers.CommittedIsHandedOut | apps/cli/src/terminal_host.rs:1051-1650 | over every run: a name drawn by a commit and still journalled is answered with the committed bytes to its client and session within the time limits, refused to others, and unknown to every other terminal |
| HostAnswers.BeginExactly | apps/cli/src/terminal_host.rs:904-999 | the exact answer of begin: granted if and only if binding, declaration, journal, binding's other uploads and quota allow it, repeated for the same declaration under the same binding or a newer connection, and each refusal with its reason |
| HostAnswers.ChunkExactly | apps/cli/src/terminal_host.rs:1001-1029 | the exact answer of chunk, with the next offset |
| HostAnswers.StatusExactly | apps/cli/src/terminal_host.rs:1031-1049 | the exact answer of status |
| HostAnswers.FinishExactly | apps/cli/src/terminal_host.rs:1051-1150 | the exact answer of finish: the first receipt again, the next sequence, or the refusal |
| HostAnswers.SweepExactly | apps/cli/src/terminal_host.rs:1999-2014 | a sweep keeps exactly the operations younger than ttl, counted from commit or else creation, and gives back the charges of the other prepared ones |
| HostAnswers.DeclaredExactly | apps/cli/src/terminal_host.rs:2032-2052 | an image is valid exactly when size, digest and the format's signature fit |
| HostAnswers.DeclarableExactly | apps/cli/src/terminal_host.rs:918-923 | a declaration is valid exactly with a version 4 id, a size within the limit and 64 lower-case hex digits |
| HostRuns.FirstCloseWins | apps/cli/src/terminal_host.rs:1322-1423 | whichever trigger closes first is the only one ever reported; afterwards filter, replay and journal stay as the close left them, whatever steps follow |
| HostRuns.OneCloseEver | apps/cli/src/terminal_host.rs:1322-1423 | in every state of every run there is one close transition and one closed event if closed and none if not, and a violation exactly when overflow won |
| HostRuns.ViewersAreBindings | apps/cli/src/terminal_host.rs:740-802 | once opened, the viewer count is the number of live bindings and the detach time is set exactly when there are none |
| HostRuns.ReleasedForGood | apps/cli/src/terminal_host.rs:781-802 | a released binding never authorises again |
| HostUploads.UploadForLife | apps/cli/src/terminal_host.rs:924-958 | over every run an operation keeps its declaration, principal, client and session for as long as it is journalled, its epoch never falls and rises only once the binding it had was released, its accepted chunks only grow, and a commit stays as it was made |
| HostUploads.HandOver | apps/cli/src/terminal_host.rs:924-958 | a hand-over happens only after the old binding was released and strictly raises the connection epoch |
| TerminalHost.TerminalHost.SweepIngressLocked | apps/cli/src/terminal_host.rs:1999-2014 | the retain loop keeps exactly the unexpired operations and collects exactly the charges of the expired prepared ones |
| TerminalHost.TerminalHost.ReleasePreparedIngress | apps/cli/src/terminal_host.rs:1982-1998 | the release loop, in any order, equals subtracting the total per principal and dropping entries that reach zero |
| TerminalHost.ReleaseOneMore | apps/cli/src/terminal_host.rs:1982-1998 | one more release is one more saturating subtraction, even where an entry was dropped in between |
| TerminalHost.TerminalHost.ChargePreparedIngress | apps/cli/src/terminal_host.rs:1961-1981 | succeeds exactly when both limits leave room, then raises that principal's entry by the size and one operation; no other entry changes and a refusal changes none |
| HostCalls.BeginKeepsPromise | apps/cli/src/terminal_host.rs:916-999 | a new upload is granted only under a live binding, as its only prepared one, with its declared size charged within both limits; a known operation is never charged again; a refusal changes no journal and no entry |
| HostCalls.StartBeginExactly | apps/cli/src/terminal_host.rs:904-915 | the first half of begin sweeps the journal exactly for an authorised caller and applies no release while it holds the lock |
| HostCalls.SpawnStarts | apps/cli/src/terminal_host.rs:669-723 | a new terminal is open, counts its opener as its one viewer and has nothing bound, journalled or shown; no other terminal changes |
| HostCalls.AttachKeepsPromise | apps/cli/src/terminal_host.rs:740-779 | the new binding authorises, was never issued before, acts for the caller, has a larger epoch than every other, and changes no other binding; the viewer is counted and announced |
| HostCalls.OpenKeepsPromise | apps/cli/src/terminal_host.rs:669-723 | the opener's binding likewise, with no new viewer |
| HostCalls.ReleaseKeepsPromise | apps/cli/src/terminal_host.rs:781-802 | a live binding that is released never authorises again in any later run, no other binding is affected, the viewer is discounted and announced, and the last one starts the idle clock |
| TerminalHost.TerminalHost.IngressBeginSweep | apps/cli/src/terminal_host.rs:904-915 | the first section of begin, whose releases stay detached until applied |
| TerminalHost.TerminalHost.ApplyDetached | apps/cli/src/terminal_host.rs:913-915 | applies one detached list of releases |
| TerminalHost.TerminalHost.IngressBegin | apps/cli/src/terminal_host.rs:916-999 | the second section of begin keeps the host invariant and the promise above |
| TerminalHost.TerminalHost.IngressChunk | apps/cli/src/terminal_host.rs:1001-1029 | chunk acceptance with its sweep and releases |
| TerminalHost.TerminalHost.IngressStatus | apps/cli/src/terminal_host.rs:1031-1049 | status with its sweep and releases |
| TerminalHost.TerminalHost.IngressFinish | apps/cli/src/terminal_host.rs:1051-1145 | finish, with its two separate releases, is the finish step and keeps the host invariant |
| TerminalHost.TerminalHost.FindCapability | apps/cli/src/terminal_host.rs:1605-1609 | finds an operation carrying the capability if and only if there is one |
| TerminalHost.TerminalHost.ConsumeAt | apps/cli/src/terminal_host.rs:1603-1650 | one terminal's turn of the search is one consume step |
| TerminalHost.TerminalHost.ConsumePrivateImage | apps/cli/src/terminal_host.rs:1583-1652 | the whole search is a legal run of consume steps, empty for a malformed name; with distinct names it answers the image of the one operation that carries the name and lasts if it is for the caller, and refuses otherwise |
| TerminalHost.TerminalHost.AttachTerminal | apps/cli/src/terminal_host.rs:740-779 | attaching keeps the host invariant and returns a binding that authorises and was never issued |
| TerminalHost.TerminalHost.ReleaseViewer | apps/cli/src/terminal_host.rs:781-802 | releasing a viewer keeps the host invariant and ends that binding's authority for every later run |
| TerminalHost.TerminalHost.CloseGeneration | apps/cli/src/terminal_host.rs:1322-1423 | the close oracle: a second caller changes nothing, the first sets every field and returns the prepared charges |
| TerminalHost.TerminalHost.HandlePtyBytes | apps/cli/src/terminal_host.rs:1234-1310 | a chunk of output is the output step, followed by the overflow close when the filter overflowed; clipboard texts go out in order until the terminal is found closed |
| TerminalHost.TerminalHost.SweepIdle | apps/cli/src/terminal_host.rs:1161-1182 | the idle sweep is a legal run that closes exactly the terminals unwatched for too long |
| CustodyRuns.NoUnaccountedKey | apps/native/lib/remote-native-identity-custody.ts:201-453 | in every reachable state, with a death, failure or thrown error after any awaited call, each live key has a record or a pending marker |
| CustodyRuns.ReconcileSettles | apps/native/lib/remote-native-identity-custody.ts:392-428 | a reconciliation that completes leaves no marker and a record for every live key, in whatever order the store lists the markers |
| CustodyRuns.EventKeepsSound | apps/native/lib/remote-native-identity-custody.ts:201-346 | every prefix of every operation keeps the accounting, numbering and lineage invariants, and that a live key's record is genuine |
| CustodyRuns.RecordsAreGenuine | apps/native/lib/remote-native-identity-custody.ts:201-346 | in every reachable state the record of a live key carries that key's public half and attestation |
| CustodyRuns.GeneratePlanGuarded | apps/native/lib/remote-native-identity-custody.ts:201-247 | each action of generate is taken only where it keeps keys accounted for |
| CustodyRuns.RotatePlanGuarded | apps/native/lib/remote-native-identity-custody.ts:285-334 | each action of rotate likewise |
| CustodyRuns.LaterNumbersAreLarger | apps/native/lib/remote-native-identity-custody.ts:370-374 | a generation number issued later in a run exceeds every number issued before, whatever was destroyed |
| CustodyRuns.OneNumberPerIdentity | apps/native/lib/remote-native-identity-custody.ts:370-374 | no two records of a reachable state share a number, and every record's number was issued |
| CustodyLineage.LineageNeverWeakens | apps/native/lib/remote-native-identity-custody.ts:201-346 | every record of a reachable state ends an unbroken line of the run, the generate of its root and the rotations since; it carries the report admitted by that generate, whose minimum class, profile and presence rule still hold of it, and numbers grow along the line |
| CustodyRuns.AdmittedByGenerate | apps/native/lib/remote-native-identity-custody.ts:201-247 | every admission on a reachable disk was made by a generate of the run with that report, policy and configuration |
| CustodyRuns.OwnRecordsLoad | apps/native/lib/remote-native-identity-custody.ts:491-541 | loading a record the provider wrote never reports corruption: it is absent, another profile's, or good |
| CustodyRuns.MisreportedKey | apps/native/lib/remote-native-identity-custody.ts:462-483 | a key made under another handle is unaccounted for until it is destroyed or marked, and accounted for from then on |
| CustodyRotation.RotationIsCrashAtomic | apps/native/lib/remote-native-identity-custody.ts:285-334 | a rotation stopped after any call, with any number of deaths during recovery, ends after a completed reconciliation with exactly one of old and new whole and the other gone, new if and only if its record was saved; every identity no marker was about to retire stands |
| CustodyClaims.AtomicExactly | apps/native/lib/remote-native-identity-custody.ts:285-334 | for any sound disk, whole identity and fresh handle this holds for all stops, deaths and marker orders if and only if no pending marker that has its record supersedes the identity |
| CustodyClaims.ClaimedLosesBoth | apps/native/lib/remote-native-identity-custody.ts:392-428 | otherwise every stop before the save has a recovery that leaves neither identity |
| CustodyClaims.EarlierFailureLosesBoth | apps/native/lib/remote-native-identity-custody.ts:326-329 | a run that reaches such a disk: a rotation whose last destroy fails, after which the provider goes on |
| CustodyRotation.StagesMidway | apps/native/lib/remote-native-identity-custody.ts:285-334 | after each call of a rotation either the old identity is whole or the new one is |
| CustodyRotation.ReconcileKeepsMidway | apps/native/lib/remote-native-identity-custody.ts:392-446 | every prefix of a recovery keeps that |
| CustodyRotation.RotationAlwaysStartsClean | apps/native/lib/remote-native-identity-custody.ts:381-390 | in every run where calls succeed or the process dies, a reconciled provider meets the condition for every whole identity |
| CustodyRotation.RotationStartsCleanAfterReconcile | apps/native/lib/remote-native-identity-custody.ts:381-428 | so does one that reconciles first |
| CustodyProvider.CustodyProvider.Generate | apps/native/lib/remote-native-identity-custody.ts:201-247 | whatever each awaited call does, generate is one event of a run; a returned record has the kind asked for and the public key and report of the key made, and is installed with it; when every call ends well the answer is exactly what the policy says, and a refused key is gone |
| CustodyProvider.CustodyProvider.Rotate | apps/native/lib/remote-native-identity-custody.ts:285-334 | rotate is one event of a run; a returned record has the kind and report of the old one and the public key of the new key, is installed, and nothing of the old identity is left; when every call ends well the answer is exact |
| CustodyProvider.CustodyProvider.DestroyIdentity | apps/native/lib/remote-native-identity-custody.ts:336-346 | destroy is one event of a run; when it returns, key and record are gone; when it may not, nothing is touched; when every call ends well the answer is exact |
| CustodyProvider.CustodyProvider.Reopen | apps/native/lib/remote-native-identity-custody.ts:249-283 | reopen changes nothing beyond reconciliation and returns the record only if the keystore still has the key and answers with the recorded public key and report; when every call ends well the answer is exact |
| CustodyProvider.AnswersExactly | apps/native/lib/remote-native-identity-custody.ts:249-346 | on every sound disk, with every call ending well: reopened exactly when the record is of the provider's profile, the key lives and the keystore answers for it as it was made; rotated exactly when the new key attests the same; destroyed exactly when the key lives |
| CustodyProvider.RefusalSpares | apps/native/lib/remote-native-identity-custody.ts:285-346 | a rotation or destruction that may not be done leaves every key and every record as it was |
| CustodyModel.PolicyExactly | apps/native/lib/remote-native-identity-custody.ts:573-656 | a report is admitted exactly when class, level and presence mode are consistent, the profile is the configured one, the class is at least the minimum, and presence is as allowed and required; each refusal has its code |
| CustodyModel.MatchExactly | apps/native/lib/remote-native-identity-custody.ts:550-571 | a live report stands for a recorded one exactly when it is equal, consistent and of the configured profile |
| CustodyProvider.CustodyProvider.EnsureReconciled | apps/native/lib/remote-native-identity-custody.ts:381-390 | the latch is set only by a reconciliation that completed |
| CustodyProvider.CustodyProvider.Reconcile | apps/native/lib/remote-native-identity-custody.ts:392-428 | the loop over markers stops after a prefix of the reconciliation plan and returns only at its end |
| CustodyProvider.CustodyProvider.SettleMarker | apps/native/lib/remote-native-identity-custody.ts:397-426 | one marker: orphan, superseded or finished |
| CustodyProvider.CustodyProvider.RetireKey | apps/native/lib/remote-native-identity-custody.ts:436-446 | returns true only when the key is gone |
| CustodyProvider.CustodyProvider.RetireAndClear | apps/native/lib/remote-native-identity-custody.ts:449-453 | a marker is not cleared while its key may still exist |
| RotatingLog.RotatingLog.Write | apps/cli/src/lib.rs:1605-1630 | for every pattern of short, failing and interrupted writes the bytes accepted are appended to the stream, the directory stays the newest files of its cut, and the loop terminates; whenever a nonempty write succeeds the cut is the one the bytes alone determine |
| RotatingLog.RotatingLog.Rotate | apps/cli/src/lib.rs:1655-1683 | rotation starts an empty file and loses nothing but the oldest backup |
| RotatingLog.RotateFiles | apps/cli/src/lib.rs:1690-1734 | unlinking the oldest and renaming downwards moves every file up one place, whatever files exist |
| RotatingLog.FilesAreASuffix | apps/cli/src/lib.rs:1605-1734 | oldest backup to current file, read in order, is a suffix of the bytes written |
| RotatingLog.NothingLost | apps/cli/src/lib.rs:1469-1470 | nothing is lost while the total is at most (backups + 1) times the limit |
| RotatingLog.BackupCount | apps/cli/src/lib.rs:1605-1630 | there are (total - 1) / limit full files behind the current one, of which the newest are kept |
| RotatingLog.CutIsUnique | apps/cli/src/lib.rs:1605-1630 | the contents of every file are determined by the bytes written, not by how writes were split |
| RotatingLog.CutOfWritten | apps/cli/src/lib.rs:1605-1630 | every stream has such a cut: full files of exactly the limit and a current one not above it |
| DeferredLog.QueueIsOptimal | apps/cli/src/lib.rs:1338-1364 | without a flush the queue is exactly the longest suffix of the accepted records that fits the capacity |
| DeferredLog.FitIsLongest | apps/cli/src/lib.rs:1346-1351 | a suffix fits if and only if it is no longer than the one kept |
| DeferredLog.DeferredLog.Enqueue | apps/cli/src/lib.rs:1338-1353 | drops from the front and appends; the byte counter is the sum of the kept sizes and never underflows |
| DeferredLog.DeferredLog.WriteRecord | apps/cli/src/lib.rs:1388-1399 | a record is written again from its start for as long as it is interrupted; the log gains the prefixes its attempts were accepted for, in order |
| DeferredLog.OnceExactly | apps/cli/src/lib.rs:1388-1399 | records that were all written in the end are in the log once each if and only if no interrupted attempt had been accepted in part; otherwise a prefix is in it twice |
| DeferredLog.DeferredLog.Flush | apps/cli/src/lib.rs:1388-1399 | every queued record is handed on in order and once, then the queue is empty; if no first attempt fails, each is accepted whole at once |
| DeferredLog.DeferredLog.Open | apps/cli/src/lib.rs:1366-1378 | the sink is taken as it is found, once; what it holds then is what everything later is appended to |
| DeferredLog.DeferredLog.PushRecord | apps/cli/src/lib.rs:1338-1399 | records are handed on in acceptance order, each at most once; the sink always holds what it held when opened followed by what the attempts at them were accepted for, which is exactly those records when no attempt failed part-way |
| CommentStripper.StripComments | scripts/lib/check_no_source_scan_tests.py:263-333 | the loop returns the specified text and literal ranges |
| CommentStripper.StripPreservesLayout | scripts/lib/check_no_source_scan_tests.py:263-333 | same length, same newline positions, each character unchanged or a space |
| CommentStripper.LiteralsVerbatim | scripts/lib/check_no_source_scan_tests.py:263-333 | literal ranges are in bounds, sorted, disjoint and copied verbatim |
| CommentStripper.IsInLiteral | scripts/lib/check_no_source_scan_tests.py:336-342 | on such ranges the early exit gives plain membership |
| CommentStripper.StripIsIdempotent | scripts/lib/check_no_source_scan_tests.py:263-333 | no comment is left; stripping again changes nothing and finds the same literals |
| CommentModes.StripExactly | scripts/lib/check_no_source_scan_tests.py:251-333 | for every text, against an automaton that reads one character at a time: a character is blanked exactly when it lies in a line comment or a nested block comment, the recorded ranges cover exactly the quoted and raw literals, and one starts exactly where a literal opens in code |
| CommentModes.NoCommentLeft | scripts/lib/check_no_source_scan_tests.py:263-333 | no comment opens in the result outside a recorded literal |
| CommentStripper.CopyQuoted | scripts/lib/check_no_source_scan_tests.py:288-305 | copies a quoted literal to its closing quote, escapes included |
| CommentStripper.BlankBlock | scripts/lib/check_no_source_scan_tests.py:311-331 | blanks a nested block comment to its end |
| CfgDnf.SimplifyDnf | scripts/lib/check_no_source_scan_tests.py:200-209 | the loop computes the specified simplification |
| CfgDnf.SimplifyPreserves | scripts/lib/check_no_source_scan_tests.py:200-209 | simplification keeps the truth under every assignment |
| CfgDnf.SimplifyIrredundant | scripts/lib/check_no_source_scan_tests.py:200-209 | no term of a simplified form makes another superfluous, and none is in it twice |
| CfgDnf.AndMeans | scripts/lib/check_no_source_scan_tests.py:196-197 | conjunction of normal forms means conjunction |
| CfgDnf.OrMeans | scripts/lib/check_no_source_scan_tests.py:192-193 | disjunction of normal forms means disjunction |
| CfgDnf.CompileExact | scripts/lib/check_no_source_scan_tests.py:212-238 | for every negation-free formula the compiled form holds under exactly the assignments the formula does |
| CfgDnf.RequiresTestExact | scripts/lib/check_no_source_scan_tests.py:241-248 | the answer is true if and only if the formula is satisfiable and every satisfying assignment sets the test atom |
| CfgDnf.MalformedRefused | scripts/lib/check_no_source_scan_tests.py:241-248 | a negation-free formula with an operator that lacks its arguments is answered no |
| CfgDnf.RequiresTestSound | scripts/lib/check_no_source_scan_tests.py:222-248 | with one level of negation, after an answer of true no satisfying assignment lacks the test atom |
| CfgDnf.NeverHoldsAnsweredYes | scripts/lib/check_no_source_scan_tests.py:212-248 | but there may be none: all(test, not(test)) is answered true and never holds |
| CfgDnf.AnswerRightExactly | scripts/lib/check_no_source_scan_tests.py:217-221 | with the test flag and a feature of the reserved name kept apart, the answer is right if and only if the formula, with the flag off and all its features on, does not need that feature to hold |
| CfgDnf.AnswerRightWithoutCollision | scripts/lib/check_no_source_scan_tests.py:217-221 | formulas that do not name that feature are always answered right |
| CfgDnf.CollisionMisleads | scripts/lib/check_no_source_scan_tests.py:217-221 | one that does is answered wrong |
| GenerationReducer.RedeliveryIsInvisible | apps/native/utils/image-generation-reducer.ts:296-591 | for every sequence of events, cancel acknowledgements and late-result requests, inserting redeliveries after first occurrences leaves the final state unchanged |
| GenerationReducer.VersionsNeverDecrease | apps/native/utils/image-generation-reducer.ts:296-591 | event high-water marks and job, slot and late-result generations never decrease and nothing disappears |
| GenerationReducer.DeliveredIsStale | apps/native/utils/image-generation-reducer.ts:314-318 | an event just delivered is stale, whether it was applied or rejected |
| GenerationReducer.StaleStays | apps/native/utils/image-generation-reducer.ts:46-52 | what is stale stays stale as versions grow |
| GenerationReducer.StaleChangesNothing | apps/native/utils/image-generation-reducer.ts:296-488 | exactly the stale events change nothing |
| GenerationReducer.FreshTakesEffect | apps/native/utils/image-generation-reducer.ts:363-488 | any other event records its number and generation on the entity it names and touches no other job |
| ReducerReports.EffectiveExactly | apps/native/utils/image-generation-reducer.ts:75-85 | an event changes anything exactly when daemon, project and session are ours, its number is newer than the job's and its generation newer than that of what it changes |
| ReducerReports.NamedIsShown | apps/native/utils/image-generation-reducer.ts:210-290 | a known word that an effective event names for a job's state, a slot's state, artifact id or artifact state, or a late result's artifact or publication state is shown from then on |
| ReducerReports.SilenceKeeps | apps/native/utils/image-generation-reducer.ts:363-463 | a field for which it names nothing known shows what it did, or the default of a new entry |
| ReducerReports.OthersStay | apps/native/utils/image-generation-reducer.ts:363-488 | an effective event changes no other job, slot or late result, no disposition, and the plan, generation and cancel flag exactly as its kind says |
| ReducerReports.ShowsLastReported | apps/native/utils/image-generation-reducer.ts:296-591 | over every run each field shows the word of the last event that took effect and named one, whatever the client did meanwhile |
| GenerationReducer.ClientDecidesNothing | apps/native/utils/image-generation-reducer.ts:495-591 | acknowledgements and requests change no state, version, slot or plan: terminal states come from the daemon only |
| GenerationReducer.ReducerState.ReduceEvent | apps/native/utils/image-generation-reducer.ts:296-338 | the reducer performs the specified step, and warns about exactly the stale job, slot, late-result and plan events |
| GenerationReducer.CancelledOnlyByDaemon | apps/native/utils/image-generation-reducer.ts:495-524 | in every run a job is shown cancelled only after the daemon reported it so, whatever the client asked for |
| GenerationReducer.RequestedOnlyByClient | apps/native/utils/image-generation-reducer.ts:495-524 | a cancellation is shown as requested only after the client asked for it |
| GenerationReducer.RequestStands | apps/native/utils/image-generation-reducer.ts:495-524 | an acknowledged cancel stays shown as requested until the daemon reports an end |
| GenerationReducer.DisposedForGood | apps/native/utils/image-generation-reducer.ts:530-591 | a confirmed disposition is undone by no event and no request |
| GenerationReducer.ReducerState.AckCancel | apps/native/utils/image-generation-reducer.ts:495-508 | an open job is shown as cancellation requested, a finished or unknown one as before, and no other job changes its view |
| GenerationReducer.ReducerState.RequestLateResult | apps/native/utils/image-generation-reducer.ts:530-571 | warns exactly when the result is unknown or already disposed of, and otherwise records the request |
| GenerationReducer.ReducerState.ApplyLateResult | apps/native/utils/image-generation-reducer.ts:574-591 | a known result takes the confirmed disposition, an unknown one stays unknown |

## Left out

- PTY spawning, resizing, thread joins, process reaping and containment: effects of the operating system.
- Removal of a closed terminal from the host map, the limit on open terminals and the order of emitted output events: the model keeps closed terminals and records only close, violation and viewer events, each in the section it belongs to.
- File publication in the terminal host: one input says what was read back or that it failed; paths, permissions and the distinct error codes of file operations are not modelled.
- 64-bit saturation of epochs, sequences and transition counters: integers are unbounded; the quota subtractions do saturate in the model and are proved never to.
- The base64 crate: modelled as strict decoding by section 4 of RFC 4648.
- Shutdown of the deferred log to standard error, file permissions and failing renames in rotation.
- Two writers at once on the deferred log: a push is one step, although the source releases the lock while it opens the sink.
- The tokenizer in front of `cfg` formulas: formulas arrive parsed.
- Snapshot hydration, clearing and rebinding of the reducer, non-decimal version strings, and projections that are not objects.
- Signing, evidence encoding and public-key cryptography in custody; two operations at once on one provider.
- Osc52Bounds.PendingBounded: stated for caps of at least 128, the window of a mode report, because a report is held whatever the cap.
- Osc52Bounds.OverflowExactly: stated for caps of at least 128, for the same reason.
- CustodyRuns.NoUnaccountedKey: for a keystore module that creates the key under the requested handle; the other case is `CustodyRuns.MisreportedKey`.
- CustodyRuns.MisreportedKey: one step only, for a returned handle that nothing on the disk uses yet.
- CustodyRotation.RotationIsCrashAtomic: for identities that no pending marker with its record supersedes; `CustodyClaims.AtomicExactly` shows that the condition is exact.
- CustodyProvider.CustodyProvider.DestroyIdentity: an identity whose key is already gone cannot be destroyed and its record stays, as in the source.
- TerminalHost.TerminalHost.SweepIdle: the closed terminals stay in the model's map, where the source removes them, so that what holds of a closed terminal can be stated.
- HostUploads.ConsumedOnce: for runs whose commits draw distinct names; the source draws 128 random bits per name.
- HostAnswers.CommittedIsHandedOut: for runs whose commits draw distinct names, for the same reason.
- HostUploads.ConsumedImage: when an image may be handed out; that it then is, is `HostAnswers.ConsumeExactly`.
- GenerationReducer.FreshTakesEffect: versions and the plan only; every shown field is in `ReducerReports`.
- CfgDnf.RequiresTestSound: one direction only, and not that the formula can hold, because the source approximates negation; `CfgDnf.NeverHoldsAnsweredYes` shows the gap.
- RotatingLog.RotatingLog.Write: when a write fails right after a rotation an empty current file is left and the full-file count is one ahead until something is written; the exact cut is promised for writes that succeed. An interruption is modelled at the write to the file, not at the flush before a rotation.
- DeferredLog.DeferredLog.Flush: a record whose write fails may be in the log in part, and one that was interrupted in part and again whole, as in the source, which ignores errors and retries interruptions; interruptions of one record are finitely many.
