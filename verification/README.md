# A Dafny model of the HSS

The HSS keeps the subscribers of an LTE network: it authenticates them, registers
where they are, and stores and reports monitoring events. This project models its
intricate parts and proves what they are for.

**Authentication.** `ByteField` has the byte field of FIPS 197 and the three byte tables
of `rijndael.c`; `Fips197` is the cipher as the standard gives it; `Rijndael` is the
program's in-place cipher, refined to the standard; `Fips197Example` proves that they give
the standard's worked example. `Milenage` refines the loops of `fx.c` to section 4.1 of
3GPP TS 35.206, and `MilenageBlocks` reads each output back to what it was made of, byte by
byte. `SqnCodec` and `SubscriberStore` are the
encodings of sequence numbers and octet strings and the columns they are stored in.
`Aka` has both sides of authentication and key agreement (sections 6.3.2 to 6.3.5 of
3GPP TS 33.102, Annex A.2 of 3GPP TS 33.401) for any algorithm set; `Auc` refines
`kdf.c` and `sequence_number.c` to it. `AirAuthentication` is the authentication
request from its database read to its database update. `AkaRuns` puts the stored row
and a USIM side by side, over runs in which any challenge may be lost and any update
rejected: while 48 bits last, no challenge that arrives is refused if and only if some
update is stored between any two that arrive. One resynchronisation repairs any distance
between the two; and over runs of any such requests, beside a first refusal every refused
challenge has a rejected update or an ignored AUTS to answer for it.

**Request processors.** `RequestCore` has the lock, the two counters and the worker
messages that `ULRProcessor` and `AIRProcessor` share; `AirPhases` and `UlrPhases` are
their phase machines. A state is everything one request is; a step is one atomic action
of any thread, so a run is an interleaving. Main results: nothing refers to a request
when it is deleted, which for location updates holds exactly when no query after the
first fails to be issued in phase 1 (`UlrSafety`, with the runs of `UlrReach`); exactly
one answer; at most one update, only after a success answer; what the result masks say
(`UlrResults`); the phase loop ends (`UlrLoop`). `AirLiveness` adds that every run of an
authentication request ends, and in what. `WorkQueue` is the queue that limits how many
requests run at once: it keeps the limit and the order, and loses no wake-up.

**Monitoring events.** `EventStore` has the event table, its two index tables and the
search through them, compared with a scan. `ConfigRequest` is the database part of a
configuration request, `RirBuilder` the join that reports on a group, and `GroupRequest`
the loop that gives the join one response for each IMSI. `MonitoringEvents` has the keys
and statuses they share; `Wrappers` an option type; `Sequences` maps over sequences.

Code that works in place is a class or a method over arrays, proved against functions;
the claims about those functions are lemmas.

What the code does, where a reader might expect otherwise:

- The answer to an authentication request goes out before its database update, and a
  rejected update is only logged. So after such an update a challenge that arrived leaves
  the USIM level with the stored number, and the next one is refused
  (`AkaRuns.RejectedUpdateBreaksStep`); and if the refused challenge's RAND was not
  stored, its AUTS is of no use (`AkaRuns.RejectedRandLosesAuts`).
- An authentication request that phase 1 rejects takes the other processor's final
  constant for its next phase. It is answered, but it is never deleted
  (`AirLiveness.EveryRunEnds`, with a run in `AirLiveness.RejectedRequestStays`), and so
  never gives back its place in the work queue: as many of them as the limit, and no other
  request starts (`WorkQueue.HeldSlotsStopTheQueue`).
- A failed query masks the results with the logical negation of its bit
  (include/s6as6d_impl.h:132), which is 0: one failure clears every result. So a location
  update of a known subscriber is answered "user unknown" when another query fails after
  the subscriber's row was read (`UlrResults.KnownSubscriberIsRejected`).
- Phase 1 of a location update counts its first query last. When a later query cannot be
  issued that count is left out, and the request can be deleted while its first callback
  runs (`UlrSafety.SafeExactlyWhen`).
- A deletion of an event whose index statement is rejected is reported as "event does not
  exist" although the event is gone (`ConfigRequest.RemovalStatusIsTrue`); the index by
  external identifier is deleted with an unquoted text (dataaccess.cpp:359).
- An event key used again with another MSISDN is still found under the old one
  (`EventStore.SearchIsNotScan`).
- A configuration request for a group waits for as many responses as it lists IMSIs. If
  one of its requests to an MME cannot be sent, the report is never completed
  (`GroupRequest.GroupIsReported`).
- `acquire(false)` looks like an attempt that may fail; the mutex class blocks. The safety
  results allow both; the run that deletes a request too early and `AirLiveness` have
  locks that block.

The environment: the random source supplies the `rands` and `newRand` parameters;
HMAC-SHA-256 is the `kdf` parameter; which statement the database rejects is a
`rejected`, `fails` or `faults` parameter, or `stored` in an attempt, and a rejected
statement has no effect; whether a callback can be set and what it finds are choices of a
step.

## Model

| member | source | states |
|---|---|---|
| ByteField.SIsSubstitution | src/hss_rel14/hsssec/src/rijndael.c:32-51 | each of the 256 entries of S is the affine transformation of the inverse in the field (FIPS 197, section 5.1.1) |
| ByteField.InvSUndoesS | src/hss_rel14/hsssec/src/rijndael.c:32-51 | S is a bijection, with the inverse table as its inverse |
| ByteField.XtimeIsTimesX | src/hss_rel14/hsssec/src/rijndael.c:54-72 | each of the 256 entries of Xtime is the multiplication by x of FIPS 197, section 4.2.1 |
| ByteField.MulAdds | src/hss_rel14/hsssec/src/rijndael.c:54-72 | multiplication by the coefficients of MixColumns and its inverse distributes over addition |
| Fips197.InvMixWordUndoes | src/hss_rel14/hsssec/src/rijndael.c:173-197 | MixColumns is invertible over the field: its inverse matrix undoes it on every column |
| Fips197.InvRoundsUndo | src/hss_rel14/hsssec/src/rijndael.c:216-236 | the inverse rounds undo any number of rounds under the same key schedule |
| Fips197.InvCipherUndoesCipher | src/hss_rel14/hsssec/src/rijndael.c:204-243 | the inverse cipher of FIPS 197, section 5.3, recovers every block under every key |
| Rijndael.ByteSub | src/hss_rel14/hsssec/src/rijndael.c:131-138 | the two loops are SubBytes of the state |
| Rijndael.ShiftRow | src/hss_rel14/hsssec/src/rijndael.c:141-170 | the row shifts in place are ShiftRows of the state |
| Rijndael.MixByFoldingIsMixWord | src/hss_rel14/hsssec/src/rijndael.c:173-197 | folding with Xtime and a saved sum is the matrix product of FIPS 197, section 5.1.3 |
| Rijndael.MixColumn | src/hss_rel14/hsssec/src/rijndael.c:173-197 | the loop in place is MixColumns of the state |
| Rijndael.KeyAdd | src/hss_rel14/hsssec/src/rijndael.c:121-128 | the loops add the key of the given round to the state |
| Rijndael.NextKeyIsRoundKey | src/hss_rel14/hsssec/src/rijndael.c:95-117 | one pass of the schedule's loop is four words of the recursion with Rcon of FIPS 197, section 5.2 |
| Rijndael.Schedule.KeySchedule | src/hss_rel14/hsssec/src/rijndael.c:78-118 | afterwards all eleven round keys are those of the key, whatever they were before |
| Rijndael.Schedule.Encrypt | src/hss_rel14/hsssec/src/rijndael.c:204-243 | under the schedule of a key, the output is the FIPS 197 cipher of the input as it was, also in place |
| Rijndael.DecryptedUndoesEncrypted | src/hss_rel14/hsssec/src/rijndael.c:204-243 | on sixteen bytes, encryption is inverted by the inverse cipher |
| Fips197Example.PublishedRcon | src/hss_rel14/hsssec/src/rijndael.c:93-114 | the ten round constants are 0x01, 0x02, … 0x80, 0x1b, 0x36 |
| Fips197Example.RoundKeysAreThePublished | src/hss_rel14/hsssec/src/rijndael.c:78-118 | the expansion of the key of FIPS 197, Appendix A.1, gives its 44 published words |
| Fips197Example.CipherIsThePublished | src/hss_rel14/hsssec/src/rijndael.c:204-243 | the block of FIPS 197, Appendix B, under that key gives the published block, byte for byte |
| Milenage.XorRotateLoop | src/hss_rel14/hsssec/src/fx.c:166-180 | writing at (i + shift) mod 16 is a cyclic rotation by 16 - shift bytes |
| Milenage.ComputeF1 | src/hss_rel14/hsssec/src/fx.c:77-120 | MAC-A is the first half of OUT1, also where buffers overlap |
| Milenage.ComputeF1Star | src/hss_rel14/hsssec/src/fx.c:201-244 | MAC-S is the second half of the same OUT1 |
| Milenage.ComputeF2345 | src/hss_rel14/hsssec/src/fx.c:130-190 | RES, CK, IK and AK are f2 to f5, all under the schedule of the key just set |
| Milenage.ComputeF5Star | src/hss_rel14/hsssec/src/fx.c:254-283 | the anonymity key of resynchronisation is f5* |
| Milenage.ComputeOPc | src/hss_rel14/hsssec/src/fx.c:288-317 | OPc is the encryption of OP, added to OP |
| MilenageBlocks.TempOpens | src/hss_rel14/hsssec/src/fx.c:86-90 | TEMP decrypts to RAND added to OPc |
| MilenageBlocks.ResAndAkOpen | src/hss_rel14/hsssec/src/fx.c:143-158 | RES and AK are the last eight and the first six bytes of one block, which opens to TEMP and OPc with no rotation and 1 in the last byte |
| MilenageBlocks.CkOpens | src/hss_rel14/hsssec/src/fx.c:160-172 | CK opens to TEMP and OPc rotated by four bytes, with 2 in the last byte |
| MilenageBlocks.IkOpens | src/hss_rel14/hsssec/src/fx.c:174-188 | IK opens to TEMP and OPc rotated by eight bytes, with 4 in the last byte |
| MilenageBlocks.AkStarOpens | src/hss_rel14/hsssec/src/fx.c:267-282 | the AK of resynchronisation is the front of a block that opens to TEMP and OPc rotated by twelve bytes, with 8 in the last byte |
| MilenageBlocks.MacsOpen | src/hss_rel14/hsssec/src/fx.c:92-119 | MAC-A and MAC-S are the halves of one block, which opens to SQN and AMF, twice, and OPc, rotated by eight bytes, and TEMP |
| MilenageBlocks.OpcOpens | src/hss_rel14/hsssec/src/fx.c:288-317 | OPc opens to OP |
| Milenage.XorSeqMoves | src/hss_rel14/hsssec/src/fx.c:55-66 | concealing with a mask is undone by the same mask and by nothing else |
| Auc.GenerateAutn | src/hss_rel14/hsssec/src/fx.c:55-66 | AUTN is the concealed SQN, the AMF and the MAC |
| Auc.DeriveKasme | src/hss_rel14/hsssec/src/kdf.c:67-125 | the key is CK and IK, the text the fourteen bytes of Annex A.2 of TS 33.401 |
| Auc.GenerateVector | src/hss_rel14/hsssec/src/kdf.c:127-170 | EINVAL without a vector; otherwise RAND is kept and XRES, AUTN and KASME are those of the network's vector for it |
| Auc.SqnMsDerive | src/hss_rel14/hsssec/src/sequence_number.c:30-78 | the sequence number in AUTS if MAC-S matches it, null otherwise |
| Aka.UeAcceptsExactlyAutn | src/hss_rel14/hsssec/src/fx.c:55-66 | a token with the network's AMF opens to a sequence number with a good MAC if and only if it is the network's AUTN for that number |
| Aka.SqnMsOpensExactlyUeAuts | src/hss_rel14/hsssec/src/sequence_number.c:45-77 | opening yields s if and only if bytes 16 to 29 are those a USIM in state s builds |
| Aka.UsimAnswersVector | src/hss_rel14/hsssec/src/kdf.c:127-170 | from RAND and AUTN alone a USIM answers with the vector's XRES and derives its KASME if and only if the number is above its own, and otherwise returns its AUTS |
| Aka.KdfTextBytes | src/hss_rel14/hsssec/src/kdf.c:67-125 | the fourteen bytes of the text, each at its position |
| Aka.KasmeArguments | src/hss_rel14/hsssec/src/kdf.c:67-125 | the key is CK followed by IK, and the text that one |
| Aka.VectorBytes | src/hss_rel14/hsssec/src/kdf.c:127-170 | each byte of AUTN, the AMF 0x8000 and the code over it, and RES |
| Aka.AutsBytes | src/hss_rel14/hsssec/src/sequence_number.c:45-77 | each byte of AUTS: RAND, the concealed number, and the code under a zero AMF |
| SqnCodec.SqnU64Union.FromSqn | src/hss_rel14/include/util.h:26-35 | the union holds the 48-bit big-endian number of the six bytes, whatever it held before |
| SqnCodec.SqnU64Union.Add | src/hss_rel14/src/s6as6d_impl.cpp:2083 | addition on the union wraps modulo 2^64 |
| SqnCodec.SqnU64Union.ToSqn | src/hss_rel14/include/util.h:36-44 | the six bytes read out of the union for its number |
| SqnCodec.SqnValueOfSqnOf | src/hss_rel14/include/util.h:26-44 | writing a number and reading it back keeps it modulo 2^48 |
| SqnCodec.SqnOfSqnValue | src/hss_rel14/include/util.h:26-44 | reading six bytes and writing them back changes nothing |
| SqnCodec.SqnValueIsBigEndian | src/hss_rel14/include/util.h:26-35 | the value of the six bytes, the first one most significant |
| SubscriberStore.UnhexOfHex | src/hss_rel14/src/util.cpp:23-40 | octets written in hexadecimal and read back are the same octets |
| SubscriberStore.HexIsHighHalfFirst | src/hss_rel14/src/util.cpp:23-40 | the two digits of each octet, the high half first |
| SubscriberStore.DigitsAreHexadecimal | src/hss_rel14/src/dataaccess.cpp:35-38 | the sixteen digits of either case have their values |
| SubscriberStore.OthersAreZero | src/hss_rel14/src/dataaccess.cpp:35-38 | any other character counts as zero |
| SubscriberStore.CaseDoesNotMatter | src/hss_rel14/src/dataaccess.cpp:35-48 | a text in either case, or in both, spells the same octets |
| SubscriberStore.Bytes2Hex | src/hss_rel14/src/util.cpp:23-40 | the loop writes the hexadecimal text of the bytes |
| SubscriberStore.ConvertAsciiToBinary | src/hss_rel14/src/dataaccess.cpp:42-48 | the loop reads the octets of a text in either case |
| SubscriberStore.ShiftedBytesAreSqnOf | src/hss_rel14/src/dataaccess.cpp:1334-1339 | the shifts and masks of a column value are its six low bytes, most significant first |
| SubscriberStore.DataAccess.GetImsiSec | src/hss_rel14/src/dataaccess.cpp:1305-1345 | K, OPc, RAND and SQN as the row holds them, or failure without a row |
| SubscriberStore.DataAccess.UpdateRandSqn | src/hss_rel14/src/dataaccess.cpp:1366-1399 | RAND and SQN, plus 32 if asked, replace those of one row, or make one, and touch nothing else; a rejected statement changes nothing, and is an exception only where there is no callback |
| AirAuthentication.AirProcessor.Resynchronise | src/hss_rel14/src/s6as6d_impl.cpp:2069-2089 | with an AUTS that opens, SQN becomes SQN_MS + 32; otherwise it stays |
| AirAuthentication.AirProcessor.Phase2 | src/hss_rel14/src/s6as6d_impl.cpp:2069-2130 | the vectors are the network's for each RAND and the SQN to use, whatever becomes of the update; the last RAND and SQN + 32 are stored unless the update is rejected |
| AirAuthentication.AirProcessor.Authenticate | src/hss_rel14/src/s6as6d_impl.cpp:1911-2130 | the same from the stored row; failure without a row; no change where there is no row or the update is rejected |
| AirAuthentication.ParseHex | src/hss_rel14/src/fdhss.cpp:281-313 | true if and only if the text has an even number of hexadecimal digits and nothing else, and then the buffer starts with its bytes and keeps the rest |
| AirAuthentication.SynchFix | src/hss_rel14/src/fdhss.cpp:315-350 | false if and only if the text of the AUTS is not hexadecimal, there is no row, or the AUTS does not open under the stored RAND; otherwise SQN_MS + 32 modulo 2^48 is stored, or the rejected update is an exception and changes nothing |
| AirAuthentication.RowHoldsItsOctets | src/hss_rel14/src/dataaccess.cpp:1328-1339 | a row written from octets has those secrets, that RAND and that number |
| AirAuthentication.AutsOfItsText | src/hss_rel14/src/fdhss.cpp:281-322 | the text of a whole AUTS gives that AUTS |
| AirAuthentication.VectorsAreInOrder | src/hss_rel14/src/s6as6d_impl.cpp:2091-2112 | one vector for each challenge, in their order |
| AirAuthentication.RepairedRow | src/hss_rel14/src/fdhss.cpp:327-341 | the AUTS of a USIM under the stored RAND opens, and the repaired row holds the new RAND and that USIM's number plus 32 modulo 2^48 |
| AkaRuns.StoreLoadRoundTrip | src/hss_rel14/src/dataaccess.cpp:1305-1399 | reading after the update finds the same RAND bytes and the number plus 32 modulo 2^48, with its low five bits kept |
| AkaRuns.ChallengeIsTheVector | src/hss_rel14/src/s6as6d_impl.cpp:2091-2095 | the challenge of a run is the vector that phase 2 makes for that request |
| AkaRuns.OneAttempt | src/hss_rel14/src/s6as6d_impl.cpp:2054-2131 | a challenge is accepted if and only if its number is above the USIM's; the row after it, stored or not, and the USIM |
| AkaRuns.StepKeepsInStepExactly | src/hss_rel14/src/s6as6d_impl.cpp:2113-2130 | in step and while 48 bits last a challenge is accepted, with or without an AUTS; the two sides are in step afterwards if and only if the update was stored or the challenge did not move the USIM up to the stored number |
| AkaRuns.RejectedUpdateBreaksStep | src/hss_rel14/src/s6as6d_impl.cpp:1917-1926 | an update rejected after an answer that arrives takes them out of step, and the next challenge is refused |
| AkaRuns.StaysInStep | src/hss_rel14/src/s6as6d_impl.cpp:2054-2131 | over every run without AUTS, with any challenges lost and updates rejected, while 48 bits last: none that arrives is refused if and only if some update is stored between any two that arrive; and then they end in step if and only if some update is stored from the last of them on |
| AkaRuns.StoredUpdatesCover | src/hss_rel14/src/s6as6d_impl.cpp:2113-2130 | in particular when the update after every challenge that arrives is stored |
| AkaRuns.BoundIsExact | src/hss_rel14/src/s6as6d_impl.cpp:2054-2131 | when every challenge arrives and every update is stored, none is refused if and only if the last number fits in 48 bits |
| AkaRuns.ResyncRepairs | src/hss_rel14/src/s6as6d_impl.cpp:2069-2130 | from any distance, the AUTS of a refused challenge whose update was stored makes the next vector carry SQN_MS + 32; it is accepted if and only if 48 bits do not wrap, and then both sides are in step once its update is stored, even if the challenge is lost |
| AkaRuns.RejectedRandLosesAuts | src/hss_rel14/src/s6as6d_impl.cpp:2069-2089 | if that update was rejected nothing has changed, and unless the AUTS opens under the stored RAND all the same the next challenge is refused again |
| AkaRuns.RefusalsAreBounded | src/hss_rel14/src/s6as6d_impl.cpp:2054-2131 | for every run of requests with an AUTS that does not open, none, or the USIM's own under the stored RAND, with any challenges lost and updates rejected, from any distance and while 48 bits last: the challenges refused are at most the updates rejected although their challenge arrived, plus the requests that ignore an AUTS owed, plus one if the run starts out of step |
| AkaRuns.AtMostOneRefusal | src/hss_rel14/src/s6as6d_impl.cpp:2054-2131 | so if in such a run the update after every challenge that arrives is stored and every AUTS owed is brought, at most one is refused; from in step, none |
| AkaRuns.BoundIsReached | src/hss_rel14/src/s6as6d_impl.cpp:2054-2131 | the bound is met: for a USIM at least 32 ahead of the stored number, two requests without AUTS are both refused, the second for a rejected update or for an ignored AUTS |
| AkaRuns.ReplyIsFromUsim | src/hss_rel14/src/s6as6d_impl.cpp:2069-2089 | the AUTS owed after a refusal whose update was stored is the one of the USIM's reply |
| RequestCore.RoutineKeepsGood | src/hss_rel14/src/s6as6d_impl.cpp:1777-1814 | the steps outside the phases keep both counters equal to what they count, and a taken request unreferenced |
| RequestCore.SeesNoQueryKeepsGood | src/hss_rel14/src/s6as6d_impl.cpp:1844 | the 32-bit read of 0 proves that no callback owes its decrement, when nothing is left uncounted |
| RequestCore.TakesFinalKeepsGood | src/hss_rel14/src/s6as6d_impl.cpp:1844 | the second read, at another moment, proves that no message or worker is left |
| RequestCore.IssueFirstKeepsGood | src/hss_rel14/src/s6as6d_impl.cpp:2034-2039 | a query issued before it is counted keeps them, though the counter may fall below zero |
| RequestCore.FailureClears | src/hss_rel14/include/s6as6d_impl.h:128-134 | a failure clears the whole result mask |
| RequestCore.SuccessAddsNoOther | src/hss_rel14/include/s6as6d_impl.h:128-134 | a success leaves every other bit as it was |
| AirPhases.NextKeepsInv | src/hss_rel14/src/s6as6d_impl.cpp:1777-2135 | every step of every thread keeps the invariant of the authentication processor |
| AirPhases.RequestIsSafe | src/hss_rel14/src/s6as6d_impl.cpp:1852-1907 | in every run, whoever takes PHASEFINAL holds the only reference, and the request is freed at most once |
| AirPhases.OnlyDeletionFollows | src/hss_rel14/src/s6as6d_impl.cpp:1886-1905 | after that no step but the deletion is possible |
| AirPhases.OneAnswer | src/hss_rel14/src/s6as6d_impl.cpp:1929-2135 | no answer while the next phase is 1 or 2, exactly one in every other state; an update with each success answer and with no other |
| AirPhases.CheckIsTheReadsResult | src/hss_rel14/src/s6as6d_impl.cpp:1911-1914 | phase 2 passes its check if and only if the read succeeded: the result is published before the executed bit |
| AirPhases.AnswerIsTheReadsResult | src/hss_rel14/src/s6as6d_impl.cpp:2054-2116 | in every run that issued its read, the answer is a success if and only if the subscriber was found, and an error if and only if not |
| AirPhases.PhasesSeeResults | src/hss_rel14/include/s6as6d_impl.h:125-140 | a phase that waits for a query runs only after the query's result was written |
| AirLiveness.StepKeepsWoken | src/hss_rel14/src/s6as6d_impl.cpp:1798-1814 | with locks that block no wake-up is lost: a request for which nothing is under way is deleted, or was rejected by phase 1 |
| AirLiveness.SomeStepIsEnabled | src/hss_rel14/src/s6as6d_impl.cpp:1852-1907 | a request that is neither deleted nor rejected can always go on |
| AirLiveness.EveryRunEnds | src/hss_rel14/src/s6as6d_impl.cpp:1777-2135 | every run has at most 72 steps, and ends with one answer sent and the request deleted, unless phase 1 took a rejecting branch in it: then it is never deleted |
| AirLiveness.RejectedRequestStays | src/hss_rel14/src/s6as6d_impl.cpp:1929-2027 | a run in which phase 1 rejects, nothing can follow, and the answered request is not deleted |
| AirLiveness.SuccessfulRequest | src/hss_rel14/src/s6as6d_impl.cpp:1777-2135 | a run in which the subscriber is found, the answer is a success, its update is executed, and the request is deleted |
| AirPhases.AtMostThreePhases | src/hss_rel14/src/s6as6d_impl.cpp:1868-1899 | the phase loop ends: every phase lowers a rank that no other step raises |
| UlrPhases.NextKeepsInv | src/hss_rel14/src/s6as6d_impl.cpp:923-1381 | every step of every thread keeps the invariant of the location-update processor |
| UlrSafety.SafeExactlyWhen | src/hss_rel14/src/s6as6d_impl.cpp:1329-1381 | every reachable state is safe if and only if no query after the first fails to be issued; otherwise some interleaving, with locks that block, frees the request under its first callback |
| UlrSafety.OnlyDeletionFollows | src/hss_rel14/src/s6as6d_impl.cpp:1090-1111 | where it is safe, no step but the deletion follows PHASEFINAL |
| UlrPhases.OneAnswer | src/hss_rel14/src/s6as6d_impl.cpp:1281-1737 | no answer while the next phase is 1, 2 or 3, exactly one in every other state; at most one update, only after a success answer |
| UlrResults.FailedQueryIsMarked | src/hss_rel14/src/s6as6d_impl.cpp:1329-1369 | which queries a query that cannot be issued marks as done, and that every result is then cleared |
| UlrResults.CheckIsTheReadsResult | src/hss_rel14/src/s6as6d_impl.cpp:1384-1399 | in every run phase 2 passes its check if and only if the read of the subscriber published success and no query has failed, or failed to be issued, since |
| UlrResults.AllResultsStand | src/hss_rel14/include/s6as6d_impl.h:125-140 | all result bits are set while no query has failed |
| UlrResults.KnownSubscriberIsRejected | src/hss_rel14/include/s6as6d_impl.h:128-134 | a run in which the subscriber's read succeeds, the MME query fails after it, and phase 2 can only reject |
| UlrResults.SuccessfulUpdate | src/hss_rel14/src/s6as6d_impl.cpp:1281-1737 | a run that ends in the final phase with one success answer and one update |
| UlrPhases.PhasesSeeResults | src/hss_rel14/src/s6as6d_impl.cpp:1006-1031 | a phase that waits for the subscriber, the MME or the update can run if and only if that query's result was written; the third if and only if subscriber data is skipped or the event queries are done |
| UlrLoop.LoopEnds | src/hss_rel14/src/s6as6d_impl.cpp:1064-1103 | in every run the worker's steps in the phase loop are bounded by a rank |
| WorkQueue.QueueManager.AddEntry | src/hss_rel14/include/worker.h:112-116 | the entry joins the end of the queue |
| WorkQueue.QueueManager.StartMessage | src/hss_rel14/include/worker.h:118-130 | the front entry leaves and takes a slot, or nothing changes |
| WorkQueue.QueueManager.FinishMessage | src/hss_rel14/include/worker.h:132-135 | one slot is given back |
| WorkQueue.LimitedAndInOrder | src/hss_rel14/include/worker.h:111-143 | in every interleaving no more than the limit run, and requests start in the order they were added |
| WorkQueue.NothingWaitsBesideAFreeSlot | src/hss_rel14/src/fdhss.cpp:45-56 | free slots with waiting work never exceed the startProcessor calls still owed, so none is left at rest |
| WorkQueue.HeldSlotsStopTheQueue | src/hss_rel14/include/worker.h:118-130 | while as many triggered requests as the limit stay undeleted, no other request starts |
| EventStore.EventTables.AddEvent | src/hss_rel14/src/dataaccess.cpp:136-206 | the three tables after an add of which any statement may be rejected, and whether it throws |
| EventStore.EventTables.DeleteEvent | src/hss_rel14/src/dataaccess.cpp:314-373 | the three tables after a deletion of which any statement may be rejected, and whether it throws |
| EventStore.EventTables.GetEventsFromImsi | src/hss_rel14/src/dataaccess.cpp:844-869 | every existing event comes once for each index entry that leads to it, as its row stands |
| EventStore.EveryEventIsFound | src/hss_rel14/src/dataaccess.cpp:136-206 | after any adds that do not stop part-way and any deletions, the search finds all that a scan finds, and only existing events |
| EventStore.SearchIsScan | src/hss_rel14/src/dataaccess.cpp:844-869 | the two are equal when no key changes its identifiers |
| EventStore.DeletionIsComplete | src/hss_rel14/src/dataaccess.cpp:314-373 | a deletion that does not throw takes the row and both its index entries, and nothing else |
| EventStore.SearchIsScanAfterDeletions | src/hss_rel14/src/dataaccess.cpp:136-373 | the index tables hold exactly the entries of the rows, and search equals scan, over runs in which a key may come back under other identifiers once it was deleted |
| EventStore.LookupIsScanExactly | src/hss_rel14/src/dataaccess.cpp:844-869 | they agree on every search if and only if each event is indexed and no index entry leads to an event with another identifier |
| EventStore.AddKeepsIndexedExactly | src/hss_rel14/src/dataaccess.cpp:136-206 | an add keeps every event findable if and only if it does not stop part-way or the entries were there |
| EventStore.AddKeepsAgreementExactly | src/hss_rel14/src/dataaccess.cpp:136-206 | whichever statement is rejected, an add keeps search and scan equal if and only if it writes nothing, or its key has no entry under other identifiers and it leaves no entry out |
| EventStore.DeleteKeepsAgreement | src/hss_rel14/src/dataaccess.cpp:314-373 | a deletion keeps them equal, wherever it fails |
| EventStore.SearchIsNotScan | src/hss_rel14/src/dataaccess.cpp:136-206 | a key added again under another MSISDN is still found under the old one |
| ConfigRequest.ProcessHssDb | src/hss_rel14/src/s6t_impl.cpp:135-258 | the nested loops do the actions of the request in order, on the tables and on the status map |
| ConfigRequest.ActionsOfOne | src/hss_rel14/src/s6t_impl.cpp:146-255 | the actions of one configuration, in order, with the fields of the event that it stores |
| ConfigRequest.RemovalsInOrder | src/hss_rel14/src/s6t_impl.cpp:147-156 | one removal for each id, in order, under the SCEF of the configuration |
| ConfigRequest.ActionsInOrder | src/hss_rel14/src/s6t_impl.cpp:142-145 | the configurations of a request take their turns in order |
| ConfigRequest.StoredConfigurations | src/hss_rel14/src/s6t_impl.cpp:208-251 | two or more reports, or a duration and no number of reports, reach the tables; any other leaves them and result 0 |
| MonitoringEvents.LongTermRequests | src/hss_rel14/src/fdhss.cpp:441-451 | which configurations are long-term, by their decoded fields |
| MonitoringEvents.ForcedType | src/hss_rel14/src/fdhss.cpp:453-456 | a forced type is the type, whatever the fields say |
| ConfigRequest.RequestIsFulfilled | src/hss_rel14/src/s6t_impl.cpp:142-256 | for distinct keys and no database error the events are the old ones without those deleted and with the long-term additions, nothing else changes, and every status is true |
| ConfigRequest.FirstStatusWins | src/hss_rel14/src/s6t_impl.cpp:187-188 | for repeated keys and any errors a key's status is the outcome of its first action |
| ConfigRequest.RemovalStatusIsTrue | src/hss_rel14/src/s6t_impl.cpp:158-186 | when the status of a deletion is true, and exactly when it is not |
| ConfigRequest.StorageStatusIsTrue | src/hss_rel14/src/s6t_impl.cpp:228-251 | an event reported as stored is stored and found; when one reported as not stored is there all the same |
| RirBuilder.RIRBuilder.Collect | src/hss_rel14/src/fdhss.cpp:585-629 | one response adds one status under every configured key |
| RirBuilder.RIRBuilder.Dispatch | src/hss_rel14/src/fdhss.cpp:561-655 | the whole new state after each kind of message |
| RirBuilder.ReportComesOnce | src/hss_rel14/src/fdhss.cpp:561-655 | for every order of arrival, no responses included, the report is completed exactly once, at the last of the responses and the CIA event, with all responses; the status map is there whenever it is read |
| RirBuilder.OneStatusEach | src/hss_rel14/src/fdhss.cpp:585-629 | every configured key holds exactly one status for each response |
| RirBuilder.OrderDoesNotMatter | src/hss_rel14/src/fdhss.cpp:585-629 | the statuses under a key are the same multiset for every order of the responses |
| RirBuilder.TimeoutsSendPrefixes | src/hss_rel14/src/fdhss.cpp:562-563 | under each key, every report sent holds a prefix of the statuses of the final one |
| RirBuilder.TimeoutSendsTheReportSoFar | src/hss_rel14/src/fdhss.cpp:562-563 | in every run a guard timeout sends the report of the responses so far and changes nothing else |
| RirBuilder.OthersSendNothing | src/hss_rel14/src/fdhss.cpp:564-654 | nothing but a timeout or the completion sends a report |
| GroupRequest.SendToAll | src/hss_rel14/src/s6t_impl.cpp:350-357 | the loop posts the responses of the unreachable IMSIs and asks the MMEs about the others, in the order of the list |
| GroupRequest.EachImsiIsReported | src/hss_rel14/src/s6t_impl.cpp:350-357 | for every order of arrival each configured key names the IMSIs that respond as often as the list does, each with its own MSISDN, its reachability (101 if and only if it is detached, 100 if its MME gave no good answer), and, without a good answer, 5012 for a one-shot event |
| GroupRequest.GroupIsReported | src/hss_rel14/src/s6t_impl.cpp:340-363 | the report is completed if and only if every request to an MME could be sent, and then names exactly the IMSIs of the list |
| GroupRequest.ReportedResult | src/hss_rel14/src/s6as6d_impl.cpp:473-531 | what the report says of an event and an IMSI, from the status of the database and the MME's answer |

## Left out

- Diameter messages, AVP dictionaries, JSON, REST, options, logging and statistics: plumbing. Requests are decoded fields.
- HMAC-SHA-256 and the random source: parameters. The test sets of TS 35.207 are not part of the model.
- The branch of include/util.h for big-endian machines, and the delimiter and upper-case options of bytes2hex, which no modelled caller uses.
- Concurrent use of the global round keys: nothing in the code guards them. One vector generation is atomic here.
- Freshness among the vectors of one request: they all carry the same SQN. The runs of AkaRuns ask for one vector.
- AirAuthentication.AirProcessor.Phase2: does not cover a request for no vectors, for which the code reads the vector before the first.
- AirAuthentication.AirProcessor.Authenticate: does not cover such a request either, unless the subscriber has no row.
- SubscriberStore.DataAccess.GetImsiSec: does not cover a row whose key, RAND or OPc text is shorter than 32 characters, of which the code reads past the end.
- Liveness of location updates: a phase may wait for an event query that is never counted as executed. AirLiveness has that of authentication requests.
- AirAuthentication.SynchFix: does not cover a text of more than 62 digits, which the code writes past its buffer.
- DAException thrown inside a database callback, and rejected reads in getEventsFromImsi.
- Which further queries the event callbacks of a location update issue, and their m_lstmutex: UlrPhases lets them count, issue and publish event queries in any order, which includes what the code does.
- Completion of event queries: m_dbevtissued is never incremented, so nothing is claimed of it; nor of the scef_id in a query.
- A wrap of the 32-bit counters: the safety results of UlrSafety are for runs with fewer than 2^32 - 1 counts and queries.
- Worker shutdown, PLMN splitting, access restriction and BCD conversion: easy members.
- The paging loop of checkOpcKeys; ComputeOPc, which it calls, is modelled.
- A database statement that takes effect although it reports an error.
- Location-update content: the columns written by updateLocation and the checks of phase 2 are one nondeterministic step.
- The single-subscriber answer to a configuration request.
- Lists that repeat an IMSI with different answers: GroupRequest has one answer for each IMSI, and the table behind the list repeats none.
