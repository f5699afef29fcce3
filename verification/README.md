# Pathfinder: a verified model of its protocol, codec and decision cores

This project models the parts of Pathfinder whose correctness rests on reasoning
across several functions, and proves what they promise for every input, every
interleaving and every random stream.

| file | what it models |
|---|---|
| `Basics.dfy`, `Numerals.dfy`, `Statistics.dfy` | results, printing and parsing of numerals, sums and means |
| `Ledger.dfy`, `Transfers.dfy` | the Data Agent's durable transfer rows, its in-flight counters, and the step system of handlers and telemetry readers |
| `Telemetry.dfy` | the client's retries, its quiescence poll and delivery reconciliation, joined to the server's step system |
| `LockPool.dfy`, `Execution.dfy` | the reference-counted lock pool, and idempotent execution over a table that several processes share |
| `ByteRanges.dfy` | one ranged download, from the printed `Range` header to the accepted bytes |
| `Jpeg.dfy` | the JPEG header walker and its grammar |
| `Names.dfy`, `Archive.dfy`, `Members.dfy`, `Provenance.dfy`, `Bundle.dfy`, `BundleProofs.dfy` | member names, a USTAR block codec, the bounded member reader, the manifest's source blocks, the frame bundle builder and validator |
| `Certificate.dfy`, `Calibration.dfy`, `Generator.dfy`, `GeneratorProofs.dfy`, `CalibratedPlans.dfy` | the workload-safety certificate, its Monte Carlo counting loops, the synthetic data behind them, and whole calibrations |
| `Cohort.dfy`, `CohortProofs.dfy` | outcome-blind greedy cohort selection |
| `Sessions.dfy`, `SessionLaws.dfy`, `Coupling.dfy`, `Pilots.dfy` | simulated sessions, what they report, common random numbers, and the pilot that pairs sessions |

Conventions. Concurrency is a step system: a state, an enabled step and its
effect, so that a run is any interleaving of any number of threads; the objects
that the source updates in place are classes whose methods are proved against
the same functions the steps use. Floating point is exact real arithmetic, with
the 1e-9 support tolerance kept. SHA-256, JSON, text stripping, the exponential
and rounding to eight digits are function parameters, with their laws stated
where a theorem needs one. Frame timestamps are finite doubles, written exactly
as multiples of the smallest one, so that a manifest is something JSON can carry.
Clocks, network faults, storage failures and random
draws are explicit inputs. Every lemma carries `{:induction false}`: the
inductions are the ones written in the bodies.

Three places where the source does less than it seems to promise.

- The calibration loader checks that a plan's expected success difference lies
  in its support, but evaluation checks the drawn difference of two frequencies,
  which can be a whole unit. `GeneratorProofs.NarrowSupportCanAbort` gives, for
  every symmetric support narrower than that, a validated plan and a draw on
  which evaluation aborts.
- The loader checks that a plan's savings stay in their support up to the
  tolerance 1e-9, and evaluation later checks the utility with the same
  tolerance. A cost weight above one magnifies the first slack beyond the
  second. `GeneratorProofs.ValidatedPlanCanAbort` gives, for every such weight, a
  validated plan with a wide success support and a draw on which evaluation
  aborts.
- `SimulatedAgent.choose` keys the outside option by the name
  `outside_option` in the same dictionary as the representations. Raising the
  quote of a representation of that name can bring back the outside option's own
  score and so take the selection away from a third offer
  (`Coupling.OutsideNameCollides`).

Each has its exact condition. For a loaded and validated stratum, evaluation
succeeds on everything it can draw if and only if its success corners and its
utility corners fit (`GeneratorProofs.EvaluationNeverAborts`); a success support
that contains [-1, 1] fits, and small weights fit
(`GeneratorProofs.WideSupportFits`, `GeneratorProofs.SmallWeightFits`). A raised
quote of a representation that was not selected leaves the selection alone if
and only if that representation has a name of its own, or the leading score is beaten by some other entry both before and after
the raise, or neither (`Coupling.RaisedQuoteNeverAttracts`); without an
affordable offer of the shared name that is always so
(`Coupling.UnofferedIsUnmoved`).

## Model

| member | source | states |
|---|---|---|
| Ledger.SummarizePermutation | pathfinder/data_agent_server.py:306-339 | the summary query depends on which rows are present and not on their commit order |
| Ledger.SummaryColumns | pathfinder/data_agent_server.py:306-339 | each aggregate in terms of the rows alone: how many, how many completed, how many completed and full, the sums of bytes and latencies, and the latest completion time or none |
| Ledger.LedgerAccounting | pathfinder/data_agent_server.py:976-1030 | over any rows a handler wrote for an artifact of size S: full <= completed <= requests, full * S <= bytes sent <= requests * S, with equality when every request was a full download |
| Transfers.TransferService.constructor | pathfinder/data_agent_server.py:386-407 | a new service has no reservation, no generation and no row |
| Transfers.TransferService.BeginArtifactDownload | pathfinder/data_agent_server.py:605-624 | reserving raises both the in-flight count and the generation of that access by one |
| Transfers.TransferService.RecordArtifactDownload | pathfinder/data_agent_server.py:626-650 | a committed row is appended and then releases one reservation; a failed commit changes neither rows nor counters |
| Transfers.TransferService.TransferWatermark | pathfinder/data_agent_server.py:656-666 | the sampled pair is the current count and generation, zero for an unknown access |
| Transfers.StepKeepsInv | pathfinder/data_agent_server.py:605-712 | each atomic step of any handler or reader keeps counters, rows and readers in agreement with the transfers |
| Transfers.RunKeepsInv | pathfinder/data_agent_server.py:605-712 | that agreement holds in every state of every interleaving |
| Transfers.RunExtends | pathfinder/data_agent_server.py:626-650 | transfers are never forgotten along a run, and a released or lost one never changes again |
| Transfers.QuiescenceSound | pathfinder/data_agent_server.py:668-712 | a reply that claims completeness aggregates, column by column, exactly one durable row for every transfer of that access reserved up to its second watermark, all of them released |
| Transfers.SecondCountImplied | pathfinder/data_agent_server.py:668-712 | a zero first count and an unmoved generation already force the second count to zero |
| Transfers.CompleteExactlyWhenQuiet | pathfinder/data_agent_server.py:668-712 | a reply is complete exactly when all transfers were released at the first watermark and none was reserved until the second |
| Transfers.PoisonedForever | pathfinder/data_agent_server.py:626-666 | after a failed row commit every later reply for that access is incomplete and reports a positive in-flight count |
| Transfers.StepsAreLocal | pathfinder/data_agent_server.py:605-666 | a step changes the watermark and the rows of no access but its own, and a failed commit changes none |
| Transfers.ReachableAccounting | pathfinder/data_agent_server.py:976-1030 | every reachable table obeys the ledger accounting of each artifact |
| Telemetry.SendWithRetries | pathfinder/data_agent_client.py:1614-1628 | sends at most maxRetries + 1 times, returns the first attempt not worth repeating or the last one allowed, and never falls off the loop |
| Telemetry.RetryableExactly | pathfinder/data_agent_client.py:1614-1628 | only a lost connection and statuses 502 to 504 are tried again |
| Telemetry.CompleteIsServerVerdict | pathfinder/data_agent_client.py:764-800 | the client's conjunction of two signals equals the server's verdict on its two watermarks |
| Telemetry.ReadVerdicts | pathfinder/data_agent_client.py:1576-1612 | exactly which reads end the poll, with what, and which ask for another one |
| Telemetry.GetAccessTelemetry | pathfinder/data_agent_client.py:1524-1612 | for any clock a poll that ends does so at the first read that decides, and bad arguments are refused without reading; when each sleep lasts at least the poll interval it ends within ceil(timeout / poll) + 1 reads |
| Telemetry.NoUnderCount | pathfinder/data_agent_client.py:1576-1612 | a report returned by a waiting poll counts every transfer that was reserved before the poll started, each final and with its row among those aggregated |
| Telemetry.DeliveryImpliedByLedger | pathfinder/frame_bundle_transfer.py:516-608 | for any reachable ledger the byte check never refuses what the full-download check let through, acceptance is exactly a complete matching report with a full download, and exactly one full download means exactly the artifact's bytes |
| Telemetry.DeliveryVerdicts | pathfinder/frame_bundle_transfer.py:516-608 | which reports are refused for what, the earlier checks first, and what an accepted one records |
| LockPool.AccessLockPool.Register | pathfinder/data_agent_server.py:356-362 | the first guarded section returns the entry of that access, fresh and unlocked when there was none, and raises only its count |
| LockPool.AccessLockPool.Unregister | pathfinder/data_agent_server.py:368-371 | the second guarded section lowers only that count, removes the entry exactly at zero, and leaves other entries alone |
| LockPool.RunKeepsInv | pathfinder/data_agent_server.py:342-371 | the pool invariant holds in every state of every interleaving |
| LockPool.OneHolder | pathfinder/data_agent_server.py:355-371 | two threads holding the lock of one access are the same thread |
| LockPool.PoolIsSound | pathfinder/data_agent_server.py:342-371 | in every run: one holder per access, busy threads share an entry exactly when they share the access, and an entry exists exactly while its reference count, equal to the number of such threads, is positive |
| LockPool.BlockedOnlyByOwnAccess | pathfinder/data_agent_server.py:348-371 | a waiting thread is blocked exactly when another thread holds the same access |
| LockPool.RegisterRefines | pathfinder/data_agent_server.py:356-362 | the interleaved step moves the reference counts exactly as the guarded method specifies |
| LockPool.UnregisterRefines | pathfinder/data_agent_server.py:368-371 | likewise for the section after the lock is released |
| Execution.StoreRefined | pathfinder/data_agent_server.py:234-270 | the insert step, with the re-reading step after a refusal, changes the table and answers the caller exactly as the store's insert does |
| Execution.OperationStore.PutIfAbsent | pathfinder/data_agent_server.py:234-270 | inserts only when absent, never overwrites, and yields the stored row exactly when its digest matches, by the functions the steps use |
| Execution.RunKeepsInv | pathfinder/data_agent_server.py:421-451 | calls, lock pools and the shared table agree in every state of every run of several processes |
| Execution.OneInside | pathfinder/data_agent_server.py:421-451 | two calls of one process are never inside the critical section of one access together |
| Execution.WriteOnce | pathfinder/data_agent_server.py:234-270 | a stored row is never changed or removed later in the run |
| Execution.SameAnswer | pathfinder/data_agent_server.py:421-451 | any two successful executions of one access, in any processes and at any times, had the same request digest and return responses that differ at most in the artifact URL |
| Execution.ConflictIsReal | pathfinder/data_agent_server.py:432-451 | a call answered with a conflict carried another digest than every call of that access answered at any time of the run |
| Execution.FailsOnlyByFault | pathfinder/data_agent_server.py:234-270 | a call fails only where computing or storing fails; the re-read after a refused insert always finds the row |
| Execution.AnswersExactly | pathfinder/data_agent_server.py:421-451 | every step that touches the table answers its call as the row then stored demands: the stored response under the freshly signed URL when digests agree, a conflict when they do not |
| Execution.AnswerWasFresh | pathfinder/data_agent_server.py:560-571 | in every run each answer was given at one step and carries the URL that step signed, with every other field as the table still holds it |
| Execution.UncachedAreSerial | pathfinder/data_agent_server.py:421-451 | within one process at most one uncached execution of an access is under way, and none once that process has stored it |
| Execution.SingleProcessNeverRefused | pathfinder/data_agent_server.py:234-270 | with one process the insert never meets a conflicting row |
| ByteRanges.ParseRange | pathfinder/data_agent_server.py:1041-1074 | an accepted interval lies inside a non-empty artifact and is marked as ranged exactly when a header was present |
| ByteRanges.ParsePrintedRange | pathfinder/data_agent_server.py:1041-1074 | parsing the header the client printed for a..b gives a..min(b, size - 1), or a refusal when a is beyond the end |
| ByteRanges.ParseOpenRange | pathfinder/data_agent_server.py:1041-1074 | an open-ended range runs to the last byte (RFC 9110 section 14.1.2) |
| ByteRanges.ParseSuffixRange | pathfinder/data_agent_server.py:1041-1074 | a suffix range counts from the end, is clipped at the start, and is refused at zero length |
| ByteRanges.ParseRangeExactly | pathfinder/data_agent_server.py:1041-1074 | the server serves exactly the single closed, open and suffix ranges that start inside the artifact and do not run backwards, clipped to it |
| ByteRanges.RefusedResponse | pathfinder/data_agent_server.py:862-957 | any other range is answered by 416 with the size and no byte (RFC 9110 section 15.5.17) |
| ByteRanges.PlainServed | pathfinder/data_agent_server.py:969-1011 | without a Range header the whole artifact is served with status 200, its length, its digest and no Content-Range |
| ByteRanges.StreamBody | pathfinder/data_agent_server.py:999-1011 | the chunk loop sends a prefix of the interval, complete exactly when nothing remains, and under each fault exactly as many bytes as were written before it |
| ByteRanges.WriteArtifact | pathfinder/data_agent_server.py:969-1039 | the recorded row describes the parsed interval and the bytes actually written, faulted or not; an unsatisfiable range records nothing; an unfaulted response is the specified one; an unfaulted plain download records a completed full row of all bytes |
| ByteRanges.MatchPrintedContentRange | pathfinder/data_agent_client.py:1425-1522 | the client's pattern recovers the three numbers the server printed |
| ByteRanges.RangeRoundTrip | pathfinder/data_agent_client.py:1425-1522 | for every artifact and every a <= b the client accepts the served response exactly when b is inside the artifact, and then holds exactly bytes a..b with the full size and digest |
| ByteRanges.FetchRoundTrip | pathfinder/data_agent_client.py:1149-1254 | the full ranged fetch succeeds exactly when additionally the size bound and the caller's range digest agree, and returns those bytes |
| ByteRanges.AcceptedIsExact | pathfinder/data_agent_client.py:1425-1522 | whatever answered, an accepted download has status 206, exactly the bytes asked for, and a matching Content-Range |
| ByteRanges.WholeRoundTrip | pathfinder/data_agent_client.py:1256-1424 | a plain fetch succeeds exactly within the size bound, and then holds the whole file |
| ByteRanges.AcceptedWholeIsVerified | pathfinder/data_agent_client.py:1256-1424 | whatever answered, an accepted plain fetch is a 200 body within the bound, of the declared media type and digest |
| Jpeg.DeclaredDimensions | pathfinder/frame_bundle_ingest.py:541-602 | the bounded loop equals the unbounded recursive walk on every input, and its iteration bound never stops it |
| Jpeg.MarkerTable | pathfinder/frame_bundle_ingest.py:75-83 | the frame, standalone and stopping markers are those of ITU-T T.81 Table B.1 |
| Jpeg.SerializedWalk | pathfinder/frame_bundle_ingest.py:541-602 | wherever a serialized chain of fill bytes, standalone markers and segments ends in a frame header, the walk returns that header's size |
| Jpeg.WalkIsSerialized | pathfinder/frame_bundle_ingest.py:541-602 | conversely, a size the walk returns is that of such a chain at that place |
| Jpeg.SerializedImage | pathfinder/frame_bundle_ingest.py:541-602 | an image printed from a chain, with any data before EOI, declares its header's size |
| Jpeg.AcceptsExactlyGrammar | pathfinder/frame_bundle_ingest.py:541-602 | a payload yields a size exactly when it starts with SOI, ends with EOI and contains a grammatical chain declaring it |
| Jpeg.OnlyHeaderMatters | pathfinder/frame_bundle_ingest.py:541-602 | any other payload sharing the prefix through the width field and ending in EOI yields the same size |
| Jpeg.WalkRefusal | pathfinder/frame_bundle_ingest.py:541-602 | a refused walk passed whole markers and segments up to one that has exactly the fault it reports |
| Jpeg.EndsRefusal | pathfinder/frame_bundle_ingest.py:541-602 | a missing start or end marker is reported exactly when it is missing, the start first |
| Basics.DigestAlphabet | pathfinder/frame_bundle_ingest.py:71-71 | a digest is exactly 64 characters, each one of 0 to 9 and a to f |
| Names.FrameNameInjective | pathfinder/frame_bundle.py:461-462 | zero-padded frame names never collide, for any number of frames |
| Names.FrameNameWidth | pathfinder/frame_bundle.py:461-462 | three digits while they suffice, no padding beyond |
| Names.FrameNameIsFrameLike | pathfinder/frame_bundle_ingest.py:822-824 | a canonical name has the frame pattern and is never the manifest's name |
| Names.FrameLikeExactly | pathfinder/frame_bundle_ingest.py:72-72 | the frame pattern is a run of digits between the directory and the extension |
| Names.ValidNameExactly | pathfinder/frame_bundle_ingest.py:460-498 | exactly which member names are accepted, by their characters and the parts between their slashes |
| Names.LessIsDictionaryOrder | pathfinder/frame_bundle_ingest.py:636-640 | members are compared in dictionary order of code points |
| Names.FrameNameIsValid | pathfinder/frame_bundle_ingest.py:460-498 | a canonical name within 256 characters passes the member-name checks |
| Names.ManifestNameIsValid | pathfinder/frame_bundle_ingest.py:460-498 | the manifest's name passes the member-name checks |
| Archive.ReadWrite | pathfinder/frame_bundle.py:465-497 | reading a written block archive gives the members back, in order, with canonical metadata |
| Archive.UstarIsLawful | pathfinder/frame_bundle.py:465-497 | the concrete 512-byte header format parses what it prints and is never mistaken for an end block |
| Archive.FitsExactly | pathfinder/frame_bundle.py:465-497 | what the fixed-width fields can hold |
| Archive.HeaderFields | pathfinder/frame_bundle.py:480-497 | name, mode 0644, zero owner, size and zero time stand at their USTAR places |
| Archive.HeaderChecksum | pathfinder/frame_bundle.py:480-497 | the checksum is that of the block with a blank field; a regular file, magic and version follow |
| Archive.EntryShape | pathfinder/frame_bundle.py:480-497 | an entry is its header, its payload and zeros |
| Archive.WrittenShape | pathfinder/frame_bundle.py:480-497 | whole blocks, two zero blocks, up to a whole record of zeros |
| Members.ReadMembers | pathfinder/frame_bundle_ingest.py:605-680 | the reader accepts exactly the bounded, strictly ascending, duplicate-free lists of valid members and returns their names in order with their payloads; a refusal reports a fault that the first bad member has |
| Members.SortedIsSorted | pathfinder/frame_bundle.py:480-480 | the builder's sort yields an ordered permutation |
| Members.SortedFixpoint | pathfinder/frame_bundle.py:480-480 | sorting an ordered list changes nothing |
| Bundle.CheckEntry | pathfinder/frame_bundle_ingest.py:996-1042 | one entry passes exactly when path, presence, size, digest, timestamp, bounds and declared dimensions all match |
| Bundle.CheckFrames | pathfinder/frame_bundle_ingest.py:967-1054 | the frame loop passes exactly when every entry describes the frame of its own position, and keeps those frames in order with their byte total; a refusal names the first entry that does not |
| Provenance.ValidateSource | pathfinder/frame_bundle_ingest.py:683-805 | the source, sampling and version checks pass exactly on the stated conditions, and a refusal names a block that is wrong |
| Provenance.StatementExactly | pathfinder/frame_bundle_ingest.py:807-819 | a statement passes exactly when it is not blank and contains both required declarations in any letter case |
| Bundle.CheckManifest | pathfinder/frame_bundle_ingest.py:905-1069 | the manifest half passes exactly on the stated conditions, the alignment statement included; a member of neither form is reported as such, every refusal names a fault that is there, and the second byte-total check never fires |
| Bundle.ValidateBundle | pathfinder/frame_bundle_ingest.py:683-1111 | validation accepts exactly the acceptable byte strings, for every codec, from the media type and the expected digest to the source blocks, and returns what the acceptance relation says; each refusal names a fault that is there |
| Bundle.UstarReadsWhatItWrites | pathfinder/frame_bundle.py:465-497 | the concrete block codec reads back what it writes |
| Bundle.UstarCodecIsLawful | pathfinder/frame_bundle.py:465-497 | with it, the law of the round trip needs only that JSON decodes what it encodes and that digests are digests |
| BundleProofs.NamesAreCanonical | pathfinder/frame_bundle_ingest.py:950-1005 | by counting, the member names are exactly the manifest and one canonical name per index |
| BundleProofs.AcceptedIsBijection | pathfinder/frame_bundle_ingest.py:950-1111 | an accepted archive holds exactly the manifest and one canonical frame per index, each matched by size, digest and declared dimensions to the frame handed on |
| BundleProofs.AcceptedIsWritten | pathfinder/frame_bundle_ingest.py:1071-1093 | accepted bytes are their own members written in the order in which they were read |
| BundleProofs.ContentsDetermineBytes | pathfinder/frame_bundle_ingest.py:1071-1093 | two accepted byte strings with equal members are identical |
| BundleProofs.BuildBundle | pathfinder/frame_bundle.py:500-553 | the builder's loops produce the canonical archive of the frames and their manifest, source blocks included |
| BundleProofs.BuildValidateRoundTrip | pathfinder/frame_bundle.py:461-553 | a built bundle is accepted exactly when frames are numbered from zero, within the limits and declare their recorded sizes, and statement and source blocks are in order and agree on the frame count; it then yields the same object, source, statement and frames in order |
| BundleProofs.UstarRoundTrip | pathfinder/frame_bundle.py:461-553 | the same for the concrete archive format with any JSON codec and digest |
| Statistics.MeanRepeat | pathfinder/awm/certificate.py:792-806 | writing a block several times over does not change its mean |
| Statistics.MeanAffine | pathfinder/awm/certificate.py:841-884 | a mean commutes with an affine change of units |
| Certificate.ClusterObservations | pathfinder/awm/certificate.py:808-838 | the loop yields one observation per workload, in order, from the averaged blocks of its two designs |
| Certificate.ObservationsMeasure | pathfinder/awm/certificate.py:808-838 | each observation is its workload's mean over repetitions of candidate minus safe success, and of safe minus candidate cost, with their weighted sum |
| Certificate.NormalizedMeanInUnit | pathfinder/awm/certificate.py:859-868 | what is handed to the bound lies in the unit interval, whatever the values |
| Certificate.CertificateReports | pathfinder/awm/certificate.py:1056-1133 | for values in their supports the certificate reports the mean of each column, with the bounds of that mean's position scaled back, and the number of workloads |
| Certificate.UtilityReported | pathfinder/awm/certificate.py:1120-1125 | the reported utility is the mean of the utility gains |
| Certificate.EvaluateAborts | pathfinder/awm/certificate.py:1056-1133 | evaluation succeeds exactly on a non-empty list whose values all lie in their supports |
| Certificate.AbortCauses | pathfinder/awm/certificate.py:1056-1133 | which abort is reported: no clusters, then the first of success, cost and utility with a value outside its support |
| Certificate.DecisionTable | pathfinder/awm/certificate.py:907-975 | safe exactly when both lower bounds clear their thresholds with enough workloads, unsafe exactly when some bound lies wholly below, and only a safe decision leaves the safe design |
| Certificate.BoundsBracketPoint | pathfinder/awm/certificate.py:841-884 | if the bound brackets the normalised mean, the rescaled bounds bracket the point estimate, exactly for values in their support and up to the tolerance for values clipped to it |
| Certificate.RepetitionInvariance | pathfinder/awm/certificate.py:792-838 | replicating every repetition block changes no observation |
| Certificate.RepetitionInvariantDecision | pathfinder/awm/certificate.py:1056-1133 | hence no bound, gate, independent count or decision, for any bound |
| Certificate.CollectStrata | pathfinder/awm/certificate.py:328-369 | the loop accepts exactly admissible, pairwise disjoint strata and collects their union, whose size is the sum of their counts; a refusal names a stratum fault or an overlap that is there |
| Certificate.LoadStrata | pathfinder/awm/certificate.py:328-400 | loading succeeds exactly when the strata partition the certified workloads apart from the selection set, and then the counts sum to the certified number; a refusal names a fault that is there |
| Calibration.EvaluationIsWellFormed | pathfinder/awm/calibration.py:565-661 | evaluating any drawn data with any bound gives outcomes that follow the decision table |
| Calibration.Simulate | pathfinder/awm/calibration.py:590-655 | one simulation moves every counter exactly by its event, or aborts with the error of the first stratum that does not evaluate; the fallback assertion never fires |
| Calibration.RunScenario | pathfinder/awm/calibration.py:565-657 | a scenario succeeds exactly when every evaluation does, and every counter is then the tally of its event; otherwise it aborts as one of its simulations does |
| Calibration.EventMeaning | pathfinder/awm/calibration.py:617-652 | each counted event in terms of the certificate, the truth and the thresholds |
| Calibration.TallyCounts | pathfinder/awm/calibration.py:617-652 | a stratum's counter is the number of simulations with its event |
| Calibration.FalseSafeTallyCounts | pathfinder/awm/calibration.py:656-656 | the family's false-safe counter is the number of simulations with a false-safe stratum |
| Calibration.CoverageTallyCounts | pathfinder/awm/calibration.py:657-657 | its coverage counter is the number of simulations in which every truth is covered |
| Calibration.PerfectKnowledge | pathfinder/awm/calibration.py:522-533 | a certificate that knows the truth exactly is unsafe just when the truth violates a gate, and covers it |
| Calibration.FalseSafeMissesTruth | pathfinder/awm/calibration.py:522-533 | a false-safe commit means some bound of that stratum missed its truth |
| Calibration.FalseSafeAndCoverage | pathfinder/awm/calibration.py:590-657 | false-safe families and simultaneously covered families together never exceed the simulations |
| Calibration.StatesPartition | pathfinder/awm/calibration.py:612-637 | state counts sum to the simulations, fallbacks are the non-safe ones, and false counts are the matching state counts |
| Calibration.FamilyBounds | pathfinder/awm/calibration.py:628-657 | a stratum's own counters bound the family counters |
| Calibration.RunMonteCarlo | pathfinder/awm/calibration.py:536-661 | the whole calculation succeeds exactly when every evaluation does; then all scenario and overall counters are exact and obey the counting laws |
| Generator.ValidateGeneratorDomain | pathfinder/awm/calibration.py:396-441 | validation passes exactly when every stratum and sign keeps difference, probabilities and jittered savings in range; a refusal names one that is not |
| Generator.ShiftsAndProbabilities | pathfinder/awm/calibration.py:444-464 | shifts lie symmetrically around the declared truth, and a stratum's own probabilities replace the plan's |
| Generator.StratumObservations | pathfinder/awm/calibration.py:444-503 | the loop draws each workload in turn from one generator, part by part in the source's order, and yields its observation |
| Generator.DrawAtIsPossible | pathfinder/awm/calibration.py:444-503 | whatever a generator yields is a possible draw of the plan |
| GeneratorProofs.SavingStays | pathfinder/awm/calibration.py:396-441 | for a validated plan every drawn saving stays in its support |
| GeneratorProofs.SuccessStaysExactly | pathfinder/awm/calibration.py:396-503 | for a validated plan no drawn success difference leaves its support exactly when the success corners fit |
| GeneratorProofs.UtilityStaysExactly | pathfinder/awm/certificate.py:1091-1099 | for a validated plan no draw leaves the derived utility support exactly when the utility corners fit |
| GeneratorProofs.WideSupportFits | pathfinder/awm/calibration.py:396-441 | a success support containing [-1, 1] fits |
| GeneratorProofs.SmallWeightFits | pathfinder/awm/calibration.py:554-559 | with fitting success corners, a cost weight up to one fits under a support containing [-1, 1], and task value plus cost weight up to one under any support |
| GeneratorProofs.EvaluationNeverAborts | pathfinder/awm/certificate.py:1056-1133 | for a loaded and validated stratum and any bound, evaluation succeeds on every possible list of draws exactly when the success and the utility corners fit |
| GeneratorProofs.ValidatedPlanCanAbort | pathfinder/awm/calibration.py:396-441 | every cost weight above one has a validated plan with a wide success support and a draw on which evaluation aborts |
| GeneratorProofs.NarrowSupportCanAbort | pathfinder/awm/calibration.py:164-170 | every symmetric success support narrower than one has a validated plan with fitting utility and a draw on which evaluation aborts |
| CalibratedPlans.ObservedIsGenerated | pathfinder/awm/calibration.py:594-602 | what the loop over workloads observes from a fresh generator is the data that is evaluated |
| CalibratedPlans.ThresholdsMeaning | pathfinder/awm/calibration.py:566-567 | the error level is shared equally among all gates and sides of the family, the rest is the plan's |
| CalibratedPlans.FamilyEvaluates | pathfinder/awm/calibration.py:590-616 | a family of fitting strata evaluates in every simulation, for any seeds and any bound |
| CalibratedPlans.Calibrate | pathfinder/awm/calibration.py:536-661 | the calibration of a plan whose families all fit always succeeds, and its counters obey the counting laws |
| Cohort.ScanRows | pathfinder/benchmark_cohort.py:196-252 | the row loop of one stratum equals its specification, errors included, and tracks the used videos |
| Cohort.FillStrata | pathfinder/benchmark_cohort.py:165-252 | the loop over quota entries equals its specification and keeps the used videos and the quota total |
| Cohort.Select | pathfinder/benchmark_cohort.py:128-267 | the whole selection equals its specification, errors included |
| Cohort.ScanIsGreedy | pathfinder/benchmark_cohort.py:196-252 | a stratum succeeds with a list exactly when each pick is the first eligible well-formed row after the previous pick, given all earlier picks, and the quota is met |
| CohortProofs.SelectionExactly | pathfinder/benchmark_cohort.py:128-267 | selection succeeds with a cohort exactly when the config is in order, the target is the quota total and the cohort is the concatenation of each stratum's greedy picks |
| CohortProofs.SelectedCohort | pathfinder/benchmark_cohort.py:165-267 | every quota is filled exactly, in order, from rows of accepted types; no video repeats or is excluded |
| CohortProofs.FinalChecksNeverFire | pathfinder/benchmark_cohort.py:261-266 | the closing checks on the count and on reused videos are unreachable |
| CohortProofs.WorkloadIdsDistinct | pathfinder/benchmark_cohort.py:224-224 | selected workload identifiers are distinct, so keying workloads by them drops none |
| CohortProofs.SelectionIsBlind | pathfinder/benchmark_cohort.py:209-243 | tables that differ only in answers, questions and options of equal validity give the same error, or the same workloads in the same order |
| CohortProofs.EligibleExactly | pathfinder/benchmark_cohort.py:198-204 | a stratum may take exactly the rows of its accepted types whose video is neither excluded nor used |
| CohortProofs.RowVerdicts | pathfinder/benchmark_cohort.py:205-233 | which rows pass, and which check a row fails first |
| CohortProofs.BuiltFromRow | pathfinder/benchmark_cohort.py:213-243 | a selected workload repeats its row, with the option its answer points to |
| CohortProofs.ConfigVerdicts | pathfinder/benchmark_cohort.py:132-163 | which configurations are in order, and which check one fails first |
| CohortProofs.QuotaVerdicts | pathfinder/benchmark_cohort.py:168-195 | which quota entries are in order, and which check one fails first |
| CohortProofs.StratumMeaning | pathfinder/benchmark_cohort.py:161-195 | a stratum carries its stripped name, its count and the stripped selection identifier |
| Sessions.Rng.Gauss | pathfinder/resolver.py:69-72 | a draw's effect on the stream depends on neither mean nor deviation |
| Sessions.BuildOffers | pathfinder/resolver.py:21-55 | offers and unavailable representations are the two ordered parts of the candidates, each offer priced by its profile |
| Sessions.Best | pathfinder/resolver.py:81-81 | the first maximum in insertion order |
| Sessions.Choose | pathfinder/resolver.py:61-96 | the decision equals its specification and consumes one draw per offer, affordable or not, and one for the outside option |
| Sessions.Serve | pathfinder/data_agent.py:11-34 | latency and cost come from two successive draws, clipped at zero |
| Sessions.SelectedIsOffered | pathfinder/experiment.py:105-114 | a selected representation is offered and configured, so execution finds its path |
| Sessions.Execute | pathfinder/experiment.py:108-136 | the outcome equals its specification over the stream state in which execution starts |
| Sessions.RunSession | pathfinder/experiment.py:40-136 | a session is refused exactly on an unknown design, class or profile or a non-positive multiplier, and otherwise equals its specification, intervention type included; each refusal is the first check that fails |
| SessionLaws.SessionAccounts | pathfinder/experiment.py:115-136 | value and weighted cost add up to what the success is worth, bytes are the selected representation's, and the session succeeds exactly when its roll is below its proper probability |
| SessionLaws.OutsideReportsNothing | pathfinder/experiment.py:105-106 | without a selection nothing is reported |
| SessionLaws.LatencyIsScaled | pathfinder/data_agent.py:19-23 | felt latency is the multiplier times a non-negative base that does not depend on it |
| SessionLaws.QuietExecution | pathfinder/data_agent.py:18-34 | without execution noise latency and cost are the path's own, the latency stretched by the multiplier |
| SessionLaws.DriftIsSmall | pathfinder/data_agent.py:24-27 | a cost draw within one deviation moves the cost by at most two percent, and by two percent at one deviation |
| SessionLaws.DearerNeverPays | pathfinder/experiment.py:108-136 | a dearer path keeps choice, latency and success, and with a non-negative cost weight and monotone rounding never raises the value |
| SessionLaws.OfferMeaning | pathfinder/resolver.py:29-54 | an offer repeats its path and representation, at the profile's price or the design's, affordable exactly within the budget |
| SessionLaws.CandidatesPartition | pathfinder/resolver.py:29-55 | offered and unavailable representations together are the candidates |
| SessionLaws.ScoreFormula | pathfinder/resolver.py:71-79 | a score is weighted quality less weighted price plus the offer's own noise |
| SessionLaws.OutsideFormula | pathfinder/resolver.py:67-70 | the outside option scores its utility plus the first noise, unless an offer takes its name |
| SessionLaws.DecisionMeaning | pathfinder/resolver.py:81-96 | the winner scores at least as much as every other, and the reason says what happened |
| SessionLaws.BetterIsKept | pathfinder/resolver.py:61-96 | with a non-negative quality weight a better representation is never dropped |
| SessionLaws.BetterNeverHurts | pathfinder/experiment.py:23-37 | at equal latency better quality never lowers the success probability |
| SessionLaws.MidpointIsEven | pathfinder/experiment.py:23-37 | at the midpoint and within the latency reference success is even |
| SessionLaws.LogitTerms | pathfinder/experiment.py:31-33 | quality above the midpoint counts by the temperature, latency beyond the reference by the penalty, latency below it not at all |
| SessionLaws.RecordRepeatsCell | pathfinder/experiment.py:76-136 | an observation repeats its conditions, its decision and its rounded scores, and its offers and unavailable list make up the candidates |
| SessionLaws.InterventionMeaning | pathfinder/experiment.py:68-75 | the reported intervention says exactly which knobs were turned |
| Coupling.ScoreMeaning | pathfinder/resolver.py:67-79 | each score comes from its key's last affordable offer and the noise at that offer's position |
| Coupling.ProfilesShareNoise | pathfinder/experiment.py:64-79 | under two quote profiles offers differ only in price and affordability, and both sessions enter execution in the same stream state |
| Coupling.SameNoisePerOffer | pathfinder/resolver.py:71-79 | a representation scored under both profiles has scores that differ by the price term alone |
| Coupling.SameSelectionSameOutcome | pathfinder/experiment.py:105-136 | selecting the same representation gives the same latency, cost, success, probability and value |
| Coupling.RaisedQuoteNeverAttracts | pathfinder/resolver.py:61-96 | with a non-negative price weight a raised quote never newly selects its representation; when it was not selected, the selection stays exactly under the stated condition, and with the selection the outcome |
| Coupling.UnofferedIsUnmoved | pathfinder/resolver.py:67-79 | that condition holds whenever the representation has a name of its own or no affordable offer carries the outside option's name |
| Coupling.OutsideNameCollides | pathfinder/resolver.py:67-91 | two sessions, for every library and seed, in which pricing out a representation named like the outside option takes the selection away from a third offer |
| Coupling.LogisticIsStable | pathfinder/experiment.py:34-37 | the two-sided evaluation equals the textbook logistic function and lies strictly between zero and one |
| Coupling.SlowerNeverHelps | pathfinder/experiment.py:23-37 | a larger latency multiplier over one seed keeps decision and cost, and never turns failure into success under a non-negative penalty |
| Pilots.RunPilot | pathfinder/experiment.py:171-232 | a pilot is refused exactly by its checks up front; after them no session is refused and observation i is the session of trial i; a refusal names an entry that is wrong |
| Pilots.RunCells | pathfinder/experiment.py:210-232 | the nested loops record, in order, the session of every trial of the schedule, each under its own number |
| Pilots.ScheduleExactly | pathfinder/experiment.py:212-232 | the trials are exactly the combinations of the pilot's lists, seeded by repetition |
| Pilots.TrialsArePaired | pathfinder/experiment.py:217-229 | each trial has under every other profile a partner with the same seed, the same offered representations, and the same outcome when it selects alike |
| Pilots.TrialIdsDistinct | pathfinder/experiment.py:228-228 | trial identifiers are unique, also beyond their padded width |
| Pilots.TrialIdShape | pathfinder/experiment.py:228-228 | within the padded widths an identifier has one fixed shape, from which both numbers read back |

## Left out

- HTTP plumbing, authentication, URL signing and validation, redaction, proxies and redirects: input and output, not part of these cores.
- Process restart and transfer counters shared by several processes: the source disclaims both; only the operation table is shared between processes here.
- SQLite internals: a table with atomic single-statement reads, and commits that may fail.
- `resolve_artifact` and the uncached execution's file hashing: an uncached execution yields an arbitrary response.
- ByteRanges.ParseRange: integers in headers are strings of ASCII digits; the signs, spaces and underscores that Python's `int` also reads are not modelled.
- ByteRanges.FetchRoundTrip: media types are compared as given; their parameters and letter case are not normalised, and the set of allowed types and the access request that precedes the download are not modelled. The same holds of ByteRanges.WholeRoundTrip, which also takes the Content-Length header as present.
- Archive.ReadWrite: names of at most 100 ASCII characters; the USTAR prefix field and the library's reading of other tar variants are not modelled, and no claim is made about the library itself.
- Names.FrameNameIsFrameLike: the frame pattern takes ASCII digits only, where the source's `\d` also matches other Unicode digits; such a member is refused a little later, because no entry can name it, and the bijection does not depend on the pattern.
- Bundle.CheckManifest: JSON syntax, exact key sets and value types are part of the decoder, a function with a stated inverse law; blank text means ASCII white space.
- Bundle.ValidateBundle: the manifest digest and the artifact's own size and digest, which the source also returns, are not part of the result.
- BundleProofs.BuildBundle: the source blocks and the alignment statement arrive ready; reading the generation manifest and sampling the video are not modelled.
- `fetch_validated_frame_bundle` and its phase recorder: sequencing of calls and exception annotations around the parts modelled here.
- Certificate.EvaluateAborts: floating-point rounding is not modelled; the confidence bound and the Kullback-Leibler inversion behind it are an arbitrary function, and no statistical coverage is claimed.
- Calibration.RunMonteCarlo: the four per-stratum dictionaries are one map keyed by stratum and event.
- CalibratedPlans.Calibrate: the text that seeds each generator is not modelled; every scenario, stratum and simulation has an arbitrary generator of its own.
- The loaders of certificate, calibration, session and pilot configurations, apart from the strata partition and the generator domain: field checks; what they guarantee is stated as the well-formedness of the loaded value.
- Cohort.Select: type checks of the JSON configuration, CSV parsing, the pinned file digest and the writing of cohort files; text stripping, the decimal test and integer reading are parameters with a stated law.
- Sessions.RunSession: session identifiers and time stamps; the random generator is an arbitrary stream of uniforms with an arbitrary transform of pairs into normals, kept two at a time as the library does.
- Pilots.RunPilot: merging of command-line overrides into the pilot, and the telemetry file.
- `summarize_observations`, CSV and manifest writing, command-line dispatch, video preparation and image encoding.
