# Scryntic, modelled and verified

Scryntic records market data and forecasts so that what was claimed, when, and on what
evidence can be checked later. This project models the parts of it that carry that weight
and proves what they promise:

* the canonical encoding that everything hashed relies on (`Canonical`, `Records`, `OrderedDigest`);
* the forecast journal: a hash-chained event log with a separately kept head, the publish,
  receipt and conflict protocol on it, recovery, and outcome and score vintages
  (`Journal`, `Decimals`, `LedgerContracts`, `Protocol`, `Ledger`, `Scores`);
* clock evidence: error intervals under drift, discontinuities and refresh, and the
  decisions made on intervals (`ClockPolicy`, `Clock`);
* candle selection, coverage, strict observation, lags and labels
  (`Sorting`, `Selection`, `Recipes`, `Derivation`);
* the durable spool's two-lane writer protocol (`Spool`, `SpoolWriter`);
* raw records and the framed archive (`RawRecords`, `RawFramed`);
* crash-safe installation of immutable objects and the import catalog (`Storage`, `Imports`);
* the maturation scheduler (`Maturation`) and the daemon's lifecycle (`Lifecycle`, `Runtime`).

`dafny verify dfyconfig.toml` checks the whole project.

## How it is modelled

Objects whose methods update fields are classes, and every method that can fail part-way
keeps its invariant on every path: a method that returns failure may have done any prefix of
its durable steps, so giving up the object there and opening a new one on what is left is a
crash. Where a class has a field `faultless`, that field says that no system call,
transaction or clock reading fails; the contracts then also say when the method succeeds.
Concurrency (the spool) and asynchronous code (the daemon) are runs of atomic steps in any
interleaving; the classes `SpoolWriter.DurableIngestor` and `Runtime.Daemon` carry those
steps out and are proved to do exactly that.

The hash function is an arbitrary function from bytes to digest-shaped text. Results that
rest on collision resistance do not assume it: they conclude with the promised equality or
exhibit two different texts with one digest. Compression is a pair of functions of which one
inverts the other. Times in soundness statements are real numbers; all computed times are
integers, as in the source. Every clock reading, incoming file, availability of a source and
verdict of a decoder is a parameter, so the results hold for all of them.

## What the code does not promise

Some expectations one might have are not met by the code. Each is stated with a concrete
instance and with the exact condition under which the code does meet it.

* An on-time verdict does not place the commit after the origin: the first clock sample is
  never compared with the origin (`ClockPolicy.OnTimeAfterOrigin`, `ClockPolicy.OnTimeBeforeOrigin`).
* A healthy sample after a disruption may rest on evidence older than the disruption, when
  the disrupted sample's own evidence passed every check and lifted the bound it had just
  set (`Clock.OldEvidenceAccepted`). `Clock.OldEvidenceExactly` says exactly when that can
  happen; otherwise the evidence is new (`Clock.OwnEvidenceIsNew`).
* An import's row may be committed before its objects are durable, when an earlier attempt
  in the same process linked an object and then failed to make the entry durable twice; the
  retry finds the object and does not sync again (`Imports.DurableBeforeCommit`,
  `Imports.RetryAfterSlip`, `Imports.CommittedObjectLost`). An import committed while no
  installation has failed after its link since the last opening is durable and stays so
  (`Imports.CommittedStaysBacked`); `Imports.SlipsExactly` says exactly which failures count.
* A power loss can take back the first head, when its directory sync failed and an event was
  committed all the same by a later opening; the journal is then refused
  (`Protocol.HeadLostRun`, `Journal.HeadLostBy`, `Journal.HeadLost`). With the first head durable before the first
  event that cannot happen (`Journal.PowerLossAccepted`).
* The ledger's internal append checks neither that a body is an object nor that a
  publication states its own identities; such an append leaves a journal that no longer loads
  (`Protocol.UnreadableAppend`). `Journal.AppendKeepsChain` says exactly when it does; the
  public operations never do it.
* A JSON `true` compares equal to the number 1, so it is accepted as the sequence number of
  the first event, and only there (`Journal.TrueAccepted`, `Journal.NumberedExactly`).

## Model

| member | source | states |
|---|---|---|
| `Canonical.EncodeInjective` | src/scryntic/archive/canonical.py:24-53 | Two values of the closed domain have the same canonical bytes exactly when they mean the same, with objects as maps irrespective of member order. |
| `Canonical.EncodeInvertible` | src/scryntic/archive/canonical.py:42-53 | The canonical bytes of every valid value parse back to a value of the same meaning. |
| `Canonical.ValueRoundTrip` | src/scryntic/archive/canonical.py:42-53 | Every printed value is read off the front of any longer text, exactly, leaving what follows. |
| `Canonical.CanonKeeps` | src/scryntic/archive/canonical.py:42-53 | Sorting members at every depth keeps validity and meaning and yields a sorted value. |
| `Canonical.NormalUnique` | src/scryntic/archive/canonical.py:42-53 | There is one sorted value of each meaning, so the encoder has no freedom. |
| `Canonical.DecodedAcceptsExactly` | src/scryntic/forecast/ledger_contracts.py:61-75 | For every JSON reader that is right on canonical texts, a byte string is accepted as an object exactly when it is within the size bound and is that object's canonical encoding. |
| `Canonical.DecodedIffEncoding` | src/scryntic/forecast/ledger_contracts.py:61-75 | A byte string is accepted exactly when it is the encoding of some valid object within the bound. |
| `OrderedDigest.OrderedDigestFromPairs` | src/scryntic/archive/canonical.py:246-274 | Answers exactly for non-empty lists of one producer with strictly increasing positive offsets and well-formed digests that encode; then it is the hash of the canonical projection. |
| `OrderedDigest.OrderedDigestBinds` | src/scryntic/archive/canonical.py:246-274 | Two lists with one ordered digest are equal, or their canonical texts are a hash collision. |
| `Journal.HeadPinsPrefix` | src/scryntic/forecast/ledger.py:132-166 | Two readable journals that agree on the digest at one position agree on every row up to it, or exhibit two payloads with one digest. |
| `Journal.RollbackDetected` | src/scryntic/forecast/ledger.py:132-202 | Whatever the database holds, if it is accepted against a head written for some journal then that journal is still its prefix, row for row; otherwise a collision is exhibited. |
| `Journal.AnchorOfPrefixAccepted` | src/scryntic/forecast/ledger.py:168-202 | A head written for any prefix of a journal, however long ago, is accepted against the whole. |
| `Journal.CanonicalUsable` | src/scryntic/forecast/ledger.py:132-211 | The real encoding and the bounds on payload and head are compatible for every hash with digest-shaped results: nothing the ledger writes is refused when read. |
| `Journal.AppendKeepsChain` | src/scryntic/forecast/ledger.py:246-281 | After an append the journal is readable exactly when the body is an object and, for a publication, states its own identities: the two things append does not check itself. |
| `Journal.RunsAccepted` | src/scryntic/forecast/ledger.py:132-281 | Over every run of commits, head writes and process crashes, what is on disk is accepted when next read and holds every earlier journal as a prefix. |
| `Journal.PowerLossAccepted` | src/scryntic/forecast/ledger.py:168-281 | Where the first head was durable before the first event, every state that any run with power losses reaches is accepted, a head whose directory sync failed being lost or not. |
| `Journal.AcceptedExactly` | src/scryntic/forecast/ledger.py:168-202 | With power losses too, what is on disk is accepted exactly when there are no events or there still is a head. |
| `Journal.HeadLost` | src/scryntic/forecast/ledger.py:204-236 | A power loss now would leave an acceptable disk exactly when there are no events or a head has been made durable. |
| `Journal.HeadLostBy` | src/scryntic/forecast/ledger.py:168-281 | For every first event that append admits there is a run in which the first head is never synced, the event is committed, and after a power loss the journal is refused. |
| `Journal.TrueAccepted` | src/scryntic/forecast/ledger.py:141-156 | A concrete journal whose first event is numbered `true` is accepted. |
| `Journal.NumberedExactly` | src/scryntic/forecast/ledger.py:141-156 | An accepted journal is numbered by integers exactly when its first event is not numbered `true`. |
| `LedgerContracts.BodyRoundTrip` | src/scryntic/forecast/ledger_contracts.py:188-242 | Every admitted content, with its identifiers, sources and decimals, survives being stored as a body and read back. |
| `LedgerContracts.FromBodyExactly` | src/scryntic/forecast/ledger_contracts.py:231-242 | A body is read as a content exactly when that content is admitted and would write that very body. |
| `LedgerContracts.ContentShaBinds` | src/scryntic/forecast/ledger_contracts.py:227-229 | Contents with one identity are equal, or their encodings are a collision. |
| `Decimals.DecimalRoundTrip` | src/scryntic/forecast/ledger_contracts.py:208-242 | Every exact decimal is read back from the text it is stored as, plain or scientific. |
| `Protocol.AtMostOnce` | src/scryntic/forecast/ledger.py:283-431 | In a journal that keeps the protocol, each slot has at most one publication and one receipt, and each stream name one manifest. |
| `Protocol.PublicationStable` | src/scryntic/forecast/ledger.py:365-431 | A publication, receipt or stream once recorded is what every later journal still says. |
| `Protocol.ReceiptFollows` | src/scryntic/forecast/ledger.py:296-309 | Every receipt comes after the one publication of its slot, names the same content, and claims genuine forward evidence only when on time. |
| `Protocol.StreamPrecedes` | src/scryntic/forecast/ledger.py:398-413 | The stream of every publication equals the single earlier stream event of that name. |
| `Protocol.OnceAndForAll` | src/scryntic/forecast/ledger.py:132-431 | Over every run with crashes: at most one publication, receipt and stream per subject, and none ever changes. |
| `Protocol.EvidenceIsHonest` | src/scryntic/forecast/ledger.py:320-355 | Only an admitted, on-time, forward publication is ever classed as genuine forward evidence. |
| `Protocol.UnreadableAppend` | src/scryntic/forecast/ledger.py:246-281 | A concrete append that passes every check append makes and leaves a journal that no longer loads: a publication whose body holds no content. |
| `Protocol.HeadLostRun` | src/scryntic/forecast/ledger.py:398-413 | Such a run for every admitted stream: a first publication begins with its stream, and the power loss comes before the next head. |
| `Protocol.FirstStreamFits` | src/scryntic/forecast/ledger.py:398-413 | The event of every admitted stream is within every bound of an empty journal and can be read back. |
| `Protocol.ConflictsChangeNothing` | src/scryntic/forecast/ledger.py:377-413 | Conflict records change nothing the journal says of publications, receipts, streams or anything else. |
| `Ledger.ForecastLedger.constructor` | src/scryntic/forecast/ledger.py:49-66 | Nothing is read yet; an empty directory is a valid start for every digest-shaped hash. |
| `Ledger.ForecastLedger.WriteAnchor` | src/scryntic/forecast/ledger.py:204-236 | The head file is the old one or the one for the events in memory; success means the latter, and without faults it succeeds. |
| `Ledger.ForecastLedger.CheckAnchor` | src/scryntic/forecast/ledger.py:168-202 | Accepts a present head exactly when it lies on the events; refuses a missing head unless there are no events, and then writes one. |
| `Ledger.ForecastLedger.Scan` | src/scryntic/forecast/ledger.py:132-165 | The loop over the table accepts exactly the whole chains within both quotas and returns their events and byte count. |
| `Ledger.ForecastLedger.Load` | src/scryntic/forecast/ledger.py:132-166 | Success means the journal and head are acceptable and memory equals the table; an acceptable journal loads unless the ledger has failed. |
| `Ledger.ForecastLedger.Append` | src/scryntic/forecast/ledger.py:246-281 | Leaves the journal as it was or with exactly the new event; reports success only with both commit and head durable; a commit without success makes the ledger refuse further use; without faults it succeeds exactly when the quotas admit the event. |
| `Ledger.ForecastLedger.Extend` | src/scryntic/forecast/ledger.py:263-281 | Behind a journal just read: the row is there or not, the head is the old one or the one that covers it, and the object works on exactly when both succeeded. |
| `Ledger.ForecastLedger.Record` | src/scryntic/forecast/ledger.py:246-281 | An event in its place keeps chain, head and protocol, whatever fails on the way. |
| `Ledger.ForecastLedger.Certify` | src/scryntic/forecast/ledger.py:296-309 | Adds at most the receipt of this content with this verdict and the evidence class decided on the journal as it was. |
| `Ledger.ForecastLedger.RecoverOne` | src/scryntic/forecast/ledger.py:283-294 | One uncertified publication gets a receipt that claims nothing of its timing. |
| `Ledger.ForecastLedger.Recover` | src/scryntic/forecast/ledger.py:283-294 | Adds only recovery receipts, never on-time nor genuine-forward; on success every publication has exactly one receipt; without faults it stops only when a receipt has no room. |
| `Ledger.ForecastLedger.Open` | src/scryntic/forecast/ledger.py:99-107 | Opening what any crash left keeps every event and ends with each publication certified once. |
| `Ledger.ForecastLedger.Only` | src/scryntic/forecast/ledger.py:311-363 | Finds the body of a kind and subject exactly when there is one and the ledger still works. |
| `Ledger.ForecastLedger.RecordConflict` | src/scryntic/forecast/ledger.py:384-397 | Adds at most this one conflict record and changes nothing else the journal says; without faults it fails only for lack of room. |
| `Ledger.ForecastLedger.Resubmit` | src/scryntic/forecast/ledger.py:377-397 | The same content again appends nothing and returns the existing receipt; another content is recorded once; either way nothing but conflict records is added, and all else the journal says is unchanged. |
| `Ledger.ForecastLedger.AdmitStream` | src/scryntic/forecast/ledger.py:398-413 | The stream is admitted once; a differing manifest of its name is refused and recorded, and all else the journal says is unchanged. |
| `Ledger.ForecastLedger.Issue` | src/scryntic/forecast/ledger.py:414-431 | Adds the publication and then the receipt whose verdict is the timing of exactly the two samples around the commit. |
| `Ledger.ForecastLedger.Publish` | src/scryntic/forecast/ledger.py:365-431 | The answer depends on the journal alone: replay, content conflict, stream conflict or first publication, each with its exact effect, and only the last changes anything but conflict records; without faults it answers exactly when the request is accredited and the journal has room. |
| `Scores.VintagesLinked` | src/scryntic/forecast/scoring.py:148-184 | Over every history each slot has distinct outcome versions, each naming the one just before it. |
| `Scores.OneScorePerVersion` | src/scryntic/forecast/scoring.py:186-193 | No outcome version of a slot is scored twice. |
| `Scores.ScoreJustified` | src/scryntic/forecast/scoring.py:104-247 | Behind every score stand the slot's one publication, its one receipt and the outcome it scores; it was made at or after endpoint plus issue delay; a forward slot only on genuine, on-time evidence and before the seal. |
| `Scores.SealedNeverScored` | src/scryntic/forecast/scoring.py:222-226 | A forward slot whose endpoint lies in the sealed period has no score. |
| `Scores.ViewStable` | src/scryntic/forecast/scoring.py:249-260 | What a view says about a time is unchanged by every maturation made when the clock reads later. |
| `Scores.WithheldExactly` | src/scryntic/forecast/scoring.py:214-247 | A slot is withheld exactly when it is not fit to be scored or is a synthetic one whose receipt does not say on-time. |
| `Scores.ProtocolKeepsScores` | src/scryntic/forecast/scoring.py:104-212 | Publishing and recovering leave outcome and score history well formed. |
| `Scores.ForecastScores.State` | src/scryntic/forecast/scoring.py:88-102 | Records why a slot is not scored, once, and adds nothing else; without faults it fails only for lack of room. |
| `Scores.ForecastScores.AddVintage` | src/scryntic/forecast/scoring.py:148-184 | A new version is appended behind the known ones with the right predecessor; a known version adds nothing. |
| `Scores.ForecastScores.AddScore` | src/scryntic/forecast/scoring.py:185-212 | Gives back the score of this version, or makes exactly one from the point and the value. |
| `Scores.ForecastScores.Standing` | src/scryntic/forecast/scoring.py:114-117 | Finds the content and certificate exactly when there is one of each. |
| `Scores.ForecastScores.MatureNow` | src/scryntic/forecast/scoring.py:148-212 | Vintage and score are recorded together as one answer, at this moment only. |
| `Scores.ForecastScores.Mature` | src/scryntic/forecast/scoring.py:104-247 | Refuses a future as-of; otherwise answers with the exact state or score record due, adds only records of this slot at this moment, and without faults answers exactly when the inputs and the journal's room allow. |
| `ClockPolicy.AgeIsLeast` | src/scryntic/clock/monitor.py:83-92 | The computed age is the least natural number covering the distance to the reference plus the error that very age adds. |
| `ClockPolicy.RadiusIsSound` | src/scryntic/clock/monitor.py:69-92 | If the true error is within the initial error plus declared drift since the reference, the true time is within the published radius. |
| `ClockPolicy.ObservedByOrders` | src/scryntic/clock/policy.py:41-49 | Observed-by implies true order and is transitive. |
| `ClockPolicy.FinalHasPassed` | src/scryntic/clock/policy.py:32-38 | A final boundary has truly passed. |
| `ClockPolicy.FinalityPersists` | src/scryntic/clock/policy.py:32-49 | What was final stays final at every cutoff that has provably seen it. |
| `ClockPolicy.OnTimeMeetsDeadline` | src/scryntic/forecast/ledger_contracts.py:244-282 | An on-time commit truly fell by the deadline and before the endpoint. |
| `ClockPolicy.LateMissesDeadline` | src/scryntic/forecast/ledger_contracts.py:244-282 | A late verdict means the second sample truly fell after the deadline. |
| `ClockPolicy.OnTimeAfterOrigin` | src/scryntic/forecast/ledger_contracts.py:244-282 | An on-time verdict puts the commit at or after the origin exactly when the whole interval of the first sample is at or past the origin. |
| `ClockPolicy.OnTimeBeforeOrigin` | src/scryntic/forecast/ledger_contracts.py:244-282 | A concrete on-time verdict on a commit that may have fallen before the origin. |
| `Clock.ContinuityExactly` | src/scryntic/clock/monitor.py:47-67 | No discontinuity exactly when session, monotonic, suspend-aware and wall clocks agree about the elapsed time within the allowance and the gap limit. |
| `Clock.DisruptedNotHealthy` | src/scryntic/clock/monitor.py:194-202 | The first sample of a process and every disrupted sample is not healthy. |
| `Clock.OneEpoch` | src/scryntic/clock/monitor.py:152-171 | Samples that carry one epoch share status and reason, and no disruption lies between them. |
| `Clock.SkewAccounted` | src/scryntic/clock/monitor.py:117-142 | Since the last reset the wall clock has moved against the monotonic clock by no more than the accumulated amount. |
| `Clock.HealthNeedsRenewal` | src/scryntic/clock/monitor.py:95-110 | A healthy sample after a disruption is preceded, no earlier than that disruption, by synchronized evidence newer than every wall reading and accepted reference around it. |
| `Clock.OwnEvidenceIsNew` | src/scryntic/clock/monitor.py:95-150 | The healthy sample's own evidence is that new as well, unless the disrupted sample's own evidence had already lifted the bound. |
| `Clock.OldEvidenceExactly` | src/scryntic/clock/monitor.py:69-214 | After a disrupted sample, quiet samples with valid evidence can end in one that is healthy on evidence from before the bound exactly when the disrupted sample's evidence is synchronized, newer than the bound, not future and within every limit and, where no evidence was ever accepted, the unmeasured change leaves room at the bound. |
| `Clock.LiftsExactly` | src/scryntic/clock/monitor.py:83-111 | Passing every check in spite of a disruption is exactly that condition on the disrupted sample's evidence. |
| `Clock.OldEvidenceLingers` | src/scryntic/clock/monitor.py:83-142 | While nothing has ever been accepted, no quiet sample is healthy on evidence from before the bound unless there was room for it at the disruption. |
| `Clock.OldEvidenceAccepted` | src/scryntic/clock/monitor.py:95-150 | A concrete run in which the exception happens: healthy on evidence from before a clock step. |
| `Clock.HealthyPublishes` | src/scryntic/clock/monitor.py:93-111 | A healthy sample rests on synchronized evidence with offset, radius and age within the limits. |
| `Clock.HealthySampleSound` | src/scryntic/clock/policy.py:8-29 | Every healthy sample is accepted by the interval policy under the same limits, and if its evidence holds the true time lies in that interval. |
| `Clock.ClockMonitor.UpdateContinuity` | src/scryntic/clock/monitor.py:113-150 | Finds the disruption, accumulates or resets the unmeasured change and sets the refresh bound, as the run properties assume. |
| `Clock.ClockMonitor.Quality` | src/scryntic/clock/monitor.py:69-111 | Judges the evidence and lifts the refresh bound exactly on a healthy verdict. |
| `Clock.ClockMonitor.RecordTransition` | src/scryntic/clock/monitor.py:152-171 | The epoch advances exactly on a first sample, a disruption or a change of status or reason. |
| `Clock.ClockMonitor.Override` | src/scryntic/clock/monitor.py:179-202 | Evidence too wide to store, a disruption and a first sample override the verdict, in that order. |
| `Clock.ClockMonitor.Sample` | src/scryntic/clock/monitor.py:173-214 | One sample takes the monitor through exactly the step whose runs the lemmas speak of, and publishes that step's sample. |
| `Selection.AutomatonExactly` | src/scryntic/dataset/selection.py:76-117 | The revision automaton accepts exactly the histories that begin with the one accepted input, repeat only known revisions, and revise an open candle to new ones of the right finality; its state is then the last original, all inputs, and all revisions. |
| `Selection.RevisionsDistinct` | src/scryntic/dataset/selection.py:76-92 | The revisions a history goes through are all different, and all but the last are open. |
| `Selection.FinalizedExactly` | src/scryntic/dataset/selection.py:76-117 | The selected candle is finalized exactly when some input about its key is, unless two different candles share a revision digest. |
| `Selection.SelectSource` | src/scryntic/dataset/selection.py:95-117 | One input moves its own key's state by one automaton step, or is refused exactly when that step is. |
| `Selection.Walk` | src/scryntic/dataset/selection.py:132-142 | The loop over the interleaved stream succeeds exactly when the stream is one producer's, no offset repeats, and every key's own history is accepted; it ends with every key's own state. |
| `Selection.SelectCandles` | src/scryntic/dataset/selection.py:120-155 | Succeeds exactly for selectable inputs; the result has one candle per key, strictly in key order, each as its own history leaves it. |
| `Selection.SelectionUnique` | src/scryntic/dataset/selection.py:120-155 | An ordered stream has only one selection. |
| `Selection.PermutationInvariant` | src/scryntic/dataset/selection.py:120-155 | Neither success nor the selection depends on the order of the inputs. |
| `Selection.EvidencePartitions` | src/scryntic/dataset/selection.py:143-155 | Every input is evidence of the one candle of its key and of no other. |
| `Selection.ChosenFrom` | src/scryntic/dataset/selection.py:76-117 | A selected candle is the last non-duplicate of its key's inputs, all of which are its evidence. |
| `Recipes.Sweep` | src/scryntic/dataset/recipes.py:97-102 | The cursor stops at the first instant no bearing claim covers, or past the end. |
| `Recipes.CoverageStatus` | src/scryntic/dataset/recipes.py:83-102 | The worst unresolved bearing claim wins; otherwise complete or unknown by coverage. |
| `Recipes.CompleteExactly` | src/scryntic/dataset/recipes.py:83-102 | Complete exactly when no bearing claim is unresolved and every instant of the candle lies in a bearing complete claim. |
| `Recipes.CoverageOrderFree` | src/scryntic/dataset/recipes.py:83-102 | The status depends on which claims there are, not on their order or number. |
| `Recipes.StrictEligible` | src/scryntic/dataset/selection.py:52-73 | Keeps exactly the inputs proven before the cutoff, records the others, and refuses any conflicting or rejected input. |
| `Recipes.ObservedSelection` | src/scryntic/dataset/recipes.py:117-139 | Validates the whole history and the cutoff first, then selects from what may be seen. |
| `Recipes.RetainSource` | src/scryntic/dataset/recipes.py:142-178 | Keeps an input exactly when all three policies let it through, with exactly one dropping record otherwise, and fails exactly when a requirement is reached and not met. |
| `Recipes.RetainAll` | src/scryntic/dataset/recipes.py:196-202 | Every candidate is kept in order or dropped with exactly one dropping record, in order. |
| `Recipes.ApplyPolicy` | src/scryntic/dataset/recipes.py:181-202 | The recipe's result is the one its selection, policies and visible claims determine, or an error exactly when they demand it. |
| `Recipes.NoLookAhead` | src/scryntic/dataset/recipes.py:117-202 | In as-observed mode two valid histories and claim sets that agree on what was provably known before the cutoff keep identical candles or both fail. |
| `Derivation.CandleIndex` | src/scryntic/dataset/recipes.py:205-214 | Indexes the candles exactly when each has its own key. |
| `Derivation.DerivedChain` | src/scryntic/dataset/recipes.py:217-240 | Follows contiguous neighbours as far as they exist and are final enough, naming the first obstacle. |
| `Derivation.DeriveValue` | src/scryntic/dataset/recipes.py:243-267 | A lag or label is present exactly when the whole stretch is there (finalized, for a label); it is then the far end's close, with the label's exact end and the fingerprints of the stretch. |
| `Derivation.DeriveRows` | src/scryntic/dataset/recipes.py:270-296 | Succeeds exactly when rows and candles match one to one; every row has its exact lag and label. |
| `Derivation.LabelFacesLag` | src/scryntic/dataset/recipes.py:217-296 | For equal steps b is where a's label is read exactly when a is where b's lag is read and everything after a up to b is finalized. |
| `Spool.EachAnsweredOnce` | src/scryntic/ingestion/sqlite_spool.py:269-363 | Under every interleaving each lane answers its admitted requests in order, at most once each, all of them once the writer has gone, and never holds more than its bound. |
| `Spool.NothingAfterExit` | src/scryntic/ingestion/sqlite_spool.py:747-781 | Once the writer has gone nothing is admitted. |
| `Spool.AcknowledgedIsLog` | src/scryntic/ingestion/sqlite_spool.py:505-588 | The log is what it was plus the acknowledged records in order at strictly increasing offsets, plus at most one that is about to be acknowledged or whose answer the writer's failure kept back. |
| `Spool.MetadataChain` | src/scryntic/ingestion/sqlite_spool.py:690-731 | Successful metadata writes form a compare-and-swap chain per key over at most 64 keys. |
| `Spool.PagesTile` | src/scryntic/ingestion/sqlite_spool.py:590-601 | A page and what lies past its last offset are together what lay past the given offset; an empty page means nothing lies past it. |
| `Spool.PagesReproduceLog` | src/scryntic/ingestion/sqlite_spool.py:590-601 | Pages read one after the other until an empty one, while the log grows, are together exactly what the log then holds past the first offset, in order. |
| `Spool.ReadFailsExactly` | src/scryntic/ingestion/sqlite_spool.py:590-601 | A page is refused exactly when some row of it is over the payload limit this process was opened with. |
| `SpoolWriter.DurableIngestor.Submit` | src/scryntic/ingestion/sqlite_spool.py:747-763 | Admits exactly when the spool is neither failed nor closing and the request's lane has room. |
| `SpoolWriter.DurableIngestor.NextRequest` | src/scryntic/ingestion/sqlite_spool.py:281-331 | The writer leaves exactly when shut down with both lanes empty, and otherwise takes metadata first. |
| `SpoolWriter.DurableIngestor.NextIntake` | src/scryntic/ingestion/sqlite_spool.py:281-290 | With no metadata waiting the writer takes the oldest intake request. |
| `SpoolWriter.DurableIngestor.Insert` | src/scryntic/ingestion/sqlite_spool.py:523-571 | One record is added at the next offset. |
| `SpoolWriter.DurableIngestor.WriteRecovery` | src/scryntic/ingestion/sqlite_spool.py:690-707 | Swaps exactly when the prior value is the expected one and a new key is within the quota. |
| `SpoolWriter.DurableIngestor.ReadRows` | src/scryntic/ingestion/sqlite_spool.py:590-601 | Returns exactly the page, or nothing when a row of it does not decode. |
| `SpoolWriter.DurableIngestor.Dispatch` | src/scryntic/ingestion/sqlite_spool.py:269-309 | Carries out the request in hand as one committed, rolled-back or fatal transaction. |
| `SpoolWriter.DurableIngestor.Deliver` | src/scryntic/ingestion/sqlite_spool.py:292-309 | The result reaches its caller before the writer goes on or fails. |
| `SpoolWriter.DurableIngestor.Drain` | src/scryntic/ingestion/sqlite_spool.py:356-363 | Fails one waiting request, metadata first; with none left the writer is gone. |
| `SpoolWriter.DurableIngestor.FailWriter` | src/scryntic/ingestion/sqlite_spool.py:349-363 | Undisturbed, the failure becomes visible first, then the request in hand and everything waiting fail, and committed data is left alone. |
| `RawRecords.DecodesExactly` | src/scryntic/archive/raw_framed.py:80-150 | A text is read as a record exactly when it is that record's canonical text and the payload is within the limit. |
| `RawRecords.PayloadFits` | src/scryntic/archive/raw_framed.py:80-150 | The text is at least twice as long as the payload, so a limit on the text limits the payload. |
| `RawRecords.UnhexHex` | src/scryntic/archive/raw_framed.py:131 | Payload bytes survive their hexadecimal form. |
| `RawFramed.RecordFormatLawful` | src/scryntic/archive/raw_framed.py:36-55 | Raw records with any lossless compressor meet every demand the format makes. |
| `RawFramed.SealedParses` | src/scryntic/archive/raw_framed.py:182-221 | Every admitted record sequence is parsed back exactly from the file written for it. |
| `RawFramed.ParsedIsSealable` | src/scryntic/archive/raw_framed.py:223-268 | An accepted file holds records sealing would admit, as many and of as many logical bytes as its header says. |
| `RawFramed.PrefixFree` | src/scryntic/archive/raw_framed.py:223-268 | No strict extension, and so no strict prefix, of an accepted file is accepted, whatever digest it is stored under. |
| `RawFramed.ValidatedLogicalBytes` | src/scryntic/archive/raw_framed.py:153-168 | Accepts exactly the non-empty, ordered, single-producer sequences within the limits and returns their logical size. |
| `RawFramed.Walk` | src/scryntic/archive/raw_framed.py:223-268 | The reading loop accepts exactly what the format's grammar does, and only under the right digest. |
| `RawFramed.Read` | src/scryntic/archive/raw_framed.py:278-296 | A point read agrees with indexing the full read and with the expected identity. |
| `RawFramed.Seal` | src/scryntic/archive/raw_framed.py:182-221 | Seals exactly when the records are admitted and every length fits; the read-back is never what makes it fail. |
| `Storage.CrashSafe` | src/scryntic/archive/storage.py:88-142 | At whatever point power is lost, what stands under a digest is a sealed file of that digest, and durable entries stand. |
| `Storage.NeverRebinds` | src/scryntic/archive/storage.py:121-142 | Over any history with power losses a durable entry keeps its file and contents. |
| `Storage.ArchiveStorage.EnsureShard` | src/scryntic/archive/storage.py:52-67 | On success the directory's own entry is durable. |
| `Storage.ArchiveStorage.PrepareStaging` | src/scryntic/archive/storage.py:88-115 | On success the staged file is durable and read-only, contents and mode, and the digest is of its contents. |
| `Storage.ArchiveStorage.FileSha256` | src/scryntic/archive/storage.py:185-200 | What is filed under a digest hashes to it. |
| `Storage.ArchiveStorage.LinkObject` | src/scryntic/archive/storage.py:125-131 | Adds the entry if it is absent and replaces nothing. |
| `Storage.ArchiveStorage.SyncShard` | src/scryntic/archive/storage.py:134-134 | On success the entry is durable. |
| `Storage.ArchiveStorage.InstallStaging` | src/scryntic/archive/storage.py:121-142 | On success the entry is durable with contents of its digest and the staged name is gone; an existing entry is left as it is; every failure leaves a sound store. |
| `Storage.ArchiveStorage.LosePower` | src/scryntic/archive/storage.py:88-142 | Any surviving state is sound and keeps every durable entry. |
| `Storage.ArchiveStorage.Store` | src/scryntic/archive/storage.py:88-142 | Storing a content again changes no entry; on success it is durable under its digest. |
| `Imports.SurvivalSound` | src/scryntic/imports/catalog.py:247-292 | After a power loss at any point of an installation, digest names still stand for sealed files of their digest, and durable objects stand. |
| `Imports.ReopenedSound` | src/scryntic/imports/catalog.py:192-217 | Opening leaves only digest names, each singly linked and durable, so they can be read and counted again, and loses no object. |
| `Imports.InstallSound` | src/scryntic/imports/catalog.py:247-292 | Wherever an installation stops, what carries a digest's name is a sealed file of that digest. |
| `Imports.InstallInstalls` | src/scryntic/imports/catalog.py:247-292 | On success the object is in place, no other object has moved, and everything is durable unless the object was already there. |
| `Imports.DurableBeforeCommit` | src/scryntic/imports/catalog.py:333-340 | Both objects are durable when the import commits exactly when at least one was new or both were durable already. |
| `Imports.InstallStands` | src/scryntic/imports/catalog.py:247-292 | Whatever the calls do, an installation takes nothing back that was in place or durable. |
| `Imports.SlipsExactly` | src/scryntic/imports/catalog.py:247-292 | With nothing in doubt before, an installation leaves something in doubt exactly when it linked its object and neither directory sync after that worked; a successful one never does. |
| `Imports.RetryAfterSlip` | src/scryntic/imports/catalog.py:247-292 | After such a slip the same installation, tried again, succeeds exactly when the pending name is gone, and the object is then in place and not durable. |
| `Imports.BackedExactly` | src/scryntic/imports/catalog.py:247-292 | Both objects of an import survive every power loss exactly when both are durable. |
| `Imports.CommittedStaysBacked` | src/scryntic/imports/catalog.py:192-377 | Over every run of openings, attempts and power losses, an import committed while no installation has failed after its link since the last opening keeps its row and both its objects, durably, for ever. |
| `Imports.CommittedObjectLost` | src/scryntic/imports/catalog.py:247-292 | A concrete failure: both syncs after a link fail, a retry finds the object and commits, and a power loss takes it away. |
| `Imports.ImportCatalog.Open` | src/scryntic/imports/catalog.py:192-217 | Success leaves exactly the digest names, countable and durable; failure takes no object back and puts none in doubt. |
| `Imports.ImportCatalog.InstallObject` | src/scryntic/imports/catalog.py:247-292 | The steps of the installation, stopping where a call fails, keep the store sound. |
| `Imports.ImportCatalog.InstallObjects` | src/scryntic/imports/catalog.py:333-336 | Both objects are in place on success, durable under the exact condition; every other object and durable entry stands, and something is left in doubt exactly when an installation slips; with every call working and nothing in the way it succeeds. |
| `Imports.ImportCatalog.Screen` | src/scryntic/imports/catalog.py:312-331 | Known imports are told from new ones; what is let through has intact copies and room for a row; a welcome import is let through. |
| `Imports.ImportCatalog.Provide` | src/scryntic/imports/catalog.py:331-336 | The objects of an import are in place on success; every other object and durable entry stands. |
| `Imports.ImportCatalog.Register` | src/scryntic/imports/catalog.py:337-377 | One more row unless one like it is there; success exactly when the transaction commits and this manifest is what is read back. |
| `Imports.ImportCatalog.Accept` | src/scryntic/imports/catalog.py:294-356 | Adds at most one row, unique in identity and in manifest, and only after its objects are in place; every earlier object and durable entry stands; replaying an accepted import adds nothing anywhere; a welcome import with every call working is accepted; it is a step of the runs above. |
| `Imports.ImportCatalog.LosePower` | src/scryntic/imports/catalog.py:192-292 | Rows and durable objects stand. |
| `Maturation.EachVisitedOnce` | src/scryntic/forecast/forward_service.py:167-182 | Any n consecutive completed visits touch each of n publications exactly once. |
| `Maturation.OrderRotates` | src/scryntic/forecast/forward_service.py:167-182 | The order is the rotation of the publications that starts just after the cursor. |
| `Maturation.RowsInStep` | src/scryntic/forecast/forward_service.py:195-226 | Rows fetched from the recorded position continue the slot's hourly endpoints with none skipped or repeated within a pass. |
| `Maturation.ForwardSession.constructor` | src/scryntic/forecast/forward_service.py:150-206 | Takes up any recorded positions that are hourly endpoints of their slots, and the cursor with the rotation of the visits behind it, so that the rotation goes on across restarts. |
| `Maturation.ForwardSession.StaysResumable` | src/scryntic/forecast/forward_service.py:195-210 | Whatever a session leaves, positions, cursor and rotation, another can take up. |
| `Maturation.ForwardSession.ScanRows` | src/scryntic/forecast/forward_service.py:212-226 | Fetches consecutive hourly endpoints of the slot, at most the budget, until the source or the slot runs out. |
| `Maturation.ForwardSession.MatureOne` | src/scryntic/forecast/forward_service.py:184-210 | Extends only this slot's log, in step, by at most the budget. |
| `Maturation.ForwardSession.Visit` | src/scryntic/forecast/forward_service.py:156-164 | A completed visit moves the cursor to this slot and logs exactly the rows counted; an incomplete one leaves the cursor and logs no more than that. |
| `Maturation.ForwardSession.Mature` | src/scryntic/forecast/forward_service.py:142-165 | At most 64 rows are fetched in all, and the rows logged are those fetched, or no more where a visit fails; visits go on round the publications, whatever time and supply each finds; without faults it visits the limit or all of them. |
| `Lifecycle.EveryTraceInOrder` | src/scryntic/daemon/runtime.py:96-237 | In every interleaving intake is stopped once and before the drain; the drain begins only after the start has ended and the close only after the drain has; a complete outcome leaves nothing unfinished. |
| `Lifecycle.RunLasts` | src/scryntic/daemon/runtime.py:96-112 | The shutdown deadline is fixed once and never extended; failures, stops and outcomes are never taken back. |
| `Lifecycle.StepLasts` | src/scryntic/daemon/runtime.py:96-112 | The deadline comes from the first stop request, its time plus the limit, and from nowhere else. |
| `Lifecycle.ExitCodeIsHonest` | src/scryntic/daemon/runtime.py:183-198 | Exit code 0 exactly when the shutdown is complete and no failure had been recorded by then. |
| `Lifecycle.IncompleteHasReason` | src/scryntic/daemon/runtime.py:161-237 | Shutdown is cut short only when forced, when a time limit has passed, or when a phase failed. |
| `Runtime.Daemon.RequestStop` | src/scryntic/daemon/runtime.py:96-112 | The first request stops intake and fixes the deadline; a later one only forces. |
| `Runtime.Daemon.Phase` | src/scryntic/daemon/runtime.py:161-181 | Reports an ended operation, recording a failure, or gives up exactly when forced or out of time. |
| `Runtime.Daemon.Finish` | src/scryntic/daemon/runtime.py:183-198 | Settles the exit code after the last health reading. |
| `Runtime.Daemon.Drive` | src/scryntic/daemon/runtime.py:200-237 | The driver, from one await to the next, is the step whose runs the lemmas speak of. |

## Left out

- Lone surrogate code units: strings are sequences of Unicode characters, for which the canonical encoding is injective; Python strings holding unpaired surrogates are outside the domain.
- JSON whitespace and floating-point numbers in the parser: the parser covers the compact integer grammar, which contains every canonical text; `Canonical.DecodedAcceptsExactly` holds for every reader that is right on canonical texts.
- Decimal arithmetic: outcomes are kept as the text they are stored as, and score errors come from a function left open; 28-digit rounding is not modelled.
- LedgerContracts.FromBodyExactly: the registered baseline digest is any digest here, since it is one value of the hash left open, and a decimal's exponent has no bound.
- Ledger.ForecastLedger.Publish: the admission document is a flag, and the baseline digest is any digest, for the same reason.
- Ledger.ForecastLedger.WriteAnchor: the head is what the running system sees; what a power loss may take back of it is the subject of `Journal.PowerLossAccepted` and `Journal.HeadLost`.
- SpoolWriter.DurableIngestor.Insert: why a transaction fails (no headroom on disk, a row that reads back different) is not modelled; any may fail, and `SpoolWriter.DurableIngestor.Dispatch` says what then happens.
- A missing member in an input event's body is read as a mismatch where the source raises.
- The Python contract code identity and the contents of admission documents.
- `HourlySeries.origin` and `HourlySeries.outcome`: not part of this model; their results are parameters of `Scores.ForecastScores.Mature`.
- Cohort and compare reports, ledger status, and the publishing half of the forward session (tick, run, live source): aggregation and transport.
- SQLite itself: a table with an atomic commit that happens or does not; page and file checks, schema checks and WAL sidecars are left out.
- File ownership, inode identity and permission checks beyond the read-only bit and link counts that the crash and recovery results need.
- Thread-ownership checks and the single-owner file locks.
- An exception raised between the spool's commit and its reply, other than one that ends the writer thread.
- The spool's column-by-column row codec: rows are raw records; the one way decoding can fail for stored rows, the payload limit, is modelled.
- Partition views of the archive: a second link to an installed object, with the same steps as installing it.
- A directory sync that reports failure and yet persists is covered; one that reports success and loses data is not.
- Import manifests, the decoder sandbox and quotas in bytes: a parsed document, the decoder's verdict and the room on disk are parameters.
- The sampling thread, health cache, logging and polling intervals of the daemon: a poll is a step that may come at any time.
- Parquet archives, snapshots, jobs, inference, adapters, the command line and the terminal interface.
