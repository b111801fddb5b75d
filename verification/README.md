# KubeAtlas, verified in Dafny

A model of the parts of KubeAtlas whose correctness is hardest to see from the code, with machine-checked
proofs. Check the whole project with `dafny verify dfyconfig.toml`.

What is modelled, by file:

- `CoverageModel`, `CoverageRuns`, `CoverageTheorems`, `CoverageStreams`, `CoverageCapture`: the
  observation-coverage tracker as a state machine over sessions, type registrations and rows; what every run
  keeps; which handles ignore old streams; what a capture means. `CoverageHistory`: every field of a row is what the
  list of accepted callbacks says, and a type is observed exactly when that list is healthy. `CoverageSessions`: when
  sessions, registrations and inventories begin.
  `CoverageTracker`, `CoverageSnapshots`: the tracker's methods, each proved to take exactly the machine's step.
- `Json`, `EncodingModel`, `EncodingExact`, `ResponseSchema`, `ImpactEncoding`: the JSON size preflight against a
  reference model of encoding/json, exactly where the two agree, and the types on which they always do.
  `JsonReader`, `EncodingReads`: a JSON reader written on its own, and the proof that it reads every encoding back.
- `ImpactProjection`, `ImpactSnapshot`: the bounded projection of resources and edges for impact analysis.
  `ReferenceLaws`: what of a workload leaves in it, and what never does. `SnapshotSizes`: the sizes it reckons with
  are lengths of real JSON texts.
- `SnapshotWriter`, `SnapshotAvailability`: the asynchronous history writer as interleaved steps of producers,
  workers and Stop, and what its availability reader may report. `WriterLaws`: what is queued, dropped, counted and
  drained.
- `ImpactAdmission`, `AdmissionLaws`: the admission slot of an impact request shared by its handler and its worker,
  and which response the request gets.
- `CrdModel` (with `CrdRuns`), `CrdDiscovery`: registrations of CRD informers, their overlapping runs and the
  callback families that serialise them. `CrdLaws`: which CRDs are observed, and how runs write, stop and end.
- `RegoCache`, `RegoLaws`: the de-duplicating evaluation cache, what its calls return and that they never deadlock.
- `Informer`: write suppression in the core informers.
- `Views`, `Workload`, `NamespaceView`: the aggregated views.
- `ImpactQuery`, `ImpactResponse`: the impact query and the response check of the client. `QueryWire`: the encoded
  query string. `ResponseLaws`: an accepted response is exactly an answer.
- `Correlator`: call edges inferred from spans.
- `Runs`, `Tally`, `Ordering`, `Options`, `Contexts`: runs of a state machine, counting by key, orders and sorts,
  options, cancellable contexts.

Concurrent components are state machines: every receive, send, lock and counter update is a step, a run is any
list of steps, and the main results are about all runs. Objects that the source mutates are classes; pointers
between sessions, rows, runs and families are indexes into sequences the class owns.

Where the code does not meet what it says, the model follows the code, a lemma shows the failing case, and
another states exactly when it cannot happen:

- Enqueue of the history writer says it never panics; an Enqueue overtaken by Stop does
  (`LateEnqueuePanics`, `CloseIsSafeExactlyWhenQuiet`). The comment on the retry delay lists five sleeps; there are four.
- The evaluation cache says followers of a failed leader evaluate for themselves; they do so without the mutex
  (`FailedLeaderFaults`, `NoFaultExactlyWhenWaitersFind`).
- Write suppression trusts the memo of a type; types that share a kind, or another collector of the kind,
  overwrite the resource, and an object delivered without its kind is filed under a guess
  (`SharedKindGoesStale`, `ForeignWriteGoesStale`, `UnnamedKindGoesStale`, `SkipsSoundExactlyWhenProper`).
- A watch closed through a source's root handle is compared with an epoch that restarts with each registration
  (`RootHandleClosesNewerStream`, `OldStreamsIgnoredExactlyWhenBound`).
- The size preflight and encoding/json read five kinds of declarations differently: unexported embeddings, the
  tag "-,", embedded pointers, invalid tag names, and names that clash with an unmeasured field (the
  counterexamples of `EncodingExact`). Without embedded pointers, invalid tag names and clashes they agree
  exactly when the other two write nothing (`MeasuredIsEncodingExactlyWhenQuiet`); on types of exported, distinctly
  tagged fields, such as the response's, they always agree (`RegularIsMeasuredExactly`).

## Model

| member | source | states |
|---|---|---|
| `CoverageTheorems.NoAba` | pkg/operations/observation_coverage.go:53-70 | on every run, two looks at one slot with the same generation: the revision never falls, and an equal revision means an identical stored row |
| `CoverageTheorems.NothingUnseen` | pkg/operations/observation_coverage.go:53-70 | nothing fails and recovers unseen: when looks before and after a run show one generation and one revision, a look after any part of the run shows the very same row |
| `CoverageTheorems.SameGenerationSameSession` | pkg/operations/observation_coverage.go:133-182 | a slot that shows the same generation again still holds the same session: generations are never reused |
| `CoverageTheorems.RunEvolves` | pkg/operations/observation_coverage.go:196-304 | every run only moves forward: sessions are never reopened, rows only gain revisions, first gap times are kept, slots only move to newer sessions |
| `CoverageTheorems.InactiveForEver` | pkg/operations/coverage_sources.go:80-90 | a handle that is inactive in some reachable state is inactive in every later one |
| `CoverageTheorems.LateCallbackIsolated` | pkg/operations/observation_coverage.go:196-207 | whatever happened since, any call on an inactive handle leaves the whole tracker unchanged |
| `CoverageTheorems.StopDeactivates` | pkg/operations/observation_coverage.go:285-304 | Stop makes a root or a type token inactive |
| `CoverageTheorems.ReplacementDeactivates` | pkg/operations/observation_coverage.go:133-182 | opening a new session for a slot makes the replaced root and all its type tokens inactive |
| `CoverageTheorems.SupersededIsInactive` | pkg/operations/coverage_sources.go:80-90 | a token whose row was replaced cannot be active |
| `CoverageTheorems.BeginTypeSupersedes` | pkg/operations/coverage_sources.go:47-71 | a new registration of a type deactivates every earlier registration of that type |
| `CoverageTheorems.StickyGaps` | pkg/operations/observation_coverage.go:267-283 | the first processing, extraction and persistence gap times of a type survive every later operation, replacement of the session included |
| `CoverageTheorems.EpochsGrow` | pkg/operations/observation_coverage.go:234-245 | while a registration lasts its watch epoch never falls |
| `CoverageTheorems.OldStreamIgnored` | pkg/operations/observation_coverage.go:247-265 | through a handle bound to its registration, closing an older stream changes nothing at any later time |
| `CoverageStreams.OldStreamsIgnoredExactlyWhenBound` | pkg/operations/observation_coverage.go:247-265 | for an active handle and a type its owner can register or already holds: older streams are ignored on all runs if and only if the handle is a type token or a core session |
| `CoverageStreams.ReachableTokened` | pkg/operations/coverage_sources.go:47-71 | in every reachable state each live row of a source session still has the unstopped token it was registered with |
| `CoverageTheorems.RootHandleClosesNewerStream` | pkg/operations/observation_coverage.go:247-265 | counterexample: through the root handle of a source session an old stream's close does disconnect a newer registration's stream, because its epochs restart at 1 |
| `CoverageRuns.ApplyKeepsInv` | pkg/operations/observation_coverage.go:133-304 | every operation of the tracker keeps the invariant: slots name live roots, tokens name rows of their root, generations are unique and ordered, rows are consistent, clusters and types stay within their limits |
| `CoverageHistory.RowIsItsHistory` | pkg/operations/observation_coverage.go:196-304 | while a registration lasts, its row is the row it began with after exactly the accepted callbacks, whatever else happened on the run |
| `CoverageHistory.ObservedExactlyWhenHealthy` | pkg/operations/observation_coverage.go:398-437 | a type is captured as observed exactly when its callbacks were a delivery, a stream opened and not ended since, no failed last list, and no loss now or inherited |
| `CoverageHistory.FirstReportIsRecorded` | pkg/operations/observation_coverage.go:267-283 | the gap time of each kind of loss is the time of its first report, unless one was known before |
| `CoverageHistory.ReportedLossIsShown` | pkg/operations/observation_coverage.go:267-283 | after a reported loss the matching time is the old one or else the reported one, and after any further run the capture of that slot and type lists the matching reason and is partial or stale |
| `CoverageHistory.LastListIsRecorded` | pkg/operations/observation_coverage.go:221-232 | the list reason is what the last list result says: none after success, denied or failed otherwise |
| `CoverageHistory.FailedListIsShown` | pkg/operations/observation_coverage.go:221-232 | in the capture of a lasting registration a failed last list is a reason, denied or failed, and the row partial or stale; once the last list succeeded it is not |
| `CoverageHistory.OpenStreamIsEstablished` | pkg/operations/observation_coverage.go:234-265 | a row is established exactly while a started stream has not been ended, older streams' ends not counting |
| `CoverageHistory.FirstEndIsRecorded` | pkg/operations/observation_coverage.go:247-265 | the watch gap is the time of the first end since the last stream was opened |
| `CoverageHistory.RegistrationsStartEmpty` | pkg/operations/coverage_sources.go:47-71 | a registered type begins with nothing delivered, listed or opened |
| `CoverageHistory.BeginShowsEveryType` | pkg/operations/observation_coverage.go:133-182 | a new session starts every requested type empty, and shows every other type of the session it replaced as stopped |
| `CoverageHistory.StopShowsEveryType` | pkg/operations/observation_coverage.go:285-304 | after Stop of a session every type of it is captured as stopped, partial or stale |
| `CoverageHistory.TokenStopShowsItsType` | pkg/operations/observation_coverage.go:285-304 | after Stop of a type token its type is captured as stopped, and the session's other types are as they were |
| `CoverageHistory.ScopesSpelledOut` | pkg/operations/observation_coverage.go:184-194 | which clusters and types a scope may name, spelled out |
| `CoverageSessions.BeginsExactly` | pkg/operations/observation_coverage.go:133-182 | a begin takes a new generation exactly when its names, its time, the 128 clusters and the 256 types allow it, and else has no effect |
| `CoverageSessions.BegunIsCurrent` | pkg/operations/observation_coverage.go:133-182 | a begun session is current and active, takes over only the limited mark of its predecessor, and leaves every other slot alone |
| `CoverageSessions.InventoryBeginsExactly` | pkg/operations/api_inventory.go:73-86 | an inventory begins exactly for a nameable cluster that is known or fits, with the next generation and no session touched |
| `CoverageSessions.TypeRegistersExactly` | pkg/operations/coverage_sources.go:47-71 | a type that may be registered gets an active token with a new row, or when the session is full only marks it as limited; any other request has no effect |
| `CoverageSessions.StopKeepsEvidence` | pkg/operations/observation_coverage.go:285-304 | Stop of a session keeps all evidence of its live rows: the disconnection counts from its first moment, and everything recorded stays |
| `CoverageSessions.TokenStopKeepsEvidence` | pkg/operations/observation_coverage.go:285-304 | Stop of a type token does so for its own row |
| `CoverageSessions.ReplacementKeepsEvidence` | pkg/operations/observation_coverage.go:143-168 | a replacing session keeps the evidence of types no longer watched and the losses of those still watched |
| `CoverageHistory.LastDiscoveryIsRecorded` | pkg/operations/source_discovery.go:32-50 | along any run a session shows the discovery result recorded last, numbered by how many there were |
| `CoverageCapture.CaptureMeaning` | pkg/operations/observation_coverage.go:398-437 | a captured row is observed exactly when it lists no reason, stale exactly when its watch has been gone for the staleness time, then without an established watch, and it never lists an empty reason |
| `CoverageCapture.ReasonsExactly` | pkg/operations/observation_coverage.go:398-437 | each reason is listed exactly for its cause |
| `CoverageCapture.UnwatchedShowsNothing` | pkg/operations/observation_coverage.go:359-391 | a type without a row is captured as unknown and not watched, with no time or flag set |
| `CoverageCapture.ReachableRowMeaning` | pkg/operations/observation_coverage.go:398-437 | the same for every row captured in any reachable state |
| `CoverageCapture.ObservedMeansEveryRow` | pkg/operations/observation_coverage.go:359-391 | the overall state is observed exactly when something is required and every required row is observed |
| `CoverageCapture.RequestOrderIrrelevant` | pkg/operations/observation_coverage.go:359-391 | order and duplicates of the requested types do not change a capture |
| `CoverageCapture.GapNeverObservedAgain` | pkg/operations/observation_coverage.go:398-437 | after a recorded gap every later capture of that type is partial or stale, never observed |
| `CoverageCapture.StableWindow` | pkg/operations/observation_coverage.go:53-70 | for any source and any times of capture: two captures that agree in generation and revision enclose no change, and every capture in between is the capture of the same row |
| `CoverageSnapshots.CaptureRow` | pkg/operations/observation_coverage.go:398-437 | the step-by-step capture of a row delivers the declared capture: reasons in order, worst state |
| `CoverageSnapshots.Snapshot` | pkg/operations/observation_coverage.go:316-396 | a scope error only for invalid scopes and the zero time, no capture once the context ended, and otherwise the core slot's rows (one per requested type, strictly sorted, worst state overall), every dynamic source with a session in order, and the inventory's generation |
| `CoverageSnapshots.Worst` | pkg/operations/observation_coverage.go:439-452 | the rank loop computes the declared overall state |
| `CoverageSnapshots.SnapshotSource` | pkg/operations/coverage_sources.go:111-141 | a capture exactly when the slot holds a session: every row of it with its inventory and discovery evidence, unless the context ended |
| `CoverageSnapshots.SourceObserved` | pkg/operations/coverage_sources.go:111-141 | a source is observed exactly when it has types, all are observed, and its inventory is neither limited, stopped nor badly discovered |
| `CoverageSnapshots.DiscoveryDecides` | pkg/operations/coverage_sources.go:111-141 | along any run a source capture shows the discovery recorded last; it is observed exactly with types, all observed, neither limited nor stopped, and that discovery advertised and younger than ten minutes |
| `CoverageTracker.CoverageTracker.constructor` | pkg/operations/observation_coverage.go:122-127 | starts empty with the given or the default staleness |
| `CoverageTracker.CoverageTracker.Begin` | pkg/operations/observation_coverage.go:129-182 | refines the state machine's Begin for the core slot, and keeps the invariant |
| `CoverageTracker.CoverageTracker.BeginSource` | pkg/operations/coverage_sources.go:36-41 | refines Begin for the CRD and Gatekeeper sources and refuses the others |
| `CoverageTracker.CoverageTracker.BeginType` | pkg/operations/coverage_sources.go:47-71 | refines registration of a type; a token exactly when the request is accepted; a full session is marked limited |
| `CoverageTracker.CoverageTracker.BeginApiInventory` | pkg/operations/api_inventory.go:73-86 | a generation exactly for a valid cluster that is known or fits, and then the next one; refines the state machine's step |
| `CoverageTracker.CoverageTracker.InitialDeliveryComplete` | pkg/operations/observation_coverage.go:212-219 | refines the initial-delivery update on writable handles, nothing otherwise |
| `CoverageTracker.CoverageTracker.ListResult` | pkg/operations/observation_coverage.go:221-232 | refines the list-result update; what that stores and shows is LastListIsRecorded and FailedListIsShown |
| `CoverageTracker.CoverageTracker.WatchStarted` | pkg/operations/observation_coverage.go:234-245 | refines stream start and returns the new epoch, or 0 on a dead handle |
| `CoverageTracker.CoverageTracker.WatchEnded` | pkg/operations/observation_coverage.go:247-265 | refines stream end with its epoch test |
| `CoverageTracker.CoverageTracker.RecordGap` | pkg/operations/observation_coverage.go:267-283 | refines the gap update; what that stores and shows is FirstReportIsRecorded and ReportedLossIsShown |
| `CoverageTracker.CoverageTracker.RecordDiscovery` | pkg/operations/source_discovery.go:32-50 | refines recorded discovery evidence; a scope error exactly for what a source may not record, none for a late call |
| `CoverageTracker.CoverageTracker.Stop` | pkg/operations/observation_coverage.go:285-304 | refines Stop: all own rows stopped once, the handle stopped |
| `CoverageTracker.CoverageTracker.ActiveLocked` | pkg/operations/coverage_sources.go:80-86 | answers exactly whether the handle's chain to the current slot is intact |
| `CoverageTracker.CoverageTracker.ClusterCountLocked` | pkg/operations/coverage_sources.go:96-109 | counts the clusters known by session, source or inventory, each once |
| `EncodingExact.MeasuredIsEncodingExactlyWhenQuiet` | pkg/api/impact_encoding.go:109-196 | for accepted values of plain types the measured text is never longer than the written one, is the written one if and only if nothing is written by the fields the preflight passes over, and is strictly shorter otherwise |
| `EncodingExact.OpenIsQuiet` | pkg/api/impact_encoding.go:55-96 | values of types without unexported embeddings and without names from "-," write nothing unmeasured, whatever they hold |
| `ResponseSchema.RegularIsMeasuredExactly` | pkg/api/impact_encoding.go:18-24 | for every value of every type of exported, distinctly tagged fields, embedded structs, pointers, lists, scalars and writable times: the preflight accepts it, encoding/json writes it, and the measure is its exact text |
| `ImpactEncoding.Measure` | pkg/api/impact_encoding.go:109-196 | succeeds only on accepted shapes within budget and then takes exactly the measured length; a limit verdict means the measured text is longer than the budget; a shape verdict means the shape is not accepted |
| `ImpactEncoding.FieldList` | pkg/api/impact_encoding.go:55-96 | the flattened field list, refused exactly for ambiguous or unsupported schemas |
| `ImpactEncoding.EncodeResponse` | pkg/api/impact_encoding.go:25-44 | a body is the exact encoding, within the limit, and reads back as the tree of the value; on plain types a limit error means the encoding really is too long, and the second size check fires only where unmeasured fields are written |
| `ImpactEncoding.EncodeTyped` | pkg/api/impact_encoding.go:25-44 | on values of a regular type: no shape error, no late refusal, a body exactly its encoding within the limit that reads back as the value, and a limit error only for what does not fit |
| `EncodingExact.HiddenEmbeddingUnmeasured` | pkg/api/impact_encoding.go:55-96 | counterexample: an unexported embedded struct, or pointer to one, is written but not measured, whatever it holds |
| `EncodingExact.DashNameUnmeasured` | pkg/api/impact_encoding.go:55-96 | counterexample: a field named by the tag "-," is written but not measured |
| `EncodingExact.EmbeddedPointerOvermeasured` | pkg/api/impact_encoding.go:55-96 | counterexample: an exported embedded pointer is measured under its own name while its fields are promoted |
| `EncodingExact.NilEmbeddedPointerOvermeasured` | pkg/api/impact_encoding.go:55-96 | counterexample: a nil embedded pointer is measured as null and writes nothing |
| `EncodingExact.InvalidTagMismeasured` | pkg/api/impact_encoding.go:55-96 | counterexample: an invalid tag name is measured while the Go name is written |
| `EncodingExact.ClashOvermeasured` | pkg/api/impact_encoding.go:55-96 | counterexample: a name shared with an unmeasured field at one depth is measured while both are dropped |
| `EncodingReads.EncodingReadsBack` | pkg/api/impact_encoding.go:25-44 | a reader of RFC 8259 written on its own reads every encoding back as the tree of the value: names, order, numbers and texts |
| `EncodingReads.EmptyReadsAsZero` | pkg/api/impact_encoding.go:98-107 | the omitempty test holds exactly for values that would read as null, false, zero or nothing; never for pointers, structs and times |
| `EncodingReads.ObjectsNameOnce` | pkg/api/impact_encoding.go:55-96 | no name occurs twice in a written object; the field alone the shallowest of its name, or alone tagged among the shallowest, is in it |
| `EncodingReads.DeclarationRules` | pkg/api/impact_encoding.go:55-96 | how one declaration is read: unexported and dash-tagged fields give nothing, untagged embedded structs their fields one level deeper, others themselves under tag or Go name |
| `JsonReader.StringReads` | pkg/api/impact_encoding.go:136-145 | a written string reads back as the text with every byte outside a UTF-8 sequence replaced by U+FFFD; valid UTF-8 reads back unchanged |
| `JsonReader.StringHarmless` | pkg/api/impact_encoding.go:136-145 | inside a written string there is no control byte and no unescaped quote before its last byte |
| `JsonReader.TextLength` | pkg/api/impact_encoding.go:136-145 | the exact length of a written string, character by character |
| `JsonReader.IntReads` | pkg/api/impact_encoding.go:136-145 | a written number reads back, without a leading zero, and has a sign only below zero |
| `JsonReader.TableIsArithmetic` | pkg/api/impact_encoding.go:136-145 | the byte table that decides what is valid UTF-8 agrees with the arithmetic of RFC 3629 on all texts |
| `ImpactProjection.ProjectionIdempotent` | pkg/graph/impact_reference_projection.go:142-213 | projecting an already projected value gives the same value, for every shape |
| `ImpactProjection.ProjectionSeesExactlyTheShape` | pkg/graph/impact_reference_projection.go:142-213 | two values have one projection exactly when they are alike under the shape, for every shape |
| `ImpactProjection.PresenceHidesTheText` | pkg/graph/impact_reference_projection.go:142-213 | below a presence shape any two texts that are both empty or both not project alike, and an empty one differs from the others |
| `ImpactProjection.CopyCostsTheSame` | pkg/graph/impact_reference_projection.go:142-213 | projecting the copy again costs what the value cost: what is left out is not charged for |
| `ImpactProjection.ChargeCovers` | pkg/graph/impact_reference_projection.go:142-213 | the JSON size of a projection is at most what was charged for it |
| `ImpactSnapshot.ResourceCovered` | pkg/graph/impact_snapshot.go:107-145 | the JSON size of a copied resource with its payload, and a separator, is at most its charge |
| `ImpactSnapshot.EdgeCovered` | pkg/graph/impact_snapshot.go:147-162 | the JSON size of a copied edge and a separator is at most its charge |
| `SnapshotSizes.TextSize` | pkg/graph/impact_snapshot.go:107-178 | the size of a payload is the length of each of its JSON texts, the keys of objects in any order |
| `SnapshotSizes.ResourceLength` | pkg/graph/model.go:8-50 | the size of a resource is the length of its JSON text by its declared members, and of the payload beside it |
| `SnapshotSizes.CopyFitsItsCharge` | pkg/graph/impact_snapshot.go:107-145 | what is written of a copied resource, payload and separator included, is at most what was charged for it |
| `SnapshotSizes.EdgeLength` | pkg/graph/model.go:184-196 | the size of an edge is the length of its JSON text |
| `ImpactSnapshot.InClusterAgrees` | pkg/graph/impact_snapshot.go:75-86 | the cluster test agrees with the resource id for every cluster exactly when the resource's own cluster and namespace are unambiguous |
| `ImpactSnapshot.Normalized` | pkg/graph/impact_snapshot.go:56-73 | accepted exactly without slash and colon in the cluster and with every number from zero to its bound; positive numbers are kept, zero selects 20000 resources, 100000 edges and 16 MiB |
| `ImpactSnapshot.ImpactProjectionBuilder.New` | pkg/graph/impact_snapshot.go:97-105 | a builder exactly for options that normalise, with the normalised options, an empty graph and the whole budget |
| `ImpactSnapshot.ImpactProjectionBuilder.Charge` | pkg/graph/impact_snapshot.go:164-178 | succeeds exactly when the overhead and six bytes per byte of text fit, and then takes exactly that |
| `ImpactSnapshot.ImpactProjectionBuilder.ProjectValue` | pkg/graph/impact_reference_projection.go:142-213 | success yields the projection and takes exactly its cost; a limit means the cost exceeds the budget |
| `ImpactSnapshot.ImpactProjectionBuilder.ProjectReferences` | pkg/graph/impact_reference_projection.go:126-140 | the reference fields of known kinds with complete identities, nil otherwise, at exact cost |
| `ImpactSnapshot.ImpactProjectionBuilder.AddResource` | pkg/graph/impact_snapshot.go:107-145 | skips other clusters; else appends exactly the sanitized copy at exact cost or reports a limit; the copies of alike resources are equal, so nothing but the reference names, flags and presences leaves; the copies' total JSON size is at most the bytes charged and all belong to the cluster |
| `ImpactSnapshot.AlikeGiveOneCopy` | pkg/graph/impact_snapshot.go:107-145 | resources that differ only in what the shapes hide give the same copy |
| `ImpactSnapshot.InClusterExactly` | pkg/graph/impact_snapshot.go:75-86 | an id is in a cluster exactly when it has a first segment that carries that cluster's prefix, or without a cluster no colon |
| `ReferenceLaws.OnlyNamesLeave` | pkg/graph/impact_reference_projection.go:71-125 | whatever a payload holds, each text in its copy is at a field that names something, or is the presence marker: no literal leaves |
| `ReferenceLaws.ReferencesAreKept` | pkg/graph/impact_reference_projection.go:71-124 | every ConfigMap, Secret, claim and volume reference of a known workload with a complete identity stands at the same place of the copy's payload |
| `ReferenceLaws.OptionalIsKept` | pkg/graph/impact_reference_projection.go:92-93 | the optional flag of a reference is kept |
| `ReferenceLaws.SubPathPresenceIsKept` | pkg/graph/impact_reference_projection.go:99-100 | a mount keeps whether it has a sub path or a sub path expression, and no more of it |
| `ReferenceLaws.PayloadOnlyOfWorkloads` | pkg/graph/impact_reference_projection.go:58-82 | a payload is kept of exactly the seven built-in workloads, and only with a complete identity |
| `ReferenceLaws.AlikeAreChargedAlike` | pkg/graph/impact_snapshot.go:107-145 | resources that differ only in what the shapes hide are charged the same, so what is hidden does not show in the budget either |
| `ImpactSnapshot.ImpactProjectionBuilder.AddEdge` | pkg/graph/impact_snapshot.go:147-162 | appends exactly the edges with both ends in the cluster, without attributes, and keeps the same bound |
| `SnapshotWriter.RunConserves` | pkg/snapshot/writer.go:117-206 | on every interleaving each offered event is in exactly one place: queued, held by a producer or worker, processed, failed or dropped |
| `SnapshotWriter.RunCounts` | pkg/snapshot/writer.go:117-206 | counters and the in-flight gauge agree with what happened, the queue never exceeds its capacity, and a worker leaves only a closed, empty queue |
| `SnapshotWriter.SettledTotals` | pkg/snapshot/writer.go:149-156 | once Stop has returned and producers are idle, the offered events are exactly the processed, failed and dropped ones, as multisets |
| `SnapshotWriter.QuietTotals` | pkg/snapshot/writer.go:149-156 | with a quiet close the counters add up to the number of offered events |
| `SnapshotWriter.CloseIsSafeExactlyWhenQuiet` | pkg/snapshot/writer.go:117-156 | closing the queue can never lead to a panic exactly when no Enqueue is between its closed check and its return |
| `SnapshotWriter.QuietCloseIsSafe` | pkg/snapshot/writer.go:117-156 | runs whose closes are quiet never panic and never count a drop for a zero value |
| `SnapshotWriter.LateEnqueuePanics` | pkg/snapshot/writer.go:117-156 | counterexample: one Enqueue overtaken by Stop sends on the closed queue and panics, against the comment on Enqueue |
| `SnapshotWriter.OvertakenPanics` | pkg/snapshot/writer.go:117-156 | every Enqueue overtaken by the close panics when it runs on |
| `SnapshotWriter.EnqueueNeverWaits` | pkg/snapshot/writer.go:117-143 | each step of an Enqueue brings it nearer to its return, whatever the queue holds |
| `SnapshotWriter.OthersDoNotDelay` | pkg/snapshot/writer.go:117-143 | no other goroutine moves an Enqueue back |
| `SnapshotWriter.OneProducerDropsTheOldest` | pkg/snapshot/writer.go:117-143 | with one producer and until Stop, the events still queued or in hand are the newest, and all older ones are exactly those dropped or taken by workers; when anything is dropped at all is NoDropWithoutPressure |
| `WriterLaws.NoDropWithoutPressure` | pkg/snapshot/writer.go:117-143 | until Stop, on every interleaving: while no more events were offered than the queue holds, nothing was dropped and nothing panicked |
| `WriterLaws.AdmittedIsQueuedExactlyWithRoom` | pkg/snapshot/writer.go:126-132 | an admitted event is at the end of the queue after the next step exactly when there is room |
| `WriterLaws.FullDropsTheOldest` | pkg/snapshot/writer.go:132-143 | a full queue gives up its oldest event, counts it, and takes the new one at its end |
| `WriterLaws.WorkersTakeTheOldest` | pkg/snapshot/writer.go:170-177 | a waiting worker takes the oldest event, and leaves exactly when the queue is empty and closed |
| `WriterLaws.OutcomesAreCounted` | pkg/snapshot/writer.go:183-206 | on every run the stored events are those counted as processed or about to be, the given-up ones those counted as failed or about to be |
| `WriterLaws.PanicsExactlyOnALateSend` | pkg/snapshot/writer.go:117-143 | the program panics exactly when an Enqueue past its check sends on the closed queue |
| `WriterLaws.OneWorkerDrains` | pkg/snapshot/writer.go:149-177 | from any state one worker can process the whole queue in order by its own steps and, when it is closed, leave, so that Stop returns |
| `SnapshotWriter.WriteWithRetry` | pkg/snapshot/writer.go:183-206 | stops at the first stored attempt or after five, and sleeps 50 ms doubling between attempts only |
| `SnapshotWriter.WorkerFollowsTheLoop` | pkg/snapshot/writer.go:170-206 | the attempt steps of a worker end as the retry loop ends |
| `SnapshotAvailability.HistoryAvailability` | pkg/snapshot/analysis_availability.go:146-186 | state, coverage and each reason hold exactly under their condition on the values read, reasons are distinct |
| `SnapshotAvailability.SnapshotAvailability` | pkg/snapshot/analysis_availability.go:66-144 | each error exactly when due, spelled out; otherwise every history state and every reason, the storage read and the retained data mean one condition each |
| `SnapshotAvailability.RunIsLater` | pkg/snapshot/analysis_availability.go:146-186 | counters only grow and lifecycle flags are never taken back along a run |
| `SnapshotAvailability.LossIsRemembered` | pkg/snapshot/analysis_availability.go:146-186 | after a counted loss every later call sees it, however its loads interleave with the writer |
| `SnapshotAvailability.LifecycleIsSeen` | pkg/snapshot/analysis_availability.go:146-186 | a started writer, a Stop and a cancelled context are seen by every later call, however its loads interleave |
| `SnapshotAvailability.ReadAfterLoss` | pkg/snapshot/analysis_availability.go:66-186 | after a counted loss the reader never reports recording again |
| `ImpactAdmission.SlotsAreUnfinishedRequests` | pkg/api/impact_handler.go:53-110 | on every interleaving the occupied slots are the admitted requests with unfinished computation or writing, or in the act of release, and never more than the capacity |
| `ImpactAdmission.ReleaseNeverBlocks` | pkg/api/impact_handler.go:73-97 | a goroutine about to release finds a token, and a worker's one reply finds room |
| `ImpactAdmission.ReleasedExactlyOnce` | pkg/api/impact_handler.go:73-97 | each admitted request releases once, only after both parts ended; refused requests never |
| `ImpactAdmission.CompletedReplyReleasesFirst` | pkg/api/impact_handler.go:80-97 | a handler that finishes after its worker releases the slot before it returns |
| `ImpactAdmission.OneResponse` | pkg/api/impact_handler.go:53-110 | at most one response is written per request |
| `ImpactAdmission.WorkerNeverWrites` | pkg/api/impact_handler.go:80-97 | no step but the handler's writes a response |
| `ImpactAdmission.LateReplyIsNeverWritten` | pkg/api/impact_handler.go:98-109 | once the context ended before an answer was chosen, only the handler's own errors can be written |
| `AdmissionLaws.LiveRequestGetsItsReply` | pkg/api/impact_handler.go:80-110 | a request whose context stays live gets exactly one response: its worker's reply if admitted, the busy error if not |
| `AdmissionLaws.NothingElseIsWritten` | pkg/api/impact_handler.go:53-110 | whatever is written is the reply the request's own worker computed, or a busy or deadline error |
| `AdmissionLaws.AdmittedExactlyWithAFreeSlot` | pkg/api/impact_handler.go:64-69 | on every interleaving a request is admitted exactly when unfinished requests hold fewer than two slots, and refused as busy exactly otherwise |
| `AdmissionLaws.EndedContextAnswers` | pkg/api/impact_handler.go:96-107 | an expired context is answered with the deadline error, a departed client with nothing |
| `AdmissionLaws.ContextIsItsFirstEnd` | pkg/api/impact_handler.go:54-63 | a context is live until it is first ended, and then what that end made it |
| `AdmissionLaws.EveryRequestCanFinish` | pkg/api/impact_handler.go:53-110 | no interleaving leaves a request stuck: its own steps alone always end both of its goroutines |
| `CrdRuns.RunKeepsInv` | pkg/crd/discovery.go:261-370 | the invariant of registrations, families, locks and trace holds in every reachable state |
| `CrdRuns.LiveRunsShareOneFamily` | pkg/crd/discovery.go:80-87 | all live runs of one CRD name share one family whose refs is their number |
| `CrdRuns.DeliveriesNeverOverlap` | pkg/crd/discovery.go:295-310 | two runs of one CRD name are never in a delivery at once |
| `CrdRuns.NoStaleWrite` | pkg/crd/discovery.go:377-425 | no store write of a replaced registration begins after a successor's first delivery began |
| `CrdRuns.OnlyTheLatestRuns` | pkg/crd/discovery.go:261-347 | every replaced registration is cancelled |
| `CrdRuns.TombstoneNeedsTheUid` | pkg/crd/discovery.go:349-370 | a tombstone stops the registration exactly when it carries the registered UID, else nothing changes |
| `CrdLaws.RefusedReplacementStopsTheOld` | pkg/crd/discovery.go:261-287 | a malformed, unhandled or unserved replacement leaves nothing registered or uncancelled under its name |
| `CrdLaws.OnlyValidIdentitiesRun` | pkg/crd/discovery.go:261-287 | on every run only CRDs with a name, UID and group, the name made of plural and group, a known scope and a kind other than Secret are ever observed |
| `CrdLaws.ServedIsObservedExactly` | pkg/crd/discovery.go:261-347 | after a served, well-formed and handled report outside shutdown, a CRD is observed exactly when its identity is such |
| `CrdLaws.OtherNamesKeepTheirRuns` | pkg/crd/discovery.go:261-347 | a report leaves the runs of other names alone |
| `CrdLaws.ReportingAgainChangesNothing` | pkg/crd/discovery.go:262-272 | reporting a CRD again changes nothing: an unchanged registration is not restarted |
| `CrdLaws.UnhinderedDeliveryWrites` | pkg/crd/discovery.go:377-425 | an unhindered delivery begins, writes to the store, and gives the lock of its family back |
| `CrdLaws.CancelledRunDoesNotWrite` | pkg/crd/discovery.go:377-425 | a cancelled run that was ready to write ends its delivery instead |
| `CrdLaws.ShutdownWindsDown` | pkg/crd/discovery.go:213-221 | after a shutdown no run is registered, and only writes cleared before it still happen |
| `CrdLaws.OnlyStoppedRunsEnd` | pkg/crd/discovery.go:316-327 | on every run a registered informer goes on until it is replaced, deregistered or shut down |
| `CrdLaws.StoppedRunCanEnd` | pkg/crd/discovery.go:295-327 | a stopped run never hangs: the deliveries under way can be finished without further writes, and then it ends |
| `CrdDiscovery.Discovery.ReconcileCrd` | pkg/crd/discovery.go:261-347 | refines the state machine's reconcile step and keeps the invariant; field by field, when the CRD is observed afterwards, when it is refused, and what then remains of the old registration |
| `CrdDiscovery.Discovery.DeregisterCrd` | pkg/crd/discovery.go:351-357 | refines deregistration by name and UID |
| `CrdDiscovery.Discovery.StopLocked` | pkg/crd/discovery.go:360-370 | afterwards the name has no run, the run it had is cancelled, and every other run and name is unchanged |
| `CrdDiscovery.Discovery.RunReturned` | pkg/crd/discovery.go:316-327 | refines the end of a run: refs counted down, the family dropped at zero |
| `CrdDiscovery.PickServed` | pkg/crd/discovery.go:485-511 | picks the first served storage version, else the first served version with a name; whatever it picks is served, and it fails only when the preferred one has no name or none exists |
| `RegoCache.OnlyEvaluatedValues` | pkg/extractor/rego/cache.go:101-139 | every cached and every returned value came from an error-free evaluation of its key |
| `RegoCache.RunsExclude` | pkg/extractor/rego/cache.go:106-130 | on every run without a fault the mutex excludes and the in-flight map lists exactly the evaluations in flight |
| `RegoCache.OneEvaluationPerKey` | pkg/extractor/rego/cache.go:106-139 | at most one evaluation of a key is in flight |
| `RegoCache.NoFaultExactlyWhenWaitersFind` | pkg/extractor/rego/cache.go:108-123 | the mutex is misused exactly when a waiter that found no value goes on |
| `RegoCache.FaultExactlyWhenFallenSteps` | pkg/extractor/rego/cache.go:114-123 | the step that goes wrong is exactly the installation by such a waiter |
| `RegoCache.SafeWithoutFailures` | pkg/extractor/rego/cache.go:106-139 | without failed evaluations and evictions every waiter finds its value and nothing goes wrong |
| `RegoCache.FailedLeaderFaults` | pkg/extractor/rego/cache.go:108-123 | counterexample: after a failed leader its waiter installs and unlocks without the mutex |
| `RegoLaws.EvaluationIsReturned` | pkg/extractor/rego/cache.go:92-139 | a call that evaluated returns the outcome of its own evaluation, error included; any other returned call has a value |
| `RegoLaws.CachedKeyIsAnswered` | pkg/extractor/rego/cache.go:101-119 | a call whose key is cached when it looks returns that value with that step and evaluates nothing |
| `RegoLaws.CacheIsItsHistory` | pkg/extractor/rego/cache.go:124-138 | the cache holds for each key the value of the last successful evaluation added, unless evicted since; failures are never cached |
| `RegoLaws.NeverStuck` | pkg/extractor/rego/cache.go:92-139 | on every run without a fault, while a call has not returned some call can step: no deadlock |
| `Informer.InformerManager.HandleUpsert` | pkg/discovery/informer.go:324-407 | refines the upsert step; history grows by exactly the written version; after a written or a skipped delivery every stored placeholder it names is in the store, a failed write changes nothing there; with a sound memo and proper types the memo stays sound, a written or skipped object is held by the store under its own id, and nothing but that id and Secret placeholders changes |
| `Informer.InformerManager.HandleDelete` | pkg/discovery/informer.go:410-445 | refines the delete step; the key leaves the memo and no other does; with a sound memo and proper types the memo stays sound and at most the object's own id leaves the store |
| `Informer.InformerManager.ResolveKind` | pkg/discovery/informer.go:468-493 | a named kind is used and remembered, an unnamed one is the remembered or the guessed kind, and no other type's kind changes |
| `Informer.MemoIsBacked` | pkg/discovery/informer.go:108-112 | on every run of deliveries with or without their kind, store failures and writes of other collectors the memo lists only versions the store holds |
| `Informer.SkippedMeansStored` | pkg/discovery/informer.go:324-350 | a skipped write means the store already holds exactly that object under its type's kind |
| `Informer.FailedWriteIsRetried` | pkg/discovery/informer.go:338-351 | after a failed write the next delivery of that version writes again, whatever other keys delivered in between |
| `Informer.SuppressionRefinesAlwaysWrite` | pkg/discovery/informer.go:324-407 | with and without the memo the store holds the same resource under every identity but the Secret placeholders |
| `Informer.HistoryNeverRepeats` | pkg/discovery/informer.go:352-366 | history never has one version of a key in two consecutive events without a delete |
| `Informer.UnversionedRepeats` | pkg/discovery/informer.go:336-366 | an object without UID or resource version is recorded each time it is stored |
| `Informer.MemoIsTheLastWrite` | pkg/discovery/informer.go:333-354 | on every run the memo of a key is the version of its last write, forgotten by a delete or by a write without UID or version |
| `Informer.AnnouncedExactlyWhenWritten` | pkg/discovery/informer.go:335-367 | on every run a stored delivery is announced exactly when it is not the remembered version |
| `Informer.PlacedHolds` | pkg/discovery/informer.go:369-393 | every Secret placeholder whose write succeeds is in the store afterwards, also when the resource itself was skipped |
| `Informer.KindIsTheLastSeen` | pkg/discovery/informer.go:468-493 | on every run the remembered kind of a type is that of its last delivery that named one |
| `Informer.GuessUndoesPlural` | pkg/discovery/informer.go:495-506 | the guess takes the plural s off and capitalises; a name that is no plural keeps its letters |
| `Informer.GuessUndoesLongPlural` | pkg/discovery/informer.go:495-506 | the guess turns ies into y and takes es off ses |
| `Informer.SkipsSoundExactlyWhenProper` | pkg/discovery/informer.go:324-493 | skipping is sound on all runs if and only if watched types have kinds of their own, none of them Secret or written by another collector, and, where objects may come without their kind, each kind is the one guessed from its type's name |
| `Informer.SharedKindGoesStale` | pkg/discovery/informer.go:324-350 | counterexample: two watched types of one kind overwrite each other and the next delivery is skipped |
| `Informer.ForeignWriteGoesStale` | pkg/discovery/informer.go:324-350 | counterexample: another collector of the kind replaces what the memo remembers |
| `Informer.UnnamedKindGoesStale` | pkg/discovery/informer.go:468-493 | counterexample for every wrongly guessed type: a first delivery without its kind is stored under the guess and the named one is then skipped |
| `Views.SortViewEdges` | pkg/aggregator/aggregator.go:171-179 | the in-place insertion sort yields a sorted permutation |
| `Views.LessIsKeyOrder` | pkg/aggregator/aggregator.go:181-189 | the comparison is the lexicographic order by source, target and type |
| `Views.SortEdges` | pkg/aggregator/aggregator.go:142-169 | strictly sorted, duplicate-free, exactly the input edges with count 1 |
| `Views.SortedEdgesUnique` | pkg/aggregator/aggregator.go:142-169 | the result depends on the set of input edges only |
| `Views.View.AnnotateEdgeCounts` | pkg/aggregator/aggregator.go:194-207 | each id's indexed node gains exactly the counts of the edges from and to it |
| `Views.InIsOutIsTotal` | pkg/aggregator/aggregator.go:194-207 | when all endpoints are nodes, in-counts and out-counts both sum to the total edge count |
| `Workload.WalkOwned` | pkg/aggregator/workload.go:39-60 | terminates on every finite graph, cycles included, with exactly the ids from which the root is reachable over OWNS edges, and the OWNS edges into them; fails exactly when one of their listings fails |
| `Workload.CollectReferences` | pkg/aggregator/workload.go:62-82 | exactly the non-OWNS edges out of the owned ids and their targets |
| `Workload.Aggregate` | pkg/aggregator/workload.go:30-107 | the view holds exactly the closure and its targets as sorted nodes, the edges strictly sorted, and per-node counts; a store error exactly when a listing into or out of an owned id fails; the other errors exactly when due |
| `Workload.EndpointsAreNodes` | pkg/aggregator/workload.go:84-106 | both ends of every edge of the view are nodes of it |
| `Workload.NodesShowTheirResources` | pkg/aggregator/workload.go:84-100 | a node shows kind, namespace and name of its stored resource, or that it is missing |
| `NamespaceView.WalkToWorkload` | pkg/aggregator/namespace.go:223-244 | terminates on owner cycles and returns the first workload on the first-owner chain, or nothing when there is none |
| `NamespaceView.NoHitOnACycle` | pkg/aggregator/namespace.go:223-244 | a chain that returns to itself before a workload never reaches one |
| `NamespaceView.NormalizeEndpoint` | pkg/aggregator/namespace.go:249-261 | visible ids stay, absorbed ones become their workload, all others vanish |
| `NamespaceView.CountChildren` | pkg/aggregator/namespace.go:108-117 | each counter is the number of absorbed resources whose chain leads to that workload |
| `NamespaceView.CountEdges` | pkg/aggregator/namespace.go:160-173 | each counter is the number of edges that normalise to that key |
| `NamespaceView.ChildrenConserved` | pkg/aggregator/namespace.go:101-131 | child counts sum to the absorbed resources whose chain reaches a workload |
| `NamespaceView.EdgesConserved` | pkg/aggregator/namespace.go:160-201 | edge counts sum to the edges whose two ends normalise |
| `NamespaceView.EndpointsVisible` | pkg/aggregator/namespace.go:153-201 | every emitted endpoint is a node |
| `NamespaceView.NodesShowTheirResources` | pkg/aggregator/namespace.go:121-152 | every node shows a resource of the namespace, a workload as an aggregate with its caption, a passthrough kind as itself |
| `NamespaceView.Aggregate` | pkg/aggregator/namespace.go:58-218 | the whole view: nodes, edges, conservation of children and edges, endpoints, and in-total = out-total = edge total |
| `ImpactQuery.RoundTrip` | pkg/impact/client.go:36-98 | the server reads from every printed valid query the same root, relation, bounds, cluster and expected UID |
| `ImpactQuery.PrintedIsAcceptable` | pkg/impact/client.go:65-98 | a server federated exactly when a cluster is named accepts every printed valid query, its length limit included |
| `ImpactQuery.PrintedAsksForTheQuery` | pkg/api/impact_handler.go:207-269 | what the server may read from a printed query is that query |
| `ImpactQuery.OtherServerRefuses` | pkg/api/impact_handler.go:235-241 | a server of the other kind refuses it |
| `ImpactQuery.AcceptedIsValidExactlyWithoutDots` | pkg/impact/client.go:36-59 | an accepted request is a valid client query exactly when no segment is "." or ".." |
| `ImpactQuery.ParseRequest` | pkg/api/impact_handler.go:207-269 | accepts exactly the acceptable requests and returns what they ask for, defaults included |
| `ImpactQuery.ParseBound` | pkg/api/impact_handler.go:252-267 | accepts exactly the canonical decimals within the bound |
| `ImpactQuery.CheckSegment` | pkg/api/impact_handler.go:271-281 | decides the segment rule: length in bytes, separators, control and space characters |
| `ImpactQuery.PrintedIsShort` | pkg/api/impact_handler.go:211-213 | every printed query stays within the query length limit |
| `QueryWire.PrintedOnTheWire` | pkg/impact/client.go:64-98 | on the wire a printed query has the length the server is shown, within the server's limit, and reads back as exactly the pairs the server is given |
| `QueryWire.QueryReads` | pkg/api/impact_handler.go:211-218 | a reader of encoded queries written on its own gives back the pairs of any query, whatever bytes its keys and values hold |
| `QueryWire.SegmentsSpelledOut` | pkg/api/impact_handler.go:271-281 | a segment is valid exactly with 1 to 253 bytes of UTF-8, no separator, a colon only where allowed, and no blank or control code point; the client also refuses the two dot names |
| `QueryWire.KeysSpelledOut` | pkg/api/impact_handler.go:218-227 | the keys of a query are accepted exactly when each is one of the five, has a value, and occurs once |
| `ImpactResponse.ValidateResponse` | pkg/impact/client.go:176-286 | accepts exactly the valid responses: header, scope, echo, evidence clusters, identities, counts, paths, references |
| `ResponseLaws.ValidExactlyAnswers` | pkg/impact/client.go:176-286 | the check accepts a response exactly when it repeats what the query fixes, names no other cluster in its evidence, spells every identity, counts its matches right, and every match is at the end of a walk over listed resources |
| `ImpactResponse.CheckPath` | pkg/impact/client.go:247-262 | accepts exactly chains of Depth steps from the root to the target over listed ids, each walked forward or backward |
| `ImpactResponse.MatchesAreReached` | pkg/impact/client.go:247-267 | every match has a chain of exactly Depth stored edges, 1 to MaxDepth, from the root through listed identities |
| `ImpactResponse.AuthorizationIsReached` | pkg/impact/client.go:268-276 | the same for the authorization facet |
| `ImpactResponse.ListedOnce` | pkg/impact/client.go:210-239 | root and matches are pairwise different resources |
| `ImpactResponse.RebuiltIsTheQuery` | pkg/impact/report.go:29-37 | the query rebuilt for rendering is the asked one without its expected UID |
| `ImpactResponse.RenderAcceptsWhatFetchAccepted` | pkg/impact/report.go:29-37 | rendering accepts a response exactly when some query does |
| `Correlator.InferCalls` | pkg/otel/correlator.go:240-265 | exactly the calls between a span and its indexed parent in another named service, in order |
| `Correlator.CallsAreTheCausedSpans` | pkg/otel/correlator.go:240-265 | the calls are the pairs of a span and the last span of the batch with its parent id, of different named services: one for each such span, in the order of the batch |
| `Correlator.Resolve` | pkg/otel/correlator.go:289-315 | the first known candidate id, most specific first |
| `Correlator.ResolvesToTheBest` | pkg/otel/correlator.go:289-315 | a span resolves exactly to the best known resource of its namespace it may stand for: deployment, then pod, then a deployment, stateful set, daemon set or service named as its service |
| `Correlator.Correlate` | pkg/otel/correlator.go:140-201 | unique sorted pairs, each with its exact count, earliest and latest start, and the names of its first call; summed counts + calls with an unresolved end + calls within one resource = inferred calls |
| `Correlator.MissingCountsEndpoints` | pkg/otel/correlator.go:151-163 | the unmatched number counts unresolved endpoints, not calls |
| `Correlator.OrderDoesNotMatter` | pkg/otel/correlator.go:140-201 | with unique span ids, permuting the batch changes neither pairs nor counts nor times |
| `Correlator.FirstKnownIsFirst` | pkg/otel/correlator.go:309-315 | a resolved id is known and no earlier candidate is |

## Left out

- Heap pointers: sessions, rows, informer runs and callback families are kept in sequences and named by index; a session's or a row's identity is its index, aliasing is shared indexes.
- 64-bit counters: generations, revisions, epochs, serials and metrics are unbounded integers; wrap-around is not modelled.
- Locks of the coverage tracker and the informer memo: their critical sections are single steps; for the informers, deliveries of one type are serial and the model takes all deliveries one after another.
- CoverageSnapshots.Snapshot: the API inventory appears by its generation only; its recorded evidence (Record, Stop, staleness) is not modelled. Waiting for the read lock is not modelled.
- Reflection: a Go type is a list of fields with names, tags and embedding; maps, interfaces and custom marshallers are shapes the preflight refuses. The tag options `string` and `omitzero` occur only on fields the preflight refuses or passes over, and are not modelled there; nor are marshal methods promoted from embedded types.
- RegularIsMeasuredExactly: holds for every regular type; the structs of the response are not written out one by one to show that the names in each differ.
- UTF-8: text inside impact queries is a sequence of Unicode characters, so invalid byte sequences cannot be written down there; the JSON and projection models work on bytes.
- Percent-encoding of the path and the parsing of base URLs: a printed request keeps its decoded path. Its encoded query string is in `QueryWire`.
- Names in the coverage and history models: a character stands for a byte.
- JsonReader: reads compact JSON with integer numbers, which is all the encoder writes. Texts that a marshal method or an opaque kind writes itself are not read back.
- Payloads of history events: MetadataOnlyEvent drops them before queueing and the model's events have none.
- Snapshot availability: a context that ends during the call, and the age of retained-history evidence.
- WriteWithRetry: the sleeps are listed, not slept; a cancelled context only shortens them.
- ImpactAdmission: header handling, write deadlines and the computation itself; a computation yields any reply.
- CRD informers: Kubernetes objects, coverage calls and Rego evaluation inside a callback; a callback is any alternation of context checks and store writes. The naming rule for API descriptors is a yes or no.
- RegoCache: the LRU's eviction order; any entry may be evicted at any time. The nil-cache error.
- Informer: other collectors are any writes to ids of their kinds. Edges, broadcasts and coverage gaps; a placeholder write stands for each Secret an edge names. Store ids are triples, as Kubernetes names hold no slash.
- DefaultKind: resource names that are nothing but a plural ending, on which the source panics.
- Store contracts: the workload and namespace views take one entry per resource id, filed under that id, as the graph store promises.
- Child summaries, cluster and resource levels of the aggregator, labels and view levels: only easy members.
- Correlator: the resolver's id set is given; loading it by namespace, storing and expiring edges are not modelled. Service names and namespace of an edge come from its first call and so may depend on the order.
- ImpactResponse: times and the sharing warning are yes or no; displayed fields that no check reads.
- PostgreSQL, HTTP plumbing, rule packs, signatures, user interface and command line: foreign code or easy members.
