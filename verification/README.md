# Verification of the bh_sim models

This project models five parts of bh_sim in Dafny and proves what they promise over all inputs,
runs and interleavings.

**Engine.** A flowsheet case is compiled (completeness, port compatibility, fan-out, recycle
groups, execution order) and evaluated unit by unit over seven reference unit operations; the run
reports overall mass and energy balances. Floats are reals. The main results are conservation over
every valid acyclic flowsheet (`Conservation.OverallConservation`, `FullyWiredCloses`), the exact
meaning of a valid case and of the execution order (`Compiler.Compile`), the error bound of the
enthalpy inversion (`Properties.InversionRoundTrip`) and the second law of the heat exchanger
(`SecondLaw.NoTemperatureCrossing`). Modules: `Numerics`, `Properties`, `Thermo`, `Flash`,
`Models`, `Catalogue`, `Balances`, `SecondLaw`, `Digraph`, `Components`, `Compiler`, `Runner`,
`Sums`, `Conservation`, `Provenance`, `UnitEffects`, `RunStatus`.

**Run lifecycle.** Attempt records with a canonical manifest and a disposable index, the service's
lock-held regions, the worker supervisor and the worker are step systems: a step is one region held
under a lock or one atomic effect on storage, and faults and crashes fall between them. The classes
`PersistenceStore`, `ApplicationServices`, `WorkerSupervisor`, `MessageLoop` and `SupervisorReader`
hold the mutable fields and their methods are proved against the functions that the step systems
use. Beside the laws that hold over every run, `RunEffects` says what each region achieves. Modules:
`Attempts`, `Store`, `LastValid`, `Lifecycle`, `RunEffects`, `Services`, `Supervision`, `Worker`,
`Reader`, `Delivery`.

**Edit history.** An append-only journal per draft with undo and redo stacks, branches, saves and
request replay, shared by any number of repository instances. A reachable journal is one that
commands dispatched one after another publish (`History.Legal`); racing instances never produce any
other (`HistoryRaces.RacesAreSequential`). Hashes are an injective constructor; that decoding and
encoding a stored document gives the same bytes is assumed here; `CodecLaws.ReencodesIffWide` says of
every document that can be encoded when it does. Modules: `History`, `HistoryRuns`,
`HistoryEffects`, `HistoryExamples`, `HistoryRaces`, `HistoryRepository`, `HistoryCommits`.

**Editing policy.** Atomic edits of a process flow diagram. The wiring rules are enforced when a
connection is made and never checked again; they are proved to survive every sequence of edits
(`PfdSessions.EditingKeepsWiring`). Modules: `Tags`, `Pfd`, `PfdWiring`, `PfdSplit`,
`PfdPaste`, `PfdObjects`, `PfdSessions`, and, for what each edit changes and when it is accepted,
`PfdEffects`, `PfdNames`, `PfdAcceptance`, `PfdRemoval`, `PfdRenames`.

**Codec and framing.** The schema-directed encoder and decoder with first-match unions, and the
length-prefixed stream whose reads may be short. The laws hold for every schema; those that need
union alternatives to be apart or primitive (`CodecLaws.SettledSchema`) allow `float | int | bool |
str`, the one union of the contracts whose alternatives overlap. Modules: `Codec`, `CodecLaws`,
`CodecRecords`, `SignalMessages`, `Framing`, `WireMessages`.

## Where the code promises less than its documentation

- The index is said to be disposable, but a rebuild writes run rows before attempt rows, so one that
  is cut in between exposes a run whose attempt never completed (`LastValid.CutRebuildExposes`), and
  cannot be repeated on that index (`Store.PersistenceStore.RebuildIndex`).
- A view returned to the caller means a completed attempt only while no other process reconciles the
  same root (`Lifecycle.ViewIsDone`, `SecondServiceInterrupts`).
- The docstring of `cancel` says a timer cannot kill a replacement worker. It can, and so can a job's
  deadline: a restart is safe exactly when every run still in the job table has returned and kept its
  old timer (`Supervision.RestartSafeIff`, `RestartCanExpose`). A failed write of the job frame leaves
  a returned run in the table (`LeakedIffUnwritten`).
- The grace period of a cancellation does not bound a worker that ignores it exactly when the timer
  was armed before the worker's hello was read, because the timer then compares with no session; this
  happens with every write done (`Supervision.CancelHuntsIff`, `TimerCanFireInVain`). The worker is not
  told exactly when the frame cannot be written (`CancelTellsIff`), and both may happen together
  (`CancelNeverLostIff`).
- A run id used for two jobs of one session costs the second its frames
  (`Delivery.NothingDroppedIffDistinct`, `RepeatedRunDrops`), and the session fence is open between
  a restart and its handshake (`Reader.StalePassesBeforeHandshake`).
- Replaying the opening that imported a draft does not answer the state at its own entry
  (`HistoryRuns.ReplayAnswersOwnEntry`, `HistoryExamples.ImportReplaysDifferently`).
- Edits taken back after something could be redone leave the document marked as unsaved although it
  has its saved content (`HistoryRuns.DirtyAfterUndos`, `HistoryExamples.SavedContentShownUnsaved`).
- A catalogue with an empty port name defeats the wiring rules (`PfdSessions.NamelessPortBreaksWiring`).
- A bare float hint lets non-finite floats through (`CodecLaws.DecodedTypedIff`).
- A signal that declares itself an integer can be constructed and not encoded, because the float
  alternative of its value is tried first (`SignalMessages.SignalRefusedIffInteger`).
- The prototype liquid's constructor says the heat capacity remains positive but looks at the ends of
  the range only (`Thermo.PositiveThroughoutIff`).
- Two inlets closer than the inversion errors can make the heat exchanger fail
  (`SecondLaw.CloseExchangerFails`); `SecondLaw.ExchangerSucceedsIff` says exactly when it succeeds.

## Model

| member | source | states |
|---|---|---|
| Numerics.Bisect | src/bh_sim/numerics.py:8-38 | the bisection loop with its two end-point shortcuts computes its recursive specification; rejection and non-convergence are separate errors |
| Numerics.BisectStops | src/bh_sim/numerics.py:27-37 | a bracket with a sign change keeps one at every halving; where the loop stops the width is the first width halved `k` times and the answer is the centre |
| Numerics.BisectConverges | src/bh_sim/numerics.py:27-38 | the non-convergence error is unreachable when `n-1` halvings bring the width to the tolerance |
| Numerics.SearchRejects | src/bh_sim/numerics.py:20-25 | a bracket is refused exactly when both ends are non-zero with the same sign |
| Numerics.BisectAccuracy | src/bh_sim/numerics.py:27-37 | on a function that rises at least by a slope, the answer is within half the width tolerance, or the residual tolerance over the slope, of the root |
| Properties.Liquid.InvertEnthalpy | src/bh_sim/engine/properties.py:53-70 | the enthalpy inversion loop computes its specification, with the source's tolerances and error cases |
| Properties.EnthalpyIntegratesHeatCapacity | src/bh_sim/engine/properties.py:35-51 | enthalpy is the exact integral of the quadratic heat capacity, for any two temperatures |
| Properties.EnthalpyFromReference | src/bh_sim/engine/properties.py:45-51 | enthalpy is counted from the reference temperature: it is the integral from there |
| Properties.InversionConverges | src/bh_sim/engine/properties.py:60-70 | for a hard range up to 1e-9 * 2^199 the error "failed to converge" cannot occur |
| Properties.InversionRejects | src/bh_sim/engine/properties.py:56-59 | with positive heat capacity, exactly the enthalpies outside those of the two hard ends are refused |
| Properties.InversionRoundTrip | src/bh_sim/engine/properties.py:45-70 | with heat capacity at least `c`, inverting the enthalpy of T succeeds and returns T within max(1e-9/2, 1e-8/c) |
| Properties.InversionOrder | src/bh_sim/engine/properties.py:53-70 | the inverted temperature is ordered against every temperature of the range as their enthalpies are, up to that error |
| Properties.InversionMonotone | src/bh_sim/engine/properties.py:53-70 | a larger enthalpy never inverts to a temperature lower by more than twice that error |
| Thermo.PositiveThroughoutIff | src/bh_sim/thermo.py:62-73 | a liquid the constructor accepts has positive heat capacity on its whole range exactly when its parabola does not dip to zero at its turn; the constructor looks at the two ends only |
| Thermo.AcceptanceIsNotEnough | src/bh_sim/thermo.py:69-73 | a liquid the constructor accepts although its heat capacity is negative in mid-range and its enthalpy falls there |
| Thermo.TemperatureFromSpecificEnthalpy | src/bh_sim/thermo.py:100-105 | the prototype inversion is the bisection of the enthalpy residual over the range |
| Thermo.EnthalpyInverts | src/bh_sim/thermo.py:90-105 | for an accepted liquid without such a dip, inverting the enthalpy of T returns T within the tolerance over the least heat capacity |
| Flash.FlashHPMeaning | src/bh_sim/engine/properties.py:93-160 | a successful H-P flash keeps enthalpy, pressure and composition and takes its temperature from the inversion, inside the hard range |
| Flash.FlashTPMeaning | src/bh_sim/engine/properties.py:93-160 | a successful T-P flash keeps temperature, pressure and composition and reads its enthalpy off the liquid |
| Flash.FlashTPSucceedsIff | src/bh_sim/engine/properties.py:93-160 | a T-P flash succeeds exactly for a known pure fluid of the package at a temperature in the hard range with positive heat capacity, and is valid exactly within the evidence range, else extrapolated |
| Flash.FlashHPSucceedsIff | src/bh_sim/engine/properties.py:93-160 | an H-P flash succeeds exactly for a known pure fluid whose inversion finds such a temperature, with the same validity |
| Balances.UnitBalance | src/bh_sim/engine/models.py:131-470 | for all seven units a successful evaluation fills exactly the declared outlets and passes on the mass and the enthalpy flow it was fed, plus the duty it reports |
| UnitEffects.SourceDoes | src/bh_sim/engine/models.py:131-178 | a source puts out its mass flow of its pure material at its temperature and pressure, with the enthalpy of the liquid there |
| UnitEffects.SourceSucceedsIff | src/bh_sim/engine/models.py:131-178 | a source of a known material succeeds exactly with all three parameters and a temperature in the hard range |
| UnitEffects.SinkDoes | src/bh_sim/engine/models.py:180-197 | a sink takes every stream, puts nothing out, and passes on its validity |
| UnitEffects.HeaterDoes | src/bh_sim/engine/models.py:199-243 | a heater reports its `heat_duty`, and mass flow times the enthalpy rise of its stream is that duty |
| UnitEffects.HeaterSucceedsIff | src/bh_sim/engine/models.py:199-243 | a heater succeeds exactly with a duty, a positive flow, and an outlet enthalpy between those of the two ends of the hard range |
| UnitEffects.HeaterWarms | src/bh_sim/engine/models.py:199-243 | a duty that is not negative does not cool the stream, and one that is not positive does not heat it, beyond the inversion errors |
| UnitEffects.SplitterDoes | src/bh_sim/engine/models.py:283-312 | a splitter sends its fraction of the flow to the first outlet and the rest to the second, both in the state of the inlet |
| UnitEffects.SplitterSucceedsIff | src/bh_sim/engine/models.py:283-312 | it succeeds exactly with a fraction from 0 to 1 |
| UnitEffects.MixerDoes | src/bh_sim/engine/models.py:245-281 | a mixer adds the flows of two streams of one material; what one gains in heat the other gives up; the pressure is the lower one |
| UnitEffects.MixerSucceedsIff | src/bh_sim/engine/models.py:245-281 | it succeeds exactly for two streams of one material and composition with a total flow other than zero and a mixed enthalpy inside the hard range |
| UnitEffects.ExchangerDoes | src/bh_sim/engine/models.py:314-388 | the heat moved is the effectiveness times the lesser of what the hot stream can give and the cold one take; the hot stream loses exactly that and the cold one gains it; the validity is the worst of the four |
| UnitEffects.RadiatorDoes | src/bh_sim/engine/models.py:390-470 | a radiator brings its stream to the enthalpy of its outlet temperature and reports the heat that leaves, never a gain |
| UnitEffects.RadiatorSucceedsIff | src/bh_sim/engine/models.py:390-470 | for a flashed stream of a known liquid it succeeds exactly with a target in the hard range, a positive flow, a target enthalpy not above the stream's and inside the range of its inversion, an emissivity above 0 and up to 1, and a mean temperature other than the sink's in fourth power |
| UnitEffects.RequiredIsEnough | src/bh_sim/engine/models.py:46-78 | a unit with the values its descriptor requires, fed on its inlets, never fails for a missing one |
| UnitEffects.RequiredIsNeeded | src/bh_sim/engine/models.py:474-553 | and no required value can be left out: whenever an evaluation succeeds all of them are there |
| Balances.ReferenceShape | src/bh_sim/engine/models.py:474-553 | in the reference catalogue every inlet takes material and is required, and no port identifier repeats |
| Provenance.OutletsInherit | src/bh_sim/engine/models.py:180-470 | every outlet carries the material, composition, pressure and flow of the inlet it continues; mixing takes the lower pressure of two streams of one material |
| Provenance.RunStreamsFromSources | src/bh_sim/engine/runner.py:105-125 | in every run each material stream has the pure material of one of the case's sources and the pressure of one of them |
| SecondLaw.EnthalpyStaysBetween | src/bh_sim/engine/models.py:346-362 | neither outlet enthalpy passes the other stream's inlet temperature exactly when both duty limits are non-negative |
| SecondLaw.ExchangerSucceedsIff | src/bh_sim/engine/models.py:314-388 | for flashed streams with flow of liquids with positive heat capacity, the exchanger succeeds exactly when the hot inlet is hotter, the limits are defined and each outlet enthalpy lies between those of the two ends of its liquid's hard range |
| SecondLaw.ExchangingIff | src/bh_sim/engine/models.py:321-353 | the limits are defined exactly when the effectiveness is in [0,1] and each inlet temperature lies in the hard range of the other liquid |
| SecondLaw.NoTemperatureCrossing | src/bh_sim/engine/models.py:314-366 | with positive flows, effectiveness in [0,1], positive heat capacities and non-negative limits, both outlet inversions succeed and both outlet temperatures lie between the inlets up to the inversion errors |
| SecondLaw.ExchangerOutletsBetween | src/bh_sim/engine/models.py:314-388 | the same for the evaluated unit: it does not fail, and its two outlets are such states |
| SecondLaw.GapMakesLimitsPositive | src/bh_sim/engine/models.py:346-353 | both limits are non-negative as soon as the inlet temperatures differ by more than the inversion errors of the two liquids |
| SecondLaw.CloseInletsCanFail | src/bh_sim/engine/models.py:321-362 | closer inlets can fail: an inlet from an H-P flash has more enthalpy than the hotter temperature allows, the limit is negative and the outlet inversion is refused |
| SecondLaw.CloseExchangerFails | src/bh_sim/engine/models.py:314-388 | so the exchanger of those two inlets fails |
| SecondLaw.EvaluationKeepsFlashed | src/bh_sim/engine/models.py:93-129 | a unit fed with flashed states puts out flashed states |
| Conservation.RunStreamsFlashed | src/bh_sim/engine/runner.py:105-125 | every material stream of every run is a flashed state, so the exchanger law applies in every run |
| Digraph.LexicographicalSort | src/bh_sim/engine/compiler.py:194-195 | the sort that repeatedly takes the least ready node computes its specification |
| Digraph.SortedIffAcyclic | src/bh_sim/engine/compiler.py:194-195 | it lists every node exactly when the graph has no cycle |
| Digraph.LeastOrderIsLeast | src/bh_sim/engine/compiler.py:195-195 | of all topological orders it returns the lexicographically least |
| Components.StrongComponents | src/bh_sim/engine/compiler.py:180-184 | the computed sets partition the nodes into the classes of mutual reachability |
| Components.RecycleIffCycle | src/bh_sim/engine/compiler.py:180-184 | a component has two members or a self-edge exactly when a cycle runs through it, and then through every member |
| Components.CondensedOrder | src/bh_sim/engine/compiler.py:196-202 | in the cyclic case the order is still a permutation, keeps each component together, and points every edge between components forward |
| Compiler.Compile | src/bh_sim/engine/compiler.py:35-234 | a case is reported valid exactly when it is: complete units, compatible wiring, no outlet used or inlet fed twice, required inputs fed, no cycle; the diagnostics are exactly the defects of units, connections, inputs and recycles, each with its code and subject; recycle groups are the cyclic components; the order is as above |
| Compiler.FreedomCountsLacks | src/bh_sim/engine/compiler.py:48-83 | the degrees of freedom are the number of distinct things the units lack: required parameters and metadata not given, and required inputs nothing feeds |
| Compiler.ReferenceIsClean | src/bh_sim/engine/models.py:474-553 | the reference catalogue names nothing twice, so that count applies to it |
| Compiler.CheckConnections | src/bh_sim/engine/compiler.py:84-161 | the connection loop reports nothing exactly when every connection joins known compatible ports and no port is used twice, counts the accepted feeds of each input, and builds the flow graph |
| Compiler.CheckInputs | src/bh_sim/engine/compiler.py:163-178 | the input loop counts exactly the required inputs that nothing feeds |
| Compiler.FindRecycles | src/bh_sim/engine/compiler.py:180-184 | the recycle groups are exactly the sorted components through which a cycle runs |
| Compiler.OneFeedEach | src/bh_sim/engine/compiler.py:139-178 | in a valid case each required input has exactly one feed, whose source feeds nothing else and is compatible |
| Runner.Run | src/bh_sim/engine/runner.py:52-265 | an invalid case is not evaluated; otherwise the evaluations are those of the execution order up to the first failure, each from the table of earlier outputs, and a completed run reports balances, closure and validities as specified |
| Runner.Gather | src/bh_sim/engine/runner.py:108-117 | the inputs of a unit are its ports' feeds looked up in the output table, in port order |
| Runner.AddUp | src/bh_sim/engine/runner.py:157-227 | the accumulation loop computes the source, sink and duty totals |
| RunStatus.WorstIsReported | src/bh_sim/engine/runner.py:31-38 | the reported validity is invalid if any evaluation is, else extrapolated if any is, else valid if any is, else unknown |
| RunStatus.PassesIffNegligible | src/bh_sim/engine/runner.py:196-232 | a balance passes exactly when its residual is at most 1e-8 of the largest total, or of 1, and closure passes when both do |
| Conservation.SourceEarlier | src/bh_sim/engine/runner.py:105-113 | in a valid case the source of every connection is evaluated before its target |
| Conservation.InputsReady | src/bh_sim/engine/runner.py:108-117 | so the upstream lookup is always defined: the table of the first n units holds a material value for every inlet of the next |
| Conservation.RunIsFixedPoint | src/bh_sim/engine/runner.py:105-125 | every unit's evaluation is also its evaluation from the final table of all outputs |
| Conservation.ConservedSoFar | src/bh_sim/engine/runner.py:157-209 | at every moment of a run, what sources and equipment have put in less what sinks have taken stands in the outlets not yet consumed (mass and enthalpy) |
| Conservation.PendingIsDangling | src/bh_sim/engine/runner.py:105-125 | after a complete run those outlets are the ones without a connection |
| Conservation.OverallConservation | src/bh_sim/engine/runner.py:157-227 | for every complete run of every valid case the reported mass residual is the mass flow, and the energy residual the enthalpy flow, on the unconnected outlets |
| Conservation.FullyWiredCloses | src/bh_sim/engine/runner.py:196-232 | so with every material outlet connected both residuals are zero and both balances pass |
| Attempts.MergeOrderMatters | src/bh_sim/persistence/store.py:27-50 | two manifests of one attempt resolve to the same state in either order unless both are terminal with different states |
| Attempts.MergeOrderIrrelevant | src/bh_sim/persistence/store.py:453-464 | in every consistent store, merging the current and the legacy manifest succeeds and gives the same state in either order |
| Attempts.RecordedKeeps | src/bh_sim/persistence/store.py:272-320 | one write by any store, whole or cut short before the manifest or between manifest and index commit: admission identity, first terminal record and every other attempt stay, and the index is never ahead |
| Attempts.RecordedSucceeds | src/bh_sim/persistence/store.py:541-552 | what a successful write answers is both the durable state and the index row |
| RunEffects.CutWrite | src/bh_sim/persistence/store.py:541-552 | a write cut before its manifest leaves the disk as it was; one cut before the commit has moved the durable record and not the index; both answer a failure |
| Attempts.IndexStandsIn | src/bh_sim/persistence/store.py:544-549 | where the manifest of an attempt is lost its index row stands in: a write brings a terminal record back and refuses another identity |
| Store.PersistenceStore.RecordAttempt | src/bh_sim/persistence/store.py:541-552 | the method resolves, publishes the manifest and commits the index, with a fault at either point, as specified |
| Store.PersistenceStore.ReadAttemptManifest | src/bh_sim/persistence/store.py:453-464 | reading merges the two manifest paths |
| Store.PersistenceStore.LatestValid | src/bh_sim/persistence/store.py:245-261 | the lookup returns the newest eligible run of the case, or none |
| Store.LatestIsNewest | src/bh_sim/persistence/store.py:245-261 | of the eligible runs of the case none was made later, and of several made at one time none has a greater identifier |
| Store.SavedDoes | src/bh_sim/persistence/store.py:497-500 | a row is saved with its artifact, once; a second row of a run is refused with its artifact left behind, and no other row or artifact changes |
| Store.PersistenceStore.ListAttempts | src/bh_sim/persistence/store.py:557-574 | the listing is the index overridden by the merged manifests |
| Store.PersistenceStore.ReconcileStartup | src/bh_sim/persistence/store.py:576-591 | startup reconciliation leaves no attempt open and interrupts exactly the open ones |
| Store.PersistenceStore.RebuildIndex | src/bh_sim/persistence/store.py:593-634 | from any index, a rebuild writes run rows and then attempt rows resolved against those there, and may be cut after any commit; left alone it ends exactly when no run with an artifact has a row yet, and the attempt rows are then the durable records |
| LastValid.FilterTrustworthy | src/bh_sim/persistence/store.py:245-261 | the last-valid filter can be trusted for a run with one attempt exactly when the attempt is indexed or durably done |
| LastValid.TraceKeepsSound | src/bh_sim/persistence/store.py:541-552 | over every interleaving of writes and faults no attempt changes identity, steps back, or changes once terminal, and the index stays behind the manifests |
| LastValid.LastValidIsDone | src/bh_sim/persistence/store.py:245-261 | in every such state a last-valid run executed for an attempt has a completed, persisted manifest |
| LastValid.FinishedRebuildIsTrustworthy | src/bh_sim/persistence/store.py:593-634 | after a finished rebuild the filter can be trusted again |
| LastValid.CutRebuildExposes | src/bh_sim/persistence/store.py:593-634 | a rebuild that dies after the run rows exposes a run whose attempt never completed |
| Lifecycle.EveryInterleaving | src/bh_sim/application/services.py:231-443 | over every interleaving of run regions, cancellations, faults, crashes and other processes the store stays consistent, every durable attempt only moves forward, and a last-valid run executed for an attempt belongs to a completed, persisted one |
| Lifecycle.CancellationRace | src/bh_sim/application/services.py:239-443 | over storage that works, an attempt whose run returned a view is completed, persisted and indexed; one whose cancellation was acknowledged is cancelled, was never indexed and its start is rejected as cancelled; an idle service leaves every attempt terminal |
| Lifecycle.ViewIsDone | src/bh_sim/application/services.py:324-375 | a run that answers a view is durably completed exactly when no other process had closed its attempt first |
| Lifecycle.CancelledEventIsCancelled | src/bh_sim/application/services.py:324-400 | a worker's cancelled event always rejects the run as cancelled; its attempt is durably cancelled exactly when no other process had closed it first |
| Lifecycle.HandledAsRaised | src/bh_sim/application/services.py:376-400 | over storage that works, an error from before publication is answered as itself unless the attempt is cancelled, and the handler cancels nothing |
| RunEffects.CancelCloses | src/bh_sim/application/services.py:428-436 | over working storage a cancel of an open attempt leaves it durably and in the index cancelled at the given time and acknowledged, and nothing else changed |
| RunEffects.CancelledForGood | src/bh_sim/application/services.py:231-443 | from then on its run is rejected as cancelled or never answered, in every continuation, whatever fails, crashes or is written by others |
| RunEffects.CancelledRunEnds | src/bh_sim/application/services.py:297-404 | the rest of the cancelled run, from wherever it stands and whatever fails, leads to the rejection and writes nothing |
| RunEffects.CutCancelRejects | src/bh_sim/application/services.py:225-229 | a cancel whose write fails acknowledges nothing, but the run is still rejected, by the record in memory |
| RunEffects.UndisturbedRun | src/bh_sim/application/services.py:239-404 | a run over working storage that nobody disturbs ends as its event says: a publishable result answers a view, is saved and completed with it, and is last valid exactly if its statuses are accepted; everything else closes the attempt as cancelled or failed |
| RunEffects.AdmissionCut | src/bh_sim/application/services.py:270-290 | an admission whose write fails executes nothing and is recorded as failed, durably or in memory |
| RunEffects.RunningCut | src/bh_sim/application/services.py:297-300 | an attempt that cannot be marked as running executes nothing and its run raises before publication |
| RunEffects.PublicationCut | src/bh_sim/application/services.py:324-400 | a publication of which any write fails is answered as a failure to persist, with the artifact kept |
| RunEffects.CrashDoes | src/bh_sim/application/services.py:84-93 | a crash forgets what only memory held and leaves the disk, and the service is idle |
| Lifecycle.SecondServiceInterrupts | src/bh_sim/application/services.py:324-375 | a reachable state in which a second service starting on the same root closes a running attempt as interrupted while the first still answers a view |
| Services.ApplicationServices.AdmitRun | src/bh_sim/application/services.py:239-292 | the admission region refuses a second run and otherwise records the attempt as specified |
| Services.ApplicationServices.BeginRunning | src/bh_sim/application/services.py:297-300 | the region before execution marks the attempt running unless it was cancelled |
| Services.ApplicationServices.PublishTerminal | src/bh_sim/application/services.py:324-375 | the publication region saves and completes, or closes as failed or cancelled, as specified |
| Services.ApplicationServices.HandleError | src/bh_sim/application/services.py:376-400 | the error region rejects a cancelled attempt as cancelled, records any other as failed, and raises an error from before publication again as it was |
| Services.ApplicationServices.LeaveRun | src/bh_sim/application/services.py:401-404 | the last region frees the service and reports the outcome |
| Services.ApplicationServices.CancelRun | src/bh_sim/application/services.py:406-443 | cancelling addresses the run named, else the active one, else that of the newest open attempt; it sets the event first, and over working storage answers the first open attempt of the run durably closed as cancelled at that time, or nothing where none is open |
| Supervision.NoLostCancellation | src/bh_sim/adapters/worker_supervisor.py:307-343 | in every interleaving, once a cancel call for a run has completed and for as long as its job, which was sent, runs on its worker: the cancel frame follows the job frame unless a write of it failed, and a timer is armed that has not fired and whose captured session still stands, unless the worker's hello was read after it was armed |
| Supervision.CancelTellsIff | src/bh_sim/adapters/worker_supervisor.py:317-319 | whatever follows, the cancel frame stays behind the job frame while the job runs exactly when a cancel call could write it, now or earlier |
| Supervision.CancelHuntsIff | src/bh_sim/adapters/worker_supervisor.py:320-329 | whatever follows, a timer that can still kill the worker stays armed while the job runs, so that a worker which ignores the frame is bounded, exactly when the session was known as the timer was armed |
| Supervision.CancelNeverLostIff | src/bh_sim/adapters/worker_supervisor.py:307-329 | a cancellation can be lost altogether, neither told to the worker nor bounded by a timer, exactly when both halves fail |
| Supervision.TimerCanFireInVain | src/bh_sim/adapters/worker_supervisor.py:92-163 | a run from the initial state whose timer fires in vain while the worker goes on, even with every write done: the job is sent and cancelled before the hello is read |
| Supervision.FiresIffHunted | src/bh_sim/adapters/worker_supervisor.py:331-343 | a timer that gets its turn while its run's worker lives kills it exactly when it is that run's unfired timer and its session still stands |
| Supervision.HuntedIsKilled | src/bh_sim/adapters/worker_supervisor.py:331-343 | a hunted worker can always be killed by the next steps of its own timer, and the kill hits the process that got the job |
| Supervision.NeverWritten | src/bh_sim/adapters/worker_supervisor.py:237-246 | once the event is set before the job frame is written, the frame is never written |
| Supervision.ExecuteDoes | src/bh_sim/adapters/worker_supervisor.py:234-246 | a job goes to a live worker, and not once its cancellation was asked for; it is then in the job table and its frame the last written; if the frame cannot be written it returns and stays in the table |
| Supervision.LeaveDoes | src/bh_sim/adapters/worker_supervisor.py:284-295 | the last event takes the job out of the job table and leaves its timer and every other job |
| Supervision.FinishDoes | src/bh_sim/adapters/worker_supervisor.py:300-305 | a job that returns is in neither table, and no other run is touched |
| Supervision.DeadlineDoes | src/bh_sim/adapters/worker_supervisor.py:258-265 | a deadline kills the current process, if there is one |
| Supervision.SpawnDoes | src/bh_sim/adapters/worker_supervisor.py:92-113 | a start brings a live process none of the jobs or timers in the tables belongs to |
| Supervision.StopDoes | src/bh_sim/adapters/worker_supervisor.py:165-187 | after a stop no process, session or armed timer is left |
| Supervision.StoppedIsSilent | src/bh_sim/adapters/worker_supervisor.py:165-187 | and until the next start nothing is killed, not even by a waiting timer or a deadline, and no frame is written |
| Supervision.GoneNeverKills | src/bh_sim/adapters/worker_supervisor.py:331-343 | a run that has left the job table kills nothing any more, not even by a timer already waiting for the lock |
| Supervision.LeakedIffUnwritten | src/bh_sim/adapters/worker_supervisor.py:245-305 | a returned run has left the job table exactly when its job frame could be written |
| Supervision.KillsAreOwn | src/bh_sim/adapters/worker_supervisor.py:307-343 | as long as a worker is only replaced when every run left in the table has returned and kept its old timer, every timer and deadline kills only the worker that was given its own run's job |
| Supervision.RestartSafeIff | src/bh_sim/adapters/worker_supervisor.py:92-113 | a restart spares the replacement, whatever follows until the next one, exactly when every run still in the table has returned and kept its old timer |
| Supervision.RestartCanExpose | src/bh_sim/adapters/worker_supervisor.py:92-113 | a worker that dies during a job leaves a reachable state in which a restart is not safe |
| Supervision.WorkerSupervisor.Admit | src/bh_sim/adapters/worker_supervisor.py:234-246 | the admission region writes the job frame exactly when the worker lives, no cancellation is requested and the write works |
| Supervision.WorkerSupervisor.CancelJob | src/bh_sim/adapters/worker_supervisor.py:314-329 | a cancel call writes the cancel frame and arms one timer per run with the current process and session |
| Supervision.WorkerSupervisor.TimerExpires | src/bh_sim/adapters/worker_supervisor.py:322-329 | the timer's thread begins and waits for the lock with what was captured |
| Supervision.WorkerSupervisor.ForceKillIfStillRunning | src/bh_sim/adapters/worker_supervisor.py:335-343 | the timer kills only while its run is in the table on the captured process and session, and is over afterwards |
| Supervision.WorkerSupervisor.TakeOut | src/bh_sim/adapters/worker_supervisor.py:284-295 | the last event of a job, or a fault, takes the run out of the table and leaves its timer |
| Supervision.WorkerSupervisor.Release | src/bh_sim/adapters/worker_supervisor.py:300-305 | the final region takes the run out of the table and disarms its timer |
| Supervision.WorkerSupervisor.KillAtDeadline | src/bh_sim/adapters/worker_supervisor.py:258-265 | the job deadline kills whatever process is current |
| Supervision.WorkerSupervisor.Start | src/bh_sim/adapters/worker_supervisor.py:92-113 | a live worker is left alone; a new one starts without a session, and the job table is not cleared |
| Supervision.WorkerSupervisor.StopWorker | src/bh_sim/adapters/worker_supervisor.py:165-187 | stopping disarms all timers and forgets process and session, and leaves the job table |
| Worker.JobsAreDisciplined | src/bh_sim/worker/entry.py:160-292 | each job's frames, picked out of the interleaved output, begin a disciplined run (acceptance, at most one progress, one terminal event last, increasing sequence numbers), and are a whole one exactly when its thread is over |
| Worker.ThreadsEnd | src/bh_sim/worker/entry.py:160-292 | whatever the loop and the other threads do, a job's thread can take its next step until it is over, and takes at most six |
| Worker.OneAtATime | src/bh_sim/worker/entry.py:294-368 | at most one job is unfinished at any time |
| Worker.CancelledByOwnRequest | src/bh_sim/worker/entry.py:302-305 | a job ends cancelled only if a cancel request for its own run was read after it started |
| Worker.CancelSets | src/bh_sim/worker/entry.py:302-305 | a cancel read while the worker was busy with that run sets the event of its job; any other does nothing |
| Worker.CancelledInTime | src/bh_sim/worker/entry.py:173-205 | a job whose event is set before its first look ends cancelled if it ends, and one whose event is set before its second look never completes, in every continuation |
| Worker.RequestDoes | src/bh_sim/worker/entry.py:306-368 | a run request starts one job on a free worker and is refused by a fault on a busy one; validations are answered; a shutdown ends the reading |
| Worker.ClosedReadsNothing | src/bh_sim/worker/entry.py:294-307 | once reading has ended no job is added or cancelled, whatever the threads still do |
| Worker.RequestsAccounted | src/bh_sim/worker/entry.py:308-368 | every run request read is started as one job or refused by one busy fault, and none is invented |
| Worker.MessageLoop.HandleMessage | src/bh_sim/worker/entry.py:301-370 | one round of the loop: cancel only the active busy run, refuse a job while busy, otherwise start it with its own event |
| Worker.Execute | src/bh_sim/worker/entry.py:160-292 | the whole thread of a job sends what its steps send one after another, a disciplined run that ends as its two looks at the event and its exceptions say |
| Reader.SupervisorReader.ReadAll | src/bh_sim/adapters/worker_supervisor.py:360-436 | the reader loop hands on what its specification delivers and remembers the last sequence numbers |
| Reader.PassedIffNewest | src/bh_sim/adapters/worker_supervisor.py:375-406 | a frame passes exactly when session and protocol are trusted and no earlier trusted frame of its run reaches its sequence number |
| Reader.PassedIncrease | src/bh_sim/adapters/worker_supervisor.py:395-406 | what passes of one run has strictly increasing sequence numbers, over any mixture of sessions, and never names a session other than a known one |
| Reader.HandedOnIff | src/bh_sim/adapters/worker_supervisor.py:407-436 | a passed frame is handed on exactly when its run is in the job table, or its validation request still waits |
| Reader.UntrustedIsIgnored | src/bh_sim/adapters/worker_supervisor.py:375-394 | a frame of a session other than the known one, or of another protocol, is neither handed on nor remembered |
| Reader.StalePassesBeforeHandshake | src/bh_sim/adapters/worker_supervisor.py:375-384 | while no session is known yet a frame of the old worker passes; once one is known it does not |
| Delivery.NothingDropped | src/bh_sim/adapters/worker_supervisor.py:395-436 | with one run id per job, every frame of the worker is handed on, in order |
| Delivery.NothingDroppedIffDistinct | src/bh_sim/adapters/worker_supervisor.py:98-98 | once all jobs are over, nothing was dropped exactly when no run id was used twice in the session |
| Delivery.RepeatedRunDrops | src/bh_sim/adapters/worker_supervisor.py:395-406 | a run of the worker from its initial state that uses one run id twice, and a frame of it that is dropped |
| History.ReversalNeverConflicts | src/bh_sim/application/history.py:225-248 | on no reachable journal is an undo or redo refused as conflicting, or its original entry missing |
| History.LegalIsStacked | src/bh_sim/application/history.py:201-290 | on every reachable journal the undo entries chain after-hash to before-hash up to the head, and the redo entries chain down from it |
| History.LegalIsChained | src/bh_sim/application/history.py:310-370 | every reachable journal is gapless, each entry starting from its parent's content, with unique entry and request identifiers and checked documents |
| HistoryRuns.UndosThenRedos | src/bh_sim/application/history.py:225-248 | k undos and then k redos by the same actor are all accepted and restore the content, the branch and both stacks |
| HistoryRuns.EditsThenUndos | src/bh_sim/application/history.py:202-248 | k edits and then k undos by the same actor restore the content and the undo stack, and the branch unless there was something to redo |
| HistoryRuns.DirtyAfterUndos | src/bh_sim/application/history.py:125-132 | after them there are unsaved changes exactly when there were before or the first edit left a branch with something to redo |
| HistoryExamples.SavedContentShownUnsaved | src/bh_sim/application/history.py:125-132 | a saved draft that is edited and has the edit taken back shows unsaved changes although its content is the saved one |
| HistoryRuns.SaveCleans | src/bh_sim/application/history.py:249-260 | a save leaves nothing unsaved |
| HistoryRuns.ReplayAnswersOwnEntry | src/bh_sim/application/history.py:160-200 | replaying a committed request publishes nothing and answers the state at its own entry, except exactly for an opening that imported the draft, which answers as an opening |
| HistoryEffects.CommandDoes | src/bh_sim/application/history.py:147-290 | what each command publishes: an edit the policy's document on a new undo entry, on a new branch exactly if something could be redone; an undo or redo the content before or after its original, with the stacks moved by one; a save, or an import, its revision; a branch exactly the content of its origin, on a new branch from it with empty stacks |
| HistoryEffects.NamedOnce | src/bh_sim/application/history.py:147-290 | on a reachable journal an identifier names one entry |
| HistoryEffects.PublishesIffAcceptable | src/bh_sim/application/history.py:166-290 | a command publishes exactly when it is new, made at the head, and its own condition holds |
| HistoryEffects.RefusedBecause | src/bh_sim/application/history.py:166-200 | otherwise the reason is the first that applies: no draft, an identifier used by another request, not at the head, and then the reasons of the command |
| HistoryEffects.HeadRefusedBecause | src/bh_sim/application/history.py:201-290 | the reasons of each command at the head |
| HistoryEffects.ViewAnswers | src/bh_sim/application/history.py:186-187 | a view, or an opening of a known draft, answers the journal up to the entry named, or all of it |
| HistoryEffects.StartAgain | src/bh_sim/application/history.py:162-169 | a start on a known draft is answered with the entry it published itself, if it did, and refused otherwise |
| HistoryExamples.ImportReplaysDifferently | src/bh_sim/application/history.py:160-200 | a reachable journal whose import is replayed with a later state than its own |
| HistoryRaces.RacesAreSequential | src/bh_sim/adapters/history.py:28-48 | over every interleaving of any number of instances, with crashes anywhere, every journal is one that commands dispatched one after another publish, no record is lost or altered, and acknowledged entries stay |
| HistoryRaces.RacedJournalIsSound | src/bh_sim/adapters/history.py:140-171 | so a reader always accepts it: gapless, unique request identifiers, chained stacks, and every content it names is stored |
| HistoryRaces.EntriesIffChain | src/bh_sim/adapters/history.py:140-156 | a journal is accepted exactly when its files are a gapless chain of the draft |
| HistoryRaces.RetryAnswersOwnEntry | src/bh_sim/adapters/history.py:28-48 | a retry of a request whose record is linked, whether it was ever reported or not, publishes nothing after any further steps and is answered with its own entry, or as the opening it was |
| HistoryCommits.RecheckPassesIffFree | src/bh_sim/adapters/history.py:158-171 | over every interleaving, the second reading lets exactly those entries pass whose number is still free |
| HistoryCommits.UndisturbedCommit | src/bh_sim/adapters/history.py:28-48 | a dispatch that nobody disturbs is published, with its content stored and its caller told, and touches no other draft |
| HistoryRepository.HistoryDirectory.PublishRecord | src/bh_sim/adapters/history.py:28-48 | a name in use rejects the writer and nothing is overwritten |
| HistoryRepository.JsonHistoryRepository.Checkpoint | src/bh_sim/adapters/history.py:75-90 | content is stored once and an existing different copy is refused |
| HistoryRepository.JsonHistoryRepository.GetDocument | src/bh_sim/adapters/history.py:98-113 | a document is returned exactly when the stored bytes have the hash asked for, cached or not, and the cache stays within its bound |
| HistoryRepository.JsonHistoryRepository.ReadEntries | src/bh_sim/adapters/history.py:140-156 | the reading loop accepts exactly the chains whose head is readable |
| HistoryRepository.JsonHistoryRepository.Append | src/bh_sim/adapters/history.py:158-171 | exactly the next record is published, or nothing |
| HistoryRepository.HistoryService.DispatchRequest | src/bh_sim/application/history.py:147-291 | a dispatch answers what the command does (see `HistoryEffects`) and the journal afterwards is the journal before with the published entry, if there is one |
| Tags.ValueOfPadded | src/bh_sim/application/pfd.py:195-195 | zero-padded decimals of distinct numbers differ |
| Tags.TagIs | src/bh_sim/application/pfd.py:191-198 | a tag is its prefix and then the number, in at least as many digits as the padding, with no leading zero beyond it |
| Tags.TagsDiffer | src/bh_sim/application/pfd.py:195-197 | and so do the tags made of them, ignoring case |
| Tags.NextTag | src/bh_sim/application/pfd.py:191-198 | the naming loop ends for every finite set of used tags, with the first number from the start whose tag is unused ignoring case; the next number is larger |
| PfdWiring.ConnectWiredIff | src/bh_sim/application/pfd.py:243-258 | an accepted connection keeps the wiring sound exactly when the ends it stands for fit, which they do whenever both port names are non-empty |
| PfdWiring.ApplyKeepsWiring | src/bh_sim/application/pfd.py:225-487 | with no empty port name in the catalogue, every accepted elementary edit keeps a sound wiring sound |
| PfdSessions.NamelessPortBreaksWiring | src/bh_sim/application/pfd.py:214-218 | with an empty port name a connection is accepted that stands for one at a port the unit does not have |
| PfdSplit.SplitKeepsWiring | src/bh_sim/application/pfd.py:489-535 | a split keeps it sound |
| PfdSplit.SplitShape | src/bh_sim/application/pfd.py:489-535 | a split adds one splitter and two streams, keeps the stream's identity on the segment from its source, and leaves every other unit and stream in place |
| PfdPaste.PasteShape | src/bh_sim/application/pfd.py:537-577 | a paste leaves everything in place and appends copies of exactly the selected units, configured as given, and, if asked for, of exactly the streams between them |
| PfdPaste.PasteKeepsWiring | src/bh_sim/application/pfd.py:537-577 | a paste keeps a sound wiring sound |
| PfdPaste.PasteEquipment | src/bh_sim/application/pfd.py:537-577 | the two loops of a paste compute its specification, stopping at the first rejected edit |
| PfdSessions.EditingKeepsWiring | src/bh_sim/application/pfd.py:225-577 | over every sequence of commands, accepted or rejected, a sound wiring stays sound |
| PfdWiring.PresentationKeepsEngineering | src/bh_sim/application/pfd.py:305-449 | edits of the presentation leave every unit and stream as it was; what each of them changes is in the rows of `PfdEffects` |
| PfdWiring.ApplyIsChecked | src/bh_sim/application/pfd.py:485-487 | whatever an elementary edit is accepted with passes the document check |
| PfdSplit.SplitIsChecked | src/bh_sim/application/pfd.py:534-535 | so does the result of a split |
| PfdPaste.PasteIsChecked | src/bh_sim/application/pfd.py:537-577 | and of a paste |
| PfdWiring.ConnectionIsNamed | src/bh_sim/application/pfd.py:256-258 | a new stream's tag is unused ignoring case and its number is at least the next number and the start, and is spent |
| PfdWiring.NumberNeverFalls | src/bh_sim/application/pfd.py:191-198 | no edit lowers the next number and a connection raises it |
| PfdEffects.RecoveredIs | src/bh_sim/application/pfd.py:81-98 | recovery drops members of groups that are no streams and an active group that is none, and touches nothing else |
| PfdEffects.AddDoes | src/bh_sim/application/pfd.py:232-242 | an addition appends the unit and its object, with the first tag from 1 on that no object has, ignoring case |
| PfdAcceptance.AddIff | src/bh_sim/application/pfd.py:232-242 | it is made exactly of a known model, under a new identity, if that tag is good |
| PfdEffects.ConnectDoes | src/bh_sim/application/pfd.py:243-258 | a connection appends the stream and its object, with the first free number from the next one and the start on, and spends it |
| PfdAcceptance.ConnectIff | src/bh_sim/application/pfd.py:200-258 | it is made exactly between two units, at an open output and an open input of one medium, under a new identity, if its tag is good |
| PfdEffects.ConnectRefusedBecause | src/bh_sim/application/pfd.py:200-258 | each thing that stands in its way has its own refusal |
| PfdEffects.ConfigureDoes | src/bh_sim/application/pfd.py:308-327 | a configuration replaces the inputs of the one unit |
| PfdAcceptance.ConfigureIff | src/bh_sim/application/pfd.py:308-327 | it is made exactly of a unit that is there, with inputs that are accepted |
| PfdEffects.ArrangeDoes | src/bh_sim/application/pfd.py:305-307 | an object that is arranged gets the layout and keeps its tag and lineage; nothing else changes |
| PfdAcceptance.ArrangeIff | src/bh_sim/application/pfd.py:305-307 | every object that is shown may be arranged |
| PfdEffects.RestyleDoes | src/bh_sim/application/pfd.py:385-394 | settings are replaced as a whole |
| PfdEffects.UpsertGroupDoes | src/bh_sim/application/pfd.py:397-405 | an upserted group is there as given, in place of the one with its identity, and every other stays |
| PfdEffects.UpsertGroupIff | src/bh_sim/application/pfd.py:397-405 | it is taken exactly when its members are streams |
| PfdEffects.RemoveGroupDoes | src/bh_sim/application/pfd.py:406-420 | a removed group was there and is gone, is no longer the active one, and every other stays |
| PfdEffects.ActivateDoes | src/bh_sim/application/pfd.py:421-428 | the active group is the one given, and is a group |
| PfdEffects.UpsertSubsystemDoes | src/bh_sim/application/pfd.py:429-436 | the same of a subsystem |
| PfdEffects.UpsertSubsystemIff | src/bh_sim/application/pfd.py:429-436 | it is taken exactly when its members are objects |
| PfdEffects.RemoveSubsystemDoes | src/bh_sim/application/pfd.py:437-449 | a removed subsystem was there and is gone, and every other stays |
| PfdEffects.PresentationIff | src/bh_sim/application/pfd.py:385-449 | settings are always taken, an active group exactly if it is one, and groups and subsystems are removed exactly if they are there |
| PfdEffects.MissingIsRefused | src/bh_sim/application/pfd.py:225-449 | an edit of what is not there is refused as missing, and attached streams are only removed when that is confirmed |
| PfdEffects.ClashIsRefused | src/bh_sim/application/pfd.py:342-376 | a tag another stream has is refused exactly when neither a swap nor the next free tag may resolve it |
| PfdEffects.DamagedIsRefused | src/bh_sim/application/pfd.py:116-183 | a document with a repeated or empty identity, a bad tag, or a reference to what is not there is never edited |
| PfdEffects.StreamTagsDiffer | src/bh_sim/application/pfd.py:116-183 | no two streams of an accepted result have one tag, ignoring case |
| PfdEffects.TagsAreGood | src/bh_sim/application/pfd.py:116-183 | every tag of an accepted result has 1 to 64 printable characters without outer spaces |
| PfdObjects.RemovalIsClean | src/bh_sim/application/pfd.py:259-304 | a removal takes exactly the selection and the streams attached to it, needs confirmation when there are any, and leaves no reference to them in a group, subsystem or lineage |
| PfdEffects.RemovalKeeps | src/bh_sim/application/pfd.py:259-304 | every object that stays keeps its tag and layout, and its lineage unless its parent went |
| PfdRemoval.LeftIsChecked | src/bh_sim/application/pfd.py:259-304 | whatever is taken out of a checked document in this way, what is left passes the check |
| PfdRemoval.RemoveIff | src/bh_sim/application/pfd.py:259-304 | so a removal is made exactly of objects that are all shown, and with attached streams only when that is confirmed |
| PfdObjects.RenameTags | src/bh_sim/application/pfd.py:342-376 | every tag after a rename: the object's, the swapped stream's, the linked branches', and nobody else's |
| PfdEffects.RenameKeeps | src/bh_sim/application/pfd.py:342-376 | a rename ends the lineage of the renamed object and of the stream swapped with it, and of no other |
| PfdRenames.RenameMovesNothing | src/bh_sim/application/pfd.py:342-376 | every object keeps its layout |
| PfdRenames.RenameNumbers | src/bh_sim/application/pfd.py:342-376 | the next number is spent exactly when the next free tag was taken |
| PfdRenames.RenameIff | src/bh_sim/application/pfd.py:342-376 | a rename of no family is made exactly of an object that is shown, if the new tag is good and a clash may be resolved: the other tags cannot come into conflict |
| PfdRenames.RenameIffFit | src/bh_sim/application/pfd.py:342-376 | with the linked branches, exactly if besides all tags that come of it are good, and those of streams different |
| PfdNames.SplitNames | src/bh_sim/application/pfd.py:489-535 | after a split the segment from the source keeps the stream's identity and takes its tag; with suffixes each branch has that tag with its letter and remembers the stream, unless another stream has it |
| CodecLaws.RoundTrip | src/bh_sim/boundary/json_codec.py:24-95 | for every schema, hint and well-typed value whose records' constructors accept it with the integers in float places widened, decoding its encoding returns it so widened |
| CodecLaws.DecodesIffWidens | src/bh_sim/boundary/json_codec.py:38-95 | where union alternatives are apart or primitive that condition is exact: otherwise the encoding is not decoded at all |
| CodecLaws.SecondRoundTrip | src/bh_sim/boundary/json_codec.py:24-95 | a second round trip changes nothing |
| CodecLaws.MessageRoundTrip | src/bh_sim/boundary/json_codec.py:98-114 | a constructed record is encoded exactly when the constructors accept it widened, and then read back so by its tag |
| CodecLaws.TolerantMessages | src/bh_sim/boundary/json_codec.py:98-114 | so every constructed record goes through if the constructors of the record types reachable from its own accept floats in place of integers |
| SignalMessages.SignalRefusedIffInteger | src/bh_sim/boundary/contracts.py:868-890 | of the constructed signals the encoder refuses exactly the integer ones whose value a float can hold: the float alternative comes first, and the constructor refuses the float |
| SignalMessages.IntegerSignalIsRefused | src/bh_sim/boundary/contracts.py:868-890 | a constructed integer signal that cannot be encoded |
| CodecLaws.ReencodesIffWide | src/bh_sim/boundary/json_codec.py:98-114 | for every record that can be encoded, decoding and encoding again gives the same tree exactly when no integer stood in a float place |
| CodecLaws.DecodedTypedIff | src/bh_sim/boundary/contracts.py:32-80 | what a hint decodes satisfies the typing check exactly when no non-finite float of the input tree stands outside an object |
| CodecLaws.BareNonFiniteDecodes | src/bh_sim/boundary/json_codec.py:55-64 | a bare float hint accepts a non-finite float, which the typing check refuses |
| CodecLaws.DecodedRecordIsTyped | src/bh_sim/boundary/json_codec.py:73-94 | whatever a record hint decodes satisfies the typing check at every depth; which trees decode is in the rows of `CodecRecords` |
| CodecRecords.DecodesIffReads | src/bh_sim/boundary/json_codec.py:73-95 | a tree decodes as a record exactly when it carries its tag, has no unknown field, every field it has decodes, every one it lacks is of a lenient type and has a default, and the constructor takes the result |
| CodecRecords.FieldsRefused | src/bh_sim/boundary/json_codec.py:80-90 | so an unknown field is never accepted, and a missing one only of a lenient type with a default |
| CodecRecords.OlderRecordIsRead | src/bh_sim/boundary/json_codec.py:80-95 | dropping any fields with defaults from the tree of a widened record of a lenient type, it is read as the record with the defaults in their places, exactly if the constructor takes it so |
| CodecRecords.StrictRecordIsWhole | src/bh_sim/boundary/json_codec.py:80-90 | of a type that is not lenient, a tree with any field dropped decodes to nothing |
| CodecRecords.LiteralsOfOneKind | src/bh_sim/boundary/json_codec.py:47-54 | a literal of choices of one kind accepts exactly those: no truth value for a number or the reverse |
| CodecLaws.DecodedIsBuilt | src/bh_sim/boundary/json_codec.py:93-94 | every record decoded, however deep, went through its constructor |
| CodecLaws.SharedAlternatives | src/bh_sim/boundary/json_codec.py:40-46 | two alternatives of a union that one value has are both primitive; no union of the contracts lets a value have two that are not |
| CodecLaws.EncodeInjective | src/bh_sim/boundary/json_codec.py:24-34 | constructed values with one encoding are equal, for every schema without a field named like the tag |
| Framing.LengthOfHeader | src/bh_sim/boundary/worker_framing.py:48-60 | the four-byte big-endian length is read back |
| Framing.InputStream.ReadExact | src/bh_sim/boundary/worker_framing.py:26-36 | however the stream splits its reads: exactly the bytes asked for, nothing at a clean end, an error at an end inside |
| Framing.InputStream.ReadFrame | src/bh_sim/boundary/worker_framing.py:52-70 | one frame read equals the meaning of the bytes, for every way the stream splits its reads |
| Framing.InputStream.Drain | src/bh_sim/boundary/worker_framing.py:52-70 | and so does reading until the end or the first error |
| Framing.OutputStream.WriteFrame | src/bh_sim/boundary/worker_framing.py:39-49 | a message that encodes within the limit is appended as one frame; a larger one, or one the encoder refuses, writes nothing |
| Framing.RoundTrip | src/bh_sim/boundary/worker_framing.py:39-70 | for every sequence of messages that are sent, exactly their normal forms are read, in order, and then a clean end |
| Framing.CutStream | src/bh_sim/boundary/worker_framing.py:52-70 | a stream cut anywhere has a number of whole frames; it yields exactly the normal forms of their messages, ends cleanly exactly when the cut is between frames, and otherwise in a framing error |
| WireMessages.MessagesCross | src/bh_sim/boundary/worker_framing.py:39-70 | the codec in the frames, over any text that reads back what it can write: records that are sent are read back with their integers widened, in order, and then the stream ends |
| WireMessages.SentIffWide | src/bh_sim/boundary/worker_framing.py:39-49 | a constructed record is sent exactly when the constructors accept it widened and it has a text within the limit |

## Left out

- Floating-point rounding: floats are reals, and the 1e-8 closure tolerances of the runner absorb rounding in practice; integers widened to floats go through an arbitrary rounding function in the codec.
- Units of measure: quantities are taken in SI units.
- Compiled identifiers, content hashes, variable lists, diagnostic texts, metrics, audit evidence, narrative profiles and provenance records of a run.
- Compiler.Compile: in the cyclic case the order among components is some topological order of the condensation, because networkx does not promise which.
- Draft preparation, validation receipts and the audit record of a rejected admission beyond its attempt record.
- SQLite, fsync, directory layout, file names and size bounds; storage is atomic replace, exclusive create and transaction commit, with faults between them.
- Threads, pipes and process spawning: a step is one region under a lock; the handshake of the supervisor is one step, and two starts at once, with a handshake of the earlier one read by it after the later, are not modelled.
- Validation requests to the worker beyond their single response.
- Supervision.NoLostCancellation: run identifiers are fresh for every execution, as the service generates them.
- Worker.JobsAreDisciplined: writes to the output stream succeed; a failing write ends the source's thread early.
- Reader.SupervisorReader.ReadAll: the session and the tables found at each frame are parameters, because other threads change them while the loop reads.
- SHA-256 and UUIDs: hashes are injective, identifiers fresh parameters.
- History labels, timestamps, difference lists, classifications, snapshots' own identifiers, and the comparison and listing commands; names are taken without their outer spaces.
- HistoryRaces.RacesAreSequential: the bytes of published files stay intact; corrupted checkpoint files appear in HistoryRepository, whose methods refuse them.
- The decoded-record cache of the history repository, which only saves decoding.
- Equipment parameters, notations, routes, units and viewport of a diagram are opaque values; a configuration edit replaces the inputs of one unit or is refused, and several per pasted unit are one.
- Pfd.NextStreamNumber: case folding is an arbitrary map of characters that fixes digits.
- Membership of groups, subsystems and lineage across a split, which drops those of the old stream.
- Import of legacy drafts, saving, opening and listing of diagrams.
- The display order of visual groups and the stream colours: an upserted group goes to the end of the list.
- Case and revision rows of the index; a revision that has a row already stops a rebuild as a run does.
- JSON text, UTF-8 and key order: the codec works on value trees and the framing on payload bytes through any faithful serializer.
- CodecLaws.RoundTrip: the contract types are parameters; that their unions are apart or primitive was read off the source, and proved for the one that overlaps.
- User interface, plotting, workbooks, HTTP routes, plugin policy and the demonstration models.
