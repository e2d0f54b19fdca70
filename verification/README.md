# The charge point simulator, verified

`ocpp-cli run` simulates an OCPP 1.6 charge point: connectors, transactions,
reservations, the local authorization list, charging profiles, log uploads and
firmware updates, all in memory under one lock. Each request of the central
system is handled in one locked section. A remote start or stop is a goroutine
that takes the lock several times and waits for the network in between, so
requests, the expiry sweep and the meter tick run between its sections.

This project models that state and proves what it keeps.

- `Station` has the state as values and one function for each locked section;
  `Access` has the reservation lookup and the choice of a connector. Every walk
  of a Go map is taken in every order: `Walk` and `Scan` take the order as an
  argument, and the relations used elsewhere (`MayAnswer`, `MaySelect`, and in
  `Searches` `AutoMayChoose` and `ZeroMayAnswer`) are proved to be exactly what
  some orders give.
- `Simulators` runs the same sections in place, on connector objects and the
  reservation map, and ties each to its function.
- `Protocol` interleaves the sections. Its runs are sequences of events with a
  clock that does not go back; network answers are arbitrary. `Machines` runs
  the objects and records a run of `Protocol`, so the theorems about runs are
  theorems about the objects.
- `Fields`, `Effects` and `Histories` say the same once more without the
  functions the sections share: the answers in the fields of what is stored, a
  table of what each event does to each connector and reservation, and which
  past events a transaction, an availability, a reservation or the point a
  goroutine has reached stands for.
- `EveryRun` and `Theorems` hold for every run. `Discipline`, `Holding` and
  `DisciplinedTheorems` hold for runs that obey six rules, because the code
  overwrites a connector's status without looking at it: no ChangeAvailability
  on a connector whose start is in flight; no Reset with a start or stop in
  flight; no removal of a reservation bound to a busy connector, by cancel,
  reuse of its identifier or the sweep; no accepted reuse of an identifier that
  a start holds a reservation under; no second RemoteStop for a transaction
  whose stop is in flight; no RemoteStop for identifier 0 while a connector is
  without a transaction. `Exactness` proves these rules are the exact
  condition: a step that breaks one always leaves the agreement. `Witnesses`
  has, for each rule, a run that obeys the other five and goes wrong.
- `SignedFirmware`, `LogUpload`, `AuthList`, `ChargingProfiles` and `EventStream`
  are the smaller machines beside it, each a class proved against the functions
  its runs are made of.

The central system is taken to confirm fresh positive transaction identifiers
and to send fresh positive log and firmware request identifiers (the code uses
0 for none). The lemmas that need positive reservation identifiers say so.

## What the proofs found

- The sweep is one of the station's own goroutines, and it alone can show a
  connector Available while a start on it is in flight
  (`Witnesses.SweepDuringStart`). The repository's documentation (line 151 of the
  `README.md` at its root) says that expiry restores Available or Unavailable,
  without this exception.
- A remote start without a connector can fail although naming a connector is
  accepted, in exactly two cases (`Access.AutoFailureAgainstNaming`): the
  connector still shows Reserved for a reservation that expired but was not
  swept, or it is reserved for the tag and a connector-zero reservation for
  another tag is met first in the walk.
- A RemoteStop for identifier 0 finds any connector without a transaction, one
  whose start is in flight included, and sends a StopTransaction for 0; these
  are the only stops without a confirmed start.
- An extended trigger reads the log status and writes it back later, which can
  take it back from Uploaded to Uploading for good.
- When `Run` returns before its deferred close, because the context is already
  done or the connection fails, the event channel stays open and `run` waits
  for it forever.

## Model

| member | source | states |
|---|---|---|
| `Access.WalkIsSound` | internal/ocppclient/simulator_optional_profiles.go:193-216 | For any walk order: a grant names a live, covering, matching reservation bound to the connector, or no covering one mismatches and none is bound; a refusal has a live covering mismatch behind it. |
| `Access.WalkEndsAtLast` | internal/ocppclient/simulator_optional_profiles.go:206-215 | When every covering reservation is a matching connector-zero one, the walk answers with the last of them it meets. |
| `Access.AccessExact` | internal/ocppclient/simulator_optional_profiles.go:193-216 | The order-free relation `MayAnswer` holds of an answer if and only if some order of the map walk gives that answer. |
| `Access.AccessMeaning` | internal/ocppclient/simulator_optional_profiles.go:193-216 | For every order: a live reservation bound to the connector for another tag refuses; (r, true) with r > 0 means r is live, covers the connector and matches; (0, true) means no live reservation covers it. |
| `Access.OrderMatters` | internal/ocppclient/simulator_optional_profiles.go:193-216 | Two orders disagree on the verdict if and only if a matching live reservation bound to the connector coexists with a mismatching live connector-zero one. |
| `Access.ChosenIsAcceptedByName` | internal/ocppclient/simulator_optional_profiles.go:218-252 | Whatever is chosen, automatically or by name, would be accepted by name with the same reservation, is operative, has no transaction and shows Available or Reserved. |
| `Access.GrantKindIsFixed` | internal/ocppclient/simulator_optional_profiles.go:193-216 | With positive identifiers a connector is granted either always with a reservation or always without. |
| `Access.SkipsUnlessSure` | internal/ocppclient/simulator_optional_profiles.go:231-251 | A pass can go past a connector if and only if some walk refuses it or it does not qualify. |
| `Access.AutoChoiceIsPreferred` | internal/ocppclient/simulator_optional_profiles.go:231-251 | Which choices the automatic search can make, for all orders: none only if neither pass is sure of any connector; one with a reservation passes over no lower connector the first pass is sure of; the second pass is reached only if the first is sure of none. With order-free verdicts being sure is qualifying, so the lowest connector with a matching reservation beats the lowest free one. |
| `Searches.AutoMayChooseExact` | internal/ocppclient/simulator_optional_profiles.go:231-251 | The relation `AutoMayChoose` is exactly what the two loops can choose when each of their walks has an order of its own. |
| `Searches.ZeroMayAnswerExact` | internal/ocppclient/simulator_optional_profiles.go:49-68 | The relation `ZeroMayAnswer` is exactly what the loop over the connectors can answer, over all orders of the connectors and of each walk. |
| `Access.AutoFailureAgainstNaming` | internal/ocppclient/simulator_optional_profiles.go:219-251 | Where the automatic search fails, naming connector c succeeds if and only if c is operative, without transaction, Available or Reserved, and either still shows Reserved with no live reservation covering it, or has a matching live reservation beside a mismatching live connector-zero one. |
| `Access.AutoMissesExpiredReservation` | internal/ocppclient/simulator_optional_profiles.go:231-251 | The first case: a concrete store in which the automatic search can only fail while connector 1 is accepted by name. |
| `Access.AutoMissesContestedReservation` | internal/ocppclient/simulator_optional_profiles.go:231-251 | The second case: a concrete store in which it can fail while connector 1 is accepted by name with its own reservation. |
| `Fields.RefusalInFields` | internal/ocppclient/simulator_optional_profiles.go:193-216 | Some order refuses a connector for a tag if and only if a live reservation for it or for any connector has another idTag and an empty or another parentIdTag. |
| `Fields.GrantInFields` | internal/ocppclient/simulator_optional_profiles.go:193-216 | Which reservation, or none, some order grants with, by expiry, connector, idTag and parentIdTag of what is stored. |
| `Fields.GroupTagIsGranted` | internal/ocppclient/simulator_optional_profiles.go:202 | A single live reservation of the connector is granted to its nonempty parentIdTag, with its identifier, in every order. |
| `Fields.NamedStartInFields` | internal/ocppclient/simulator_optional_profiles.go:219-229 | A named connector is accepted with a reservation for some order if and only if it exists, is operative, has no transaction, shows Available or Reserved, and the walk can grant it. |
| `Fields.NamedRejectionInFields` | internal/ocppclient/simulator_optional_profiles.go:219-229 | It is rejected for some order if and only if one of these fails or the walk can refuse it. |
| `Fields.SecondPassInFields` | internal/ocppclient/simulator_optional_profiles.go:241-250 | The second pass takes only connectors that show Available. |
| `Fields.NamedVerdictInFields` | internal/ocppclient/simulator_optional_profiles.go:40-86 | The verdict on a reservation for a connector, with each refusal, by the state before the request: a reservation with the same identifier does not stand in the way. |
| `Fields.ZeroVerdictInFields` | internal/ocppclient/simulator_optional_profiles.go:49-68 | The verdict on a connector-zero reservation by availability, transaction and what the walks can grant or refuse. |
| `Fields.AvailabilityAnswerInFields` | internal/ocppclient/simulator_handlers.go:13-46 | Rejected if and only if a named connector does not exist; Scheduled if and only if a covered one has an open transaction. |
| `Shapes.ReservingKeepsShape` | internal/ocppclient/simulator_optional_profiles.go:87-99 | A ReserveNow that may be accepted leaves one reservation per connector, on existing operative connectors. |
| `Shapes.AvailabilityKeepsShape` | internal/ocppclient/simulator_handlers.go:29-41 | ChangeAvailability keeps that shape: an inoperative connector keeps no bound reservation. |
| `Shapes.SweptKeepsShape` | internal/ocppclient/simulator_optional_profiles.go:143-155 | The sweep keeps that shape. |
| `Simulators.Simulator.constructor` | internal/ocppclient/simulator.go:98-104 | A new station holds connectors 1 to n, operative, Available, without transaction or tag, at the start register, each an object of its own. |
| `Simulators.Simulator.IdleStatusOf` | internal/ocppclient/simulator_optional_profiles.go:180-191 | The loop finds Unavailable, Reserved or Available exactly as defined by availability and live bound reservations. |
| `Simulators.Simulator.ReservationAccess` | internal/ocppclient/simulator_optional_profiles.go:193-216 | The loop over the map returns an answer `MayAnswer` allows, whatever the order. |
| `Simulators.Simulator.NamedConnector` | internal/ocppclient/simulator_optional_profiles.go:219-229 | The check of a named connector makes a choice `MayChoose` allows. |
| `Simulators.Simulator.SelectRemoteStartConnector` | internal/ocppclient/simulator_optional_profiles.go:218-252 | The two passes make a choice `MayChoose` allows, each access call walking the map afresh. |
| `Simulators.Simulator.OnRemoteStartTransaction` | internal/ocppclient/simulator_handlers.go:112-134 | A rejected request changes nothing; an accepted one makes exactly the chosen connector Preparing with the tag, and stores a charging profile that came with it for that connector. |
| `Simulators.Simulator.RestoreConnectorAfterFailedStart` | internal/ocppclient/simulator_handlers.go:194-202 | The connector gets its idle status and an empty tag; nothing else changes. |
| `Simulators.Simulator.AcceptTransaction` | internal/ocppclient/simulator_handlers.go:176-183 | The connector gets the transaction and Charging, and exactly the named reservation is consumed. |
| `Simulators.Simulator.OnRemoteStopTransaction` | internal/ocppclient/simulator_handlers.go:204-222 | If a connector has the transaction, one that has it becomes Finishing and nothing else changes; otherwise nothing changes. |
| `Simulators.Simulator.ConfirmStopTransaction` | internal/ocppclient/simulator_handlers.go:246-250 | The connector loses transaction and tag and gets its idle status; nothing else changes. |
| `Simulators.Simulator.OnReset` | internal/ocppclient/simulator_handlers.go:256-271 | Every connector loses transaction and tag and gets its idle status, whatever the order of the walk; reservations stay. |
| `Simulators.Simulator.RemoveReservationsForConnector` | internal/ocppclient/simulator_optional_profiles.go:168-174 | Exactly the reservations bound to the connector are deleted while the map is walked. |
| `Simulators.Simulator.OnChangeAvailability` | internal/ocppclient/simulator_handlers.go:13-52 | New availability on all covered connectors, their reservations dropped if Inoperative, the idle status only where no transaction is open; Scheduled if and only if one is, Rejected if and only if the connector does not exist. |
| `Simulators.Simulator.ZeroAnswer` | internal/ocppclient/simulator_optional_profiles.go:49-68 | The verdict on a connector-zero reservation is one some order of both walks allows, with Occupied and Unavailable told apart by whether any connector is operative. |
| `Simulators.Simulator.NamedAnswer` | internal/ocppclient/simulator_optional_profiles.go:69-86 | The verdict on a named reservation, in the order of the cases of the switch; accepted only where no reservation at all is bound. |
| `Simulators.Simulator.OnReserveNow` | internal/ocppclient/simulator_optional_profiles.go:33-111 | Expired on arrival: rejected and nothing changes. Otherwise a reservation with the same identifier is released first, and the new one is stored, with Reserved shown, exactly if accepted. |
| `Simulators.Simulator.OnCancelReservation` | internal/ocppclient/simulator_optional_profiles.go:113-135 | Accepted if and only if the identifier is stored; then it is removed and its connector gets its idle status. |
| `Simulators.Simulator.ExpireReservations` | internal/ocppclient/simulator_optional_profiles.go:137-166 | Exactly the reservations not live at the clock read before the lock are removed and their connectors get the idle status, whatever the order, although the map shrinks during the walk. |
| `Simulators.Simulator.OnMeterTick` | internal/ocppclient/simulator.go:275-295 | Every register advances by one step and the samples are one per connector in increasing identifier, with the advanced register. |
| `Simulators.Simulator.TriggeredSample` | internal/ocppclient/simulator_optional_profiles.go:419-429 | One locked section of a trigger reports the register of an existing connector and advances nothing. |
| `Simulators.Simulator.TriggeredSamples` | internal/ocppclient/simulator_optional_profiles.go:408-434 | A trigger samples the named connector, or all in increasing identifier when none is named, and fails exactly on a connector that does not exist. |
| `Simulators.SweptIs` | internal/ocppclient/simulator_optional_profiles.go:143-155 | The result of a sweep does not depend on the order in which the expired reservations are met. |
| `Samples.InOrderFields` | internal/ocppclient/simulator.go:281-289 | Each sample carries the identifier, register and transaction of its connector. |
| `Samples.SortById` | internal/ocppclient/simulator.go:287 | Sorting distinct samples yields increasing identifiers and keeps exactly the same samples. |
| `Samples.SortedSamples` | internal/ocppclient/simulator.go:281-287 | The sorted samples of any walk are the samples of connectors 1 to n in that order. |
| `Machines.Machine.constructor` | internal/ocppclient/simulator.go:98-104 | The objects start in the initial state of the protocol. |
| `Machines.Machine.ChangeAvailability` | internal/ocppclient/simulator_handlers.go:13-52 | The handler on the objects is the ChangeAvailability step of the protocol, and answers Scheduled, Accepted or Rejected by the state before it. The recorded run stays a run whose last state is what the objects hold. |
| `Machines.Machine.RemoteStart` | internal/ocppclient/simulator_handlers.go:112-134 | The handler is a RemoteStart step: the goroutine starts exactly when a connector was chosen, and a charging profile sent along is stored for that connector. The recorded run stays a run whose last state is what the objects hold. |
| `Machines.Machine.StartReadsConfiguration` | internal/ocppclient/simulator_handlers.go:140-142 | The first locked section of a start goroutine is its step, and asks for authorization if and only if the flag is set. The recorded run stays a run whose last state is what the objects hold. |
| `Machines.Machine.AuthorizeAnswered` | internal/ocppclient/simulator_handlers.go:143-155 | The authorization answer is its step: a refusal hands the connector back and ends the goroutine. The recorded run stays a run whose last state is what the objects hold. |
| `Machines.Machine.StartReadsMeter` | internal/ocppclient/simulator_handlers.go:157-159 | The meter read before StartTransaction is its step. The recorded run stays a run whose last state is what the objects hold. |
| `Machines.Machine.StartAnswered` | internal/ocppclient/simulator_handlers.go:160-188 | The last section of a start goroutine is its step, accepted or not. The recorded run stays a run whose last state is what the objects hold. |
| `Machines.Machine.RemoteStop` | internal/ocppclient/simulator_handlers.go:204-222 | The handler is a RemoteStop step: the goroutine starts exactly when the transaction was found. The recorded run stays a run whose last state is what the objects hold. |
| `Machines.Machine.StopReadsMeter` | internal/ocppclient/simulator_handlers.go:227-231 | The read of register and tag before StopTransaction is its step. The recorded run stays a run whose last state is what the objects hold. |
| `Machines.Machine.StopAnswered` | internal/ocppclient/simulator_handlers.go:232-250 | The end of a stop goroutine is its step; an error leaves the connector as it is. The recorded run stays a run whose last state is what the objects hold. |
| `Machines.Machine.Reset` | internal/ocppclient/simulator_handlers.go:256-271 | The handler is a Reset step. The recorded run stays a run whose last state is what the objects hold. |
| `Machines.Machine.ReserveNow` | internal/ocppclient/simulator_optional_profiles.go:33-111 | The handler is a ReserveNow step. The recorded run stays a run whose last state is what the objects hold. |
| `Machines.Machine.CancelReservation` | internal/ocppclient/simulator_optional_profiles.go:113-135 | The handler is a CancelReservation step. The recorded run stays a run whose last state is what the objects hold. |
| `Machines.Machine.Sweep` | internal/ocppclient/simulator_optional_profiles.go:137-166 | The sweep is a Sweep step. The recorded run stays a run whose last state is what the objects hold. |
| `Machines.Machine.Tick` | internal/ocppclient/simulator.go:275-295 | The meter tick is a Tick step; the sample of each connector reports MeterStart plus the ticks so far, this one included, times MeterStep, and the transaction the connector object carries. The recorded run stays a run whose last state is what the objects hold. |
| `Machines.Machine.TriggerSample` | internal/ocppclient/simulator_optional_profiles.go:419-429 | A triggered sample changes nothing and reports the same for one connector, without counting as a tick. The recorded run stays a run whose last state is what the objects hold. |
| `Machines.ObjectsFollowTheRun` | internal/ocppclient/simulator.go:275-286 | After any sequence of sections all meters show the start value plus one step per recorded tick, and no two connector objects carry the same transaction. |
| `Machines.ObjectsFitTheGoroutines` | internal/ocppclient/simulator_handlers.go:112-271 | After any sections that obey the discipline, status, transaction and tag of each connector object fit the goroutines in flight on it. |
| `Machines.NewObjects` | internal/ocppclient/simulator.go:80-104 | Before any event: connectors 1 to n, operative, Available, without transaction or tag, at the start register, no reservation, and remote starts not authorized. |
| `Effects.ConnectorEffect` | internal/ocppclient/simulator_handlers.go:13-271 | In every run, every event leaves every field of every connector as a table by event says, idle statuses given by availability and the expiries of bound reservations. |
| `Effects.ReservationEffect` | internal/ocppclient/simulator_optional_profiles.go:33-178 | In every run, what is stored after an event is exactly what it adds and what was stored and it does not remove. |
| `Effects.ReserveVerdict` | internal/ocppclient/simulator_optional_profiles.go:33-86 | In every run, the verdict on each ReserveNow, named or connector-zero, by the fields before it; rejected if already expired. |
| `Histories.StartInFields` | internal/ocppclient/simulator.go:80-115 | The state every run starts in, field by field. |
| `Histories.TransactionHistory` | internal/ocppclient/simulator_handlers.go:176-263 | In every run a connector has a transaction if and only if a start on it was accepted with it and since then no other was, no stop on it was confirmed and there was no Reset. |
| `Histories.AvailabilityHistory` | internal/ocppclient/simulator_handlers.go:13-41 | In every run a connector is inoperative if and only if the last ChangeAvailability for it or for all made it so. |
| `Histories.ReservationHistory` | internal/ocppclient/simulator_optional_profiles.go:33-178 | In every run a reservation is stored if and only if its ReserveNow was accepted and since then it was not cancelled, asked for again, found expired by a sweep, lost with its connector, or consumed by an accepted start, connector-zero ones included. |
| `Histories.StartHistory` | internal/ocppclient/simulator_handlers.go:112-136 | A start goroutine works for the connector, tag and reservation its request was accepted with. |
| `Histories.StopHistory` | internal/ocppclient/simulator_handlers.go:204-224 | A stop goroutine works for the connector and transaction its request found. |
| `Histories.AfterConfigurationRead` | internal/ocppclient/simulator_handlers.go:140-157 | Past its configuration read a start waits for an authorization only if the flag was set, and is further only if it was not set or the authorization was granted. |
| `Histories.AuthorizedIfAsked` | internal/ocppclient/simulator_handlers.go:140-157 | In every run, at its meter read a start has been authorized since its last configuration read if and only if AuthorizeRemoteTxRequests was set then. |
| `Histories.AuthorizeFlagHistory` | internal/ocppclient/simulator_handlers.go:54-72 | The flag is what the last change of it left, false before any. |
| `EveryRun.AlwaysInRun` | internal/ocppclient/simulator_handlers.go:112-271 | In every state of every run: the store shape, distinct serials, and a ledger that ties registers, thread reads, confirmed transactions and open transactions together. |
| `EveryRun.StepKeepsAlways` | internal/ocppclient/simulator_handlers.go:13-271 | Every locked section keeps all of that. |
| `Theorems.StoreKeepsItsShape` | internal/ocppclient/simulator_optional_profiles.go:33-174 | In every run at most one reservation per connector, and only on connectors that exist and are operative. |
| `Theorems.ReserveLeaves` | internal/ocppclient/simulator_optional_profiles.go:40-99 | A ReserveNow with a future expiry leaves the old reservations without its identifier, plus the new entry if and only if it was accepted. |
| `Theorems.CountsBetween` | internal/ocppclient/simulator.go:275-286 | The ghost counters count the events of the run between any two points. |
| `Theorems.RegistersAgree` | internal/ocppclient/simulator.go:275-286 | In every run every connector shows MeterStart plus the number of ticks so far times MeterStep. |
| `Theorems.StartReadAt` | internal/ocppclient/simulator_handlers.go:157-159 | A start that waits for its answer read its register at an earlier event, on the same connector. |
| `Theorems.StopReadAt` | internal/ocppclient/simulator_handlers.go:227-231 | The same for a stop. |
| `Theorems.ConfirmedEarlier` | internal/ocppclient/simulator_handlers.go:177-179 | Every confirmed identifier has an earlier accepted StartTransaction answer, with the connector, tag and register of its goroutine. |
| `Theorems.StopFollowsItsStart` | internal/ocppclient/simulator_handlers.go:204-236 | In every run each stop for a positive identifier follows the StartTransaction that was confirmed with that identifier on the same connector. |
| `Theorems.EnergyAccounting` | internal/ocppclient/simulator_handlers.go:157-236 | In every run such a StopTransaction reports meterStart of that StartTransaction plus k times MeterStep, k being the ticks between the two reads, and read, confirmation, read come in this order. |
| `Theorems.PhantomStopsAreZero` | internal/ocppclient/simulator_handlers.go:204-222 | The stops that name an identifier nobody confirmed are exactly those for identifier 0. |
| `Theorems.SearchIsOrderFree` | internal/ocppclient/simulator_handlers.go:206-213 | In every run connectors with the same nonzero transaction are the same connector, so the search of RemoteStop does not depend on the order. |
| `Theorems.InoperativeUntilOperative` | internal/ocppclient/simulator_handlers.go:29-41 | In every run, from Inoperative until the next covering Operative no remote start and no reservation is accepted on the connector, and each return to an idle status shows Unavailable. |
| `Theorems.OpenTransactionStays` | internal/ocppclient/simulator_handlers.go:29-41 | In every run, while a connector is Inoperative its open transaction keeps status, identifier and tag until a Reset, a RemoteStop that found it, its confirmed stop, or the answer to a start still in flight on it. |
| `Exactness.StepKeepsAgreementExactly` | internal/ocppclient/simulator_handlers.go:13-271 | From a state in agreement a locked section keeps the agreement if and only if it breaks none of the six rules. |
| `Exactness.AgreementExactly` | internal/ocppclient/simulator_handlers.go:13-271 | A run is in agreement up to a point if and only if its events up to there break no rule: the first that breaks one is the first to leave the agreement. |
| `Holding.StepKeepsAgreement` | internal/ocppclient/simulator_handlers.go:112-271 | Every locked section that obeys the discipline keeps the whole agreement of status, goroutines, tags, holds, backings and counts. |
| `Holding.AgreementInRun` | internal/ocppclient/simulator_handlers.go:112-271 | The agreement holds in every state of every disciplined run. |
| `DisciplinedTheorems.ConnectorsFitTogether` | internal/ocppclient/simulator_handlers.go:112-271 | Preparing if and only if exactly one start is in flight, and then no transaction; a transaction if and only if Charging or Finishing; idle means no transaction, no tag and no goroutine; a stop in flight means Finishing and the same identifier. |
| `DisciplinedTheorems.IdleStatusIsRight` | internal/ocppclient/simulator_optional_profiles.go:180-191 | Without transaction and start in flight: Unavailable if and only if inoperative, Reserved if a live reservation is bound, Available if none is, one of the two in between. |
| `DisciplinedTheorems.TransactionsAreConserved` | internal/ocppclient/simulator_handlers.go:176-263 | Accepted starts minus confirmed stops minus transactions open at Resets is the number of connectors with a transaction, counted over the events of the run. |
| `DisciplinedTheorems.TransactionStays` | internal/ocppclient/simulator_handlers.go:176-250 | A confirmed transaction stays on its connector with the starting tag until its stop is confirmed or a Reset. |
| `DisciplinedTheorems.StatusFollowsGraph` | internal/ocppclient/simulator_handlers.go:112-271 | Every status change is an edge of idle, Preparing, Charging, Finishing, idle, or a failed start or Reset, and is caused by the kind of event that edge belongs to. |
| `DisciplinedTheorems.BackedByMatchingReservation` | internal/ocppclient/simulator_handlers.go:176-188 | A start with a bound reservation that is accepted consumes that stored reservation, which is bound to its own connector and has its tag as idTag or parentIdTag. |
| `DisciplinedTheorems.SerialsTellReservationsApart` | internal/ocppclient/simulator_optional_profiles.go:87-94 | Different accepted ReserveNow requests get different serials, also for the same identifier. |
| `DisciplinedTheorems.BacksOnce` | internal/ocppclient/simulator_optional_profiles.go:176-178 | No reservation bound to a connector backs two accepted transactions. |
| `DisciplinedTheorems.FailedStartHandsBack` | internal/ocppclient/simulator_handlers.go:184-202 | After a failed or rejected start the bound reservation is still stored, and the connector shows Reserved if it is live. |
| `DisciplinedTheorems.StopReportsStartTag` | internal/ocppclient/simulator_handlers.go:227-236 | Every StopTransaction that is sent carries the tag its transaction was started with, on the same connector. |
| `Witnesses.AvailabilityDuringStart` | internal/ocppclient/simulator_handlers.go:29-41 | ChangeAvailability alone can show a connector Available while its start is in flight. |
| `Witnesses.ResetDuringStart` | internal/ocppclient/simulator_handlers.go:256-263 | So can a Reset. |
| `Witnesses.StopOfZero` | internal/ocppclient/simulator_handlers.go:206-213 | RemoteStop for identifier 0 shows a connector without a transaction Finishing, and a StopTransaction for 0 is sent. |
| `Witnesses.StopOfZeroDuringStart` | internal/ocppclient/simulator_handlers.go:206-236 | That connector can be one whose start is in flight. |
| `Witnesses.SweepDuringStart` | internal/ocppclient/simulator_optional_profiles.go:137-155 | The sweep of the station itself shows a connector Available while its start is in flight, after two requests that obey all six rules. |
| `Witnesses.ReuseWhileHeld` | internal/ocppclient/simulator_handlers.go:181-183 | A reservation identifier reused during a start is consumed for the wrong connector, which stays Reserved with nothing bound. |
| `Witnesses.SecondStop` | internal/ocppclient/simulator_handlers.go:224-250 | Two RemoteStops for one transaction confirm two stops for one start. |
| `Witnesses.EveryRuleIsNeeded` | internal/ocppclient/simulator_handlers.go:112-271 | For each rule of the discipline a run that obeys all others ends outside the agreement. |
| `SignedFirmware.FirmwareUpdater.OnSignedUpdateFirmware` | internal/ocppclient/simulator_security_extensions.go:190-213 | A malformed request changes nothing and is answered by its first defect; any other becomes the current request at DownloadScheduled. |
| `SignedFirmware.FirmwareUpdater.SendSignedFirmwareStatus` | internal/ocppclient/simulator_security_extensions.go:265-273 | A report is written exactly if its request is current or none is. |
| `SignedFirmware.RecordsAreProgress` | internal/ocppclient/simulator_security_extensions.go:229-263 | In every interleaving the statuses recorded for a request are a nonempty prefix of DownloadScheduled, Downloading, Downloaded, SignatureVerified, Installing, Installed, and the current status is the last record of the current request. |
| `SignedFirmware.ReportsOfCurrentAreWritten` | internal/ocppclient/simulator_security_extensions.go:265-273 | A report is recorded and becomes the status if and only if its request is current. |
| `SignedFirmware.AnswersInFields` | internal/ocppclient/simulator_security_extensions.go:190-208 | Rejected if and only if date or location is missing; InvalidCertificate if and only if only certificate or signature is; any other request becomes the current one at DownloadScheduled. |
| `SignedFirmware.SupersededIsSilent` | internal/ocppclient/simulator_security_extensions.go:265-273 | Once another request is current the record of the old one never changes again. |
| `SignedFirmware.CancelsExactlyUnfinished` | internal/ocppclient/simulator_security_extensions.go:200-207 | AcceptedCanceled if and only if there was a previous request whose record had not reached Installed. |
| `SignedFirmware.FinishedIsInstalled` | internal/ocppclient/simulator_security_extensions.go:253-262 | A goroutine that made all its reports without being superseded has recorded the whole update. |
| `LogUpload.LogUploader.OnGetLog` | internal/ocppclient/simulator_security_extensions.go:134-142 | The request becomes current and Uploading; AcceptedCanceled if and only if another one was still Uploading. |
| `LogUpload.LogUploader.SendLogStatus` | internal/ocppclient/simulator_security_extensions.go:168-176 | A report is written exactly if its request is current or none is. |
| `LogUpload.OnlyLatestWrites` | internal/ocppclient/simulator_security_extensions.go:134-176 | In every run, triggers included, the stored identifier is that of the latest GetLog. |
| `LogUpload.ReportsOfLatestAreWritten` | internal/ocppclient/simulator_security_extensions.go:154-176 | A report of the latest request becomes the status; one of an earlier request changes nothing. |
| `LogUpload.CancelsExactlyUploading` | internal/ocppclient/simulator_security_extensions.go:136-140 | AcceptedCanceled if and only if an earlier request is still Uploading. |
| `LogUpload.GoesBackExactlyByTrigger` | internal/ocppclient/simulator_security_extensions.go:347-351 | A status goes back from Uploaded if and only if a trigger writes back the Uploading it had read for that request. |
| `LogUpload.UploadedStays` | internal/ocppclient/simulator_security_extensions.go:154-176 | In runs without such triggers a status never goes back from Uploaded. |
| `LogUpload.TriggerTakesItBack` | internal/ocppclient/simulator_security_extensions.go:347-351 | A concrete run in which a trigger takes the status back for good. |
| `AuthList.AuthorizationList.OnSendLocalList` | internal/ocppclient/simulator_optional_profiles.go:263-297 | VersionMismatch if and only if the version is not above the stored one; accepted if and only if it is and no two entries share a tag; only an accepted update changes list and version. |
| `AuthList.AnswersExactly` | internal/ocppclient/simulator_optional_profiles.go:263-277 | After any requests an update is accepted if and only if its version is positive and above that of every accepted update and its tags differ, and each refusal is given exactly for its reason. |
| `AuthList.FirstUpdate` | internal/ocppclient/simulator_optional_profiles.go:263-290 | A new station accepts any positive version, and then lists exactly the tags with information. |
| `AuthList.CheckDistinct` | internal/ocppclient/simulator_optional_profiles.go:269-276 | The seen set finds a repeated tag if and only if there is one. |
| `AuthList.EnteredTag` | internal/ocppclient/simulator_optional_profiles.go:281-288 | The entry for a tag decides what the list says about it; other tags are as before. |
| `AuthList.OrderDoesNotMatter` | internal/ocppclient/simulator_optional_profiles.go:281-288 | Updates with the same entries in any order leave the same list. |
| `AuthList.DifferentialsMerge` | internal/ocppclient/simulator_optional_profiles.go:278-289 | Two differential updates have the effect of one, in which the later entry for a tag wins. |
| `AuthList.DifferentialUpdatesMerge` | internal/ocppclient/simulator_optional_profiles.go:263-290 | That one update would have been accepted too, and leaves the same list and version. |
| `AuthList.ListIsReplay` | internal/ocppclient/simulator_optional_profiles.go:263-290 | After any requests the list is the replay of the accepted updates from the last full one on. |
| `AuthList.VersionsIncrease` | internal/ocppclient/simulator_optional_profiles.go:266-290 | Accepted versions strictly increase, the version is that of the last accepted update, and a refused update changes nothing. |
| `ChargingProfiles.SelectionExact` | internal/ocppclient/simulator_optional_profiles.go:642-667 | A selection is possible for some order of the walk if and only if it applies and no applicable profile has a higher stack level, or nothing applies and nothing is selected. |
| `ChargingProfiles.SelectionInFields` | internal/ocppclient/simulator_optional_profiles.go:642-667 | The same in the fields of the stored profiles: connector, validFrom, validTo, purpose, transaction and stack level. |
| `ChargingProfiles.SelectedIsInForce` | internal/ocppclient/simulator_optional_profiles.go:650-655 | A profile is never selected before its validFrom, nor at or after its validTo. |
| `ChargingProfiles.SelectionUnique` | internal/ocppclient/simulator_optional_profiles.go:642-667 | A selected profile is the only possible selection if and only if no other applicable profile reaches its stack level. |
| `ChargingProfiles.TxProfileHasTransaction` | internal/ocppclient/simulator_optional_profiles.go:654-661 | On a named connector a TxProfile is selected only with an open transaction and a zero or equal TransactionId. |
| `ChargingProfiles.ClearedInFields` | internal/ocppclient/simulator_optional_profiles.go:561-593 | A profile is left if and only if it differs from the request in identifier, connector, stack level or purpose, where the request gives them. |
| `ChargingProfiles.ClearingTwice` | internal/ocppclient/simulator_optional_profiles.go:561-593 | Clearing again with the same request removes nothing. |
| `ChargingProfiles.ClearingNeverRaises` | internal/ocppclient/simulator_optional_profiles.go:561-593 | Clearing never raises the selected stack level, and keeps it if the selected profile is not cleared. |
| `ChargingProfiles.ProfileStore.AdmitProfile` | internal/ocppclient/simulator_optional_profiles.go:538-548 | The first section of a SetChargingProfile accepts if and only if there is a profile and a named connector exists. |
| `ChargingProfiles.SetThenSelected` | internal/ocppclient/simulator_optional_profiles.go:549-553 | A stored profile that applies is selected unless another applicable one is at least as high, and what is selected is never lower. |
| `ChargingProfiles.SetThenCleared` | internal/ocppclient/simulator_optional_profiles.go:549-577 | Clearing by its identifier takes back exactly what was set. |
| `ChargingProfiles.ProfilesNameConnectors` | internal/ocppclient/simulator_optional_profiles.go:536-559 | However requests interleave between the check and the store, every stored profile for a connector is for one that exists. |
| `ChargingProfiles.StoredComesFrom` | internal/ocppclient/simulator_optional_profiles.go:536-577 | What is stored under an identifier was put there by a Set or a remote start, and nothing stored under it or cleared it since. |
| `ChargingProfiles.StoredStays` | internal/ocppclient/simulator_optional_profiles.go:536-577 | And what was put there stays until another one for the identifier or a matching Clear, whatever ran between its check and its store. |
| `ChargingProfiles.ProfileStore.OnClearChargingProfile` | internal/ocppclient/simulator_optional_profiles.go:561-577 | Exactly the non-matching profiles are left, removed and left add up, and something was removed if and only if something matched. |
| `ChargingProfiles.ProfileStore.ActiveChargingProfile` | internal/ocppclient/simulator_optional_profiles.go:642-667 | The loop selects what `MaySelect` allows, whatever the order. |
| `ChargingProfiles.ProfileStore.OnGetCompositeSchedule` | internal/ocppclient/simulator_optional_profiles.go:595-640 | The schedule has the periods of a selected profile, or the one 32 A or 22000 W default; its duration, start, periods and rate are memory of their own, and no stored schedule is written to. |
| `ChargingProfiles.CloneChargingSchedule` | internal/ocppclient/simulator_optional_profiles.go:669-684 | The copy has the same contents and shares no memory with its source; no schedule is copied to no schedule. |
| `EventStream.EventChannel.Emit` | internal/ocppclient/simulator.go:341-352 | An event is queued if and only if the channel is open and not full; it never blocks. |
| `EventStream.Drain` | internal/cli/commands_run.go:109-114 | The draining loop writes all that is left, in order, or stops at the first failed write having written exactly what came before it; with all written it ends if and only if the channel is closed, and waits otherwise. |
| `EventStream.EventChannel.Close` | internal/ocppclient/simulator.go:200-210 | Any number of calls close the channel, and only the first one reaches the close that must not be repeated. |
| `EventStream.DeliversInOrder` | internal/ocppclient/simulator.go:341-352 | In every interleaving what was delivered and is pending is a subsequence, in order, of what was emitted, and at most 256 are pending. |
| `EventStream.AcceptedIfRoom` | internal/ocppclient/simulator.go:341-352 | In every interleaving an emitted event is accepted, behind those pending, if and only if the channel is open and fewer than 256 are pending. |
| `EventStream.NothingAfterClose` | internal/ocppclient/simulator.go:149-210 | After the close nothing is accepted any more, and the one close of a run, deferred by Run, is not taken again. |
| `EventStream.WritesEverything` | internal/cli/commands_run.go:98-115 | When the loop returns without a write error every event ever accepted was written once, in order. |
| `EventStream.EarlyReturnIsFinal` | internal/ocppclient/simulator.go:141-149 | A station that returned before its deferred close never starts or closes later. |
| `EventStream.EarlyReturnNeverFinishes` | internal/ocppclient/simulator.go:141-149 | After such an early return the channel is never closed and the loop never returns normally. |
| `EventStream.EarlyReturnBlocks` | internal/cli/commands_run.go:109-114 | Once drained, after an early return, only a further event could move the loop. |
| `EventStream.StartedNeverBlocks` | internal/cli/commands_run.go:98-115 | If the station did not return early, some step other than an emission is always possible until the loop has returned. |
| `EventStream.ReturnsAfterClose` | internal/cli/commands_run.go:98-115 | From the close on the station and the loop take at most as many steps as events are pending plus three, however much is still emitted, and a loop that has not returned can take one; so it returns. |

## Left out

- The WebSocket connection, TLS, X.509 parsing, hashing and signing requests: calls into libraries. The certificate inventory on top of them is a map with one-line operations and is left out with them.
- The order of notifications on the wire and the delivery of samples: they are sent after the lock is released, by independent goroutines. Only what is locked, and the order of one goroutine, is modelled. A trigger that samples all connectors sends between its sections; each of them is one step of the protocol.
- Real time: one clock value per locked section, nondecreasing. The code reads the clock again for each comparison inside a section. The reads ahead of the lock (ReserveNow, sweep) are separate, earlier values.
- Machine widths: registers, identifiers and versions are unbounded integers.
- The one `simulator` struct is several classes, by concern; the methods of one class do not touch the fields of another.
- Goroutine locals are parameters of the sections in `Machines`, required to be those of the recorded goroutine. The lock itself is not modelled: a method is a section.
- Theorems.InoperativeUntilOperative: speaks of reservations for the connector itself; a connector-zero reservation may still be accepted on account of another connector.
- Boot, heartbeat, initial statuses, triggered status notifications, ClearCache, DataTransfer, UnlockConnector, diagnostics upload, unsigned firmware: no state that other operations depend on. Of the configuration only the boolean AuthorizeRemoteTxRequests is kept, as a value that may be set at any time.
- Errors of the meter tick or the heartbeat, which end `Run`: in the event stream model the station may close at any point after it started, for whatever reason.
- Option validation, configuration files, flags, output formats, one-shot commands and exit codes: single checks and wrappers.
- Limits the code does not enforce: list length, stack level and period limits, unit conversion, merging of several charging profiles, keeping a connector free for a connector-zero reservation.
- The number of phases in a charging schedule period is a value here, an optional reference that is never written through in the code; the store never holds a missing profile, as SetChargingProfile rejects one.
