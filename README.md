# Epidemic simulator engine, modelled in Dafny

This project models the simulation engine of a browser epidemic simulator.
Persons move through a rectangular arena that holds pharmacy and quarantine
zones. An infected person runs through incubation, progression and recovery
stages, then recovers or dies. A person in the progression stage infects
others nearby with a probability shaped by multipliers. Morgues send
ambulances to collect the dead. Each ambulance runs the states going,
collecting and returning, then splices the body out of the population array.
The application component drives one tick per animation frame:
- it moves every person and lets each one infect the others, in array order;
- it updates every morgue;
- it recounts the status counters.

An older `EpidemicModel` class builds a population and counts its statuses.
It scans every unordered pair of persons and lets an infected one infect a
healthy one.

Every `Math.random()` result is a parameter in [0, 1). So is the index
arithmetic built on it, and so is the abstract infection rate of
`EpidemicModel`. Distances are compared squared; `Zones.WithinRadiusIsDistanceTest`
shows this agrees with the square-root test. Coordinates and times are `real`.

Modules and files:
- `Config` (config.dfy): the parameter record, `Option`, and small numeric helpers.
- `Zones` (zones.dfy): zone centres and the strict in-circle test.
- `Agent` (person.dfy): the `Person` class. Each method is proved against a function on `PersonState`, a snapshot of the fields.
- `AgentProperties` (agent_properties.dfy): what those functions guarantee. This covers arena bounds, the immunity range, the disease timer, terminal death and transmission rules.
- `Population` (population.dfy): `indexOf`/`splice` on the population array, and the array itself as a `PersonList` object.
- `Mortuary` (morgue.dfy): the `Ambulance` and `Morgue` classes, proved against value-level functions on an `AmbulanceView`.
- `MortuaryProperties` (morgue_properties.dfy): forward-only states, the 125-update collection, the one-shot burial and claiming only on arrival.
- `App` (app.dfy): the `Simulation` class (`initObjects`, `initSimulation`, `gameLoop`, `updateSimulation`, `updateStats`) and the loops it runs.
- `AppProperties` (app_properties.dfy): the counters, the deaths reported during a tick, what a tick keeps, the population setup and the frame clock.
- `Epidemic` (epidemic_model.dfy): the `EpidemicModel` class and its pair scan.

Points of the code that the model follows as written:
- A corpse is marked `isBeingCollected` when an ambulance reaches it (src/components/Morgue.js:106-110). A second ambulance may therefore be sent to the same corpse. `MortuaryProperties.ClaimOnlyOnArrival` states this.
- Two ambulances sent to the same corpse both call `onBuried` (src/components/Morgue.js:133-134). The second `indexOf` finds nothing, so only the first splice removes the corpse (src/components/Morgue.js:137-138). The deceased counter thus drops twice for one removal. `Population.SplicedTwice` states this, and `App.ChainedShrinks` bounds the removals by the `onBuried` calls.
- Each person moves and then infects, in array order, on the live states of the others (src/App.jsx:222-236).
- The immunity penalty for re-infecting a recovered person cannot happen (src/components/Person.js:234 then 241). A newly infected target keeps its immunity.
- Transmission recomputes the target's quarantine membership from its position (src/components/Person.js:219-223).
- The personal recovery time is `recoveryTime * variation * 2`, times 1.5 with comorbidities and 0.8 in a pharmacy (src/components/Person.js:49-61).
- A negative population builds no person; nothing fails.
- A deceased person keeps its velocity. It is not moved.
- `updateStats` starts its deceased counter from `stats.deceased` and adds one for every deceased person still in the array (src/App.jsx:254, 262). `AppProperties.TallyTotals` states the resulting sum.

## Model

| member | source | states |
|---|---|---|
| Zones.WithinRadiusIsDistanceTest | src/components/Person.js:126-137 | the squared test holds exactly when the true distance is strictly below the radius |
| Zones.AnyContains | src/components/Person.js:126-130 | `some` over the zones: true iff some zone centre is strictly within the radius |
| Agent.SeverityFactor | src/components/Person.js:280-282 | with immunity at most 1 the severity factor is at least 0.49 |
| Agent.SpeedFactor | src/components/Person.js:147-151 | the speed factor lies between 0.35 and 1 |
| Agent.Reflected | src/components/Person.js:166-175 | one axis of the boundary check: the result is in [0, limit]; an in-range coordinate and its velocity are kept; the velocity flips when out of range and is otherwise only ever kept or negated |
| Agent.Person.constructor | src/components/Person.js:4-40 | the new person's fields are the constructor's formulas applied to its draws |
| Agent.Person.CheckZones | src/components/Person.js:122-138 | both zone flags recomputed from the position, nothing else changed |
| Agent.Person.ProcessMovement | src/components/Person.js:146-157 | the position advances along the velocity by deltaTime/16 times the speed factor |
| Agent.Person.CheckBoundaries | src/components/Person.js:162-176 | each axis reflected and clamped as the boundary check does |
| Agent.Person.FinishTreatment | src/components/Person.js:299-323 | the outcome of `finishTreatment` and whether the death callback fired |
| Agent.Person.ProcessInfection | src/components/Person.js:255-291 | stage from the timer before the increment, timer advanced by the severity factor, treatment finished when it reaches the recovery time |
| Agent.Person.Move | src/components/Person.js:96-115 | frozen when deceased or being collected; otherwise zones, disease, movement and boundaries in that order |
| Agent.Person.TryInfectOthers | src/components/Person.js:185-246 | every person of the array, itself included, transformed by the transmission rule with its own draws; the source unchanged |
| Agent.Person.BecomeInfected | src/components/Person.js:233-238 | status, timer, stage and recovery time of a new infection |
| AgentProperties.PersonalRecoveryTimeBounds | src/components/Person.js:49-61 | the personal recovery time is positive and between recoveryTime·min·1.6 and recoveryTime·max·3 |
| AgentProperties.CreatedWellFormed | src/components/Person.js:16-38 | a new person is well formed (timer iff infected, immunity in [0.5, 1]) with velocity components in [-1, 1) |
| AgentProperties.StageExample | src/components/Person.js:259-277 | with recovery time 100 and ratios 0.3/0.5 the timer values 29, 31 and 81 give incubation, progression and recovery |
| AgentProperties.InfectionStep | src/components/Person.js:279-290 | the person stays infected iff the advanced timer is below the recovery time; then the timer strictly grew and the stage is the one for the old timer |
| AgentProperties.TreatmentOutcome | src/components/Person.js:299-323 | deceased iff the draw is below the death chance, else recovered with immunity min(1, immunity + 0.3); timer and stage cleared; nothing else changed |
| AgentProperties.MoveFrozen | src/components/Person.js:96-100 | a deceased person, or one being collected, is left exactly as it was and reports no death |
| AgentProperties.StandStill | src/components/Person.js:146-157 | a zero deltaTime leaves the position unchanged |
| AgentProperties.ZoneTest | src/components/Person.js:126-137 | with the true distances, a zone contains the point iff some distance is strictly below the radius |
| AgentProperties.ZonesCheckedByDistance | src/components/Person.js:122-138 | each zone flag is set iff some zone of its kind is strictly closer than its radius; all other fields kept |
| AgentProperties.BoundariesKeepInArena | src/components/Person.js:162-176 | after the boundary check 0 <= x <= width and 0 <= y <= height; a velocity component is negated exactly when its coordinate was out of range (or it was zero); in-range coordinates untouched |
| AgentProperties.MoveKeepsInArena | src/components/Person.js:96-115 | a person that moves ends inside the arena, and one inside stays inside |
| AgentProperties.MoveKeepsWellFormed | src/components/Person.js:96-115 | `move` keeps a person well formed and keeps its id, collection flag, comorbidity, super-spreader flag and recovery time; a death is reported only for an infected person who becomes deceased, and the person ends deceased iff it was or a death was reported; a healthy person stays healthy |
| AgentProperties.InfectionStepKeeps | src/components/Person.js:255-291 | disease processing keeps a person well formed, changes only status, timer, stage and immunity, and reports a death iff the person ends deceased |
| AgentProperties.MovementOnlyMoves | src/components/Person.js:146-176 | movement and the boundary check change only position and velocity |
| AgentProperties.TransmissionRule | src/components/Person.js:196-244 | a healthy or recovered target not being collected is infected iff it is closer than infectionDistance and the draw is below the probability; it then has timer 0, stage incubation and unchanged immunity; otherwise it is unchanged |
| AgentProperties.RecoveredProbabilityCapped | src/components/Person.js:205-211 | the base probability for a recovered target lies in [0, 0.05] |
| AgentProperties.SelfUnaffected | src/components/Person.js:196-232 | an infected source never infects itself |
| AgentProperties.InfectAllRule | src/components/Person.js:185-246 | nothing happens unless the source is in progression; deceased and infected targets are untouched; a changed target is infected; ids, collection flags and well-formedness are kept |
| AgentProperties.DeceasedIsTerminal | src/components/Person.js:96-100 | over any sequence of moves and infection attempts a deceased person stays as it is and reports no death |
| AgentProperties.DeathReportedAtMostOnce | src/components/Person.js:299-312 | over any sequence of moves and infection attempts the death callback fires at most once, and only for a person that ends deceased |
| Population.IndexOf | src/components/Morgue.js:137 | `indexOf`: -1 iff absent, otherwise the first position holding the target |
| Population.SplicedAbsent | src/components/Morgue.js:137-138 | splicing out an absent person changes nothing |
| Population.SplicedAt | src/components/Morgue.js:137-138 | `splice(indexOf(t), 1)` cuts out exactly the element at that index |
| Population.SpliceRemovesFirst | src/components/Morgue.js:137-138 | the splice removes exactly one occurrence, the first, keeps the others in order, and changes nothing when the target is absent |
| Population.SplicedAllShrinks | src/components/Morgue.js:130-139 | a series of splices removes at most one person each and adds none |
| Population.SplicedTwice | src/components/Morgue.js:133-138 | splicing out the same person twice removes it once: two `onBuried` calls, one removal |
| Population.PersonList.Remove | src/components/Morgue.js:137-138 | the array after `indexOf`/`splice` is the array without the first occurrence of the target |
| Mortuary.PickIndex | src/components/Morgue.js:42 | `floor(r * n)` lies in [0, n) for a draw r |
| Mortuary.CorpsesAre | src/components/Morgue.js:38 | the corpses found are persons of the population that are deceased and not being collected, and every such person is found |
| Mortuary.Undone | src/components/Morgue.js:35 | every ambulance kept is one of the morgue's and is not done |
| Mortuary.UndoneKeeps | src/components/Morgue.js:35 | every ambulance of the morgue that is not done is kept |
| Mortuary.Ambulance.constructor | src/components/Morgue.js:60-73 | a new ambulance is at the morgue, going, with nothing collected or buried |
| Mortuary.Ambulance.Update | src/components/Morgue.js:99-146 | the state machine step; the corpse flag set only on arrival at the corpse; `onBuried` and the splice exactly on the first arrival back |
| Mortuary.UpdatedAllViews | src/components/Morgue.js:54 | after the ambulance loop each ambulance has taken exactly one step |
| Mortuary.BuriedTargetsAreBuried | src/components/Morgue.js:130-139 | every corpse spliced out during the loop belongs to an ambulance whose step buried |
| Mortuary.UpdatedAllBuries | src/components/Morgue.js:54 | the population after the loop is the splices of the buried corpses in ambulance order; one burial counted per splice |
| Mortuary.UpdatedAllFlags | src/components/Morgue.js:106-110 | a corpse is being collected after the loop iff it was before or some ambulance reached it in this loop |
| Mortuary.UpdateAll | src/components/Morgue.js:54 | the loop over the ambulances matches the step-by-step fleet function, and a person who is no ambulance's corpse keeps its collection flag |
| Mortuary.UpdateOne | src/components/Morgue.js:54 | one call of the `forEach`: the ambulances and the population are as `UpdatedOne` leaves them, the burial count goes up by one exactly when the ambulance buries, and a person who is no ambulance's corpse keeps its collection flag |
| Mortuary.Morgue.constructor | src/components/Morgue.js:3-11 | a new morgue has no ambulance, last dispatch time 0 and the collection interval as cooldown |
| Mortuary.Morgue.Dispatch | src/components/Morgue.js:35-51 | done ambulances pruned; one new ambulance iff some corpse is eligible and the time since the last dispatch strictly exceeds the cooldown, created after the kept ones, at the morgue, with the collection speed, going to the picked corpse, and the dispatch time recorded; no person, no other morgue and no ambulance's view changes |
| Mortuary.Morgue.Update | src/components/Morgue.js:33-55 | the dispatch as `Dispatch` states, then every kept or new ambulance takes one step from the views it had: views, population and `onBuried` calls as `UpdatedAll` says along the ambulances' routes; a person is being collected iff it was or some ambulance reached it; nothing else of a person changes; the other morgues and the ambulances the morgue did not have are untouched |
| Mortuary.Morgue.Round | src/components/Morgue.js:54 | the `forEach` over the ambulances: views, population and `onBuried` calls as `UpdatedAll` says from the views before; a person is being collected iff it was or some ambulance reached it; the morgue's own fields, the other morgues and the other ambulances are untouched |
| MortuaryProperties.SteppedForward | src/components/Morgue.js:100-125 | an update moves the state forward by at most one, and only on arrival or on reaching the duration |
| MortuaryProperties.RepeatForward | src/components/Morgue.js:100-125 | the state never goes back, over any number of updates |
| MortuaryProperties.SteppedConsistent | src/components/Morgue.js:116-122 | the timer runs only while collecting, by steps of 16, and has reached 2000 exactly when returning; done iff buried |
| MortuaryProperties.RepeatConsistent | src/components/Morgue.js:99-146 | that consistency holds after any number of updates |
| MortuaryProperties.CollectingFor | src/components/Morgue.js:116-122 | collection lasts 125 updates: after n updates the timer is 16n, and the state turns to returning on the 125th |
| MortuaryProperties.LaunchedStarts | src/components/Morgue.js:60-73 | a new ambulance is consistent and leaves `going` only into `collecting` with a zero timer |
| MortuaryProperties.BuriedStays | src/components/Morgue.js:133-135 | once buried an ambulance stays buried and never fires `onBuried` again |
| MortuaryProperties.BurialsAtMostOnce | src/components/Morgue.js:130-139 | `onBuried` fires at most once per ambulance over any number of updates |
| MortuaryProperties.BuriesMarksDone | src/components/Morgue.js:130-135 | the burying update marks the ambulance done and buried, and is the only update that sets the burial flag |
| MortuaryProperties.ClaimOnlyOnArrival | src/components/Morgue.js:106-110 | a corpse no ambulance reached in this loop stays eligible, so it can be dispatched again |
| App.AfterTurns | src/App.jsx:222-236 | the turns of a tick keep every person well formed and the population size |
| App.Populate | src/App.jsx:114-117 | one new, distinct person per setup, built as `initSimulation` does: id its index, position scaled to the arena, infected iff the index is below initialInfected |
| App.BuiltWellFormed | src/App.jsx:114-117 | the persons built are well formed |
| App.TakeTurn | src/App.jsx:222-236 | one person's `move`, then its `tryInfectOthers` iff it is infected after moving |
| App.RunTurns | src/App.jsx:222-236 | every person's turn in array order; the deaths are the callbacks fired |
| App.NextTurn | src/App.jsx:222-236 | the turn of the person at index i extends the turns before it: the states and the death count become those of `AfterTurns` over the first i + 1 persons |
| App.RunMorgues | src/App.jsx:239-243 | the morgue loop, one round per morgue in order (`Updates`): round k is morgue k's `update` at `time` with the draw `picks[k]`, from the dispatch time and unfinished ambulances it had when the loop began, with the eligible corpses of the population the round starts from, namely the corpses nobody was collecting before the loop that no earlier round reached; after the loop each morgue is as its round left it (`Ended`: kept ambulances then the new one, with the round's targets, views, routes and dispatch time) and no ambulance belongs to two morgues; `burials` is the number of `onBuried` calls; every person left was there before, in its old state except the collection flag of a corpse some ambulance reached; with no morgue nothing changes; the population only lost persons, at most one per call, and stays distinct and well formed |
| App.NextRound | src/App.jsx:240-242 | one iteration of that loop: the round appended is morgue j's update as `App.RunMorgues` states for round j; morgue j now stands as its round left it, the later morgues as they stood, the fleets stay separate, its `onBuried` calls are added to the count, and the population left is chained on and accounted for as before |
| App.NextUpdate | src/App.jsx:240-242 | the same iteration as the morgues see it: morgue j takes its turn from what it holds and the corpses it finds, the other morgues stand as they stood, a new ambulance of morgue j belongs to no other morgue, and every person left is as before except that a corpse the round reached is being collected |
| App.RunMorgue | src/App.jsx:240-242 | one morgue's update inside that loop: its turn as `App.UpdatingMorgue` states; every person left is one of before, in its old state except that a corpse the round reached is being collected; the other morgues stand as they stood |
| App.UpdatingMorgue | src/App.jsx:240-242 | `morgue.update(currentTime, people, onBuried)` as the driver sees it: the round is that update (`UpdateOf`) from the morgue's last dispatch time, its unfinished ambulances' views and the eligible corpses at the call; the morgue then holds the unfinished ambulances followed by the dispatched one, with the round's targets, routes, views and dispatch time; `buried` is the number of `onBuried` calls; the population only loses persons; a person is being collected iff it was or the round reached it, and nothing else of a person changes; the other morgues stand as they stood |
| App.ChainedShrinks | src/components/Morgue.js:130-139 | over the morgue loop the population only loses persons, at most one per `onBuried` call |
| App.SurvivorsUnchanged | src/App.jsx:239-243 | when nobody left and no corpse was claimed, every person keeps exactly its state |
| App.SurvivorsChain | src/App.jsx:239-243 | two stretches of the loop in a row: every person left is traced back to the population before the first, with the flags both stretches set |
| App.SurvivorsWellFormed | src/App.jsx:239-243 | the persons left of a population without repetitions of well-formed persons are distinct and well formed |
| App.UpdatedRound | src/components/Morgue.js:54 | a round that is one update of its ambulances calls `onBuried` once per ambulance whose update buries, splices out those corpses in ambulance order, and only removes persons |
| App.CorpsesUnclaimed | src/components/Morgue.js:38 | the corpses a morgue finds during the loop are exactly, in order, the persons left that were corpses nobody was collecting before the loop and that no earlier round reached |
| App.UpdatesSnoc | src/App.jsx:239-243 | appending the next morgue's update to rounds that are the earlier morgues' updates keeps them the morgues' updates |
| App.SeparateStep | src/App.jsx:239-243 | giving one morgue a fleet whose new ambulances no other morgue has keeps every ambulance in one morgue only |
| App.MorguesStep | src/App.jsx:240-242 | after morgue j's turn, morgue j stands as its round left it, the later morgues as they stood, the rounds are the morgues' updates and the count their `onBuried` calls, one morgue further |
| App.RemainsStep | src/App.jsx:240-242 | one more round, from the persons the earlier rounds left, keeps every person left traced to the population before the loop, its flag set only when some round reached it |
| App.LoopEnded | src/App.jsx:239-243 | when every morgue has had its turn, each morgue ends as its round left it, the rounds are the morgues' updates, the population is accounted for, distinct and well formed, and it lost at most one person per `onBuried` call |
| App.OthersStand | src/App.jsx:239-243 | a morgue whose fields, ambulances and corpses' positions did not change stands as it stood |
| App.PlaceMorgues | src/App.jsx:105-107 | one new, distinct morgue per site, with id its index, placed at the site scaled to the arena, with no ambulance, dispatch time 0 and the collection interval as cooldown |
| App.Simulation.constructor | src/App.jsx:40-63 | no zone, no morgue, no person, counters zero, frame clock zero, stopped |
| App.Simulation.Start | src/App.jsx:274-281 | running; the frame clock reset to zero only when it was stopped |
| App.Simulation.Stop | src/App.jsx:283-290 | stopped |
| App.Simulation.InitObjects | src/App.jsx:94-108 | new pharmacies, quarantines and morgues, one per site, placed at the site scaled to the arena; the new morgues are fresh, empty and never dispatched |
| App.Simulation.InitSimulation | src/App.jsx:111-121 | `initObjects` first, then `population` new persons (none when negative) built as `initSimulation` does, then the counters tallied from the prior deceased counter |
| App.Simulation.UpdateStats | src/App.jsx:249-271 | the counters are the tally of the persons, starting `deceased` from the counter value it is given; nothing but the counters is written: the persons, the morgues, their ambulances and those ambulances' corpses are unchanged |
| App.Simulation.CountPerson | src/App.jsx:261-268 | one iteration of the counting `forEach`: the counters after a person are `Counted` of the counters before and its state, which `AppProperties.TallyCounts` relates to the buckets |
| App.Simulation.MovePeople | src/App.jsx:222-236 | the person states after the tick's turns are those of `AfterTurns`; the deaths returned are the death callbacks fired |
| App.Simulation.UpdateMorgues | src/App.jsx:239-243 | the morgue loop from the current states at `time` with the collection speed: rounds, `onBuried` count, survivors, the morgues' updates (`Updates`) and how each morgue ends (`Ended`) as `App.RunMorgues` states; nothing changes with no morgue |
| App.Simulation.Tick | src/App.jsx:222-243 | the person loop, then the morgue loop from the states it left, each morgue updated at `currentTime` with its draw as `App.Simulation.UpdateMorgues` states |
| App.Simulation.UpdateSimulation | src/App.jsx:220-246 | every person left was there before and has its `AfterTurns` state, except the collection flag of a corpse some ambulance reached; each morgue's round is its update at `currentTime` with its draw, as `App.RunMorgues` states, from the states the person loop left, and each morgue ends as its round left it; with no morgue the states are exactly `AfterTurns`; the deaths and burials are the callbacks fired; the counters are the tally of the persons left, starting from the prior counter plus deaths minus burials |
| App.Simulation.Frame | src/App.jsx:199-212 | the clock step, then `updateSimulation` on the scaled delta with the timestamp as the morgues' time, with the persons, morgue updates, callbacks and counters `App.Simulation.UpdateSimulation` states |
| App.Simulation.StepClock | src/App.jsx:199-211 | the clock moves to the timestamp and the delta is the time since the last frame (zero on the first) times simulationSpeed/60 |
| App.Simulation.GameLoop | src/App.jsx:196-217 | nothing while stopped: clock, counters, the persons' states and the morgues' fleets and dispatch times unchanged; otherwise the clock step and then the persons, morgue updates at the timestamp, callbacks and counters of `updateSimulation` on the scaled delta |
| AppProperties.TallyCounts | src/App.jsx:249-271 | each counter is the number of persons in its bucket; `deceased` is the prior counter plus the deceased in the array |
| AppProperties.StatusesPartition | src/App.jsx:261-262 | the four status counts add up to the number of persons |
| AppProperties.ContagiousAreInfected | src/App.jsx:265-267 | the contagious are among the infected |
| AppProperties.TallyTotals | src/App.jsx:249-271 | healthy + infected + recovered + deceased = prior deceased counter + number of persons; contagious <= infected; zone counters <= persons |
| AppProperties.TurnDeaths | src/App.jsx:222-236 | one turn adds exactly one deceased person when the death callback fires and none otherwise |
| AppProperties.TurnsDeaths | src/App.jsx:222-236 | over a tick the deaths reported are exactly the persons who became deceased |
| AppProperties.TurnKeeps | src/App.jsx:222-236 | one turn keeps ids, collection flags and the deceased as they are |
| AppProperties.TurnsKeep | src/App.jsx:222-236 | a whole tick keeps ids, collection flags and the deceased as they are |
| AppProperties.BuiltCounts | src/App.jsx:114-117 | exactly min(initialInfected, population) persons are infected (none when negative), the rest healthy; ids are 0..population-1 |
| AppProperties.FirstFrameStill | src/App.jsx:199-205 | the first frame after a start advances the simulation by zero |
| AppProperties.ClockTelescopes | src/App.jsx:199-211 | over frames with non-zero timestamps, the deltas add up to the first frame's delta plus the span from the first to the last timestamp times simulationSpeed/60 |
| AppProperties.StartedClock | src/App.jsx:199-211 | from a stopped clock, the frames advance the simulation by exactly the span from the first to the last frame times simulationSpeed/60 |
| Epidemic.Contact | src/components/EpidemicModel.js:84-98 | at most one of the pair changes; it changes iff it is healthy, the other infected and the draw below its rate; it then becomes infected since frameCount |
| Epidemic.PairsBounded | src/components/EpidemicModel.js:63-64 | the nested loops visit only pairs i < j < n |
| Epidemic.PairsCover | src/components/EpidemicModel.js:63-64 | the nested loops visit every pair i < j < n |
| Epidemic.PairsDistinct | src/components/EpidemicModel.js:63-64 | no pair is visited twice |
| Epidemic.ScanOnlyInfects | src/components/EpidemicModel.js:63-76 | after the scan every person is as before, or was healthy and is now infected since frameCount |
| Epidemic.NoInfectedNoChange | src/components/EpidemicModel.js:63-76 | without an infected person the scan changes nobody |
| Epidemic.IsolatedUnchanged | src/components/EpidemicModel.js:68-74 | a person not strictly closer than infectionDistance to anybody is left unchanged |
| Epidemic.EpidemicModel.constructor | src/components/EpidemicModel.js:8-18 | no person, frame zero, all counters zero |
| Epidemic.EpidemicModel.Initialize | src/components/EpidemicModel.js:24-40 | `population` new persons with id their index; min(initialInfected, population) infected and the rest healthy; frame counter 0 |
| Epidemic.EpidemicModel.UpdateStats | src/components/EpidemicModel.js:43-57 | each counter is the number of persons with that status, and they sum to the number of persons |
| Epidemic.EpidemicModel.HandleInfection | src/components/EpidemicModel.js:84-98 | the pair after `handleInfection` is the contact rule on their states |
| Epidemic.EpidemicModel.CheckCollisions | src/components/EpidemicModel.js:60-77 | the persons after the scan are the pair rule applied, in loop order, to the pairs closer than infectionDistance |
| Epidemic.EpidemicModel.CheckRow | src/components/EpidemicModel.js:64-75 | the inner loop for row i extends the scan by the pairs (i, j), j > i |
| Epidemic.EpidemicModel.MeetPair | src/components/EpidemicModel.js:65-74 | one pair: `handleInfection` iff strictly closer than infectionDistance |
| Epidemic.EpidemicModel.Update | src/components/EpidemicModel.js:104-114 | the frame counter grows by exactly one and the scan runs; the frame completes only for an empty model |

## Left out

- Drawing is not modelled: every `draw` method, `updateColor` and the colours, the renderer component, `drawSimulation`, the infection-radius pulse and `setPulsePhase`.
- Frame scheduling is not modelled: `requestAnimationFrame`, `cancelAnimationFrame`, `performance.now` and the controls component. `App.Simulation.GameLoop` is one frame at a given timestamp.
- React machinery is not modelled: hooks, `setState` batching and stale closures. The counters are plain fields. The callbacks' changes to the deceased counter (src/App.jsx:229, 241) are applied as one net change, deaths minus burials, before `updateStats` reads the counter. In the program those changes are queued, `updateStats` reads the `stats.deceased` its closure captured (src/App.jsx:254), and its `setStats(newStats)` (src/App.jsx:270) replaces the queued changes, so the counter shown is the captured value plus the corpses in the array. In the model the counter instead keeps the callbacks' net change from tick to tick and gains the unburied corpses again on each tick.
- `updateParam`, `resetSimulation` and the parameter sliders are not modelled. A parameter change is a different `Params` value passed to the next call.
- The random distributions are not modelled. Every `Math.random()` result is a parameter in [0, 1), so the 20% comorbidity and 10% super-spreader rates are not stated.
- The `contagiousness` curve is not modelled. It uses `Math.sin` and no decision reads it.
- Square roots are not modelled. Distances are compared squared, and the ambulance's unit-vector step is the abstract parameter `Advance`. Arrival and termination of an ambulance's trip are therefore not proved.
- IEEE-754 rounding is not modelled: all quantities are `real`.
- Transmission reads the quarantine radius through each zone's own parameter reference. The model uses the shared `quarantineRadius`, which is the same object in the application.
- The death and burial callbacks are not stored as fields. `Move` returns whether the death callback fired, and the morgue update returns the number of `onBuried` calls.
- In `EpidemicModel.checkCollisions` a draw is consumed only for a pair that passes the status test. The model gives every ordered index pair its own draw, whether or not it is used.
- `getInfectionRate` is not defined on `Person`. It is the parameter `InfectionRate`.
- `EpidemicModel.update` fails for a non-empty population, because `person.move()` gets no zone lists and `updateStatus` does not exist. The model stops after the collision scan and reports that the frame did not complete.
- App.TakeTurn: requires `recoveryTime >= 0`, as do `App.RunTurns`, `App.AfterTurns` and `Agent.Person.TryInfectOthers`. This keeps the re-infection divisor positive; the source divides without checking.
- App.Simulation.GameLoop: does not repeat the no-morgue case and the bound of one removal per burial. `App.Simulation.UpdateSimulation` states both for the same call.
- App.Simulation.Frame: does not repeat the no-morgue case and the bound of one removal per burial, for the same reason.
- App.RunMorgues: the loop says which ambulances each morgue ends with only through the rounds and the kept prefix. That every other ambulance of a morgue is newly created is stated per call by `App.RunMorgue` and not carried through the loop, which carries only that no ambulance belongs to two morgues.
