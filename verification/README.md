# Verification model of SystemC CCI parameters, brokers and their helpers

These Dafny modules model the reference implementation of the Accellera SystemC
CCI configuration interfaces: parameters with re-entrant callbacks and cached
fast paths, handles, brokers and their chains, reference-counted callbacks,
filtered ranges, value converters, and three of the examples built on them
(synchronised parameters, a configuration file reader, a router).
`dafny verify dfyconfig.toml` checks everything.

How the parts fit together:

* `ParamMachine` is the parameter state machine as one recursive interpreter.
  Callbacks are arbitrary: what one does next may depend on the event and on all
  answers it has received, it may call any operation of any parameter and catch
  what that reports. Whether a report throws or only returns is a field of the
  setup. The log of fired callbacks, votes, commits and applied presets is part of
  the state, so that theorems can speak of traces. Recursion ends because a list that is on
  call is not dispatched again.
* `ParamRule` is an induction principle: a law that survives the primitive steps
  survives every call. `ParamLaws`, `ParamRuns` and `ParamLog` instantiate it for
  the flags, for locks, and for the log, which accounts for every value. Writes
  that are all or nothing are in `ParamTheorems`; `ParamOutcomes` says on the
  fields what each single call comes to.
* `ParamFast` runs two machines side by side, one with the fast paths and one
  without, and says by the log which origins they agree on. `ParamSync` and `ParamStars` prove that cascades of post-write
  callbacks converge, first for any network of forwarding callbacks, then while
  the synchronisers of examples 11 and 12 grow such a network, over exact real
  numbers in the second case.
* `ParamObjects` is the same machine as objects that are updated in place; each
  method is proved to have the outcome that the interpreter gives.
* `Handles` is the two-way registry of parameters and handles.
* `ConsumingBroker`, `BrokerChain` and `BrokerObjects` are the preset registries,
  the routing of names up a chain of private brokers, and the broker manager; the
  broker objects are proved to act on the chain as its specification does.
* `ConfigLine` and `ConfigFile` are the parser of example 18; a file is a
  sequence of lines.
* `FilteredRange`, `CallbackRefs`, `Converter` and `Router` stand alone.
  `CallbackRefs` keeps a ghost book of who points where; each count is proved to
  be the number of shares in that book, and a run is the sequence of such books.

Where the code and its comments disagree, the model follows the code:

* The comment on `lock` in `src/cci/cfg/cci_param_untyped.h:489` says that a
  parameter locked without a password can be locked again with one; the code in
  `src/cci/cfg/cci_param_untyped.cpp:234-243` refuses.
* `unregister_all_callbacks` steps over the entry behind each erased one
  (`src/cci/cfg/cci_param_untyped.cpp:184-192`), so it may leave callbacks.
* `reset` with a preset sets the origin but not the fast write flag, and reports
  success even if the preset was rejected (`src/cci/cfg/cci_param_typed.h:957-984`).
* `broker` does not forward `get_preset_value_origin`
  (`src/cci/utils/broker.h:64-105`), so that answer is local.
* The end of a filtered range cannot be decremented, although its category is
  bidirectional: `src/cci/core/cci_filtered_range.h:173-175` makes it without a
  range. Decrementing works from `rbegin()`.
* A cloned adapter leaves the clone it wraps with one reference too many
  (`src/cci/core/cci_callback_impl.h:205-209` and `223-224`).
* In a configuration line a comment sign cuts the line even inside quotes, and
  an equals sign in front makes a macro of a quoted value too.

## Model

| member | source | states |
|---|---|---|
| ParamMachine.Exec | src/cci/cfg/cci_param_typed.h:453-707 | any call, however deeply callbacks nest and whether or not reports throw, leaves the on-call tags as it found them, and the log only grows; the recursion ends because each dispatch takes a free slot |
| ParamMachine.MarkUsesSlot | src/cci/cfg/cci_param_typed.h:43-48 | setting an on-call tag leaves strictly fewer lists that can be dispatched: the measure that ends every cascade |
| ParamRule.EveryCallObeys | src/cci/cfg/cci_param_typed.h:453-984 | a law kept by commits, locks, flag updates, tags and log notes is kept by every call, through all re-entrant callbacks |
| ParamLaws.EveryCallRespects | src/cci/cfg/cci_param_typed.h:453-984 | in every call the flags stay honest (`fast_write` only if mutable, unlocked, no write callbacks; `fast_read` only if no read callbacks) and nothing fires from, votes in or writes under a list that is on the stack |
| ParamLaws.LoopFires | src/cci/cfg/cci_param_typed.h:464-579 | the loop over any of the four lists fires the remaining callbacks in order, once each, and takes one vote each, whatever the callbacks themselves do; only a throw stops it early; in a write list all get one payload, in a read list old and new value of each payload are the same |
| ParamLaws.LoopLeavesUntouched | src/cci/cfg/cci_param_typed.h:453-488 | while pre-write callbacks of a parameter run, nothing they do changes its value or origin |
| ParamTheorems.DispatchFiresInOrder | src/cci/cfg/cci_param_typed.h:453-579 | an outermost dispatch of any list fires the whole list in order unless a report throws, succeeds iff every vote is yes, and a pre-write dispatch leaves value and origin untouched |
| ParamTheorems.StoreIsAllOrNothing | src/cci/cfg/cci_param_typed.h:764-782 | the part that every write shares, presets and resets included, commits, with the old value it found and the written value and origin, iff its pre-write list is not on call, every pre-write callback passes it and none throws; otherwise value and origin are untouched by anything |
| ParamTheorems.WriteIsAllOrNothing | src/cci/cfg/cci_param_typed.h:631-672 | a write through a handle or by the owner commits so iff mutability and key admit it as well; otherwise value and origin are untouched and it does not succeed |
| ParamTheorems.ResetIsAllOrNothing | src/cci/cfg/cci_param_typed.h:957-984 | a reset refuses a locked parameter and changes nothing; otherwise it commits the preset, or the default in the owner's name, under the same condition, without asking for mutability; its answer does not tell a refused preset |
| ParamTheorems.StoreFiresPostCallbacks | src/cci/cfg/cci_param_typed.h:764-782 | an outermost store that succeeds, a preset for instance, fires each post-write callback exactly once, in order, with the old and the new value |
| ParamTheorems.WriteFiresPostCallbacks | src/cci/cfg/cci_param_typed.h:490-519 | so does a successful write |
| ParamTheorems.ResetFiresPostCallbacks | src/cci/cfg/cci_param_typed.h:957-984 | so does a reset that passes the pre-write callbacks and throws nothing |
| ParamTheorems.ReadFiresCallbacks | src/cci/cfg/cci_param_typed.h:521-707 | an outermost read that throws nothing fires each pre-read callback and then each post-read callback once and in order, and answers with the value at its end |
| ParamTheorems.NestedWriteIsIgnored | src/cci/cfg/cci_param_typed.h:453-466 | any set, assignment or reset of a parameter from within its own pre-write dispatch never takes effect |
| ParamOutcomes.CallbackMakesItsCalls | src/cci/cfg/cci_param_typed.h:464-488 | a callback makes the calls it asks for, each on the state and the answers that the ones before left, and ends with its verdict on all answers or with the first report that it does not catch |
| ParamOutcomes.DispatchTakesVerdicts | src/cci/cfg/cci_param_typed.h:464-488 | the votes of an outermost pre-write dispatch are the verdicts of the callbacks, one each and in order, on the old and the new value; if reports throw, a refusal does |
| ParamOutcomes.VetoIsObeyed | src/cci/cfg/cci_param_typed.h:453-488 | if one pre-write callback says no whatever its calls answer, neither a write through a handle nor an assignment changes value or origin, nor succeeds; it throws if reports throw |
| ParamOutcomes.ConsentIsEnough | src/cci/cfg/cci_param_typed.h:631-672 | if no pre-write callback can say no, an outermost write that key and mutability admit commits, unless a callback throws before |
| ParamOutcomes.SetOutcome | src/cci/cfg/cci_param_typed.h:631-672 | without write callbacks a write of a mutable parameter, unlocked without a key or locked with just this key, stores value and origin and sets the fast flag iff it is unlocked and the writer its owner; any other write changes nothing and is reported |
| ParamOutcomes.AssignOutcome | src/cci/cfg/cci_param_typed.h:674-686 | likewise the owner's assignment: the value is stored and the flag set; the fast path keeps the origin that was there |
| ParamOutcomes.WriteRefreshesFlag | src/cci/cfg/cci_param_typed.h:666-671 | after any successful write the fast flag says exactly whether the owner's next write has nothing to ask and this writer was the owner |
| ParamOutcomes.ResetOutcome | src/cci/cfg/cci_param_typed.h:957-984 | without write callbacks a reset of an unlocked parameter gives it the value and the origin of its preset, or its default value in the owner's name, and nothing else changes |
| ParamOutcomes.PresetThenReset | src/cci/cfg/cci_param_typed.h:957-984 | a preset that is set is what the next reset gives |
| ParamOutcomes.ReadOutcome | src/cci/cfg/cci_param_typed.h:614-707 | without read callbacks both reads give the value and set the flag for fast reads |
| ParamOutcomes.ReadsFireCallbacks | src/cci/cfg/cci_param_typed.h:521-707 | the owner's read and the read through a handle both fire both read lists once and in order, give the value at the end, and refresh the flag for fast reads |
| ParamOutcomes.LockOutcome | src/cci/cfg/cci_param_untyped.cpp:234-243 | locking stores the key, or the parameter itself for none, iff the parameter is unlocked or locked with just this key; otherwise the lock stays and the answer is no |
| ParamOutcomes.UnlockOutcome | src/cci/cfg/cci_param_untyped.cpp:245-253 | exactly the key of the present lock unlocks |
| ParamOutcomes.LockKeepsOut | src/cci/cfg/cci_param_typed.h:641-652 | after a lock, assignments and writes without its key change nothing and are reported, and a reset answers no |
| ParamOutcomes.LockHolds | src/cci/cfg/cci_param_untyped.cpp:234-253 | from a lock on, over every run that never presents the key, the parameter keeps the lock and the value and origin of that moment |
| ParamOutcomes.RegisterOutcome | src/cci/cfg/cci_param_untyped.cpp:128-138 | registering appends the callback to its list, leaves the other lists and parameters alone, and clears both flags |
| ParamOutcomes.UnregisterOutcome | src/cci/cfg/cci_param_untyped.cpp:148-164 | unregistering takes the first entry with that function object and that originator out of its list, and nothing else |
| ParamLog.LogExplainsRun | src/cci/cfg/cci_param_typed.h:464-686 | over every run, with any nesting and any throws, every value is the last one committed and, without fast paths, every origin that of the last commit; every commit named the value that it replaced, and every pre-write and read callback was told the value of its moment |
| ParamRuns.RunKeepsHealth | src/cci/cfg/cci_param_untyped.cpp:128-253 | every run of calls, registrations and unregistrations keeps the flags honest and ends with no list on call |
| ParamRuns.EraseOwnedIsComplete | src/cci/cfg/cci_param_untyped.cpp:184-192 | one loop of unregistering all erases every callback of the originator from its list iff no two of them are neighbours there |
| ParamRuns.EraseOwnedSparesOthers | src/cci/cfg/cci_param_untyped.cpp:184-192 | the callbacks of all other originators stay, in their order |
| ParamRuns.NeighbourStays | src/cci/cfg/cci_param_untyped.cpp:184-192 | of two callbacks of one originator that stand together, the second is left |
| ParamRuns.UnregisterAllIsComplete | src/cci/cfg/cci_param_untyped.cpp:181-221 | unregistering all leaves no callback of the originator in any of the four lists iff no two of them were neighbours in any list |
| ParamRuns.UnregisterUndoesRegister | src/cci/cfg/cci_param_untyped.cpp:128-164 | unregistering a callback just registered gives back the lists as they were, but for the fast flags, unless the same callback of the same originator was there before |
| ParamRuns.LockedForTheWholeRun | src/cci/cfg/cci_param_untyped.cpp:234-253 | a parameter locked with a key keeps value, origin and lock over every run, callbacks included, that never presents that key; a missing key stands for the parameter itself in lock and unlock only |
| ParamFast.EveryCallAgrees | src/cci/cfg/cci_param_typed.h:614-707 | a machine with the fast paths and one without give the same answers, values, flags and callback traces for every call; the origins too of parameters to which no stranger's preset was applied |
| ParamFast.FastPathsAreInvisible | src/cci/cfg/cci_param_typed.h:614-686 | the same over every run with registrations, presets and locks: values, lock states and traces agree, and parameter by parameter the value origin agrees as well if no reset in the run has applied a stranger's preset to that parameter, whoever writes and whoever sets presets |
| ParamFast.OriginsAreExplained | src/cci/cfg/cci_param_typed.h:631-686 | then the origin that the machine with fast paths shows is that of the last commit in the log |
| ParamFast.HarmlessRunsApplyOwnPresets | src/cci/cfg/cci_param_typed.h:957-968 | no reset applies a stranger's preset to a parameter if, step by step, neither the call nor any callback then registered resets the parameter while its preset is a stranger's |
| ParamFast.FastWriteOrigin | src/cci/cfg/cci_param_typed.h:674-686 | the fast write leaves the origin alone where the slow one sets the owner's: they differ exactly in what the origin was |
| ParamFast.ResetLeavesFlag | src/cci/cfg/cci_param_typed.h:957-984 | a reset to a preset on a parameter with the fast flag stores the preset's origin and leaves the flag set |
| ParamFast.ResetThenAssign | src/cci/cfg/cci_param_typed.h:957-984 | on a parameter with the fast flag, after a reset to a preset and an owner's assignment the origins with and without fast paths agree iff the preset was the owner's |
| ParamSync.SetSpreads | src/cci/cfg/cci_param_typed.h:490-519 | a write inside a network of copying post-write callbacks brings everything it writes to its goal and writes all that the written parameters link to, but for lists already on the stack |
| ParamSync.CascadeConverges | src/cci/cfg/cci_param_typed.h:490-519 | a write to one parameter of any network of forwarding post-write callbacks ends, brings exactly the reachable parameters to their goals and leaves all others unchanged |
| ParamStars.BareIsNet | examples/cci/ex11_Directly_Associating_Parameters/ex11_param_value_sync.h:54-60 | mutable, unlocked parameters without write callbacks are a network, whatever its states are: where construction can start |
| ParamStars.SynchJoins | examples/cci/ex11_Directly_Associating_Parameters/ex11_param_value_sync.h:90-104 | one turn of the constructor, in any network of callbacks that pass on what its states require and for any two members: it succeeds, exactly what the spoke reaches comes to the hub's state, and the network has the two new links |
| ParamStars.BareSynch | examples/cci/ex11_Directly_Associating_Parameters/ex11_param_value_sync.h:90-104 | for two parameters without callbacks the turn gives the spoke the hub's value in the synchroniser's name, leaves the hub's, and appends one callback to each |
| ParamStars.RelayWritesAsOwner | examples/cci/ex11_Directly_Associating_Parameters/ex11_param_value_sync.h:90-104 | such a callback writes the converted new value in the name of the synchroniser |
| ParamStars.SynchAllJoins | examples/cci/ex11_Directly_Associating_Parameters/ex11_param_value_sync.h:54-65 | the constructor's loop succeeds in any such network, even with a parameter listed twice or listed as its own spoke: every spoke is in the hub's state and nothing outside the network changes |
| ParamStars.StarConverges | examples/cci/ex11_Directly_Associating_Parameters/ex11_param_value_sync.h:72-104 | writing to any member of a star, hub or spoke, brings all members to the state written, changes nothing outside the network, and keeps the network quiet |
| ParamStars.CopiesStartEqual | examples/cci/ex11_Directly_Associating_Parameters/ex11_param_value_sync.h:54-104 | after construction all members of the star have the hub's value |
| ParamStars.CopiesStayEqual | examples/cci/ex11_Directly_Associating_Parameters/ex11_param_value_sync.h:72-104 | after every sequence of writes to members all members have the value written last |
| ParamStars.ScalesStartScaled | examples/cci/ex12_Indirectly_Associating_Parameters/ex12_param_value_sync_with_cf.h:55-76 | after construction each spoke is its factor times the number that the hub has, integer or real |
| ParamStars.WriteScalesAll | examples/cci/ex12_Indirectly_Associating_Parameters/ex12_param_value_sync_with_cf.h:83-94 | writing y to any member brings the hub to y / f and every spoke to its multiple of that; the written member keeps y although the cascade may write it again |
| ParamStars.FactorsCompose | examples/cci/ex12_Indirectly_Associating_Parameters/ex12_param_value_sync_with_cf.h:105-141 | the factor table is multiplicative on known units, the factor back is the inverse, and a factor is zero iff a unit is unknown |
| ParamStars.FactorsAreRatios | examples/cci/ex12_Indirectly_Associating_Parameters/ex12_param_value_sync_with_cf.h:105-141 | each factor is the ratio of the two units in Hertz |
| ParamObjects.Simulation.SetRawValue | src/cci/cfg/cci_param_typed.h:631-672 | the imperative write, on objects, with its loops and guards, has exactly the outcome of the specified one |
| ParamObjects.Simulation.SetValue | src/cci/cfg/cci_param_typed.h:674-686 | likewise the owner's assignment with its fast path |
| ParamObjects.Simulation.GetValue | src/cci/cfg/cci_param_typed.h:614-629 | likewise the owner's read with its fast path |
| ParamObjects.Simulation.GetRawValue | src/cci/cfg/cci_param_typed.h:694-707 | likewise the read through a handle |
| ParamObjects.Simulation.PresetValue | src/cci/cfg/cci_param_typed.h:764-782 | likewise the write of a preset, which asks neither key nor mutability |
| ParamObjects.Simulation.ResetValue | src/cci/cfg/cci_param_typed.h:957-984 | likewise reset, which reports success even if a pre-write callback rejects the preset; without write callbacks the object has then the preset's value and origin, or its default and its owner |
| ParamObjects.Simulation.DispatchList | src/cci/cfg/cci_param_typed.h:453-519 | likewise a dispatch: the tag is tested, set, and cleared on every way out |
| ParamObjects.Simulation.RunList | src/cci/cfg/cci_param_typed.h:464-487 | likewise the index loop over the callbacks of one list |
| ParamObjects.Simulation.LockObject | src/cci/cfg/cci_param_untyped.cpp:234-243 | the object stores the key iff it is unlocked or locked with just this key; another key is refused even if the present lock has no password |
| ParamObjects.Simulation.UnlockObject | src/cci/cfg/cci_param_untyped.cpp:245-253 | the object gives up its lock iff the key is that of the present lock |
| ParamObjects.Simulation.Register | src/cci/cfg/cci_param_untyped.cpp:128-138 | registering appends to the list and clears both fast flags |
| ParamObjects.Simulation.Unregister | src/cci/cfg/cci_param_untyped.cpp:148-164 | the search loop erases the first entry of the list with this callback and this originator, leaves the flags alone, and answers whether there was one |
| ParamObjects.Simulation.UnregisterAll | src/cci/cfg/cci_param_untyped.cpp:181-221 | the four loops change the lists as specified; the answer is whether the originator had any callback, not whether all are gone |
| ParamObjects.Simulation.EraseInPlace | src/cci/cfg/cci_param_untyped.cpp:184-192 | the erase loop in place computes the specified list, neighbours skipped, and tells whether there was anything to erase |
| ParamObjects.Simulation.SynchroniseAll | examples/cci/ex11_Directly_Associating_Parameters/ex11_param_value_sync.h:62-64 | the constructor's loop on objects does what the specified star construction does |
| Handles.WithoutRemoves | src/cci/cfg/cci_param_untyped.cpp:275-282 | erase and remove drop every occurrence of the handle and keep all others as often as they were |
| Handles.NewHandle | src/cci/cfg/cci_param_untyped_handle.cpp:32-60 | constructing or copying a handle enters it once in its parameter's list; all lists and pointers still agree |
| Handles.Assign | src/cci/cfg/cci_param_untyped_handle.cpp:74-91 | assignment, also to itself, moves the handle from one list to the other; its originator stays |
| Handles.Invalidate | src/cci/cfg/cci_param_untyped_handle.cpp:293-298 | an invalidated handle points nowhere and is in no list |
| Handles.DestroyHandle | src/cci/cfg/cci_param_untyped_handle.cpp:47-50 | a destroyed handle is in no list, its parameter loses just this entry, and the registry of the other handles stays linked |
| Handles.InvalidateAll | src/cci/cfg/cci_param_untyped.cpp:284-289 | the loop over the first handle ends, empties the list, and invalidates exactly the handles that pointed here |
| Handles.DestroyParam | src/cci/cfg/cci_param_untyped.cpp:70-79 | after destruction the list is empty, as the destructor asserts, no handle points to the parameter and all other links are intact |
| ConsumingBroker.ApplyRefines | src/cci/utils/consuming_broker.cpp:47-342 | used and unused map and the originator map are one map of presets: adding or removing parameters leaves it unchanged, an unlocked set changes one entry, a locked one nothing |
| ConsumingBroker.SetGoesWhere | src/cci/utils/consuming_broker.cpp:47-78 | a set is kept with its originator in the used map if the name has a preset in use, in the unused map otherwise, and nowhere if the name is locked |
| ConsumingBroker.AddTakesUp | src/cci/utils/consuming_broker.cpp:306-324 | adding a parameter registers its name, moves its waiting preset to the used map, leaves all other names alone, and makes its value origin that of the name |
| ConsumingBroker.RemoveGivesBack | src/cci/utils/consuming_broker.cpp:326-342 | removing it takes the name out and moves its preset back, and the value origin of the name is again that of the preset |
| ConsumingBroker.RunKeepsConsistency | src/cci/utils/consuming_broker.cpp:47-342 | over every run the two maps are disjoint, together have the keys of the originator map, and used names are those of registered parameters |
| ConsumingBroker.RoundsLoseNothing | src/cci/utils/consuming_broker.cpp:306-342 | any number of creations and destructions of parameters loses and changes no preset |
| ConsumingBroker.LockedPresetStays | src/cci/utils/consuming_broker.cpp:156-160 | a locked name keeps its preset and its origin, or their absence, over every run |
| ConsumingBroker.LockedNameStartsAlike | src/cci/cfg/cci_param_if.cpp:31-40 | after a name is locked, every later parameter of that name starts with the same value and origin, or with its own default if there was no preset |
| ConsumingBroker.PlainBroker.SetPresetValue | src/cci/utils/consuming_broker.cpp:47-78 | setting a preset on the object: refused iff locked, else the used entry if there is one and the unused one otherwise |
| ConsumingBroker.PlainBroker.Add | src/cci/utils/consuming_broker.cpp:306-324 | a new parameter moves its preset from the unused to the used map |
| ConsumingBroker.PlainBroker.Remove | src/cci/utils/consuming_broker.cpp:326-342 | a destroyed parameter moves its preset back |
| ConsumingBroker.PlainBroker.LookupPreset | src/cci/utils/consuming_broker.cpp:136-154 | the lookup in both maps answers from the one map of presets |
| BrokerChain.OwnerIsUnique | src/cci/utils/broker.cpp:35-38 | the owner of a name is the end of the one way up along brokers whose `expose` set has the name and which have a parent |
| BrokerChain.OwnerByFields | src/cci/utils/broker.cpp:35-38 | a name that is not in the `expose` set stays with the broker, and so does every name at a global one; an exposed name has the parent's owner |
| BrokerChain.ForwardActsAtOwner | src/cci/utils/broker.cpp:54-130 | each forwarded operation acts on the owner's state as a plain broker would and leaves every other broker unchanged |
| BrokerChain.AskReachesOwner | src/cci/utils/broker.cpp:54-130 | each forwarded query is the owner's answer |
| BrokerChain.SetIsReadBackByOwner | src/cci/utils/broker.cpp:54-98 | a preset set through one broker is present and read back, with its origin at the owner, through exactly the brokers with the same owner for the name; the others answer as before |
| BrokerChain.OtherNamesStay | src/cci/utils/broker.cpp:54-130 | an operation through any broker leaves presence, value and owner's origin of the preset of every other name as they were, through every broker |
| BrokerChain.RunKeepsSane | src/cci/utils/broker.cpp:35-38 | over every run through any brokers a broker holds nothing under a name that it sends up, and routes never change |
| BrokerChain.LockedForTheChain | src/cci/utils/broker.cpp:54-98 | once a name is locked at its owner, preset and origin seen through a broker stay, over every run through every broker |
| BrokerChain.HistoryDecides | src/cci/utils/consuming_broker.cpp:47-78 | over every run through any brokers from the start, the preset and the origin that an owner has for a name are those of the last set of the name before it was locked there, and none if there was no such set |
| BrokerChain.PresetOriginIsLocal | src/cci/utils/broker.h:64-105 | the origin of a preset is asked locally: after any run the answer is the owner's iff the broker does not pass the name up, or the name was not set before it was locked, or the set that counts carried the unknown originator |
| BrokerChain.PresetOriginIsLostUpwards | src/cci/utils/broker.h:64-105 | when all presets are set by known originators, the answer is the owner's iff the broker does not pass the name up or there is no preset of the name |
| BrokerChain.PresetOriginCanBeWrong | src/cci/utils/broker.h:64-105 | two brokers and one preset set through the child, where the child's answer is wrong |
| BrokerChain.LookupIsFirstListed | src/cci/utils/broker.cpp:131-163 | looking a parameter up by name finds the first entry of that name in the enumeration, and nothing iff there is none |
| BrokerChain.LookupFindsNearest | src/cci/utils/broker.cpp:131-163 | looking a parameter up by name gives that of the nearest broker upwards which has one, and fails iff none has |
| BrokerObjects.PrivateBroker.OwnersAgree | src/cci/utils/broker.cpp:35-38 | a chain of broker objects is a chain of BrokerChain: in order, with the same owner for every name |
| BrokerObjects.PrivateBroker.OwnerByFields | src/cci/utils/broker.cpp:35-38 | on objects: a name that is not exposed, or has no parent to go to, belongs to this broker's registries, an exposed one to whom it belongs for the parent |
| BrokerObjects.PrivateBroker.SetPresetValue | src/cci/utils/broker.cpp:54-75 | on objects: setting a preset does to the chain exactly what forwarding does, and changes no registry but the owner's |
| BrokerObjects.PrivateBroker.Remove | src/cci/utils/broker.cpp:100-130 | likewise removing a parameter |
| BrokerObjects.PrivateBroker.LookupPreset | src/cci/utils/broker.cpp:54-98 | the objects answer the two preset queries as the chain does |
| BrokerObjects.PrivateBroker.PresetOrigin | src/cci/utils/broker.h:64-105 | the origin query is the local one of the chain |
| BrokerObjects.Manager.GetBroker | src/cci/cfg/cci_broker_manager.cpp:29-47 | the climb finds the broker of the nearest place upwards, and none iff no place upwards has one |
| BrokerObjects.PlacesLeadOut | src/cci/cfg/cci_broker_manager.cpp:33-46 | the places of the climb are the object itself, then each time the parent object, and last the outside of the hierarchy |
| BrokerObjects.Manager.RegisterBroker | src/cci/cfg/cci_broker_manager.cpp:49-66 | the first broker of a place stays; the caller gets the one that is registered |
| BrokerObjects.FoundIsRegistered | src/cci/cfg/cci_broker_manager.cpp:33-46 | the search answers with the nearest registered broker |
| BrokerObjects.CreateFindsParent | src/cci/utils/broker.h:50-60 | a new broker exposes and holds nothing and has as parent the broker registered nearest above its place; one outside the hierarchy has none |
| BrokerObjects.FirstRegisteredStays | src/cci/cfg/cci_broker_manager.cpp:49-70 | registering makes a broker that of its place unless the place has one |
| BrokerObjects.ChainsAreWellFounded | src/cci/utils/broker.h:50-60 | over every sequence of registrations and constructions each broker's parent was built before it, and entries never change |
| ConfigLine.Tokenise | examples/cci/ex18_Preset_Values_Superset/ex18_cci_configFile_Tool.h:232-269 | the cutting loop of parse ends and gives the words of the text before the comment sign |
| ConfigLine.UnescapeInPlace | examples/cci/ex18_Preset_Values_Superset/ex18_cci_configFile_Tool.h:315-318 | the replace loop ends, since the text shrinks, and each backslash before a quote goes away |
| ConfigLine.LtrimInPlace | examples/cci/ex18_Preset_Values_Superset/ex18_cci_configFile_Tool.h:41-46 | trimming from the left removes exactly the leading white space |
| ConfigLine.RtrimInPlace | examples/cci/ex18_Preset_Values_Superset/ex18_cci_configFile_Tool.h:47-52 | trimming from the right likewise |
| ConfigLine.InterpretConfigLine | examples/cci/ex18_Preset_Values_Superset/ex18_cci_configFile_Tool.h:283-339 | interpreting a line on strings cut in place gives the specified name and value |
| ConfigLine.PlainLine | examples/cci/ex18_Preset_Values_Superset/ex18_cci_configFile_Tool.h:283-339 | a line of a name, a blank or tab, and a value with at most one quote reads as exactly this name and value, with any white space around and inside and any comment behind |
| ConfigLine.EscapedQuoteLine | examples/cci/ex18_Preset_Values_Superset/ex18_cci_configFile_Tool.h:314-318 | of one escaped quote in a value the backslash goes |
| ConfigLine.QuotedLine | examples/cci/ex18_Preset_Values_Superset/ex18_cci_configFile_Tool.h:305-318 | of a value with a quoted part everything outside the quotes is dropped and the escapes inside are undone |
| ConfigLine.EmptyLine | examples/cci/ex18_Preset_Values_Superset/ex18_cci_configFile_Tool.h:283-339 | a line of white space or comment only gives no name and no value |
| ConfigLine.OneWordLine | examples/cci/ex18_Preset_Values_Superset/ex18_cci_configFile_Tool.h:233-273 | a line of one word fails to parse |
| ConfigLine.UnescapeEscape | examples/cci/ex18_Preset_Values_Superset/ex18_cci_configFile_Tool.h:315-318 | unescaping undoes escaping, for every text, backslashes and all |
| ConfigLine.RoundTrip | examples/cci/ex18_Preset_Values_Superset/ex18_cci_configFile_Tool.h:283-339 | name, space and quoted escaped value read back as that name and value iff the name can stand at the start of a line and the value has no comment sign: a comment sign cuts even inside quotes |
| ConfigFile.ConfigSet.Add | examples/cci/ex18_Preset_Values_Superset/ex18_configset.h:60-73 | adding overwrites and tells whether the name was new |
| ConfigFile.CreateConfigSet | examples/cci/ex18_Preset_Values_Superset/ex18_cci_configFile_Tool.h:168-223 | for any lines: the configured names are the assigned ones, each with its last assignment, whose value is replaced by the macro in force then if it is exactly its name |
| ConfigFile.MacroLine | examples/cci/ex18_Preset_Values_Superset/ex18_cci_configFile_Tool.h:192-205 | a line with an equals sign before its value defines a macro with the value behind it, trimmed, if the name has only capital letters and underscores, and nothing otherwise |
| ConfigFile.AssignLine | examples/cci/ex18_Preset_Values_Superset/ex18_cci_configFile_Tool.h:206-214 | any other such line assigns its value to its name |
| ConfigFile.MacroIsUsedBehindItsLine | examples/cci/ex18_Preset_Values_Superset/ex18_cci_configFile_Tool.h:206-214 | a line that names a macro of an earlier line assigns the macro's value; one before the macro assigns the name itself |
| ConfigFile.OtherLinesChangeNothing | examples/cci/ex18_Preset_Values_Superset/ex18_cci_configFile_Tool.h:190-205 | a later macro definition never changes an earlier assignment |
| ConfigFile.DescribedOnce | examples/cci/ex18_Preset_Values_Superset/ex18_cci_configFile_Tool.h:182-222 | the lines leave no choice: one configuration fits them |
| ConfigFile.WrittenFileReadsBack | examples/cci/ex18_Preset_Values_Superset/ex18_cci_configFile_Tool.h:182-222 | a file written line by line from good entries reads back as the last value of each name |
| ConfigFile.OneLineFile | examples/cci/ex18_Preset_Values_Superset/ex18_cci_configFile_Tool.h:192-205 | one written line reads back iff name and value are good and the value does not begin with an equals sign |
| FilteredRange.Range.constructor | src/cci/core/cci_filtered_range.h:160-167 | the begin of a range is its first accepted element, or the end |
| FilteredRange.Cursor.Increment | src/cci/core/cci_filtered_range.h:126-136 | `++` goes to the next accepted element or the end; on an iterator made by `end()` it does nothing |
| FilteredRange.Cursor.Decrement | src/cci/core/cci_filtered_range.h:138-148 | `--` goes to the accepted element before, not before the begin |
| FilteredRange.Enumerate | src/cci/core/cci_filtered_range.h:169-175 | from begin to end a range shows exactly the accepted elements, in order |
| FilteredRange.EnumerateBackwards | src/cci/core/cci_filtered_range.h:194-208 | the reverse range shows the same in reverse order |
| FilteredRange.StepsAreInverse | src/cci/core/cci_filtered_range.h:126-148 | between accepted positions `++` and `--` undo each other: at every position but the end, respectively the begin, and only there |
| FilteredRange.BeginIsEndOnlyIfNothingIsAccepted | src/cci/core/cci_filtered_range.h:219-223 | begin equals end iff no element is accepted |
| FilteredRange.FilterCounts | src/cci/core/cci_filtered_range.h:40-54 | each accepted element is visited as often as it occurs, each other one never |
| UnconsumedPresets.GetUnconsumedPresetValues | src/cci/utils/consuming_broker.cpp:80-103 | the unused presets that no ignore predicate accepts |
| UnconsumedPresets.ListUnconsumed | src/cci/utils/consuming_broker.cpp:105-109 | the range over them shows those that the caller's predicate accepts as well |
| UnconsumedPresets.ListedOnce | src/cci/utils/consuming_broker.cpp:80-109 | a name and value is listed once iff it is an unused preset, not ignored, and chosen; otherwise never |
| CallbackRefs.CallbackNode.Release | src/cci/core/cci_callback_impl.h:140-141 | dropping a share deletes what has no share left, through any stack of adapters, and nothing else |
| CallbackRefs.CallbackNode.CloneAdapter | src/cci/core/cci_callback_impl.h:223-224 | a cloned adapter holds a clone of what it wraps, and one share of each inner clone is held by nobody |
| CallbackRefs.Holder.FromFunctor | src/cci/core/cci_callback.h:121-128 | a callback made from a functor starts with the one share of its owner |
| CallbackRefs.Holder.CopyCallback | src/cci/core/cci_callback.h:91-93 | a copied callback has its own clone |
| CallbackRefs.Holder.AssignCallback | src/cci/core/cci_callback.h:115-119 | assignment clones, swaps and drops, also to itself |
| CallbackRefs.Holder.Adapted | src/cci/core/cci_callback.h:104-113 | a typed callback made from a generic one holds an adapter with a share in it |
| CallbackRefs.Holder.Share | src/cci/core/cci_callback.h:187-201 | handles point to the same callback and add a share |
| CallbackRefs.Holder.AssignHandle | src/cci/core/cci_callback.h:204-209 | handle assignment, also to itself, moves the share |
| CallbackRefs.Holder.Swap | src/cci/core/cci_callback.h:212-216 | swapping changes no count |
| CallbackRefs.Holder.Drop | src/cci/core/cci_callback.h:218-222 | the destructor gives the share back and leaves every count right |
| CallbackRefs.Holder.Recover | src/cci/core/cci_callback.h:396-413 | typed recovery: the same callback if the signature matches, a new adapter around the bottom one if that is generic, else nothing; no count is off and nothing else is deleted |
| CallbackRefs.LiveIsSettled | src/cci/core/cci_callback_impl.h:140-141 | which callbacks exist is settled by the holders and the lost shares |
| CallbackRefs.ExistsWhileShared | src/cci/core/cci_callback.h:144-148 | a callback exists iff a holder points to it or to an adapter stacked on it, or a share in it or in such an adapter is lost |
| CallbackRefs.OnlyAdaptersLose | src/cci/core/cci_callback_impl.h:223-224 | a copy loses a share iff it copies an adapter |
| CallbackRefs.LastHolderGone | src/cci/core/cci_callback.h:218-222 | when no holder is left everything is deleted iff no share was lost |
| CallbackRefs.Step | src/cci/core/cci_callback.h:91-291 | each operation, making, copying, assigning, swapping, converting, clearing or ending a callback or a handle, changes the holders and the shares as its own rule says and nothing else, and what has no share left is gone |
| CallbackRefs.NewHolderPoints | src/cci/core/cci_callback.h:91-413 | where the holders point after each operation that makes one: a new functor's callback, an adapter only around a generic callback of its kind, the same callback for a handle, for a typed handle the same or an adapter around the bottom or nothing, a copy with the same layers |
| CallbackRefs.OldHolderPoints | src/cci/core/cci_callback.h:91-291 | where they point after assigning, swapping, clearing and ending |
| CallbackRefs.Run | src/cci/core/cci_callback.h:91-291 | every program from the start is a run: a sequence of moments, each leading to the next by its operation, with every count right at every moment |
| CallbackRefs.HeldAtEveryMoment | src/cci/core/cci_callback.h:144-148 | at every moment of every run, what a holder points to has not been deleted |
| CallbackRefs.LosesWhenItCopiesAdapter | src/cci/core/cci_callback_impl.h:223-224 | an operation loses a share iff it copies a callback that is an adapter, and a lost share stays lost |
| CallbackRefs.ExactUnlessAdapterCopied | src/cci/core/cci_callback_impl.h:205-224 | over every run every count is exactly the number of owners, handles and adapters iff no step copied an adapter |
| CallbackRefs.CopiedAdapterLeaks | src/cci/core/cci_callback_impl.h:205-224 | the program that makes a callback, adapts it and copies the adapter loses a share |
| CallbackRefs.NothingLeftUnlessAdapterCopied | src/cci/core/cci_callback.h:218-222 | when the last owner and the last handle have ended, everything is deleted iff no step of the run copied an adapter |
| Converter.Pack | src/cci/core/cci_value_converter.h:294-303 | packing with its loops builds the specified value, nested to any depth |
| Converter.Unpack | src/cci/core/cci_value_converter.cpp:44-64 | unpacking answers and writes as specified for every type, value and destination |
| Converter.UnpackArray | src/cci/core/cci_value_converter.h:304-315 | an array takes exactly lists of at most N items that all convert |
| Converter.UnpackVector | src/cci/core/cci_value_converter.h:344-359 | a vector takes exactly lists whose items all convert, and is unchanged on failure |
| Converter.ArrayKeepsTheRest | src/cci/core/cci_value_converter.h:304-315 | items behind the first bad one or behind the end of the list are not written; those before are converted |
| Converter.RoundTrip | src/cci/core/cci_value_converter.h:192-211 | for every type nested to any depth, what was packed unpacks into any destination as the same data |
| Converter.SameIsEqual | src/cci/core/cci_value_converter.h:257-284 | without character buffers the same means equal; buffers are equal as strings |
| Converter.RoundTripBack | src/cci/core/cci_value_converter.h:328-359 | for types without cast or filling up, what unpacks packs to the same value again |
| Converter.LeavesTakeTheirKind | src/cci/core/cci_value_converter.cpp:44-64 | truth values, texts and integers unpack from their own kind of value only; a double unpacks from reals and integers, with their number |
| Converter.LeavesTakeAll | src/cci/core/cci_value_converter.cpp:44-64 | every truth value, text and real packs to its own kind and is accepted back |
| Converter.RefusedLeavesLeaf | src/cci/core/cci_value_converter.cpp:50-55 | what such a type refuses leaves the destination alone |
| Converter.NumberTakesIntegers | src/cci/core/cci_value_converter.cpp:62 | a double takes an integer iff 64 bits hold it, signed or unsigned |
| Converter.IntegerRanges | src/cci/core/cci_value_converter.h:192-211 | an integer type up to 32 bits takes exactly what 32 bits hold, one of 64 bits what 64 bits hold, and stores the number modulo its own range |
| Converter.CharsTakeText | src/cci/core/cci_value_converter.h:257-284 | a character buffer takes a text iff it leaves room for the NUL, and null as the empty text; of a text that is too long it stores the front although it fails |
| Converter.OthersAreRefused | src/cci/core/cci_value_converter.h:257-359 | arrays and vectors refuse anything but lists, buffers anything but texts and null, and stay as they were |
| Router.Router.BeforeEndOfElaboration | examples/cci/ex09_Parent_Control_of_Preset_Values/ex09_router.h:90-116 | the loop fills the table with the default rows, wrap-around of the last address included |
| Router.Router.Transport | examples/cci/ex09_Parent_Control_of_Preset_Values/ex09_router.h:138-162 | the search answers with the first row that holds the address, whatever the table holds |
| Router.Routing | examples/cci/ex09_Parent_Control_of_Preset_Values/ex09_router.h:90-162 | with n targets and s = limit div n: an address below n*s goes to target a div s, one from there to the limit to none; with more targets than addresses everything goes to target 0 |
| Router.DisjointRows | examples/cci/ex09_Parent_Control_of_Preset_Values/ex09_router.h:101-116 | the rows are disjoint iff n is at most the limit or 1 |
| Router.RowsCover | examples/cci/ex09_Parent_Control_of_Preset_Values/ex09_router.h:101-116 | the rows cover exactly the addresses below n*s |

## Left out

- Failing type conversions inside parameters: a value given to a parameter always has the parameter's type; `Converter` treats conversion by itself.
- Calls through an invalid handle: they count as a report that is thrown, not as an abort.
- Registering or unregistering callbacks from within a dispatch, and changing `expose` while names are in use: not allowed in the model, as iterators and routes would dangle.
- Typed callbacks that do not match the parameter's type: every registered callback is valid, so the `valid()` tests of the read and post-write lists always hold.
- Callbacks see the event and the answers to their own calls, not other program state.
- Assignment from another parameter passes the other value by reference; the model passes it by value.
- Handles made for the duration of a callback, and the callbacks on creation and destruction of parameters in a broker.
- ParamStars.SynchAllJoins: members that are immutable, locked or have pre-write callbacks, and hubs with read callbacks, for which the constructor may fail half way.
- ParamStars.WriteScalesAll: exact real arithmetic instead of rounded doubles.
- ParamStars.FactorsCompose: names are given by their unit suffix; a name without an underscore makes the C++ code dereference a null pointer.
- BrokerChain.LookupIsFirstListed: the order inside one broker's enumeration is left open; the originators of the handles are not modelled.
- Name generation and name clashes, parameter descriptions and metadata, report texts, stream output.
- JSON text and the storage behind `cci_value`: a value is a datatype.
- ConfigLine.InterpretConfigLine: lines are complete and without NUL characters; the buffer of 1024 characters is not modelled.
- ConfigFile.CreateConfigSet: opening the file and the warnings about bad lines.
- CallbackRefs.Run: operations on holders that do not exist do nothing, since no program can say them; the functor is not modelled, only its signature; counts are unbounded where the code has `unsigned`.
- Converter.Unpack: the destination is passed in and out by value; NaN and rounding of large integers to `double` are not modelled, nor are `float`, SystemC and user-defined types.
- Router.Router.BeforeEndOfElaboration: presets on the table's own parameters, the truncated names from the tenth target on, and the transaction itself.
- Router.Router.constructor: zero targets divide by zero and a limit from 2^31 on overflows `int`; both have no meaning in C++.
- Copying a filtered range, whose iterators refer to the original object; the parser of example 17, which is that of example 18 without quotes; the remaining examples.
