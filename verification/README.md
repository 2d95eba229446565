# Verification of hololinked

A Dafny model of the parts of hololinked that carry state or decide about calls, with proofs of what they keep.
`dafny verify dfyconfig.toml` checks all of it.

| file | what it models |
|---|---|
| `CrossLoopEvent.dfy` | the event that coroutines on different asyncio loops await: its locked sections as methods, and all interleavings of threads, tasks and loops around them |
| `AtomicEvent.dfy` | the same event as its users see it, and the simulation between the two |
| `RunRegistry.dfy` | the registry behind `run()` and `stop()`, and any number of such calls at once |
| `JsonStorage.dfy` | the JSON file behind the settings of a `Thing` |
| `StoredEntry.dfy` | one stored entry, in memory and in the file: writing, saving, loading the file anew |
| `PropertyLife.dfy` | properties over any number of restarts: writes, the attached store, loading, the flags `db_init`, `db_persist`, `db_commit` |
| `Thing.dfy` | the object whose methods do this |
| `StateMachine.dfy` | `set_state` with callbacks that set the state again, and the events of the `state` property |
| `Gates.dfy` | `StateMachine.validate` and the gates of actions and properties |
| `ChangeEvents.dfy` | which reads and writes of an observable property push an event |
| `PythonCalls.dfy` | how Python binds arguments to parameters, section 6.3.4 of the Python Language Reference |
| `JsonArguments.dfy` | arguments checked against a JSON schema and passed on to the handler of an action |
| `PydanticArguments.dfy` | arguments laid out as the fields of a pydantic model |
| `ConstrainedList.dfy` | lists with bounds and an item type that share their inner list |
| `Descendents.dfy` | the breadth-first search below a class |
| `IPv6.dfy` | the textual test for IPv6 addresses |
| `Comparator.dfy` | deep comparison of values |
| `ConstantParameters.dfy` | constant parameters and `edit_constant` |
| `SchemaRegistry.dfy` | the registry that chooses a validator for a schema |
| `Sequences.dfy`, `Wrappers.dfy` | shared notions and types |

Where the source updates objects, the model has classes whose methods are proved against functions on values; the
laws are then proved about these functions. Concurrent code is a transition system: a section under a lock is one
step, as `threading.Lock` makes it, and everything outside a lock interleaves freely.

Where a property one might expect does not hold of the code, the exact condition under which it does is proved:

- An id given to `run()` again before the earlier run under it has left loses the new run (`SafeToRegister`,
  `ReusedIdIsLost`): the earlier run pops whatever is registered under its id.
- A value that cannot be encoded, or a getter that fails, leaves the storage ahead of its file. Such a value keeps every
  later write from the file too, of whatever name, until it is overwritten (`FileHoldsLastEncoded`,
  `OneEntryBlocksAll`, `GoodWriteFails`), and a restart loses exactly the writes that nothing saved before it
  (`WriteSurvivesExactly`, `LostTogether`).
- Loading changes a stored entry if adapting it changes it; where adapting is idempotent, only a getter of the
  property's own can bring that about (`LoadingRewrites`, `LoadingChangesNothing`, `GetterIsRewritten`).
- A constant property with a setter of its own and no default takes any number of writes (`ConstantTakesOneWrite`,
  `OwnSetterStaysOpen`, `ConstantIsRewritten`).
- `check_input_signature` looks neither at the order of the properties nor at `required`, so a call it lets through
  may reach the handler with its arguments swapped or one missing (`AgreementExactly`, `OrderIsNotChecked`,
  `RequiredIsNotChecked`), and a single value may not reach it at all (`SingleValueBinds`, `KeywordLost`,
  `RequestMissing`).
- A client that sends a key `self` gets a TypeError for any action, since the arguments pass through methods
  `(self, *args, **kwargs)` of Python itself, before they are validated (`WrapperTakesAllButSelf`,
  `ExternalCallsAreSafe`, `SelfIsRefused`).
- `isipv6` also accepts text with a stray colon at one end, like `:1::2`, and whatever else `int` reads, like the sign in
  `+1::2` (`RightExactly`, `AcceptsWrongText`).
- The mapping onto a pydantic model loses arguments when a keyword names its **kwargs field (`ConservedExactly`,
  `NamedKwargsLost`).

## Model

| member | source | states |
|---|---|---|
| `CrossLoopEvents.CrossLoopEvent.TakeWaiters` | hololinked/core/utils.py:61-65 | the locked part of `set()` raises the flag and hands out exactly the registered waiters in their order, none if the flag was up; the lock is released with a raised flag only over an empty list |
| `CrossLoopEvents.CrossLoopEvent.Clear` | hololinked/core/utils.py:72-75 | the flag is lowered and the waiters stay |
| `CrossLoopEvents.CrossLoopEvent.Register` | hololinked/core/utils.py:80-84 | a wait is appended at the end of the waiters exactly when the flag is down, else nothing changes |
| `CrossLoopEvents.CrossLoopEvent.Cleanup` | hololinked/core/utils.py:87-91 | the `finally` of `wait()` removes the first occurrence of its entry and nothing else |
| `CrossLoopEvents.StepKeepsInv` | hololinked/core/utils.py:59-96 | every step of any thread, task or loop keeps the invariant: an entry is in one place only, is not resolved yet, and a pending wait on an open loop is held somewhere |
| `CrossLoopEvents.RunKeepsInv` | hololinked/core/utils.py:59-96 | the invariant holds after any interleaving from the start |
| `CrossLoopEvents.ResultsAreFinal` | hololinked/core/utils.py:93-96 | between any two moments of a run no future loses or changes its result and no finished wait comes back |
| `CrossLoopEvents.TakenForGood` | hololinked/core/utils.py:61-70 | a waiter taken by `set()` never returns to the list, and only its own cancellation cancels its future |
| `CrossLoopEvents.NoLostWakeup` | hololinked/core/utils.py:59-96 | a waiter registered when `set()` raises the flag is resolved once all `set()` calls have returned and the loops have drained, unless it was cancelled or its own loop closed, whatever else ran |
| `CrossLoopEvents.CancelledNeverReturns` | hololinked/core/utils.py:86-92 | a wait that is cancelled while parked never returns normally, even if it was resolved before, over any run |
| `CrossLoopEvents.DeliveriesAreBounded` | hololinked/core/utils.py:66-70 | deliveries and callbacks alone can only take a bounded number of steps |
| `CrossLoopEvents.DeliveryNeverStuck` | hololinked/core/utils.py:66-70 | as long as a `set()` has not returned or an open loop is not drained, a delivery or callback can run, and only then |
| `AtomicEvents.StepSimulates` | hololinked/core/utils.py:59-96 | each step of the implementation is a step of an atomic event with one flag, or invisible |
| `AtomicEvents.RunSimulates` | hololinked/core/utils.py:18-37 | every run of the implementation is a run of the atomic event, ending in what its users see |
| `AtomicEvents.ReturnsOnlyIfFlagWasUp` | hololinked/core/utils.py:77-92 | a wait returns normally only if the flag was up at some moment between its beginning and its end |
| `AtomicEvents.OverLeavesNoEntry` | hololinked/core/utils.py:87-91 | a wait that returned, was cancelled or was destroyed has no entry left among the waiters |
| `AtomicEvents.LockFreeMoments` | hololinked/core/utils.py:61-96 | whenever the lock is free no entry is in two places, none is of a resolved future, and a raised flag means nobody is registered |
| `RunRegistries.RunRegistry.Register` | hololinked/server/server.py:80-83 | registration succeeds exactly when the id is free |
| `RunRegistries.RunRegistry.Unregister` | hololinked/server/server.py:97-99 | the `finally` of `run()` pops whatever is registered under the id |
| `RunRegistries.RunRegistry.Stop` | hololinked/server/server.py:131-145 | `stop` pops the run of the given id, or the only run if no id is given; otherwise nothing changes and the outcome says why |
| `RunRegistries.RegistryIsSound` | hololinked/server/server.py:77-111 | over any interleaving registered runs serve under their own ids, no two under the same, none was told to stop, and no run is taken by two `stop()` calls |
| `RunRegistries.StopTakesTheRegistered` | hololinked/server/server.py:131-147 | `stop(id)` takes the registered run, and `stop()` acts exactly when one run is registered |
| `RunRegistries.SafeToRegister` | hololinked/server/server.py:79-99 | a run registered under a free id can end up serving, unstopped and out of reach of `stop` exactly if an earlier run under that id is still up, in any continuation |
| `RunRegistries.ReusedIdIsLost` | hololinked/server/server.py:97-99 | the shortest run that loses a server: stop it, reuse its id at once, let the first one leave |
| `JsonStorages.JSONFileStorage.Open` | hololinked/storage/jsonfile.py:72-87 | an absent or empty file opens as the empty dictionary, any other as what its bytes decode to; bytes that cannot be decoded are an error, against the docstring of `_load` |
| `JsonStorages.JSONFileStorage.FirstLives` | hololinked/storage/jsonfile.py:72-137 | the first start without a file, one write that can be encoded and a second start: just that entry is there |
| `JsonStorages.JSONFileStorage.Save` | hololinked/storage/jsonfile.py:89-93 | data that can be encoded reaches the file as these bytes; otherwise the file is untouched |
| `JsonStorages.JSONFileStorage.SetProperty` | hololinked/storage/jsonfile.py:123-137 | in whatever state the storage is, this entry and no other is set and read back; memory and file agree afterwards exactly if the data could be encoded or the file has them already |
| `JsonStorages.JSONFileStorage.SetProperties` | hololinked/storage/jsonfile.py:164-177 | the same for several entries at once |
| `JsonStorages.JSONFileStorage.CreateMissingProperties` | hololinked/storage/jsonfile.py:197-226 | missing entries are created in order with the values read; memory and file agree exactly if no getter failed and the data could be encoded, or the file has them already |
| `JsonStorages.JSONFileStorage.ReadMissing` | hololinked/storage/jsonfile.py:217-223 | the loop over the properties, up to the first getter that fails |
| `JsonStorages.FileHoldsLastEncoded` | hololinked/storage/jsonfile.py:89-93 | over any changes the file holds the data as they were after the last change that could be encoded, so after a write memory and file agree exactly if the data can be encoded or are what the file got last |
| `JsonStorages.OneEntryBlocksAll` | hololinked/storage/jsonfile.py:123-137 | while the data hold a value that cannot be encoded, changes of other names do not reach the file either; a write that makes the data encodable writes all of them |
| `JsonStorages.GoodWriteFails` | hololinked/storage/jsonfile.py:123-137 | a bad value under one name, then a good write under another that fails, and would succeed on its own |
| `JsonStorages.LastSetIsRead` | hololinked/storage/jsonfile.py:95-121 | `get_property` (`GetProperty`) returns the value last set for a name, saved or not, over any changes of other names; `get_properties` (`GetProperties`) agrees with it |
| `JsonStorages.Reopen` | hololinked/storage/jsonfile.py:42-46 | a storage opened on the file of one that agrees with its file holds the same data, so the next life starts where the last one ended |
| `JsonStorages.LastGivenWins` | hololinked/storage/jsonfile.py:164-177 | `set_properties` leaves the last value given for a name |
| `JsonStorages.OthersStay` | hololinked/storage/jsonfile.py:164-177 | and every name not given as it was |
| `JsonStorages.MissingMeaning` | hololinked/storage/jsonfile.py:216-226 | the names created are missing ones with a readable value, and all of them if every getter works |
| `JsonStorages.MissingInOrder` | hololinked/storage/jsonfile.py:216-224 | they are created in the order of the properties |
| `JsonStorages.FilledMeans` | hololinked/storage/jsonfile.py:216-224 | stored entries stay as they were and a created one has the value read for it |
| `Things.Thing.Born` | hololinked/core/meta.py:697-711 | a new object holds only the copied defaults and has no store |
| `Things.Thing.Attach` | hololinked/injection.py:1003-1008 | attaching a storage that was just opened changes nothing but where writes go from then on |
| `Things.Thing.SetAttr` | hololinked/param/parameterized.py:448-481 | a write is refused for a read-only, invalid, constant or device-refused value in this order, and then nothing changes at all; else the adapted value lands in the instance or the device and then in the store; it raises at the end if the store cannot be saved |
| `PropertyLives.RefusedInOrder` | hololinked/param/parameterized.py:448-465 | exactly when each refusal is given, in terms of the property and the values held, and that it changes nothing |
| `PropertyLives.AcceptedLands` | hololinked/param/parameterized.py:466-481 | an accepted write changes this value in the instance or the device and no other |
| `PropertyLives.AcceptedIsStored` | hololinked/core/property.py:330-334 | and this entry of the store, if one is attached and the property stores; memory and file then agree, or the call raises and the file is as before |
| `PropertyLives.ReadOnlyReadsDefault` | hololinked/param/parameterized.py:448-449 | over any operations and lives a read-only property without a getter of its own reads as its default |
| `PropertyLives.ConstantTakesOneWrite` | hololinked/param/parameterized.py:456-465 | of two writes to a constant property in one life at least one changes nothing, with a default both; a property with a setter of its own must hold a value before the first |
| `PropertyLives.OwnSetterStaysOpen` | hololinked/param/parameterized.py:456-473 | else no write in that life is refused because the property is constant, as its setter puts nothing where the test looks |
| `PropertyLives.ConstantIsRewritten` | hololinked/param/parameterized.py:456-473 | a constant property with a setter that is written twice |
| `Things.Thing.PostValueSet` | hololinked/core/property.py:330-334 | a value goes to the store if the property stores and a store is attached |
| `Things.Thing.DbInitObjects` | hololinked/core/meta.py:428-448 | exactly the properties with `db_init` or `db_persist`, once each |
| `Things.Thing.LoadFromDB` | hololinked/core/meta.py:650-667 | creates what is missing, and raises if a getter does or the result cannot be saved; else writes every other loaded entry back into its property, whatever the order of the entries |
| `PropertyLives.LoadingPutsBack` | hololinked/core/meta.py:656-667 | in any state, loading puts each stored entry, adapted, into its property or device, and leaves those alone whose entry is refused or that are not loaded |
| `Things.Thing.WriteBack` | hololinked/core/meta.py:659-667 | the loop over the entries: refused entries are skipped, and the file has the result or, if that cannot be encoded, an earlier stage |
| `StoredEntries.SurvivesExactly` | hololinked/storage/jsonfile.py:123-137 | of any history of one entry: the last value stored outlives the next load of the file exactly if the store was saved since, or the file had the value before |
| `StoredEntries.SavedStays` | hololinked/storage/jsonfile.py:123-137 | a value that is saved before the file is loaded anew stays until the entry is stored again |
| `PropertyLives.TameStep` | hololinked/core/property.py:330-334 | one step of the entry of a property without a getter of its own: in memory a stored write, else the file's entry if that is loaded anew, else its old value, else the value when loading finds it missing; in the file the same after a save, else as before |
| `PropertyLives.EntryStays` | hololinked/core/property.py:330-334 | a value that is in the entry, and is saved in the same life, stays in memory and file over any later operations and restarts until the property is stored again |
| `PropertyLives.WriteSurvivesExactly` | hololinked/core/property.py:330-334 | the last write of a life outlives it exactly if it was saved before the end, by itself or with a later write, or the file had the value already |
| `PropertyLives.LostTogether` | hololinked/core/property.py:330-334 | a bad value for one property and then a good one for another: both are gone after a restart |
| `PropertyLives.EntryIsFirstCreation` | hololinked/storage/jsonfile.py:216-224 | without a stored write the entry, once saved, has the value of the moment of the first load |
| `PropertyLives.NoEntryBeforeLoading` | hololinked/storage/jsonfile.py:216-224 | and before the first load there is no entry |
| `PropertyLives.RestartRestoresLastWrite` | hololinked/core/meta.py:650-667 | after loading, a plain persisted property holds the last value written while a store was attached, in this life or any earlier one, once that was saved in its life; keywords set before do not override it |
| `PropertyLives.RestartRestoresEveryWrite` | hololinked/core/meta.py:650-667 | with a store that can always be encoded it holds the adapted value of the last write that was accepted with the store attached, over any number of lives |
| `PropertyLives.RestartRestoresCreation` | hololinked/core/meta.py:656-667 | if never written so, it holds its value at first creation, once saved |
| `PropertyLives.LoadingChangesNothing` | hololinked/core/meta.py:660-667 | over any run, loading changes no existing entry of a property without a getter of its own whose adapting is idempotent, whatever its flags |
| `PropertyLives.LoadingRewrites` | hololinked/core/meta.py:660-667 | in any state, loading changes an entry that existed exactly if the load gets through, its property is loaded and stored, the entry is not refused, and adapting changes it |
| `PropertyLives.GetterIsRewritten` | hololinked/core/meta.py:660-667 | a run with a getter of the property's own and idempotent adapting in which loading changes an entry |
| `PropertyLives.InitOnlyNeverChanges` | hololinked/core/property.py:330-334 | a `db_init`-only entry never changes once it is in the file, over any number of lives |
| `PropertyLives.CommitOnlyFollowsWrites` | hololinked/core/property.py:330-334 | a `db_commit`-only entry holds the last stored write, for good once that is saved |
| `PropertyLives.CommitOnlyNeedsAWrite` | hololinked/core/property.py:330-334 | it exists only after such a write |
| `PropertyLives.CommitOnlyIsNeverLoaded` | hololinked/core/meta.py:656-667 | in any state, loading leaves a `db_commit`-only property as it is |
| `StateMachines.BoundFSM.GetState` | hololinked/core/state_machine.py:315-327 | the state entered last, or the initial one if none ever was; on any path callbacks can take it is a declared one |
| `StateMachines.BoundFSM.ReadStateProperty` | hololinked/core/property.py:247-279 | reading `state` answers with the current state, and pushes it exactly if a bus is attached and it differs from the value last observed |
| `StateMachines.BoundFSM.SetCurrentState` | hololinked/core/state_machine.py:329-371 | `set_state` with re-entrant callbacks: refused or without effect for undeclared and current states; else assignment and event, then each callback in `on_exit` of the old state and each in `on_enter` of the new one is started once, in order, where the one before left off, and none after the first that raises |
| `StateMachines.BoundFSM.RunCallbacks` | hololinked/core/state_machine.py:366-371 | the callbacks of one state in turn, up to the first that raises |
| `StateMachines.BoundFSM.RunCallback` | hololinked/core/state_machine.py:366-371 | one callback, which may read and set the state and catch what that raises, a RecursionError included |
| `StateMachines.SetStateInOrder` | hololinked/core/state_machine.py:352-371 | the same of the specification: which callbacks are started, in which order and state, read off the two tables; all of them if none raises |
| `StateMachines.CallbackMeans` | hololinked/core/state_machine.py:366-371 | a callback reads, branches on the current state, or sets a state and goes on, in another way if that raised and it catches it |
| `StateMachines.EnteringSetsAgain` | hololinked/core/state_machine.py:364-371 | a callback for entering B that sets C: the machine ends in C, B and C were visited, and the events show what was pushed |
| `StateMachines.SetStateKeepsSound` | hololinked/core/state_machine.py:352-371 | callbacks of any nesting keep the path of declared states, the events without repeats and, when everything is pushed, events equal to the path |
| `StateMachines.AlwaysDeclared` | hololinked/core/state_machine.py:352-371 | whatever clients and callbacks do, the current state is declared |
| `StateMachines.EventsAreThePath` | hololinked/core/state_machine.py:360-361 | with a bus from the start and everything pushed, the events are the visited states in order, preceded by the initial state if and only if it was read before the first change |
| `StateMachines.NothingRepeats` | hololinked/core/property.py:265-279 | pushed or not, no two events in a row are equal, the last event is the last value observed, and no state is entered from itself |
| `StateMachines.DeeperSetState` | hololinked/core/state_machine.py:366-371 | a call in which nothing runs into the recursion limit, not even something that is caught, does the same under any higher limit |
| `Gates.StateMachine.Validate` | hololinked/core/state_machine.py:147-230 | the verdict on machine and callbacks, the gates it opens and the callbacks it freezes, also when it is rejected half way |
| `Gates.StateMachine.OpenGates` | hololinked/core/state_machine.py:177-203 | the loop over the machine, up to the first state or resource that is refused |
| `Gates.StateMachine.Freeze` | hololinked/core/state_machine.py:206-227 | the loop over the callbacks for entering, or for leaving, up to the first entry that is not callable |
| `Gates.FreezingKeepsCallbacks` | hololinked/core/state_machine.py:206-227 | freezing succeeds exactly if all callbacks are functions; each state keeps its callbacks in order, and freezing again changes nothing |
| `Gates.FrozenEntries` | hololinked/core/state_machine.py:206-227 | a single callback becomes a tuple of one, a list a tuple of the same callbacks, a tuple stays |
| `Gates.FunctionsAreFrozen` | hololinked/core/state_machine.py:206-227 | a table of functions is frozen without an error |
| `Gates.StateMachine.ContainsObject` | hololinked/core/state_machine.py:279-299 | found exactly if listed under some state |
| `Gates.SucceedsExactly` | hololinked/core/state_machine.py:178-206 | validation succeeds exactly if every state is declared and every resource is an action or property, and of the owner |
| `Gates.GateEqualsTable` | hololinked/core/state_machine.py:198-203 | after validation a resource may be used in a state exactly if listed under it, or the state was its own, or it has none and is listed nowhere; the gate is that of hololinked/core/property.py:317-328 and hololinked/core/actions.py:218-231 |
| `Gates.ValidatingAgain` | hololinked/core/state_machine.py:198-203 | validating again changes nothing and no state is added twice |
| `Gates.ContainsMeansRestricted` | hololinked/core/state_machine.py:279-299 | without declared states, `contains_object` holds exactly for the restricted resources |
| `ChangeEvents.ObservableProperty.PushChangeEvent` | hololinked/core/property.py:252-279 | with a bus the value is remembered, and pushed exactly if the comparator sees a difference to the one remembered before; without one nothing happens |
| `ChangeEvents.ObservableProperty.Observe` | hololinked/core/property.py:252-279 | a property observed from its creation on ends with the value and the events of the specification |
| `ChangeEvents.EventsAreThePushes` | hololinked/core/property.py:265-279 | over any reads and writes the events are exactly the observations with a bus attached that differ from the one before, in order |
| `ChangeEvents.DefaultNeverRepeats` | hololinked/core/property.py:277-279 | with the default comparator no event repeats the one before and the last event is the last value observed |
| `PythonCalls.BindsExactly` | hololinked/core/actions.py:306-309 | a call binds with nothing left for *args and **kwargs exactly if it fits: no argument too many or twice, each keyword a parameter, each parameter without a default filled; and what it then fills |
| `JsonArguments.MergeArgsToKwargs` | hololinked/schema_validators/utils.py:118-144 | positional arguments go to the properties in order, keywords to what they name; too many or doubled arguments are errors |
| `JsonArguments.AssignPositional` | hololinked/schema_validators/utils.py:124-130 | the first loop: one property after the other, an error if there are more arguments |
| `JsonArguments.AssignKeywords` | hololinked/schema_validators/utils.py:132-140 | the second loop, in any order: an error exactly for a keyword given by position, else known and unknown keywords apart |
| `JsonArguments.AcceptedIsMerged` | hololinked/schema_validators/json_schema.py:75-85 | what the validator saw of an accepted call is the merged mapping, with or without positional arguments |
| `JsonArguments.MergedMeans` | hololinked/schema_validators/utils.py:118-144 | merging fails exactly for no object schema, too many arguments or a property given twice, each with its error; else each argument is under its property and each keyword under itself, and nothing more |
| `JsonArguments.ObjectAccepted` | hololinked/schema_validators/json_schema.py:75-85 | an object is accepted exactly if what the call denotes has the required keys, good properties, additional keys as permitted, and nothing else against it |
| `JsonArguments.SingleAccepted` | hololinked/schema_validators/json_schema.py:76-81 | any other schema takes one good value, by position or under any name |
| `JsonArguments.WrapperTakesAllButSelf` | hololinked/core/actions.py:294-309 | by Python's call rules a method `(self, *args, **kwargs)` passes on all arguments as they came, unless there is a keyword `self` |
| `JsonArguments.AcceptedCallsAgree` | hololinked/schema_validators/json_schema.py:75-85 | if the properties in order are the leading parameters, the schema requires what has no default and forbids other keys, an accepted call binds to the handler, which receives exactly the validated mapping, exactly if it has no keyword `self` |
| `JsonArguments.AgreementExactly` | hololinked/utils.py:718-749 | for a handler without positional-only parameters and a schema that forbids other keys and can tell its properties apart (it accepts some values that all differ, and some call without each property it does not require), these conditions are exact: they hold, and no property is called `self`, if and only if all accepted calls agree |
| `JsonArguments.PassedTakesNoPositionalOnly` | hololinked/utils.py:729-733 | each handler that passes `check_input_signature` for an object schema is such a handler |
| `JsonArguments.PassesExactly` | hololinked/utils.py:718-749 | the check passes for an object schema exactly if there is no positional-only parameter, what has no default is a property, every property and required key is a parameter or there is **kwargs, and there is **kwargs if additional keys are permitted |
| `JsonArguments.PassedCanBeCalled` | hololinked/utils.py:718-749 | a handler that passes can be called with all properties by name, unless it insists on a `request` or a property is called `self` or like its first parameter |
| `JsonArguments.NamesAloneDiscern` | hololinked/schema_validators/json_schema.py:75-85 | every schema that only names its properties can tell them apart |
| `JsonArguments.OrderIsNotChecked` | hololinked/utils.py:718-749 | a handler and a schema with its properties swapped pass the check, and an accepted call does not agree |
| `JsonArguments.RequiredIsNotChecked` | hololinked/utils.py:718-749 | the same for a schema that requires nothing |
| `JsonArguments.KeywordCallsAgree` | hololinked/utils.py:718-749 | calls by keyword agree without the order of the properties: once what has no default is required, an accepted one agrees exactly if no key is `self` or names the object, and every key is a parameter or there is **kwargs, which the check sees to if the schema says anything about additional keys |
| `JsonArguments.SingleValueBinds` | hololinked/schema_validators/json_schema.py:76-81 | a single value is accepted by position or under any name; by position it reaches the handler exactly unless that insists on a keyword-only `request`, by name exactly if it names the parameter, and that is not called `self`, or `request` where that exists and the parameter has a default; then it arrives under that name |
| `JsonArguments.KeywordLost` | hololinked/utils.py:711-720 | a handler that passes the check, and an accepted value under another name that does not reach it |
| `JsonArguments.RequestMissing` | hololinked/utils.py:711-720 | a handler with a mandatory `request` passes the check, and an accepted value does not reach it |
| `JsonArguments.ExternalCallsAreSafe` | hololinked/core/actions.py:216-309 | a client's call runs the handler, with the validated mapping, if and only if it has no key `self`, no positional arguments where these are not allowed, comes in a permitted state and is accepted by the schema; it ends in a TypeError exactly for a key `self` |
| `JsonArguments.AnswersInOrder` | hololinked/core/actions.py:210-231 | for any action and schema: which call gets which error, in the order of the tests, and that every other one runs |
| `JsonArguments.ValidatedActionsRun` | hololinked/core/state_machine.py:178-203 | after the state machine was validated, such a call runs exactly in the states under which the action is listed or that were its own, or in all if it has none and is listed nowhere |
| `JsonArguments.SelfIsRefused` | hololinked/core/actions.py:294-309 | a property called `self` passes the check and meets the other conditions, and a call that the schema accepts ends in a TypeError |
| `PydanticArguments.LayOut` | hololinked/schema_validators/utils.py:54-88 | the layout handed to the model, or the error, computed by the three loops |
| `PydanticArguments.AssignPositional` | hololinked/schema_validators/utils.py:57-69 | the first loop: one field after the other, the *args field taking the rest |
| `PydanticArguments.AssignKeywords` | hololinked/schema_validators/utils.py:71-79 | the second loop, in any order |
| `PydanticArguments.AssignExtra` | hololinked/schema_validators/utils.py:81-87 | the third loop: unknown keywords go to the first **kwargs field, or are an error at the last field |
| `PydanticArguments.RejectsExactly` | hololinked/schema_validators/utils.py:58-88 | a call is rejected before validation exactly for too many positionals, else a keyword for a field given by position, else an unknown keyword without a **kwargs field, each with its own error |
| `PydanticArguments.ConservedExactly` | hololinked/schema_validators/utils.py:54-88 | every argument is where it belongs exactly unless unknown keywords meet a model without fields or a **kwargs field that already has a value |
| `PydanticArguments.NamedKwargsLost` | hololinked/schema_validators/utils.py:71-87 | a keyword with the name of the **kwargs field is lost when another one is collected there |
| `PydanticArguments.PlacesDiffer` | hololinked/schema_validators/utils.py:54-80 | no two arguments share a place |
| `PydanticArguments.NothingInvented` | hololinked/schema_validators/utils.py:54-88 | no slot holds a value that was not given |
| `PydanticArguments.NoFieldsDropKeywords` | hololinked/schema_validators/utils.py:82-88 | a model without fields takes any keywords and drops them |
| `ConstrainedLists.BoundsMean` | hololinked/param/parameters.py:2274-2281 | a bound that is not given admits every list there can be, and bounds filled in once stay, so `+=` can pass them on |
| `ConstrainedLists.TypeConstrainedList.Create` | hololinked/param/parameters.py:2287-2305 | a list is wrapped exactly if its length and all its items are allowed; anything but a list is refused first |
| `ConstrainedLists.TypeConstrainedList.ValidateItems` | hololinked/param/parameters.py:2472-2479 | true exactly if every item is of the item type |
| `ConstrainedLists.TypeConstrainedList.ValidateForExtension` | hololinked/param/parameters.py:2307-2312 | the first reason against an extension, if any |
| `ConstrainedLists.TypeConstrainedList.ValidateForInsertion` | hololinked/param/parameters.py:2314-2318 | the first reason against an insertion, if any |
| `ConstrainedLists.TypeConstrainedList.AddTo` | hololinked/param/parameters.py:2487-2495 | `+=` is refused for a constant list, anything but a list, a length out of bounds or a wrong item, in this order, and then changes nothing; else the given items follow the old ones in the same inner list, and the answer is a new wrapper over it with the same limits |
| `ConstrainedLists.TypeConstrainedList.Perform` | hololinked/param/parameters.py:2362-2447 | every other change does just that: it sets or drops the item at one index, counted from the end if negative, inserts there or appends, drops the first occurrence of a value, clears, reverses or permutes; or it raises for the first reason against it and changes nothing, but a sort that raises may have begun |
| `ConstrainedLists.OperationsMean` | hololinked/param/parameters.py:2307-2447 | the same of the specification, index by index |
| `ConstrainedLists.ItemsAreConserved` | hololinked/param/parameters.py:2362-2447 | over any operations and for any value, the list ends with as many of it as it began with, plus what successful operations put in, less what they took out |
| `ConstrainedLists.RunKeepsLaw` | hololinked/param/parameters.py:2307-2447 | over any operations the upper bound and the item type are kept, and the items of a constant list only become fewer |
| `ConstrainedLists.RunFamily` | hololinked/param/parameters.py:2487-2495 | any run over a family of wrappers that share one inner list and grow by `+=` leaves the list as if one wrapper had done it all, so the laws above hold on the heap |
| `ConstrainedLists.Undoes` | hololinked/param/parameters.py:2416-2432 | deleting undoes inserting, popping undoes appending, reversing undoes itself |
| `Descendents.Descend` | hololinked/param/parameterized.py:2217-2232 | terminates on every finite hierarchy with each reachable class once, the given one first, in order of shortest distance |
| `Descendents.AppendNew` | hololinked/param/parameterized.py:2229-2231 | the inner loop over the subclasses of a class computes the specified queue |
| `Descendents.NewAreQueued` | hololinked/param/parameterized.py:2229-2231 | the queue keeps its classes in front and gains, once each, exactly the subclasses that were neither queued nor taken |
| `Descendents.LevelBounds` | hololinked/param/parameterized.py:2226-2231 | no way down to a class is shorter than the level it was found on |
| `IPv6.IsIPv6` | hololinked/param/parameters.py:387-431 | the verdict computed by the loop and the tests after it; an IPv4 tail runs into the method `is_ipv4`, which does not exist |
| `IPv6.CheckGroups` | hololinked/param/parameters.py:399-410 | the loop over the groups: every group is blank or a number of at most four characters, and the blanks are counted |
| `IPv6.FormsAreAccepted` | hololinked/param/parameters.py:387-431 | every address of forms 1 and 2 of section 2.2 of RFC 4291 is accepted |
| `IPv6.AcceptedExactly` | hololinked/param/parameters.py:412-431 | of texts of hexadecimal groups and colons exactly these forms are accepted, and those with a stray colon at one end |
| `IPv6.RightExactly` | hololinked/param/parameters.py:387-431 | every address of the two forms is accepted, and accepted text is one exactly if it has nothing but hexadecimal digits and colons, and no stray colon |
| `IPv6.AcceptsWrongText` | hololinked/param/parameters.py:399-431 | `:1::2` and `+1::2` are accepted and of neither form |
| `IPv6.AcceptedIsBounded` | hololinked/param/parameters.py:399-413 | accepted text has more than one group, at most eight that are not blank, each of at most four characters that read as a number up to 65536 |
| `IPv6.FailsExactly` | hololinked/param/parameters.py:387-397 | the test ends in an AttributeError exactly for a dot after the last of one or more colons |
| `IPv6.SplitJoined` | hololinked/param/parameters.py:387-387 | splitting at colons undoes joining with them |
| `Comparators.EqualityIsMeaning` | hololinked/param/parameterized.py:928-960 | values are equal for the comparator exactly if they mean the same, dictionaries as maps |
| `Comparators.PlainEquality` | hololinked/param/parameterized.py:928-950 | values without dictionaries are equal only to themselves |
| `Comparators.DictionaryEquality` | hololinked/param/parameterized.py:951-960 | dictionaries of such values are equal exactly if they have the same entries |
| `Comparators.EqualityIsEquivalence` | hololinked/param/parameterized.py:928-960 | equality is reflexive, symmetric and transitive |
| `Comparators.OrderIsIgnored` | hololinked/param/parameterized.py:951-960 | the insertion order of dictionaries does not matter |
| `ConstantParameters.Parameterized.SetAttr` | hololinked/param/parameterized.py:447-479 | a write is accepted exactly if the parameter is not read-only, the value is valid and, for a constant, there is neither a value nor a default yet; it then sets this value, else nothing |
| `ConstantParameters.Parameterized.ClearFlags` | hololinked/param/parameterized.py:662-666 | every flag in scope is cleared, the others stay |
| `ConstantParameters.Parameterized.RestoreFlags` | hololinked/param/parameterized.py:667-673 | every flag in scope gets its saved value back |
| `ConstantParameters.Parameterized.Execute` | hololinked/param/parameterized.py:656-686 | statements and `edit_constant` blocks of any nesting compute the specified outcome, flags cleared one by one and put back whatever happens |
| `ConstantParameters.FlagsAreRestored` | hololinked/param/parameterized.py:656-686 | properly nested blocks restore every constant flag, left normally or by an exception |
| `ConstantParameters.ConstantsAreWrittenOnce` | hololinked/param/parameterized.py:456-465 | over any program a constant parameter takes at most one write while constant, none if it has a default or a value |
| `ConstantParameters.BlockOpens` | hololinked/param/parameterized.py:656-686 | inside a block a parameter in scope takes every valid value, constant or not, after whatever went well there before; it is still there after the block, and the parameter as constant as it was |
| `ConstantParameters.ShutStaysShut` | hololinked/param/parameterized.py:656-686 | blocks for other parameters do not open it: whatever is done outside its own blocks, a constant with a value or a default keeps what it holds |
| `SchemaRegistries.SchemaValidators.Register` | hololinked/injection.py:213-217 | registering again moves a name to the end with its new predicate |
| `SchemaRegistries.SchemaValidators.Pop` | hololinked/injection.py:216-216 | popping a name leaves the others in order |
| `SchemaRegistries.SchemaValidators.NameForSchema` | hololinked/injection.py:245-248 | the search from the end |
| `SchemaRegistries.SchemaValidators.Reset` | hololinked/injection.py:110-120 | the tables are as on import and no adapter is cached |
| `SchemaRegistries.MostRecentWins` | hololinked/injection.py:217-248 | after any registrations a schema goes to the name whose latest registration is the most recent among those whose latest predicate accepts it |
| `SchemaRegistries.ImportThenCalls` | hololinked/injection.py:177-185 | the predicates there on import count as the first registrations |

## Left out

- Network clients, the HTTP, MQTT and ZMQ bindings, security, and the SQL and MongoDB storage back ends: input and output through libraries.
- The event loop's own scheduler and the event bus: loops run callbacks in the order they were scheduled, the bus is an append-only list.
- Fairness and time: that a loop with callbacks gets to run them, and timeouts such as `stop(wait=True)`.
- Reads of `is_set()` without the lock, which change nothing.
- Plain `Enum` states, and `StrEnum` members whose name differs from their value: states are strings here.
- Mutable values: a stored value is never changed in place.
- Class-level (`class_member`) and per-instance descriptors, parameter watchers and dependencies.
- Custom getters and setters beyond a device that each reads and writes under the property's own name, which raise when the device has no answer or refuses a value.
- A machine attached to several classes, whose gates would add up.
- PythonCalls.BindsExactly: is about calls that leave nothing for *args and **kwargs; `Bind` itself covers all calls.
- JsonArguments.AgreementExactly: does not characterise schemas that allow further keys, or whose values leave properties indistinguishable.
- JsonArguments.AcceptedCallsAgree: a method takes its object as a first positional parameter, not through *args.
- JSON Schema keywords other than `type`, `properties`, `required` and `additionalProperties`, and all of pydantic's own validation: opaque predicates. `patternProperties`, which lets keys through that `additionalProperties` would forbid, is excluded.
- Slices, `*=`, the value `pop` answers with, and the lower bound of constrained lists after removals, which the code does not check; constrained dictionaries.
- IPv6 text with an IPv4 tail and CIDR forms beyond the point where they call a method that does not exist.
- Comparison of sets, NaN, dates and subclasses of the container types; keys that Python finds equal are one key.
- Validators registered under a name that clashes with an attribute of the registry itself.
- Crashes of the file system in the middle of a write.
