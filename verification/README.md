# Verified model of the AWS CRT for C++

The library wraps C libraries for MQTT, TLS and I/O. Its own logic is in the lifetime and locking
protocols around them and in a few string algorithms. This project models that logic in Dafny and proves
what it promises. `dafny verify dfyconfig.toml` checks all of it.

| file | what it models |
|---|---|
| `StreamClose.dfy` | opening, closing and calling back on a streaming operation under a reader/writer lock |
| `StaticDefaults.dfy` | the process-wide defaults, created lazily under three nested mutexes |
| `StaticProgress.dfy` | that every getter and releaser returns |
| `StaticReleases.dfy` | what a releaser leaves behind, and what it does to a getter under way |
| `RefCount.dfy` | the reference count that C code shares with a C++ object |
| `Mqtt5Core.dfy` | the MQTT 5 client core: closing, acknowledgements, operation records, lifetime |
| `Mqtt5Delivery.dfy` | which handlers the MQTT 5 core starts, and what becomes of a request |
| `Mqtt5Progress.dfy` | that every request, `Close` and callback of the MQTT 5 core returns |
| `ConnectionRecords.dfy` | who owns the callback records of an MQTT 3.1.1 connection |
| `ConnectionLifetime.dfy` | who keeps whom alive in an MQTT 3.1.1 connection |
| `TlsOwnership.dfy`, `TlsInfo.dfy` | copies, moves and assignments of TLS option objects |
| `TlsPrograms.dfy` | whole programs over TLS option objects, against plain values |
| `StringSearch.dfy` | the searches and the comparison of `basic_string_view` |
| `Numbers.dfy` | how the version number in the metrics is read |
| `FeatureList.dfy`, `SdkMetrics.dfy` | the feature list and the metadata of the IoT SDK metrics |
| `AuthUsername.dfy` | the two builders of custom-authorizer user names, with percent-encoding |
| `Options.dfy`, `Schedules.dfy`, `Sequences.dfy` | a value that may be missing, sums over threads, a law of concatenation |

## How to read it

The concurrent protocols are transition systems. A state has a program counter for every thread and the
shared fields. A step is one access to shared state. A run (`IsRun`) is any finite interleaving of enabled
steps from an initial state, over any number of threads. `StepInv` and `RunInv` carry an invariant over
every run, and the theorems follow from it. Sequential code is classes and methods with loops, proved
against specification functions.

The native libraries are an environment. It accepts or rejects calls, calls back one callback at a time
on the event loop, and terminates after its release, as an event of its own. The head of each file lists
what it takes from its surroundings:

- `StreamClose`: `Open` runs on a held wrapper reference, `Close` only from the destructor of the last one,
  and user handlers return.
- `RefCount`: acquire and release are paired, and whoever acquires keeps the object alive meanwhile.
- `Mqtt5Core`: every accepted operation completes once before termination. User code may call the function
  that hands out an acknowledgement on any thread and at any time, also after the callback.
- `ConnectionRecords`: a record the native connection accepted comes back once.
- `TlsOwnership`: whether a native call succeeds is an input. A zeroed native struct reads as the first
  enumerator of each setting.
- `AuthUsername`: the native byte encoder follows sections 2.1 and 2.3 of RFC 3986, with upper-case digits.

## Where the code and a promise differ

- A late call of `acquirePublishAcknowledgement`. The header (`include/aws/crt/mqtt/Mqtt5Client.h:270-282`)
  says that a call after the callback has returned gives a null pointer. In the code it does so exactly if the
  function was called before on the callback's thread; otherwise it hands out an acknowledgement that the core
  has sent or dropped already (`Mqtt5Core.LateCallHandsOutSpentAck`). `Mqtt5Core.SpentAckHandedOut` is such a
  run. Each acknowledgement meets one fate exactly if no late call takes it
  (`Mqtt5Core.EveryAckMeetsOneFate`).
- Releases of the static defaults. An inner getter gives its lock back before the outer constructor uses what
  it returned, so the argument may have been deleted meanwhile. `StaticReleases.BuildsOnDeletedGroup` is such a
  run, and `StaticReleases.ArgumentLiveIffNotReleased` says exactly when an argument is live.
- Replacing the handler for any message. `SetOnMessageHandler` frees the previous record as soon as the native
  connection has taken the new one, also while a callback runs the handler inside it.
  `ConnectionLifetime.FreedInUseIffReplaced` says exactly when a record is freed in use, and
  `ConnectionLifetime.HandlerFreedWhileRunning` is a run in which a handler replaces itself.
- Sizes beyond PTRDIFF_MAX. The size comparison wraps; `StringSearch.CompareSizesSign` gives the exact range
  in which its sign is right and `StringSearch.HugeSizesCompareWrongly` a pair outside it.
- The shortcut of the feature merge. With no user list the first list is returned as it is, which need not
  be what parsing and printing gives (`FeatureList.ShortcutKeepsUnsortedList`). The two agree exactly on
  canonical lists (`FeatureList.CanonicalIffFixed`), and the encoders only produce those.
- Parameters of a user name. A value that contains its own key and `=` anywhere is written without the key.
  `AuthUsername.AddAllReads` says exactly when the parameters read back as they were given, and
  `AuthUsername.KeyInTheMiddle` what is read instead.
- The metrics of a TLS context. They agree with its native configuration exactly if the options it was built
  from were valid then. Options whose `Init` failed or that were moved from have a zeroed struct, while their
  metrics are the system defaults (`TlsOwnership.NewContext`, and over whole programs
  `TlsPrograms.Run`; `TlsOwnership.MovedFromOptionsMisreport` is a case).

## Model

| member | source | states |
|---|---|---|
| StreamClose.StepInv | source/iot/MqttRequestResponseClient.cpp:136-235 | every step of every thread keeps the invariant on lock, program counters, references and lifetimes |
| StreamClose.RunInv | source/iot/MqttRequestResponseClient.cpp:128-301 | the invariant holds in every state of every interleaving |
| StreamClose.NoHandlerStartsAfterClose | source/iot/MqttRequestResponseClient.cpp:136-228 | once `m_closed` is set, no user handler starts, then or later |
| StreamClose.CallbackStartsItsHandler | source/iot/MqttRequestResponseClient.cpp:169-228 | from its start to its return a callback starts exactly one handler, the one it is for, if there is one and the stream was open when the callback took the read lock; otherwise none |
| StreamClose.StartedHandlerRuns | source/iot/MqttRequestResponseClient.cpp:181-187 | a handler counts as started exactly in the step in which it starts running |
| StreamClose.OnlyCallbacksStartHandlers | source/iot/MqttRequestResponseClient.cpp:169-228 | outside callbacks no handler is started |
| StreamClose.QuietAfterOffLoopClose | source/iot/MqttRequestResponseClient.cpp:148-228 | once a `Close` off the loop has left its critical section, no handler runs, then or later |
| StreamClose.NeverUpgrades | source/iot/MqttRequestResponseClient.cpp:27-72 | no thread that holds the read lock waits for the write lock |
| StreamClose.CloseWritesAlone | source/iot/MqttRequestResponseClient.cpp:148-167 | while `Close` writes `m_closed`, locked or on the loop, no other thread is inside `Open`, `Close` or a read section |
| StreamClose.ActivatedOnlyWhileUnreleased | source/iot/MqttRequestResponseClient.cpp:136-167 | the stream is activated only before its release and released at most once |
| StreamClose.OpenAlwaysActivates | source/iot/MqttRequestResponseClient.cpp:136-146 | an `Open` through a held reference always activates the stream |
| StreamClose.OpenActivatesOnce | source/iot/MqttRequestResponseClient.cpp:136-146 | from its start to its return every `Open` activates the stream exactly once |
| StreamClose.ImplOutlivesItsUsers | source/iot/MqttRequestResponseClient.cpp:169-235 | the impl is alive at every step that touches it, also when a callback drops the last wrapper |
| StreamClose.DestructorPreconditions | source/iot/MqttRequestResponseClient.cpp:128-134 | when the impl goes, both of its assertions hold, the lock is free and nobody is inside |
| StreamClose.DestroyedOnce | source/iot/MqttRequestResponseClient.cpp:230-296 | a destroyed impl stays destroyed |
| StreamClose.ReleasedWhenUnreferenced | source/iot/MqttRequestResponseClient.cpp:293-296 | with no references left and no call under way, the stream is closed and released, and its termination ends the impl |
| StreamClose.NoDeadlock | source/iot/MqttRequestResponseClient.cpp:27-72 | while work is unfinished, some unfinished work can go on, even if waiting writers keep new readers out |
| StreamClose.EveryScheduleFinishes | source/iot/MqttRequestResponseClient.cpp:136-228 | from every reachable state every schedule of the work begun has a bounded length, and where it cannot go on, all work is done |
| StaticDefaults.StepInv | source/Api.cpp:377-437 | every step of a getter or releaser keeps the invariant on locks, call stacks and objects |
| StaticDefaults.RunInv | source/Api.cpp:377-437 | the invariant holds in every state of every interleaving |
| StaticDefaults.LocksNestInOrder | source/Api.cpp:377-409 | a thread about to lock holds only locks of lower rank, so locks follow one order and none is locked twice |
| StaticDefaults.NoDeadlock | source/Api.cpp:377-437 | in every reachable state with an unfinished call, some unfinished call can move |
| StaticDefaults.AtMostOneLive | source/Api.cpp:377-437 | with or without releases, at most one object of each kind is live |
| StaticDefaults.GetterReturnsLiveObject | source/Api.cpp:377-409 | what a getter is about to return is a live object of its kind |
| StaticDefaults.ConstructedOnce | source/Api.cpp:377-409 | without releases, each kind is constructed at most once |
| StaticDefaults.CallersShareOneObject | source/Api.cpp:377-409 | without releases, all callers of a getter get the same object |
| StaticDefaults.BuiltOnOneGroup | source/Api.cpp:377-409 | without releases, bootstrap and resolver are built on the one event loop group |
| StaticDefaults.BuiltOnOneResolver | source/Api.cpp:377-409 | without releases, the bootstrap is built on the one host resolver |
| StaticDefaults.RefinesLazyCreation | source/Api.cpp:377-409 | without releases, every step of the nested getters is one atomic lazy creation or changes no object |
| StaticProgress.EveryScheduleFinishes | source/Api.cpp:377-437 | from every reachable state every schedule of the calls begun has a bounded length, releasers included, and where it cannot go on, all calls have returned |
| StaticReleases.LivesUntilDeleted | source/Api.cpp:411-437 | an object lives exactly until the first deletion of its kind |
| StaticReleases.ReleaserLeavesNothing | source/Api.cpp:411-437 | a releaser that returns has cleared its static pointer, and no object of its kind is live |
| StaticReleases.ReleaseCallClears | source/Api.cpp:411-437 | the same for a whole call from outside: every object of its kind that was there when the call began is gone |
| StaticReleases.GetCallReturns | source/Api.cpp:377-409 | a whole call of a getter returns a live object of its kind |
| StaticReleases.ReleasedForGood | source/Api.cpp:411-437 | what a releaser has released is never live again |
| StaticReleases.ShutdownLeavesNothing | source/Api.cpp:60-64 | after all three kinds are released, and nothing is constructed meanwhile, no object is live |
| StaticReleases.ArgumentLiveIffNotReleased | source/Api.cpp:377-437 | a constructor argument was returned by an inner getter, and is live when the constructor runs exactly if no releaser of its kind has deleted since |
| StaticReleases.BuildsOnDeletedGroup | source/Api.cpp:399-427 | a run in which the resolver is about to be constructed on a deleted event loop group |
| RefCount.StepInv | include/aws/crt/RefCounted.h:34-57 | every step of an acquire or release keeps the invariant |
| RefCount.RunInv | include/aws/crt/RefCounted.h:34-57 | the invariant holds in every state of every interleaving |
| RefCount.OwnsItselfIffCounted | include/aws/crt/RefCounted.h:34-57 | whenever the mutex is free, the strong pointer is set exactly if the count is positive, and the count is the number of C references |
| RefCount.AssertionsHold | include/aws/crt/RefCounted.h:34-57 | the count is positive at every decrement and an owner exists at every `shared_from_this` |
| RefCount.CallCountsOnce | include/aws/crt/RefCounted.h:34-57 | from its start to its return an acquire counts up exactly once and a release counts down exactly once |
| RefCount.AliveAtEveryStep | include/aws/crt/RefCounted.h:44-57 | the object is alive at every step, so no thread unlocks the mutex of a destroyed object |
| RefCount.DestroyedOnlyAtTheEnd | include/aws/crt/RefCounted.h:44-57 | a destroyed object has count zero, a free mutex and no thread near it, and no step follows |
| RefCount.GoneWhenUnreferenced | include/aws/crt/RefCounted.h:44-57 | with all references returned and all calls finished, the object is gone |
| Mqtt5Core.FirstCallGetsHandle | source/mqtt/Mqtt5ClientCore.cpp:86-103 | over a whole run, exactly the first call on the callback's thread gets the handle, inside the callback or later, and no other call gets anything |
| Mqtt5Core.HeldIffUncalled | source/mqtt/Mqtt5ClientCore.cpp:86-103 | a functor holds its handle exactly until it is first called on the callback's thread |
| Mqtt5Core.StepInv | source/mqtt/Mqtt5ClientCore.cpp:105-758 | every step keeps the invariants on control, records and acknowledgements |
| Mqtt5Core.RunInv | source/mqtt/Mqtt5ClientCore.cpp:105-758 | the invariants hold in every state of every interleaving |
| Mqtt5Core.EveryAckMeetsOneFate | source/mqtt/Mqtt5ClientCore.cpp:212-321 | each acknowledgement acquired is invoked by the core, handed to the user, or dropped because the client was closed, once in all exactly if no call after the callback takes it, and twice otherwise |
| Mqtt5Core.UnsettledAckIsUnspent | source/mqtt/Mqtt5ClientCore.cpp:212-321 | while a publish is being delivered and nobody has called its functor, its acknowledgement has met no fate |
| Mqtt5Core.LateCallHandsOutSpentAck | source/mqtt/Mqtt5ClientCore.cpp:86-103 | a call after the callback gives nothing exactly if the functor was called before on that thread; otherwise it gives an acknowledgement the core has sent or dropped already |
| Mqtt5Core.SpentAckHandedOut | source/mqtt/Mqtt5ClientCore.cpp:212-321 | a run in which the core sends an acknowledgement and the user then gets it |
| Mqtt5Core.NoEventHandlerStartsAfterClose | source/mqtt/Mqtt5ClientCore.cpp:105-120 | once `Close` has cleared the flag, no lifecycle or publish-received handler starts |
| Mqtt5Delivery.EventStartsItsHandler | source/mqtt/Mqtt5ClientCore.cpp:105-321 | from its start to its return a native callback starts exactly one handler, the one for its event, if there is one and the client was open when the callback took the mutex; it acquires an acknowledgement exactly for a QoS 1 publish it delivers, if the native client grants one |
| Mqtt5Delivery.StartedHandlerRuns | source/mqtt/Mqtt5ClientCore.cpp:105-321 | a handler counts as started exactly in the step in which it starts running |
| Mqtt5Delivery.OnlyEventsStartHandlers | source/mqtt/Mqtt5ClientCore.cpp:105-321 | outside native callbacks no event handler is started |
| Mqtt5Core.CloseWaitsForEventHandlers | source/mqtt/Mqtt5ClientCore.cpp:749-758 | when a `Close` off the loop gives the lock back, no such handler is running |
| Mqtt5Core.RecordsFreedAndHandledAtMostOnce | source/mqtt/Mqtt5ClientCore.cpp:323-389 | each operation record is freed at most once, and its handler runs at most once and before that |
| Mqtt5Delivery.CompletionRunsItsHandler | source/mqtt/Mqtt5ClientCore.cpp:323-389 | from its start to its return a completion frees its record, and runs the handler exactly once if there is one and the client was open when the completion took the mutex; otherwise not at all |
| Mqtt5Delivery.HandledHandlerRuns | source/mqtt/Mqtt5ClientCore.cpp:383-386 | a completion handler counts as run exactly in the step in which it starts running |
| Mqtt5Delivery.HandledOnlyByCompletion | source/mqtt/Mqtt5ClientCore.cpp:323-389 | only a completion runs a completion handler, and only one the user gave |
| Mqtt5Delivery.RejectedIsNotCompleted | source/mqtt/Mqtt5ClientCore.cpp:656-662 | an operation the native client rejected is never completed and its handler never runs |
| Mqtt5Delivery.AcceptedUntilCompleted | source/mqtt/Mqtt5ClientCore.cpp:637-734 | a record the native client has taken leaves it only through a completion |
| Mqtt5Delivery.RequestSubmitsOneRecord | source/mqtt/Mqtt5ClientCore.cpp:637-734 | from its start to its return a request submits a new record with the user's handler in it; on return the native client owns the record if it accepted it, else the record is freed |
| Mqtt5Core.NoRecordLeaks | source/mqtt/Mqtt5ClientCore.cpp:637-734 | after termination every record ever allocated has been freed exactly once |
| Mqtt5Core.ClientReleasedOnce | source/mqtt/Mqtt5ClientCore.cpp:749-758 | the native client is released once, and every request and callback that uses it finds it |
| Mqtt5Core.ReleasedWhenUnreferenced | source/mqtt/Mqtt5Client.cpp:33-40 | with no references left and no call under way, the client is closed and released |
| Mqtt5Core.CoreOutlivesItsUsers | source/mqtt/Mqtt5ClientCore.cpp:599-758 | the core is alive whenever a thread, a callback or the termination touches it |
| Mqtt5Core.CoreLivesUntilDropAndTermination | source/mqtt/Mqtt5ClientCore.cpp:432-436 | the core is alive exactly until both the wrapper has dropped it and the native client has terminated |
| Mqtt5Progress.NoDeadlock | source/mqtt/Mqtt5ClientCore.cpp:105-758 | while work is unfinished, some unfinished work can go on, also when a handler inside the recursive mutex closes the client |
| Mqtt5Progress.EveryScheduleFinishes | source/mqtt/Mqtt5ClientCore.cpp:105-758 | from every reachable state every schedule of the work begun has a bounded length, and where it cannot go on, all work is done |
| ConnectionRecords.ConnectionCore.Subscribe | source/mqtt/MqttConnectionCore.cpp:727-778 | zero leaves the live records as they were; otherwise exactly two records are handed over |
| ConnectionRecords.ConnectionCore.AddEntry | source/mqtt/MqttConnectionCore.cpp:780-865 | one turn of the topic loop adds an entry with its record, or leaves the live records as they were |
| ConnectionRecords.ConnectionCore.BuildList | source/mqtt/MqttConnectionCore.cpp:780-865 | the loop fails exactly if some allocation or push fails; the list pairs every topic reached with its record, in order |
| ConnectionRecords.ConnectionCore.FreeList | source/mqtt/MqttConnectionCore.cpp:780-865 | the clean-up restores the live records of before the call |
| ConnectionRecords.ConnectionCore.SubscribeMany | source/mqtt/MqttConnectionCore.cpp:780-865 | wherever it fails, zero leaves the live records as they were; otherwise n publish records and one for the acknowledgement are handed over |
| ConnectionRecords.ConnectionCore.SubmitOperation | source/mqtt/MqttConnectionCore.cpp:867-930 | a publish or unsubscribe hands over one record, or leaves the live records as they were |
| ConnectionRecords.ConnectionCore.SetOnMessageHandler | source/mqtt/MqttConnectionCore.cpp:697-725 | a new any-message record replaces and frees the old one exactly if the native connection takes it; all other records stay as they are |
| ConnectionRecords.ConnectionCore.Returned | source/mqtt/MqttConnectionCore.cpp:403-442 | a record given back is freed, and only that one |
| ConnectionRecords.ConnectionCore.Destruct | source/mqtt/MqttConnectionCore.cpp:60-67 | after the destructor no record is live |
| ConnectionRecords.Lifetime | source/mqtt/MqttConnectionCore.cpp:697-930 | over any sequence of operations and outcomes, every record ever made is freed exactly once |
| ConnectionLifetime.StepInv | source/mqtt/MqttConnectionCore.cpp:89-128 | every step keeps the invariant on references, callbacks, destructor and records |
| ConnectionLifetime.RunInv | source/mqtt/MqttConnectionCore.cpp:89-128 | the invariant holds in every state of every interleaving |
| ConnectionLifetime.CallbackHoldsConnection | source/mqtt/MqttConnectionCore.cpp:484-505 | while a user callback runs, the connection is alive and no destructor has begun |
| ConnectionLifetime.CallbackRunsIffReferenced | source/mqtt/MqttConnectionCore.cpp:484-505 | a user callback starts exactly if a strong reference was left |
| ConnectionLifetime.EveryCallbackTries | source/mqtt/MqttConnectionCore.cpp:300-326 | every native callback tries once to get a strong reference, and goes on to the user's callback, with the record that was current when it began, exactly if some thread held one |
| ConnectionLifetime.NativeReleasedOnce | source/mqtt/MqttConnectionCore.cpp:548-561 | the destructor begins once and for good, and it alone releases the native connection, once |
| ConnectionLifetime.CoreAliveAtEveryStep | source/mqtt/MqttConnection.cpp:18-25 | the core is alive at every step of a callback, destructor, user call or termination |
| ConnectionLifetime.CoreDestroyedAfterTermination | source/mqtt/MqttConnectionCore.cpp:89-128 | the core goes only after release and termination, and the any-message record with it |
| ConnectionLifetime.AnyRecordFreedOnce | source/mqtt/MqttConnectionCore.cpp:60-67 | an any-message record is freed at most once, and exactly once when it is no longer the current one |
| ConnectionLifetime.ReleasedWhenUnreferenced | source/mqtt/MqttConnectionCore.cpp:89-128 | with no references left and every thread idle, the native connection is released and its termination ends the core |
| ConnectionLifetime.FreedInUseIffReplaced | source/mqtt/MqttConnectionCore.cpp:300-326 | the record whose handler a callback reads or runs has been freed exactly if a new handler was accepted since the callback began |
| ConnectionLifetime.HandlerFreedWhileRunning | source/mqtt/MqttConnectionCore.cpp:697-725 | a run in which a handler replaces itself and its record is freed while it runs |
| TlsOwnership.ContextOptions.Init | source/io/TlsOptions.cpp:74-164 | success makes a valid owner of one new struct, failure a default object; all other ownership stays |
| TlsOwnership.ContextOptions.MovedFrom | source/io/TlsOptions.cpp:36-48 | the struct and metrics move over, the source is left default, every struct keeps one owner |
| TlsOwnership.ContextOptions.MoveAssign | source/io/TlsOptions.cpp:50-72 | as the move, after cleaning up the target's own struct; assigning to itself changes nothing |
| TlsOwnership.ContextOptions.SetMinimumTlsVersion | source/io/TlsOptions.cpp:194-199 | native struct and metrics change together |
| TlsOwnership.ContextOptions.SetTlsCipherPreference | source/io/TlsOptions.cpp:201-206 | native struct and metrics change together |
| TlsOwnership.ContextOptions.Destroy | source/io/TlsOptions.cpp:20-26 | the other objects own all that is still live |
| TlsOwnership.NewContext | source/io/TlsOptions.cpp:486-548 | a context reports what the options report, and this is its native configuration exactly if the options were valid |
| TlsOwnership.ConnectionOptions.FromContext | source/io/TlsOptions.cpp:312-322 | a valid owner of one new struct configured like the context |
| TlsOwnership.ConnectionOptions.CopyOf | source/io/TlsOptions.cpp:333-356 | valid exactly if the source is and the native copy succeeds, then with a struct of its own configured alike |
| TlsOwnership.ConnectionOptions.MovedFrom | source/io/TlsOptions.cpp:394-410 | the struct and metrics move over and the source is no longer valid |
| TlsOwnership.ConnectionOptions.CopyAssign | source/io/TlsOptions.cpp:358-392 | as the copy, after cleaning up the target's own struct; assigning to itself changes nothing |
| TlsOwnership.ConnectionOptions.MoveAssign | source/io/TlsOptions.cpp:412-443 | as the move, after cleaning up the target's own struct; assigning to itself changes nothing |
| TlsOwnership.ConnectionOptions.Destroy | source/io/TlsOptions.cpp:324-331 | the other objects own all that is still live |
| TlsOwnership.NewConnectionOptions | source/io/TlsOptions.cpp:550-561 | valid exactly if the context is, then configured and reporting like it |
| TlsOwnership.ReportsConfiguration | source/io/TlsOptions.cpp:307-310 | the step towards `TlsPrograms.Run` for one object: it reports how its struct is configured exactly if its context was built from valid options |
| TlsOwnership.MovedFromOptionsMisreport | source/io/TlsOptions.cpp:36-48 | a context built from options that were moved from gives a valid object that reports something else |
| TlsPrograms.World.Step | source/io/TlsOptions.cpp:20-561 | any operation does to the objects what it does to plain values, live structs and valid objects stay in one-to-one correspondence, and as many structs are initialised as on the values |
| TlsPrograms.Run | source/io/TlsOptions.cpp:20-561 | after any program every object looks as if it were a plain value, and the program alone says which objects report how their structs are configured: those that go back to a context built from valid options |
| TlsPrograms.RunToEnd | source/io/TlsOptions.cpp:20-561 | over any program that ends with all objects destroyed, every struct ever initialised is cleaned up exactly once, and their numbers are those of the values |
| StringSearch.SearchSubstr | include/aws/crt/StringView.h:550-589 | the least occurrence at or after the start, or the end exactly if there is none |
| StringSearch.Find | include/aws/crt/StringView.h:247-271 | the least index at or after `pos` where the needle occurs, or npos exactly if there is none, empty needles included |
| StringSearch.FindEnd | include/aws/crt/StringView.h:591-639 | the greatest occurrence in the window, or its end exactly if there is none, early exit included |
| StringSearch.RFind | include/aws/crt/StringView.h:313-335 | the greatest index at or before `pos` where the needle occurs, or npos exactly if there is none |
| StringSearch.CompareSizesSign | include/aws/crt/StringView.h:533-548 | the clamped difference has the right sign exactly if the true one fits a signed difference |
| StringSearch.HugeSizesCompareWrongly | include/aws/crt/StringView.h:533-548 | sizes beyond that can compare the wrong way round |
| StringSearch.CompareIsLexicographic | include/aws/crt/StringView.h:162-171 | the sign is dictionary order, zero exactly on equal views |
| StringSearch.CompareAntisymmetric | include/aws/crt/StringView.h:162-171 | swapping the operands flips the sign |
| StringSearch.CompareTransitive | include/aws/crt/StringView.h:162-171 | the order is transitive |
| StringSearch.OperatorsAgree | include/aws/crt/StringView.h:665-721 | `==` is equality, and exactly one of `<`, `==` and `>` holds |
| StringSearch.StartsWithIsPrefix | include/aws/crt/StringView.h:200-203 | true exactly if the view occurs at the start |
| StringSearch.EndsWithIsSuffix | include/aws/crt/StringView.h:215-218 | true exactly if the view occurs at the end |
| FeatureList.FoldTakesLast | source/mqtt/IoTSDKMetrics.cpp:356-379 | an id maps to the value of its last valid token and is absent if it has none |
| FeatureList.SingleToken | source/mqtt/IoTSDKMetrics.cpp:18-30 | a token is a feature exactly if its id is one of the eleven letters A to K and its value is not empty |
| FeatureList.ParseInto | source/mqtt/IoTSDKMetrics.cpp:356-379 | the scanning loop overrides a map by what the list parses to |
| FeatureList.PrintFeatures | source/mqtt/IoTSDKMetrics.cpp:385-397 | the printing loop joins the tokens of the map in order of id |
| FeatureList.ParsePrint | source/mqtt/IoTSDKMetrics.cpp:356-397 | printing then parsing is the identity on well-formed maps, also with `/` in values |
| FeatureList.ParseWellFormed | source/mqtt/IoTSDKMetrics.cpp:356-379 | every parsed map is well-formed |
| FeatureList.MergeFeatureLists | source/mqtt/IoTSDKMetrics.cpp:342-398 | the merge is the first list if there is no second, else the print of the first map overridden by the second |
| FeatureList.MergeOverrides | source/mqtt/IoTSDKMetrics.cpp:342-398 | for all strings, parsing the merge gives the first map overridden by the second |
| FeatureList.MergeIsCanonical | source/mqtt/IoTSDKMetrics.cpp:342-398 | without a second list the merge is the first one as it is; with one it is canonical |
| FeatureList.CanonicalIffFixed | source/mqtt/IoTSDKMetrics.cpp:346-350 | parsing and printing leaves a list as it is exactly if its tokens are valid and ascending |
| FeatureList.ShortcutKeepsUnsortedList | source/mqtt/IoTSDKMetrics.cpp:346-350 | an unsorted list the shortcut lets through |
| SdkMetrics.EncodeMqtt5 | source/mqtt/IoTSDKMetrics.cpp:196-274 | the list is canonical, and parsing it says, option by option, what the client was configured with; defaults are left out |
| SdkMetrics.EncodeMqtt311 | source/mqtt/IoTSDKMetrics.cpp:149-194 | the same for MQTT 3.1.1, with none of the features A to E |
| SdkMetrics.AppendAddsCode | source/mqtt/IoTSDKMetrics.cpp:556-569 | appending a feature adds its token, with a comma only between tokens |
| SdkMetrics.CodesDecode | source/mqtt/IoTSDKMetrics.cpp:149-274 | parsing an encoded list gives back each code not left out, and no other id |
| SdkMetrics.EncodersAreCanonical | source/mqtt/IoTSDKMetrics.cpp:149-274 | both encoders produce canonical lists for all options |
| SdkMetrics.Mqtt5ListSays | source/mqtt/IoTSDKMetrics.cpp:402-554 | every code table, literally: which letter stands for which option value, and that defaults and unknown values are left out |
| SdkMetrics.Mqtt311ListSays | source/mqtt/IoTSDKMetrics.cpp:149-194 | the same for MQTT 3.1.1 |
| SdkMetrics.KeepUserEntries | source/mqtt/IoTSDKMetrics.cpp:322-329 | the loop copies exactly the user's entries with keys that are not reserved |
| SdkMetrics.CreateMetricsFromFeatureList | source/mqtt/IoTSDKMetrics.cpp:276-340 | the metrics written are those of the specification, from whatever the user supplied |
| SdkMetrics.BuiltMeans | source/mqtt/IoTSDKMetrics.cpp:276-340 | three keys are the library's, all others the user's; the library name is the user's exactly if there is one |
| SdkMetrics.BuiltFeatures | source/mqtt/IoTSDKMetrics.cpp:292-319 | unless the user's version is there and reads as 1, the features are the library's list as it is; otherwise the user's features override it |
| Numbers.NumberReads | source/mqtt/IoTSDKMetrics.cpp:315-319 | the decimal text of a number reads as that number, after spaces and before anything but a digit |
| Numbers.SignedNumberReads | source/mqtt/IoTSDKMetrics.cpp:315-319 | with a sign it reads as the number or its negative |
| Numbers.NoNumberReads | source/mqtt/IoTSDKMetrics.cpp:315-319 | a text without a number in front reads as 0 |
| SdkMetrics.RebuildIsIdentity | source/mqtt/IoTSDKMetrics.cpp:276-340 | on a canonical list, metrics built and fed back in come out the same |
| SdkMetrics.StableIffCanonical | source/mqtt/IoTSDKMetrics.cpp:276-350 | this holds exactly for canonical lists |
| SdkMetrics.ClientMetricsAreStable | source/mqtt/IoTSDKMetrics.cpp:149-350 | the metrics of either client, fed back in, stay the same, for all options |
| AuthUsername.EncodeQueryParameterValue | source/io/Uri.cpp:171-183 | the encoded bytes fit the buffer of three times the length and decode to the value |
| AuthUsername.DecodeEncode | source/io/Uri.cpp:171-183 | percent-decoding undoes percent-encoding |
| AuthUsername.EncodeFits | source/io/Uri.cpp:171-183 | an encoding is at most three times as long |
| AuthUsername.EncodeOneByte | source/io/Uri.cpp:171-183 | a byte is kept exactly if section 2.3 of RFC 3986 calls it unreserved; otherwise it becomes `%` and two upper-case digits |
| AuthUsername.NormaliseTwice | source/iot/Mqtt5Client.cpp:783-797 | normalising a signature twice is normalising it once |
| AuthUsername.NormaliseDecodes | source/iot/Mqtt5Client.cpp:783-797 | a signature with `%` stays as it is; one without decodes to itself exactly if it has no null character |
| AuthUsername.AddParameterReads | source/iot/Mqtt5Client.cpp:22-46 | adding a parameter keeps the base and all earlier parameters, for every user name |
| AuthUsername.WrittenReads | source/iot/Mqtt5Client.cpp:22-46 | a parameter reads back as given exactly if key and value have no delimiters and the value does not contain the key with `=` |
| AuthUsername.PrefixNotDoubled | source/iot/MqttClient.cpp:326-350 | a value that brings its own key is written like the bare value, exactly if that one does not contain the key |
| AuthUsername.AddAllReads | source/iot/MqttClient.cpp:326-350 | any number of parameters read back as given, in order, exactly if each of them does |
| AuthUsername.KeyInTheMiddle | source/iot/MqttClient.cpp:326-350 | a value with the key and `=` in its middle is read as a parameter of another key |
| AuthUsername.CustomAuthConfig.WithTokenSignature | source/iot/Mqtt5Client.cpp:783-797 | the normalised signature is stored |
| AuthUsername.BuildFinalUsername | source/iot/Mqtt5Client.cpp:48-100 | fails exactly if some but not all signing values are set, and then changes nothing; otherwise adds name, token and signature in this order |
| AuthUsername.FinalUsernameReads | source/iot/Mqtt5Client.cpp:48-100 | for every configuration with complete signing values: the base's parameters, then name, token and signature, each if given; read back as given exactly if each is clean |
| AuthUsername.AddFields | source/iot/MqttClient.cpp:378-433 | adds name, signature and token in this order, each if given |
| AuthUsername.AddedFieldsRead | source/iot/MqttClient.cpp:378-433 | for all arguments: the base's parameters, then name, signature and token, each if given; read back as given exactly if each is clean |
| AuthUsername.ConnectionConfigBuilder.WithCustomAuthorizer | source/iot/MqttClient.cpp:361-447 | without ALPN support only the error changes; otherwise user name, password, port and ALPN list are set |
| AuthUsername.EncodedSignatureIsClean | source/iot/MqttClient.cpp:413-429 | an encoded signature reads back under any key |
| AuthUsername.BuildersAgree | source/iot/MqttClient.cpp:361-447 | with all signing values given, both builders keep the base and add the same parameters in different order, which read back as given exactly if each does |

## Left out

- The concurrent protocols are state machines on values: update in place and aliasing inside one step are not modelled, since their steps are finer than methods.
- Weak memory: every access to shared state is one atomic step, in one order for all threads.
- `SubmitRequest`, `MqttRequestResponseClientImpl::Close` and the failure path of `StreamingOperation::Create`.
- The character-set scans of `basic_string_view` (`find_first_of`, `find_last_of` and their negations), `remove_prefix` and `remove_suffix`.
- Completion handlers of the MQTT 5 core after `Close`: they test the flag inside the lock and run outside it, so they are no part of the claim about handlers after `Close`.
- The websocket handshake callback of the MQTT 5 core.
- ConnectionLifetime.StepInv: does not model two concurrent calls of `SetOnMessageHandler`, which is one step here, because the source does not protect it.
- The C array of metadata entries that the metrics hand to the native library, and overflow in reading the version number from metadata.
- The settings of TLS options that the metrics do not report (trust store, peer verification, ALPN list, server name), the custom-crypto build and the error codes.
- The choice of port and ALPN protocol in the IoT builders, apart from what `WithCustomAuthorizer` sets.
- `Mqtt5Packets.cpp`, `S3.cpp`, HTTP, credentials, event loops, hashing, JSON, CBOR and the other thin wrappers: what they promise lives in native code.
- Callbacks of the MQTT 3.1.1 core for which the user gave no handler, and publishes to an MQTT 5 client without a handler for them: they return at once.
- Allocation failure where the source does not test for it.
