# Robot client event fan-out: a Dafny model

This project models the client side of the temi robot SDK's `Robot` class
(`sdk/src/main/java/com/robotemi/sdk/Robot.kt`). It covers the part that has
state:

- the per-category listener registry;
- the callback sink (`sdkServiceCallback`), which the robot service calls
  across the process boundary;
- the main-thread handler that listener callbacks are posted to;
- the one-shot alert-notification listeners (`listenersMap`);
- the media-button and activity-stream listener slots;
- the ready listeners and the `isReady` flag;
- the small decision rules next to these: the volume clamp, the
  `requestPermissions` filter, the kiosk gates and the `goTo` argument check.

Modules, one per component:

- `Outcomes` (outcomes.dfy): `Option`, `Result` and the two exceptions the
  modelled code throws.
- `Events` (events.dfy): the closed `Category` enumeration, which has one tag
  per `CopyOnWriteArraySet` field. It also holds listener handles, inbound
  events, and the two per-listener filters:
  - telepresence status is delivered only on a matching `sessionId`;
  - a user update is delivered when `userIds` is null, empty or contains the
    user's id.
- `Registry` (registry.dfy): the 24 listener-set fields collapsed into one
  `map<Category, set<Listener>>`. The typed add/remove pairs become set insert
  and delete.
- `Dispatch` (dispatch.dfy): the posted units (`Work`) and the callback
  invocations (`Delivery`). It holds the two loops that fan out over a set:
  the body of a posted broadcast unit, and `onRobotReadyListeners.forEach`.
- `Rules` (rules.dfy): the pure decision rules.
- `RobotClient` (robot.dfy): class `Robot`. Its fields are the registry, the
  handler queue (`queue`, oldest first), `listenersMap`, the two listener
  slots, the ready listeners and `connected` (`sdkService != null`). A ghost
  `log` records every listener callback performed.
- `ReadyNotification` (ready.dfy): ready listeners whose callbacks re-enter
  the ready set, the fail-fast `HashSet` iteration of `setSdkService`, and the
  snapshot loop that avoids it (see "## Findings").
- `Scenarios` (scenarios.dfy): client runs showing what callers can derive
  from the contracts: stale units, order, run-time membership, filters,
  notification clicks, reconnecting and media units.

How posting works in the model:

- A broadcast entry point (`OnEvent`) checks whether its category's set is
  empty. If it is, it returns `false` and posts nothing. Otherwise it appends
  one `DispatchEvent` unit to `queue`. It then returns `true`, except for face
  recognition, which returns `false` even after posting (`Robot.kt:493`).
- `RunNext` plays the main looper. It pops the oldest unit and reads the
  registry, `listenersMap` or the media slot as they are at that moment. It
  appends the resulting callbacks to `log`.
- So emptiness is checked when the event arrives (`Robot.kt:150`), and
  membership is read when the unit runs (`Robot.kt:151-154`). A listener
  removed between the two is not called. A listener added between the two is
  called if a unit was posted. If the set was empty when the event arrived,
  nothing was posted, and the listener is not called
  (`Scenarios.EarlyEventIsLost`, next to `Scenarios.LateListenerIsReached`).
- A posted unit applies the filters only when it runs (`Robot.kt:298-303`,
  `310-318`).
- The returned boolean means that a unit was posted, not that anyone was
  called: it is `true` even if the filters later admit no one. It is always
  `false` for `onFaceRecognized`.
- Every telepresence-status listener carries a session id. The scenario with
  a listener that has no filter therefore uses a user-update listener with no
  id list.

`String.contains` on the metadata string is substring search. A permission
passes the declaration test when its value occurs anywhere in that string.
So a value that is only part of a longer declared name passes. The model keeps
this behaviour (`Rules.Contains`, `Rules.ContainsIffOccurs`,
`Rules.DeclaredSubstringPasses`).

## Model

| member | source | states |
|---|---|---|
| Events.Recipients | sdk/src/main/java/com/robotemi/sdk/Robot.kt:151-154 | the listeners a running unit calls are a subset of the category's set at run time |
| Events.UserFilterAdmits | sdk/src/main/java/com/robotemi/sdk/Robot.kt:312-314 | a user-update listener with a null or empty id list is admitted for every user; one with ids is admitted iff some id equals the user's |
| Events.Matches | sdk/src/main/java/com/robotemi/sdk/Robot.kt:300 | an unfiltered broadcast matches every listener; a filtered event matches only listeners of its category's kind; a user-update listener with no id list matches every user update |
| Events.BroadcastReachesAll | sdk/src/main/java/com/robotemi/sdk/Robot.kt:149-157 | an unfiltered category's unit calls every member of the set |
| Events.CallStatusReachesSession | sdk/src/main/java/com/robotemi/sdk/Robot.kt:296-306 | a telepresence-status unit reaches a listener iff it is registered and its session id equals the call state's; no other listener is reached |
| Events.UserUpdateReachesInterested | sdk/src/main/java/com/robotemi/sdk/Robot.kt:308-321 | a user-update unit reaches a listener iff it is registered and its id list is null, empty or contains the user's id |
| Events.EmptySetReachesNoOne | sdk/src/main/java/com/robotemi/sdk/Robot.kt:150 | an empty set has no recipients, whatever the event (the gate itself is not transparent: see `Scenarios.EarlyEventIsLost`) |
| Registry.EmptyIsTotal | sdk/src/main/java/com/robotemi/sdk/Robot.kt:64-127 | a new robot has an empty set for every one of the 24 categories |
| Registry.AddKeepsShape | sdk/src/main/java/com/robotemi/sdk/Robot.kt:686-689 | adding a listener of the category's type keeps every category present and every set well typed |
| Registry.RemoveKeepsShape | sdk/src/main/java/com/robotemi/sdk/Robot.kt:691-694 | removing keeps every category present and every set well typed |
| Registry.Empty | sdk/src/main/java/com/robotemi/sdk/Robot.kt:64-127 | a new registry holds no listener in any category |
| Registry.Add | sdk/src/main/java/com/robotemi/sdk/Robot.kt:849-852 | after an add the listener is a member, the set gained no other element, every other category's set is unchanged, and no category appears or disappears |
| Registry.Remove | sdk/src/main/java/com/robotemi/sdk/Robot.kt:854-857 | after a remove the listener is absent, the set lost no other element, every other category's set is unchanged, and no category appears or disappears |
| Registry.AddPresentIsNoop | sdk/src/main/java/com/robotemi/sdk/Robot.kt:1014-1017 | adding an already registered listener leaves the registry unchanged |
| Registry.RemoveAbsentIsNoop | sdk/src/main/java/com/robotemi/sdk/Robot.kt:1019-1022 | removing an absent listener leaves the registry unchanged |
| Registry.AddRemoveIdempotent | sdk/src/main/java/com/robotemi/sdk/Robot.kt:1034-1042 | add and remove are idempotent |
| Registry.RemoveUndoesAdd | sdk/src/main/java/com/robotemi/sdk/Robot.kt:1034-1042 | removing a newly added listener restores the registry exactly |
| Dispatch.Acknowledges | sdk/src/main/java/com/robotemi/sdk/Robot.kt:486-494 | an entry point acknowledges only when the set is non-empty; face recognition never acknowledges; every other category acknowledges whenever its set is non-empty |
| Dispatch.EachOnceSize | sdk/src/main/java/com/robotemi/sdk/Robot.kt:152-154 | a unit that calls each recipient once makes exactly as many calls as there are recipients |
| Dispatch.Fanout | sdk/src/main/java/com/robotemi/sdk/Robot.kt:298-304 | the loop of a posted unit calls every member the event's filter admits exactly once and calls nobody else |
| Dispatch.NotifyAll | sdk/src/main/java/com/robotemi/sdk/Robot.kt:531 | every ready listener is told the new readiness exactly once (callbacks that do not re-enter the ready set; see `ReadyNotification`) |
| Rules.Forward | sdk/src/main/java/com/robotemi/sdk/Robot.kt:784 | a call through the service handle is issued iff the handle is present, and it is issued unchanged |
| Rules.ClampVolume | sdk/src/main/java/com/robotemi/sdk/Robot.kt:1420-1424 | the clamped volume lies in [0,10] and equals the input when the input is already in range |
| Rules.ClampVolumeIsNearest | sdk/src/main/java/com/robotemi/sdk/Robot.kt:1420-1424 | the clamped volume is the in-range value nearest the requested one |
| Rules.ClampVolumeIdempotent | sdk/src/main/java/com/robotemi/sdk/Robot.kt:1420-1424 | clamping twice equals clamping once |
| Rules.VolumeCall | sdk/src/main/java/com/robotemi/sdk/Robot.kt:1418-1429 | the setter issues `setVolume` iff connected, always with a value in [0,10], and with the requested value when that is in range |
| Rules.ContainsIffOccurs | sdk/src/main/java/com/robotemi/sdk/Robot.kt:1724 | the declaration test holds iff the permission value occurs at some offset of the metadata string |
| Rules.IsWhitespace | sdk/src/main/java/com/robotemi/sdk/Robot.kt:782 | space, tab and newline are whitespace to `isBlank`; letters and digits are not |
| Rules.IsNullOrBlank | sdk/src/main/java/com/robotemi/sdk/Robot.kt:1717 | null and the empty string are blank; a string holding a letter is not |
| Rules.Contains | sdk/src/main/java/com/robotemi/sdk/Robot.kt:1724 | a value that is a prefix of the metadata string is contained in it, and a contained value is never longer than the string |
| Rules.DeclaredSubstringPasses | sdk/src/main/java/com/robotemi/sdk/Robot.kt:1724 | a non-kiosk permission whose value appears anywhere inside the metadata string, even as part of a longer name, passes both tests |
| Rules.ValidPermissionsAppend | sdk/src/main/java/com/robotemi/sdk/Robot.kt:1722-1733 | the filter distributes over concatenation, so surviving values keep input order |
| Rules.ValidPermissionsExactly | sdk/src/main/java/com/robotemi/sdk/Robot.kt:1723-1733 | a value is collected iff some input permission with that value is declared in the metadata and is not a kiosk permission requested by a non-kiosk app |
| Rules.Admissible | sdk/src/main/java/com/robotemi/sdk/Robot.kt:1724-1731 | a kiosk permission never passes for a non-kiosk app; a non-kiosk permission whose value starts the metadata string passes; a passing value is no longer than the metadata string |
| Rules.ValidPermissions | sdk/src/main/java/com/robotemi/sdk/Robot.kt:1722-1733 | at most one value is collected per requested permission, and every collected value is no longer than the metadata string |
| Rules.NonKioskAppNeverRequestsKioskPermission | sdk/src/main/java/com/robotemi/sdk/Robot.kt:1728-1731 | a non-kiosk app never forwards a kiosk permission's value |
| Rules.KioskGated | sdk/src/main/java/com/robotemi/sdk/Robot.kt:1513-1523 | a kiosk-only setter (also lines 1307-1314, 1543-1553, 1558-1568) issues its call iff the app is a kiosk app and the service is present |
| Rules.IsSelectedKioskApp | sdk/src/main/java/com/robotemi/sdk/Robot.kt:1573-1582 | true iff kiosk app, service present and the service answers true; false on a thrown remote call |
| Rules.CheckSelfPermission | sdk/src/main/java/com/robotemi/sdk/Robot.kt:1690-1702 | a kiosk permission asked by a non-kiosk app is denied; the service's answer is reported iff the gate passes, the service is present and the call does not throw |
| Rules.StartNluCall | sdk/src/main/java/com/robotemi/sdk/Robot.kt:663-670 | `startNlu` issues its call iff the metadata does not override the NLU and the service is present |
| Rules.GoToCall | sdk/src/main/java/com/robotemi/sdk/Robot.kt:781-788 | a blank location throws `IllegalArgumentException`; otherwise `goTo` is issued iff the service is present |
| RobotClient.Robot.constructor | sdk/src/main/java/com/robotemi/sdk/Robot.kt:54-129 | a new robot is disconnected, every listener set and slot is empty, and nothing is posted |
| RobotClient.Robot.AddListener | sdk/src/main/java/com/robotemi/sdk/Robot.kt:686-689 | the typed add methods insert into their own category's set only; queue, map and slots are untouched |
| RobotClient.Robot.RemoveListener | sdk/src/main/java/com/robotemi/sdk/Robot.kt:691-694 | the typed remove methods delete from their own category's set only; queue, map and slots are untouched |
| RobotClient.Robot.HasListeners | sdk/src/main/java/com/robotemi/sdk/Robot.kt:150 | the emptiness gate answers true iff the category's set is non-empty |
| RobotClient.Robot.HasActiveNlpListeners | sdk/src/main/java/com/robotemi/sdk/Robot.kt:199-201 | true iff the NLP set is non-empty |
| RobotClient.Robot.OnEvent | sdk/src/main/java/com/robotemi/sdk/Robot.kt:149-504 | an empty set means no post and `false`; a non-empty set means exactly one unit appended and `true`, except face recognition which answers `false` |
| RobotClient.Robot.OnNotificationBtnClicked | sdk/src/main/java/com/robotemi/sdk/Robot.kt:337-345 | a click always posts exactly one unit, with no emptiness gate |
| RobotClient.Robot.OnMediaButton | sdk/src/main/java/com/robotemi/sdk/Robot.kt:403-433 | every media button posts exactly one unit |
| RobotClient.Robot.OnActivityStreamPublish | sdk/src/main/java/com/robotemi/sdk/Robot.kt:393-397 | the publish listener, if set, is called at once, not posted |
| RobotClient.Robot.RunNext | sdk/src/main/java/com/robotemi/sdk/Robot.kt:143-506 | runs the oldest unit (FIFO). A broadcast calls the filter-admitted members of the set as it is now, each once. A click for a known id calls its listener once and removes the id; an unknown id changes nothing. A media unit calls the slot's listener as it is now |
| RobotClient.Robot.SetSdkService | sdk/src/main/java/com/robotemi/sdk/Robot.kt:527-532 | `isReady` becomes "handle present", and every ready listener is told so exactly once (callbacks do not re-enter) |
| RobotClient.Robot.IsReady | sdk/src/main/java/com/robotemi/sdk/Robot.kt:512-514 | readiness is whether the service handle is present; it is what `SetSdkService` and `AddOnRobotReadyListener` report |
| RobotClient.Robot.AddOnRobotReadyListener | sdk/src/main/java/com/robotemi/sdk/Robot.kt:544-547 | the listener is registered and called back at once with the current `isReady`, on every add; the callback is returned |
| RobotClient.Robot.RemoveOnRobotReadyListener | sdk/src/main/java/com/robotemi/sdk/Robot.kt:550-552 | the listener is removed from the ready set |
| RobotClient.Robot.ShowAlertNotification | sdk/src/main/java/com/robotemi/sdk/Robot.kt:1441-1451 | with the service present and the call succeeding, the id is mapped to the listener; otherwise `RemoteException` and the map is unchanged |
| RobotClient.Robot.SetMediaButtonListener | sdk/src/main/java/com/robotemi/sdk/Robot.kt:1610-1612 | the media slot holds the listener |
| RobotClient.Robot.RemoveMediaButtonListener | sdk/src/main/java/com/robotemi/sdk/Robot.kt:1614-1616 | the media slot is cleared |
| RobotClient.Robot.SetActivityStreamPublishListener | sdk/src/main/java/com/robotemi/sdk/Robot.kt:1588-1590 | the publish slot holds the given (nullable) listener |
| RobotClient.Robot.RequestPermissions | sdk/src/main/java/com/robotemi/sdk/Robot.kt:1714-1749 | null or blank metadata means no call, and so does an empty filter result; otherwise the admissible values, in input order, are requested iff the service is present |
| Scenarios.EmptyCategoryPostsNothing | sdk/src/main/java/com/robotemi/sdk/Robot.kt:159-160 | with no listener the event is not acknowledged and the looper has nothing to run |
| Scenarios.StaleUnitReachesNoOne | sdk/src/main/java/com/robotemi/sdk/Robot.kt:149-157 | a unit posted while a listener was registered, and run after it was removed, reaches no one |
| Scenarios.LateListenerIsReached | sdk/src/main/java/com/robotemi/sdk/Robot.kt:151-154 | a listener added after posting but before running is called too |
| Scenarios.EarlyEventIsLost | sdk/src/main/java/com/robotemi/sdk/Robot.kt:150-156 | an event that arrives while its set is empty is dropped; a listener registered before the looper would have run it is never called |
| Scenarios.UnitsRunInPostOrder | sdk/src/main/java/com/robotemi/sdk/Robot.kt:149-157 | two posted units run in the order they were posted |
| Scenarios.SessionFilter | sdk/src/main/java/com/robotemi/sdk/Robot.kt:296-306 | with listeners on sessions S9 and S1, an S9 status reaches only the S9 listener |
| Scenarios.UserFilter | sdk/src/main/java/com/robotemi/sdk/Robot.kt:308-321 | an update for user u9 reaches the listener without ids and not the one following only u1 |
| Scenarios.NotificationClickedTwice | sdk/src/main/java/com/robotemi/sdk/Robot.kt:337-345 | the first click calls the listener, and a second click for the same id calls no one |
| Scenarios.AlertWithoutServiceFails | sdk/src/main/java/com/robotemi/sdk/Robot.kt:1445-1450 | without the service `showAlertNotification` throws, and a later click reaches no one |
| Scenarios.ReconnectKeepsListeners | sdk/src/main/java/com/robotemi/sdk/Robot.kt:527-532 | listeners registered before a disconnect and reconnect still receive events |
| Scenarios.FaceRecognitionNeverAcknowledged | sdk/src/main/java/com/robotemi/sdk/Robot.kt:486-494 | a face-recognition event is delivered yet answered `false` |
| Scenarios.MediaSlotReadAtRunTime | sdk/src/main/java/com/robotemi/sdk/Robot.kt:411-417 | a media unit run after the slot was cleared calls no one |
| Scenarios.ReadyListenerHearsConnection | sdk/src/main/java/com/robotemi/sdk/Robot.kt:527-547 | a ready listener hears `false` when added before connection, then `true` on connection |
| ReadyNotification.Apply | sdk/src/main/java/com/robotemi/sdk/Robot.kt:544-552 | a listener that removes itself is gone from the ready set, one that registers another makes it a member, an inert one leaves the set alone |
| ReadyNotification.Told | sdk/src/main/java/com/robotemi/sdk/Robot.kt:546 | a listener's turn starts with its own `onRobotReady` callback |
| ReadyNotification.NotifyAsWritten | sdk/src/main/java/com/robotemi/sdk/Robot.kt:531 | the `forEach` over the `HashSet` either performs at least one callback per listener or stops on `ConcurrentModificationException` |
| ReadyNotification.NotifySnapshot | sdk/src/main/java/com/robotemi/sdk/Robot.kt:531 | the loop over a copy of the set never fails and performs at least one callback per listener |
| ReadyNotification.SnapshotTellsEveryone | sdk/src/main/java/com/robotemi/sdk/Robot.kt:531 | over a copy, every listener in the set when the loop starts is told, whatever the callbacks do to the set |
| ReadyNotification.InertListenersAgree | sdk/src/main/java/com/robotemi/sdk/Robot.kt:531 | with callbacks that do not re-enter, the loop as written equals the loop over a copy, never fails and leaves the set unchanged |
| ReadyNotification.InertToldInOrder | sdk/src/main/java/com/robotemi/sdk/Robot.kt:531 | with callbacks that do not re-enter, the `i`-th listener visited gets the `i`-th callback and there are no others |
| ReadyNotification.InertMatchesNotifyAll | sdk/src/main/java/com/robotemi/sdk/Robot.kt:531 | with callbacks that do not re-enter, the loop as written tells each ready listener exactly once, the contract of `Dispatch.NotifyAll` |
| ReadyNotification.SelfRemovalSkipsTheRest | sdk/src/main/java/com/robotemi/sdk/Robot.kt:527-552 | two ready listeners, the first removing itself when told: the loop as written fails and the second is never told, while the loop over a copy tells it |

## Left out

- Outbound forwarding calls (`speak`, `saveLocation`, `locations`,
  `navigationSafety`, `privacyMode`, `getMapData` and the other getters and
  setters). Each is one remote call wrapped in `RemoteException` logging.
  The service is only a `connected` flag, plus parameters that give the
  outcome of a remote call where the code branches on it.
- `registerCallback` and the `AidlMediaBarController` rebuild inside
  `setSdkService`: both are remote or in files outside this model. Their
  effect, the service calling the sink again after a reconnect, is what
  `Scenarios.ReconnectKeepsListeners` relies on.
- Threading: `Handler`/`Looper` and the thread safety of
  `CopyOnWriteArraySet`. Posting is sequential enqueueing, and `RunNext` is
  the looper. A unit reads the set value current when it starts, which
  matches the snapshot iterator of `CopyOnWriteArraySet`.
- RobotClient.Robot.RunNext: listener callbacks are inert entries of `log`.
  No callback calls back into the robot, so the frame of `RunNext` (registry,
  ready set and slots unchanged) holds only for callbacks that do not
  re-enter. The model also leaves out a notification callback that shows an
  alert again under its own id. At `Robot.kt:341-342` the callback runs
  before `listenersMap.remove`, so that new entry would be lost.
- RobotClient.Robot.SetSdkService: every ready listener is told exactly once
  only when the callbacks do not re-enter the ready set. A callback that adds
  or removes a ready listener while others remain stops the `HashSet`
  iteration. That case is modelled apart, in `ReadyNotification` (see
  "## Findings"), and not inside the class.
- Dispatch.Fanout: does not state the order in which one unit calls the
  members of a set, because sets are modelled unordered
  (`CopyOnWriteArraySet` iterates in insertion order).
- `showNormalNotification` and `removeAlertNotification`: they throw when the
  service is null but change no client state.
- `shareActivityObject`: background I/O through `AsyncTask`.
- Metadata loading in `init` through `PackageManager`. The kiosk flag and the
  metadata permission string are constructor inputs. The NLU override flag
  is an input of `Rules.StartNluCall`.
- Float parameters and payloads: `skidJoy`, the detection `distance`, the
  cast of the distances map, and the speed passed by `turnBy`/`tiltAngle`.
- `ActivityStreamUtils` and `Permission.valueToEnum`: their files are not
  part of this model. The numeric value of `Permission.DENIED` is defined
  there, so `checkSelfPermission` answers `Denied` or `Reported(value)`.
- The `getInstance` singleton with double-checked locking: a process global
  plus concurrency.
- Event payloads (`TtsRequest`, `BatteryData`, `CallState` beyond
  `sessionId`, `UserInfo` beyond `userId`): opaque numbers.
- The `listener != null` tests at lines 300 and 312. The typed add methods
  take non-null listeners, so a set never holds null.
- Kotlin `isBlank` uses the JVM's whitespace and space-separator characters.
  `Rules.IsWhitespace` lists them explicitly.

## Findings

| source | as written | input that shows it | evidently intended | confidence | as-written member | corrected member |
|---|---|---|---|---|---|---|
| sdk/src/main/java/com/robotemi/sdk/Robot.kt:531 | `onRobotReadyListeners` is a plain `HashSet` (line 75), iterated with `forEach` while each callback may call `addOnRobotReadyListener`/`removeOnRobotReadyListener` | two ready listeners, the first removing itself inside `onRobotReady`; the fail-fast iterator throws `ConcurrentModificationException` before the second is told | every ready listener present when the service changes is told, as with the `CopyOnWriteArraySet` used for every other listener set | medium, not executed | ReadyNotification.NotifyAsWritten, ReadyNotification.SelfRemovalSkipsTheRest | ReadyNotification.NotifySnapshot, ReadyNotification.SnapshotTellsEveryone |
