# DesktopNotifications: identity registry and Windows lifecycle, in Dafny

This project models the core of the DesktopNotifications library: how it keeps track of which
native toast belongs to which application `Notification`, and how the Windows manager turns
show, schedule, hide and dispose requests and toast callbacks into registry changes, notifier
requests and events.

- `wrappers.dfy` (module `Wrappers`): `Option`, `Result`, `Outcome` and the `Error` datatype.
  Each exception the code throws is an `Error` variant: `ArgumentNull`, `Argument(paramName)`,
  `Scheduling(scheduledTime)`, `Delivery(errorCode)`, `KeyNotFound` and `OutOfRange`.
- `extensions.dfy` (module `Extensions`): the reverse lookup `TryGetKey`, and the class
  `BidirectionalDictionary`.
  - `TryGetKey` takes the dictionary as its enumeration, a sequence of (key, value) entries.
    `None` stands for a null dictionary. The C# `default` key and value are parameters.
  - `TryGetKey` is a method with a loop for dictionaries of at most 10 entries. For larger
    ones it uses `FirstOrDefault`, which models the LINQ expression. The method is proved
    equal to the function `TryGetKeyResult`, and lemmas state what that function promises.
  - The large-dictionary quirk is kept: a match equal to the default pair is reported as
    absent. `TryGetKeyMissesDefaultPair` shows this on a concrete input.
  - `BidirectionalDictionary` keeps two `map` fields in lock-step. Its invariant `Valid()`
    says the maps are mutual inverses. Every mutating method keeps it, and a refused insert
    changes nothing. `MutualInverseSameSize` proves that both directions have the same size.
- `notification.dfy` (module `Notifications`): the `Notification` class. Its auto-properties
  are mutable fields, and `Buttons` is a sequence that `AddButton` appends to. Being a class,
  it has reference identity, like the C# class, which overrides neither `Equals` nor
  `GetHashCode`.
- `windows_notification_manager.dfy` (module `WindowsNotifications`): the Windows manager.
  - Native toasts are classes, so each construction is a new handle.
  - The manager holds two registries, one for shown toasts and one for scheduled toasts.
  - Requests to the platform's toast notifier are appended to `notifierLog`. Raised
    Activated/Dismissed events are appended to `events`.
  - `DateTimeOffset.Now` is the integer parameter `now`.
  - `DismissalScenario` and `SchedulingScenario` are client methods. They check the
    end-to-end behaviour from the contracts alone: a duplicate dismissal raises one event,
    and a delivery time after the expiration is refused.
- `NotificationUsage` in `notification.dfy` is a client method too. From the contracts alone
  it checks the constructor defaults, that a set property reads back, that buttons keep
  their order, and that two notifications are distinct objects.

Behaviour of the code that the model keeps, and that a reader might not expect:
- `HideNotification` asks the notifier to hide or unschedule the toast, and removes no
  registry entry (WindowsNotificationManager.cs:103-119).
- `ToastNotificationOnActivated` keeps the registry entry, so every activation of the same
  toast raises an event (WindowsNotificationManager.cs:282-295).
- An unknown dismissal reason throws `ArgumentOutOfRangeException`, after the entry has
  already been removed (WindowsNotificationManager.cs:264, :271).
- `Show`/`AddToSchedule` run before `Add` (WindowsNotificationManager.cs:97-98, :147-148).
  Showing a notification that is still registered therefore fails only after its toast has
  reached the notifier.
- No lock is taken around the registries, and the model is sequential.

## Model

| member | source | states |
|---|---|---|
| Extensions.FirstMatchIndex | DesktopNotifications/Extensions.cs:32-38 | the index found is the first entry, in enumeration order, whose value equals the one looked up; no index means no entry has that value |
| Extensions.TryGetKey | DesktopNotifications/Extensions.cs:21-54 | the `foreach` with early return (at most 10 entries) and the LINQ path (more than 10) give exactly `TryGetKeyResult` |
| Extensions.TryGetKeyAbsent | DesktopNotifications/Extensions.cs:23-27 | a null dictionary, or one where no value matches, gives false and the default key |
| Extensions.TryGetKeyFoundIsBound | DesktopNotifications/Extensions.cs:21-54 | whatever the size, a key reported as found is bound to the looked-up value in the dictionary; when nothing is found the key is the default |
| Extensions.TryGetKeySmall | DesktopNotifications/Extensions.cs:30-40 | with at most 10 entries, the key of the first matching entry is returned |
| Extensions.TryGetKeyLarge | DesktopNotifications/Extensions.cs:44-49 | with more than 10 entries, the first match is returned unless it equals the default (key, value) pair, which is reported as not found |
| Extensions.TryGetKeyMissesDefaultPair | DesktopNotifications/Extensions.cs:44-49 | concrete case: 11 entries, key 0 bound to 0, default pair (0, 0): looking up 0 reports not found |
| Extensions.MutualInverseSameSize | DesktopNotifications/Extensions.cs:89-99 | two mutually inverse maps have the same number of keys, so `Count`, `FirstKeys` and `SecondKeys` agree |
| Extensions.BidirectionalDictionary.constructor | DesktopNotifications/Extensions.cs:70-74 | starts as an empty bijection |
| Extensions.BidirectionalDictionary.WithCapacity | DesktopNotifications/Extensions.cs:80-84 | starts as an empty bijection whatever the (non-negative) capacity |
| Extensions.BidirectionalDictionary.Count | DesktopNotifications/Extensions.cs:89 | the count equals the size of either direction |
| Extensions.BidirectionalDictionary.FirstKeys | DesktopNotifications/Extensions.cs:94 | there are `Count()` first keys, each one present |
| Extensions.BidirectionalDictionary.SecondKeys | DesktopNotifications/Extensions.cs:99 | there are `Count()` second keys, each one present |
| Extensions.BidirectionalDictionary.ContainsFirst | DesktopNotifications/Extensions.cs:182-185 | a first key is present exactly when some second key leads back to it |
| Extensions.BidirectionalDictionary.ContainsSecond | DesktopNotifications/Extensions.cs:192-195 | a second key is present exactly when some first key leads to it |
| Extensions.BidirectionalDictionary.GetByFirst | DesktopNotifications/Extensions.cs:140-143 | an absent key fails with KeyNotFound; a value found maps back to the key in the other direction |
| Extensions.BidirectionalDictionary.GetBySecond | DesktopNotifications/Extensions.cs:150-153 | an absent key fails with KeyNotFound; a value found maps back to the key in the other direction |
| Extensions.BidirectionalDictionary.TryGetByFirst | DesktopNotifications/Extensions.cs:161-164 | finds a value exactly when `GetByFirst` succeeds, and the same value |
| Extensions.BidirectionalDictionary.TryGetBySecond | DesktopNotifications/Extensions.cs:172-175 | finds a value exactly when `GetBySecond` succeeds, and the same value |
| Extensions.BidirectionalDictionary.Add | DesktopNotifications/Extensions.cs:107-117 | a present first key fails with parameter "first" (checked first), a present second key with "second", both leaving everything unchanged; otherwise both directions gain the pair, nothing else changes, the count grows by one, and the bijection holds |
| Extensions.BidirectionalDictionary.TryAdd | DesktopNotifications/Extensions.cs:125-133 | returns false, changing nothing, exactly when either side is present; otherwise inserts both directions and the count grows by one |
| Extensions.BidirectionalDictionary.RemoveByFirst | DesktopNotifications/Extensions.cs:202-211 | returns whether the key was present; removes exactly that pair from both directions, or changes nothing |
| Extensions.BidirectionalDictionary.RemoveBySecond | DesktopNotifications/Extensions.cs:218-227 | returns whether the key was present; removes exactly that pair from both directions, or changes nothing |
| Extensions.BidirectionalDictionary.Clear | DesktopNotifications/Extensions.cs:232-236 | both directions are empty and the count is 0 |
| Notifications.Notification.constructor | DesktopNotifications/Notification.cs:14-37 | no title, body or image path, alt text "Image", and an empty button list |
| Notifications.Notification.AddButton | DesktopNotifications/Notification.cs:42 | appending a button keeps the earlier buttons and their order |
| WindowsNotifications.DismissReasonOf | DesktopNotifications.Windows/WindowsNotificationManager.cs:266-272 | any code other than the three known ones fails with OutOfRange |
| WindowsNotifications.DismissReasonOfInverse | DesktopNotifications.Windows/WindowsNotificationManager.cs:266-272 | UserCanceled, TimedOut and ApplicationHidden translate to User, Expired and Application, and no other code translates to a reason |
| WindowsNotifications.GetActionId | DesktopNotifications.Windows/WindowsNotificationManager.cs:277-280 | a null or empty argument gives the platform default action id "default"; a non-empty argument is kept as it is; the id is never empty |
| WindowsNotifications.GetActionIdIdempotent | DesktopNotifications.Windows/WindowsNotificationManager.cs:277-280 | normalising an action id a second time changes nothing |
| WindowsNotifications.CapabilitiesComplete | DesktopNotifications.Windows/WindowsNotificationManager.cs:61-64 | the Windows backend reports every capability flag |
| WindowsNotifications.ToastNotification.constructor | DesktopNotifications.Windows/WindowsNotificationManager.cs:88-91 | a new toast carries the generated content and the expiration time |
| WindowsNotifications.ScheduledToastNotification.constructor | DesktopNotifications.Windows/WindowsNotificationManager.cs:142-145 | a new scheduled toast carries the content, the delivery time and the expiration time |
| WindowsNotifications.WindowsNotificationManager.constructor | DesktopNotifications.Windows/WindowsNotificationManager.cs:34-59 | both registries start empty and nothing is logged or raised; the launch action id is the normalised argument of a launch activation that arrived within the wait, otherwise none |
| WindowsNotifications.WindowsNotificationManager.ShowNotification | DesktopNotifications.Windows/WindowsNotificationManager.cs:77-101 | null fails with ArgumentNull and an expiration strictly before now fails with Argument("expirationTime"), both changing nothing (an expiration equal to now is accepted); otherwise one new toast is shown, then one pair is added to the shown registry, or, for a notification still registered, the call fails with Argument("second") after the toast was shown; the scheduled registry never changes |
| WindowsNotifications.WindowsNotificationManager.ScheduleNotification | DesktopNotifications.Windows/WindowsNotificationManager.cs:121-151 | null fails with ArgumentNull; a delivery before now and then a delivery after the expiration fail with Scheduling(deliveryTime), changing nothing (delivery equal to expiration is accepted); otherwise one new scheduled toast goes to the notifier and one pair is added to the scheduled registry only |
| WindowsNotifications.WindowsNotificationManager.HideNotification | DesktopNotifications.Windows/WindowsNotificationManager.cs:103-119 | null fails with ArgumentNull; otherwise a Hide request for the shown toast and a RemoveFromSchedule request for the scheduled toast, each only when that registry holds the notification, and neither registry changes |
| WindowsNotifications.WindowsNotificationManager.Dispose | DesktopNotifications.Windows/WindowsNotificationManager.cs:153-157 | both registries are empty, and no request is sent to the notifier |
| WindowsNotifications.WindowsNotificationManager.ToastNotificationOnFailed | DesktopNotifications.Windows/WindowsNotificationManager.cs:250-255 | always fails with a delivery error carrying the platform error code, and changes no state |
| WindowsNotifications.WindowsNotificationManager.ToastNotificationOnDismissed | DesktopNotifications.Windows/WindowsNotificationManager.cs:257-275 | an unregistered toast is ignored; otherwise its pair is removed from both directions before the reason is translated, then one Dismissed event is raised, or for an unknown reason the handler fails with OutOfRange and raises nothing; afterwards the toast is never registered, so a repeat raises nothing |
| WindowsNotifications.WindowsNotificationManager.ToastNotificationOnActivated | DesktopNotifications.Windows/WindowsNotificationManager.cs:282-295 | an unregistered toast is ignored; otherwise exactly one Activated event with the normalised action id is raised, and the registry is unchanged |

## Left out

- `GenerateXml` (WindowsNotificationManager.cs:159-238) is not modelled as XML. The
  `XmlWriter`, `ToastContentBuilder` and XML DOM libraries are foreign code. `GenerateXml`
  returns `ToastContent` instead: the title, body, `file:///` image with its alt text, and
  the buttons that the XML is built from. It has no contract.
- The toast notifier's `Show`, `Hide`, `AddToSchedule` and `RemoveFromSchedule` are platform
  calls. They are recorded in `notifierLog`, and the model assumes they never throw.
- Attaching the Activated/Dismissed/Failed handlers to a new toast is not modelled
  separately. The handlers are methods that take the sending toast.
- `DateTimeOffset` values are integers on one timeline. Offsets and clock reads are not
  modelled; the clock is the `now` parameter.
- The constructor's launch-activation wait and `OnAppActivated` are left out, because they
  are OS activation plus a timed wait on another thread. Their outcome is the constructor's
  `LaunchActivation` parameter. The application context and the `ToastNotifier` creation
  are also left out.
- `Initialize` is left out. It returns a completed task and does nothing else.
- Event multicast, thread affinity and subscriber exceptions are left out. An event is
  appended to `events` even when no handler is subscribed, whereas `?.Invoke` then does
  nothing.
- The cast `(ToastActivatedEventArgs)args` in the activation handler is left out. Its failure
  would be an `InvalidCastException`. The handler takes the arguments string directly.
- ToastNotificationOnFailed is modelled as returning its error. The C# handler throws inside
  the platform's callback context.
- The error code is modelled as an integer. The platform supplies it as an exception object.
- `Buttons` is a `List` object that other code could hold and change through an alias. It is
  modelled as a sequence field of the notification, so aliasing is not captured.
- The `(bool, out value)` signature of `TryGetByFirst`/`TryGetBySecond` is returned as an
  `Option`. On a miss, C# sets the out value to `default`.
- `FirstKeys` and `SecondKeys` return live key collections in C#. The model returns a set
  snapshot.
- The registries compare keys with Dafny equality. For toasts and notifications this is
  reference identity, the same as the C# default equality. `TryGetKey` compares values with
  Dafny `==` in place of `EqualityComparer<V>.Default`.
- Extensions.BidirectionalDictionary.WithCapacity: requires a non-negative capacity, because
  .NET's `Dictionary(int)` throws on a negative one. The capacity is otherwise only a hint and
  is not modelled.
- Null keys are not modelled: `BidirectionalDictionary` treats a null reference as an
  ordinary key, whereas the .NET `Dictionary` it wraps throws `ArgumentNullException` for a
  null key in `Add`, the indexer, `TryGetValue`, `ContainsKey` and `Remove`. This is safe
  for the manager: it rejects a null notification before touching a registry
  (WindowsNotificationManager.cs:79-80, :105-106, :126-127), registers only toasts it has
  just built, and the toast callbacks receive a non-null sender from the platform.
- `Count` is an unbounded natural number, so the 32-bit limit of a .NET dictionary is not
  modelled.
- `AppleNotificationManager`, the Avalonia wiring, `ApplicationContext` and the messages of
  the exception classes are not part of this model. The Apple manager runs a shell process
  and the Avalonia code is UI glue.
