/** The Windows notification manager: two registries (shown toasts and scheduled toasts, each
    paired with its notification), the time checks of show and schedule, hide and dispose,
    and the translation of toast callbacks into activation and dismissal events.

    The toast notifier is an adapter whose calls are recorded in `notifierLog`; the clock is
    the `now` parameter; raised events are appended to `events`. The code takes no locks and
    the model is sequential. */
module WindowsNotifications {
  import opened Wrappers
  import opened Extensions
  import opened Notifications

  // ---------------------------------------------------------------------------
  // Toast handles, adapter calls and events
  // ---------------------------------------------------------------------------

  /** An inline image of the toast payload: its `file:///` source and its alt text. */
  datatype InlineImage = InlineImage(source: string, altText: string)

  /** The toast payload, standing for the XML document: what it is built from. */
  datatype ToastContent = ToastContent(
    title: Option<string>,
    body: Option<string>,
    image: Option<InlineImage>,
    actions: seq<Button>)

  /** The parts of a notification the toast XML is built from; the XML itself is not modelled. */
  function GenerateXml(notification: Notification): ToastContent
    reads notification
  {
    var image := match notification.bodyImagePath
      case Some(path) => Some(InlineImage("file:///" + path, notification.bodyImageAltText))
      case None => None;
    ToastContent(notification.title, notification.body, image, notification.buttons)
  }

  /** A native toast for immediate display; every construction is a new handle. */
  class ToastNotification {
    const content: ToastContent
    const expirationTime: Option<int>

    constructor (content: ToastContent, expirationTime: Option<int>)
      ensures this.content == content && this.expirationTime == expirationTime
    {
      this.content := content;
      this.expirationTime := expirationTime;
    }
  }

  /** A native toast to be delivered at `deliveryTime`; every construction is a new handle. */
  class ScheduledToastNotification {
    const content: ToastContent
    const deliveryTime: int
    const expirationTime: Option<int>

    constructor (content: ToastContent, deliveryTime: int, expirationTime: Option<int>)
      ensures this.content == content && this.deliveryTime == deliveryTime
      ensures this.expirationTime == expirationTime
    {
      this.content := content;
      this.deliveryTime := deliveryTime;
      this.expirationTime := expirationTime;
    }
  }

  /** A request made to the platform's toast notifier. */
  datatype NotifierCall =
    | Show(toast: ToastNotification)
    | Hide(toast: ToastNotification)
    | AddToSchedule(scheduled: ScheduledToastNotification)
    | RemoveFromSchedule(scheduled: ScheduledToastNotification)

  datatype NotificationDismissReason = User | Expired | Application

  /** An event raised to the manager's subscribers. */
  datatype NotificationEvent =
    | Activated(notification: Notification, actionId: string)
    | Dismissed(notification: Notification, reason: NotificationDismissReason)

  datatype Capability = BodyText | BodyImages | Icon | Audio

  /** How the launch-activation wait of the constructor ended: the process was not started
      from a toast, the 5-second wait ran out, or the activation arrived with its argument. */
  datatype LaunchActivation = NotToastActivated | LaunchWaitTimedOut | LaunchedWith(argument: Option<string>)

  // ---------------------------------------------------------------------------
  // Pure helpers
  // ---------------------------------------------------------------------------

  /** The platform's dismissal reason codes; any other value of the enumeration is possible. */
  const UserCanceled: int := 0
  const ApplicationHidden: int := 1
  const TimedOut: int := 2

  /** The dismissal `switch`: the three known codes map to a reason, any other code throws
      ArgumentOutOfRangeException. */
  function DismissReasonOf(reason: int): (r: Result<NotificationDismissReason, Error>)
    ensures r.Failure? ==> r.error == OutOfRange
  {
    if reason == UserCanceled then Success(User)
    else if reason == TimedOut then Success(Expired)
    else if reason == ApplicationHidden then Success(Application)
    else Failure(OutOfRange)
  }

  /** The platform code each reason is translated from. */
  function ToastDismissalReason(reason: NotificationDismissReason): int {
    match reason
    case User => UserCanceled
    case Expired => TimedOut
    case Application => ApplicationHidden
  }

  /** The translation accepts exactly the three codes and is one-to-one. */
  lemma DismissReasonOfInverse(code: int, reason: NotificationDismissReason)
    ensures DismissReasonOf(code) == Success(reason) <==> code == ToastDismissalReason(reason)
  {
  }

  /** The action id of an activation: the argument, or "default" when it is null or empty. */
  function GetActionId(argument: Option<string>): (actionId: string)
    ensures actionId != ""
    ensures argument.None? || argument.value == "" ==> actionId == "default"
    ensures argument.Some? && argument.value != "" ==> actionId == argument.value
  {
    if argument.None? || argument.value == "" then "default" else argument.value
  }

  /** Normalising an action id twice changes nothing. */
  lemma GetActionIdIdempotent(argument: Option<string>)
    ensures GetActionId(Some(GetActionId(argument))) == GetActionId(argument)
  {
  }

  // ---------------------------------------------------------------------------
  // The manager
  // ---------------------------------------------------------------------------

  class WindowsNotificationManager {
    const launchActionId: Option<string>
    const notifications: BidirectionalDictionary<ToastNotification, Notification>
    const scheduledNotification: BidirectionalDictionary<ScheduledToastNotification, Notification>
    var notifierLog: seq<NotifierCall>
    var events: seq<NotificationEvent>

    /** Both registries are bijections. */
    ghost predicate Valid()
      reads this, notifications, scheduledNotification
    {
      notifications.Valid() && scheduledNotification.Valid()
    }

    /** Starts with both registries empty; the launch action id is the normalised argument of
        the activation that started the process, when it arrived within the wait. */
    constructor (launch: LaunchActivation)
      ensures Valid() && fresh(notifications) && fresh(scheduledNotification)
      ensures notifications.Count() == 0 && scheduledNotification.Count() == 0
      ensures notifierLog == [] && events == []
      ensures launchActionId == if launch.LaunchedWith? then Some(GetActionId(launch.argument)) else None
    {
      launchActionId := if launch.LaunchedWith? then Some(GetActionId(launch.argument)) else None;
      notifications := new BidirectionalDictionary();
      scheduledNotification := new BidirectionalDictionary();
      notifierLog := [];
      events := [];
    }

    /** The capability flags of the Windows backend. */
    static function Capabilities(): set<Capability> {
      {BodyText, BodyImages, Icon, Audio}
    }

    /** Shows a notification. Null and a past expiration are rejected before anything else;
        otherwise a new toast is passed to the notifier and then registered, and registering
        fails (after the toast was shown) when the notification is still registered. */
    method ShowNotification(notification: Notification?, expirationTime: Option<int>, now: int)
      returns (r: Outcome<Error>)
      requires Valid()
      modifies this, notifications
      ensures Valid()
      ensures events == old(events) && unchanged(scheduledNotification)
      ensures notification == null ==>
        r == Fail(ArgumentNull("notification")) && notifierLog == old(notifierLog) && unchanged(notifications)
      ensures notification != null && expirationTime.Some? && expirationTime.value < now ==>
        r == Fail(Argument("expirationTime")) && notifierLog == old(notifierLog) && unchanged(notifications)
      ensures notification != null && (expirationTime.None? || expirationTime.value >= now) ==>
        && |notifierLog| == |old(notifierLog)| + 1
        && notifierLog[..|old(notifierLog)|] == old(notifierLog)
        && var call := notifierLog[|old(notifierLog)|];
        && call.Show?
        && fresh(call.toast)
        && call.toast.content == GenerateXml(notification)
        && call.toast.expirationTime == expirationTime
        && (notification in old(notifications.secondToFirst) ==>
              r == Fail(Argument("second")) && unchanged(notifications))
        && (notification !in old(notifications.secondToFirst) ==>
              && r == Pass
              && notifications.firstToSecond == old(notifications.firstToSecond)[call.toast := notification]
              && notifications.secondToFirst == old(notifications.secondToFirst)[notification := call.toast])
    {
      if notification == null {
        return Fail(ArgumentNull("notification"));
      }
      if expirationTime.Some? && expirationTime.value < now {
        return Fail(Argument("expirationTime"));
      }
      var toast := new ToastNotification(GenerateXml(notification), expirationTime);
      notifierLog := notifierLog + [Show(toast)];
      r := notifications.Add(toast, notification);
    }

    /** Schedules a notification. Null, a delivery time in the past and a delivery time after
        the expiration are rejected, in that order; otherwise a new scheduled toast is passed to
        the notifier and then registered in the scheduled registry. */
    method ScheduleNotification(notification: Notification?, deliveryTime: int, expirationTime: Option<int>, now: int)
      returns (r: Outcome<Error>)
      requires Valid()
      modifies this, scheduledNotification
      ensures Valid()
      ensures events == old(events) && unchanged(notifications)
      ensures notification == null ==>
        r == Fail(ArgumentNull("notification")) && notifierLog == old(notifierLog) && unchanged(scheduledNotification)
      ensures notification != null && deliveryTime < now ==>
        r == Fail(Scheduling(deliveryTime)) && notifierLog == old(notifierLog) && unchanged(scheduledNotification)
      ensures notification != null && deliveryTime >= now && expirationTime.Some? && deliveryTime > expirationTime.value ==>
        r == Fail(Scheduling(deliveryTime)) && notifierLog == old(notifierLog) && unchanged(scheduledNotification)
      ensures notification != null && deliveryTime >= now && (expirationTime.None? || deliveryTime <= expirationTime.value) ==>
        && |notifierLog| == |old(notifierLog)| + 1
        && notifierLog[..|old(notifierLog)|] == old(notifierLog)
        && var call := notifierLog[|old(notifierLog)|];
        && call.AddToSchedule?
        && fresh(call.scheduled)
        && call.scheduled.content == GenerateXml(notification)
        && call.scheduled.deliveryTime == deliveryTime
        && call.scheduled.expirationTime == expirationTime
        && (notification in old(scheduledNotification.secondToFirst) ==>
              r == Fail(Argument("second")) && unchanged(scheduledNotification))
        && (notification !in old(scheduledNotification.secondToFirst) ==>
              && r == Pass
              && scheduledNotification.firstToSecond == old(scheduledNotification.firstToSecond)[call.scheduled := notification]
              && scheduledNotification.secondToFirst == old(scheduledNotification.secondToFirst)[notification := call.scheduled])
    {
      if notification == null {
        return Fail(ArgumentNull("notification"));
      }
      if deliveryTime < now {
        return Fail(Scheduling(deliveryTime));
      }
      if expirationTime.Some? && deliveryTime > expirationTime.value {
        return Fail(Scheduling(deliveryTime));
      }
      var scheduled := new ScheduledToastNotification(GenerateXml(notification), deliveryTime, expirationTime);
      notifierLog := notifierLog + [AddToSchedule(scheduled)];
      r := scheduledNotification.Add(scheduled, notification);
    }

    /** Hides a notification: asks the notifier to hide its shown toast and to unschedule its
        scheduled toast, for whichever registries hold it. Neither registry changes, so an
        unknown notification is a no-op. */
    method HideNotification(notification: Notification?) returns (r: Outcome<Error>)
      requires Valid()
      modifies this
      ensures Valid()
      ensures events == old(events) && unchanged(notifications, scheduledNotification)
      ensures notification == null ==> r == Fail(ArgumentNull("notification")) && notifierLog == old(notifierLog)
      ensures notification != null ==>
        && r == Pass
        && notifierLog == old(notifierLog)
             + (match notifications.TryGetBySecond(notification)
                case Some(toast) => [Hide(toast)]
                case None => [])
             + (match scheduledNotification.TryGetBySecond(notification)
                case Some(scheduled) => [RemoveFromSchedule(scheduled)]
                case None => [])
    {
      if notification == null {
        return Fail(ArgumentNull("notification"));
      }
      var toast := notifications.TryGetBySecond(notification);
      if toast.Some? {
        notifierLog := notifierLog + [Hide(toast.value)];
      }
      var scheduled := scheduledNotification.TryGetBySecond(notification);
      if scheduled.Some? {
        notifierLog := notifierLog + [RemoveFromSchedule(scheduled.value)];
      }
      r := Pass;
    }

    /** Forgets every shown and scheduled notification without asking the notifier to hide
        or unschedule anything. */
    method Dispose()
      requires Valid()
      modifies notifications, scheduledNotification
      ensures Valid()
      ensures notifications.Count() == 0 && scheduledNotification.Count() == 0
      ensures unchanged(this)
    {
      notifications.Clear();
      scheduledNotification.Clear();
    }

    /** The toast's Failed handler: always throws a delivery error carrying the platform's
        error code, and touches no state. */
    static method ToastNotificationOnFailed(sender: ToastNotification, errorCode: int) returns (r: Outcome<Error>)
      ensures r.Fail? && r.error.Delivery? && r.error.errorCode == Some(errorCode)
    {
      r := Fail(Delivery(Some(errorCode)));
    }

    /** The toast's Dismissed handler. A toast no longer registered is ignored. Otherwise its
        entry is removed first, so a repeated dismissal raises nothing; then the reason is
        translated and one Dismissed event raised, or, for an unknown reason, the handler
        throws with the entry already gone. */
    method ToastNotificationOnDismissed(sender: ToastNotification, reason: int) returns (r: Outcome<Error>)
      requires Valid()
      modifies this, notifications
      ensures Valid()
      ensures notifierLog == old(notifierLog) && unchanged(scheduledNotification)
      ensures sender !in notifications.firstToSecond
      ensures sender !in old(notifications.firstToSecond) ==>
        r == Pass && events == old(events) && unchanged(notifications)
      ensures sender in old(notifications.firstToSecond) ==>
        var notification := old(notifications.firstToSecond)[sender];
        && notifications.firstToSecond == old(notifications.firstToSecond) - {sender}
        && notifications.secondToFirst == old(notifications.secondToFirst) - {notification}
        && match DismissReasonOf(reason)
           case Success(dismissReason) => r == Pass && events == old(events) + [Dismissed(notification, dismissReason)]
           case Failure(error) => r == Fail(error) && events == old(events)
    {
      var found := notifications.TryGetByFirst(sender);
      if found.None? {
        return Pass;
      }
      var notification := found.value;
      var _ := notifications.RemoveByFirst(sender);
      var dismissReason := DismissReasonOf(reason);
      if dismissReason.Failure? {
        return Fail(dismissReason.error);
      }
      events := events + [Dismissed(notification, dismissReason.value)];
      r := Pass;
    }

    /** The toast's Activated handler. A toast no longer registered is ignored; otherwise one
        Activated event is raised with the normalised action id, and the entry stays, so every
        activation raises an event. */
    method ToastNotificationOnActivated(sender: ToastNotification, arguments: Option<string>)
      requires Valid()
      modifies this
      ensures Valid()
      ensures notifierLog == old(notifierLog) && unchanged(notifications, scheduledNotification)
      ensures sender !in notifications.firstToSecond ==> events == old(events)
      ensures sender in notifications.firstToSecond ==>
        events == old(events) + [Activated(notifications.firstToSecond[sender], GetActionId(arguments))]
    {
      var found := notifications.TryGetByFirst(sender);
      if found.None? {
        return;
      }
      events := events + [Activated(found.value, GetActionId(arguments))];
    }
  }

  /** Windows supports every capability. */
  lemma CapabilitiesComplete(c: Capability)
    ensures c in WindowsNotificationManager.Capabilities()
  {
  }

  // ---------------------------------------------------------------------------
  // Scenarios a caller can prove from the contracts alone
  // ---------------------------------------------------------------------------

  /** Show, dismiss, and a duplicate dismissal of the same toast: exactly one Dismissed event,
      and the toast is gone from the registry after the first. */
  method DismissalScenario(now: int)
  {
    var manager := new WindowsNotificationManager(NotToastActivated);
    var n := new Notification();
    n.title := Some("Build");
    n.body := Some("Done");

    var r := manager.ShowNotification(n, None, now);
    assert r == Pass;
    var toast := manager.notifierLog[0].toast;
    assert manager.notifications.firstToSecond == map[toast := n];

    r := manager.ToastNotificationOnDismissed(toast, UserCanceled);
    assert r == Pass && manager.events == [Dismissed(n, User)];
    assert manager.notifications.Count() == 0;

    r := manager.ToastNotificationOnDismissed(toast, UserCanceled);
    assert r == Pass && manager.events == [Dismissed(n, User)];

    manager.ToastNotificationOnActivated(toast, Some("ok"));
    assert manager.events == [Dismissed(n, User)];
  }

  /** Scheduling one hour ahead with a later expiration succeeds; a delivery after the
      expiration is refused with the delivery time. Showing the same notification twice fails
      the second time, after its toast was passed to the notifier. */
  method SchedulingScenario(now: int)
  {
    var manager := new WindowsNotificationManager(NotToastActivated);
    var n := new Notification();
    var r := manager.ScheduleNotification(n, now + 3600, Some(now + 7200), now);
    assert r == Pass && manager.scheduledNotification.Count() == 1;

    var n2 := new Notification();
    r := manager.ScheduleNotification(n2, now + 7200, Some(now + 3600), now);
    assert r == Fail(Scheduling(now + 7200)) && manager.scheduledNotification.Count() == 1;

    r := manager.ShowNotification(n2, Some(now), now);
    assert r == Pass;
    r := manager.ShowNotification(n2, None, now);
    assert r == Fail(Argument("second")) && |manager.notifierLog| == 3;
    assert manager.notifications.Count() == 1;
  }
}
