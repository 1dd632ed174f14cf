/**
 * The robot client: its listener registry, the main-thread handler queue,
 * the one-shot notification listeners, the single-slot listeners and the
 * service handle, with the callback sink's entry points and the unit runner.
 */
module RobotClient {
  import opened Outcomes
  import opened Events
  import Registry
  import opened Dispatch
  import opened Rules

  class Robot {
    /** Whether the app's metadata declares kiosk mode. */
    const isKiosk: bool
    /** The app's metadata permission string, if any. */
    const metaPermissions: Option<string>

    /** `sdkService != null`. */
    var connected: bool
    /** The broadcast listener sets, one per category. */
    var listeners: Registry.Registry
    /** `onRobotReadyListeners`. */
    var readyListeners: set<Handle>
    /** `listenersMap`: alert notification id to its one-shot listener. */
    var notificationListeners: map<string, Handle>
    var mediaButtonListener: Option<Handle>
    var activityStreamPublishListener: Option<Handle>
    /** The units posted to the main-thread handler and not yet run, oldest first. */
    var queue: seq<Work>
    /** Every listener callback performed so far, in order. */
    ghost var log: seq<Delivery>

    ghost predicate Valid()
      reads this
    {
      Registry.Total(listeners) && Registry.Typed(listeners)
    }

    constructor(isKiosk: bool, metaPermissions: Option<string>)
      ensures Valid()
      ensures this.isKiosk == isKiosk && this.metaPermissions == metaPermissions
      ensures !connected
      ensures forall c: Category :: listeners[c] == {}
      ensures readyListeners == {} && notificationListeners == map[]
      ensures mediaButtonListener == None && activityStreamPublishListener == None
      ensures queue == [] && log == []
    {
      this.isKiosk := isKiosk;
      this.metaPermissions := metaPermissions;
      connected := false;
      listeners := Registry.Empty();
      readyListeners := {};
      notificationListeners := map[];
      mediaButtonListener := None;
      activityStreamPublishListener := None;
      queue := [];
      log := [];
      Registry.EmptyIsTotal();
    }

    // ------------------------------------------------------------ registry

    /** The typed `add<Category>Listener` methods. */
    method AddListener(c: Category, l: Listener)
      requires Valid() && Fits(c, l)
      modifies this`listeners
      ensures Valid()
      ensures listeners == Registry.Add(old(listeners), c, l)
      ensures l in listeners[c]
      ensures forall d :: d != c ==> listeners[d] == old(listeners)[d]
    {
      Registry.AddKeepsShape(listeners, c, l);
      listeners := Registry.Add(listeners, c, l);
    }

    /** The typed `remove<Category>Listener` methods. */
    method RemoveListener(c: Category, l: Listener)
      requires Valid()
      modifies this`listeners
      ensures Valid()
      ensures listeners == Registry.Remove(old(listeners), c, l)
      ensures l !in listeners[c]
      ensures forall d :: d != c ==> listeners[d] == old(listeners)[d]
    {
      Registry.RemoveKeepsShape(listeners, c, l);
      listeners := Registry.Remove(listeners, c, l);
    }

    /** The emptiness gate: whether any listener is registered for `c`. */
    method HasListeners(c: Category) returns (r: bool)
      requires Valid()
      ensures r <==> listeners[c] != {}
    {
      r := listeners[c] != {};
    }

    /** `hasActiveNlpListeners`, asked by the service before it sends NLP results. */
    method HasActiveNlpListeners() returns (r: bool)
      requires Valid()
      ensures r <==> listeners[Nlp] != {}
    {
      r := HasListeners(Nlp);
    }

    // ------------------------------------------------------- callback sink

    /**
     * A broadcast entry point of the callback sink: with no listener for the
     * event's category it returns false and posts nothing; otherwise it posts
     * one unit and acknowledges (face recognition never acknowledges).
     */
    method OnEvent(e: Event) returns (acknowledged: bool)
      requires Valid() && WellFormed(e)
      modifies this`queue
      ensures listeners[CategoryOf(e)] == {} ==> queue == old(queue) && !acknowledged
      ensures listeners[CategoryOf(e)] != {} ==> queue == old(queue) + [DispatchEvent(e)]
      ensures acknowledged == Acknowledges(CategoryOf(e), listeners[CategoryOf(e)])
    {
      var c := CategoryOf(e);
      var any := HasListeners(c);
      if !any {
        return false;
      }
      queue := queue + [DispatchEvent(e)];
      acknowledged := c != FaceRecognized;
    }

    /** `onNotificationBtnClicked`: always posts; the id is looked up when the unit runs. */
    method OnNotificationBtnClicked(callback: NotificationCallback)
      modifies this`queue
      ensures queue == old(queue) + [NotificationClick(callback)]
    {
      queue := queue + [NotificationClick(callback)];
    }

    /** `onPlayButtonClicked`, `onNextButtonClicked`, `onBackButtonClicked`, `onTrackBarChanged`. */
    method OnMediaButton(action: MediaAction)
      modifies this`queue
      ensures queue == old(queue) + [MediaButton(action)]
    {
      queue := queue + [MediaButton(action)];
    }

    /** `onActivityStreamPublish`: invoked at once, not posted. */
    method OnActivityStreamPublish(message: Payload)
      modifies this`log
      ensures log == old(log) + match activityStreamPublishListener
        case Some(h) => [Published(h, message)]
        case None => []
    {
      if activityStreamPublishListener.Some? {
        log := log + [Published(activityStreamPublishListener.value, message)];
      }
    }

    // ------------------------------------------------------------- handler

    /**
     * The main looper running the oldest posted unit. A broadcast unit reads
     * the category's set as it is now; a notification click delivers to the
     * id's listener and forgets it; a media unit reads the media slot now.
     */
    method RunNext() returns (ran: bool, batch: seq<Delivery>)
      requires Valid()
      modifies this`queue, this`log, this`notificationListeners
      ensures ran <==> old(queue) != []
      ensures queue == if ran then old(queue)[1..] else old(queue)
      ensures log == old(log) + batch
      ensures !ran ==> batch == [] && notificationListeners == old(notificationListeners)
      ensures ran && old(queue)[0].DispatchEvent? ==>
        var e := old(queue)[0].event;
        EachOnce(batch, Deliveries(Recipients(listeners[CategoryOf(e)], e), e))
        && notificationListeners == old(notificationListeners)
      ensures ran && old(queue)[0].NotificationClick? ==>
        var cb := old(queue)[0].callback;
        if cb.notificationId in old(notificationListeners) then
          batch == [NotificationDelivered(old(notificationListeners)[cb.notificationId], cb.button)]
          && notificationListeners == old(notificationListeners) - {cb.notificationId}
        else
          batch == [] && notificationListeners == old(notificationListeners)
      ensures ran && old(queue)[0].MediaButton? ==>
        batch == (match mediaButtonListener
          case Some(h) => [MediaDelivered(h, old(queue)[0].action)]
          case None => [])
        && notificationListeners == old(notificationListeners)
    {
      if queue == [] {
        return false, [];
      }
      var work := queue[0];
      queue := queue[1..];
      ran := true;
      match work {
        case DispatchEvent(e) =>
          batch := Fanout(listeners[CategoryOf(e)], e);
        case NotificationClick(cb) =>
          if cb.notificationId in notificationListeners {
            batch := [NotificationDelivered(notificationListeners[cb.notificationId], cb.button)];
            notificationListeners := notificationListeners - {cb.notificationId};
          } else {
            batch := [];
          }
        case MediaButton(action) =>
          batch := if mediaButtonListener.Some? then [MediaDelivered(mediaButtonListener.value, action)] else [];
      }
      log := log + batch;
    }

    // ---------------------------------------------------------- connection

    /** `isReady`. */
    function IsReady(): bool
      reads this
    {
      connected
    }

    /** `setSdkService`: store the handle and tell every ready listener whether it is present. */
    method SetSdkService(present: bool) returns (notified: seq<Delivery>)
      modifies this`connected, this`log
      ensures IsReady() == present
      ensures EachOnce(notified, ReadyNotices(readyListeners, present))
      ensures log == old(log) + notified
    {
      connected := present;
      notified := NotifyAll(readyListeners, present);
      log := log + notified;
    }

    /** `addOnRobotReadyListener`: register, then answer at once with the current readiness. */
    method AddOnRobotReadyListener(h: Handle) returns (told: Delivery)
      modifies this`readyListeners, this`log
      ensures readyListeners == old(readyListeners) + {h}
      ensures told == ReadyNotified(h, IsReady())
      ensures log == old(log) + [told]
    {
      readyListeners := readyListeners + {h};
      told := ReadyNotified(h, IsReady());
      log := log + [told];
    }

    /** `removeOnRobotReadyListener`. */
    method RemoveOnRobotReadyListener(h: Handle)
      modifies this`readyListeners
      ensures readyListeners == old(readyListeners) - {h}
    {
      readyListeners := readyListeners - {h};
    }

    // ------------------------------------------------------- notifications

    /**
     * `showAlertNotification`: with the service present, show the alert and
     * remember its listener under the notification id; without it, throw and
     * change nothing. `remoteThrows` is the outcome of the remote call.
     */
    method ShowAlertNotification(notificationId: string, h: Handle, remoteThrows: bool)
      returns (r: Result<()>)
      modifies this`notificationListeners
      ensures r.Ok? <==> connected && !remoteThrows
      ensures r.Err? ==> r.error == RemoteException
      ensures notificationListeners ==
        if r.Ok? then old(notificationListeners)[notificationId := h] else old(notificationListeners)
    {
      if !connected || remoteThrows {
        return Err(RemoteException);
      }
      notificationListeners := notificationListeners[notificationId := h];
      r := Ok(());
    }

    // -------------------------------------------------- single-slot listeners

    method SetMediaButtonListener(h: Handle)
      modifies this`mediaButtonListener
      ensures mediaButtonListener == Some(h)
    {
      mediaButtonListener := Some(h);
    }

    method RemoveMediaButtonListener()
      modifies this`mediaButtonListener
      ensures mediaButtonListener == None
    {
      mediaButtonListener := None;
    }

    method SetActivityStreamPublishListener(h: Option<Handle>)
      modifies this`activityStreamPublishListener
      ensures activityStreamPublishListener == h
    {
      activityStreamPublishListener := h;
    }

    // ---------------------------------------------------------- permissions

    /**
     * `requestPermissions`: nothing is requested when the metadata permission
     * string is null or blank or when no permission survives the filter;
     * otherwise the surviving values are requested in input order.
     */
    method RequestPermissions(permissions: seq<Permission>, requestCode: int) returns (call: Option<Call>)
      ensures IsNullOrBlank(metaPermissions) ==> call == None
      ensures !IsNullOrBlank(metaPermissions) ==>
        var valid := ValidPermissions(permissions, metaPermissions.value, isKiosk);
        call == if valid == [] then None else Forward(connected, PermissionRequest(valid, requestCode))
    {
      if IsNullOrBlank(metaPermissions) {
        return None;
      }
      var declared := metaPermissions.value;
      var valid: seq<string> := [];
      var i := 0;
      while i < |permissions|
        invariant 0 <= i <= |permissions|
        invariant valid == ValidPermissions(permissions[..i], declared, isKiosk)
      {
        var permission := permissions[i];
        ValidPermissionsAppend(permissions[..i], [permission], declared, isKiosk);
        assert permissions[..i + 1] == permissions[..i] + [permission];
        i := i + 1;
        if !Contains(declared, permission.value) {
          continue;
        }
        if permission.isKioskPermission && !isKiosk {
          continue;
        }
        valid := valid + [permission.value];
      }
      assert permissions[..i] == permissions;
      if valid == [] {
        return None;
      }
      call := Forward(connected, PermissionRequest(valid, requestCode));
    }
  }
}
