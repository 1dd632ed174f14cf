/**
 * Client runs of the robot model: what a caller can conclude from the
 * contracts of `Robot` alone about posting, run-time membership, order,
 * filters, one-shot notification listeners and reconnection.
 */
module Scenarios {
  import opened Outcomes
  import opened Events
  import opened Dispatch
  import opened RobotClient

  /** An event for a category with no listener is neither acknowledged nor posted. */
  method EmptyCategoryPostsNothing(c: Category, p: Payload) returns (acknowledged: bool, ran: bool)
    requires c != TelepresenceStatus && c != UsersUpdated
    ensures !acknowledged && !ran
  {
    var robot := new Robot(false, None);
    acknowledged := robot.OnEvent(Broadcast(c, p));
    var batch;
    ran, batch := robot.RunNext();
  }

  /**
   * A unit posted while the set was non-empty, run after its only listener
   * was removed, reaches no one: membership is read when the unit runs.
   */
  method StaleUnitReachesNoOne(c: Category, id: nat, p: Payload) returns (acknowledged: bool, batch: seq<Delivery>)
    requires c != TelepresenceStatus && c != UsersUpdated && c != FaceRecognized
    ensures acknowledged && batch == []
  {
    var robot := new Robot(false, None);
    robot.AddListener(c, Plain(id));
    acknowledged := robot.OnEvent(Broadcast(c, p));
    robot.RemoveListener(c, Plain(id));
    var ran;
    ran, batch := robot.RunNext();
    assert robot.listeners[c] == {};
    EachOnceNone(batch);
  }

  /** A listener added after the unit was posted but before it runs is reached too. */
  method LateListenerIsReached(c: Category, p: Payload) returns (batch: seq<Delivery>)
    requires c != TelepresenceStatus && c != UsersUpdated
    ensures |batch| == 2
    ensures EventDelivered(Plain(0), Broadcast(c, p)) in batch
    ensures EventDelivered(Plain(1), Broadcast(c, p)) in batch
  {
    var robot := new Robot(false, None);
    robot.AddListener(c, Plain(0));
    var _ := robot.OnEvent(Broadcast(c, p));
    robot.AddListener(c, Plain(1));
    var ran;
    ran, batch := robot.RunNext();
    assert robot.listeners[c] == {Plain(0), Plain(1)};
    FanoutToTwo(batch, Plain(0), Plain(1), Broadcast(c, p));
  }

  /**
   * The emptiness gate is not transparent: an event that arrives while its
   * set is empty is dropped, and a listener registered before the looper
   * would have run it is never called. Compare `LateListenerIsReached`.
   */
  method EarlyEventIsLost(c: Category, p: Payload) returns (acknowledged: bool, ran: bool, batch: seq<Delivery>)
    requires c != TelepresenceStatus && c != UsersUpdated
    ensures !acknowledged && !ran && batch == []
  {
    var robot := new Robot(false, None);
    acknowledged := robot.OnEvent(Broadcast(c, p));
    robot.AddListener(c, Plain(0));
    ran, batch := robot.RunNext();
  }

  /** Units run in the order they were posted. */
  method UnitsRunInPostOrder(c: Category, p1: Payload, p2: Payload) returns (first: seq<Delivery>, second: seq<Delivery>)
    requires c != TelepresenceStatus && c != UsersUpdated
    ensures first == [EventDelivered(Plain(7), Broadcast(c, p1))]
    ensures second == [EventDelivered(Plain(7), Broadcast(c, p2))]
  {
    var robot := new Robot(false, None);
    robot.AddListener(c, Plain(7));
    var _ := robot.OnEvent(Broadcast(c, p1));
    var _ := robot.OnEvent(Broadcast(c, p2));
    var ran;
    ran, first := robot.RunNext();
    FanoutToOne(first, Plain(7), Broadcast(c, p1));
    ran, second := robot.RunNext();
    FanoutToOne(second, Plain(7), Broadcast(c, p2));
  }

  /** A telepresence status reaches only the listener following its session. */
  method SessionFilter(d: Payload) returns (batch: seq<Delivery>)
    ensures batch == [EventDelivered(SessionScoped(1, "S9"), CallStatusChanged(CallState("S9", d)))]
  {
    var robot := new Robot(false, None);
    var l9, l1 := SessionScoped(1, "S9"), SessionScoped(2, "S1");
    robot.AddListener(TelepresenceStatus, l9);
    robot.AddListener(TelepresenceStatus, l1);
    var e := CallStatusChanged(CallState("S9", d));
    var _ := robot.OnEvent(e);
    var ran;
    ran, batch := robot.RunNext();
    assert robot.listeners[TelepresenceStatus] == {l9, l1};
    OnlySessionS9Reached(d);
    FanoutToOne(batch, l9, e);
  }

  lemma OnlySessionS9Reached(d: Payload)
    ensures Recipients({SessionScoped(1, "S9"), SessionScoped(2, "S1")}, CallStatusChanged(CallState("S9", d)))
         == Recipients({SessionScoped(1, "S9")}, CallStatusChanged(CallState("S9", d)))
  {
    assert "S9" != "S1" by { assert "S9"[1] != "S1"[1]; }
  }

  /** A user update reaches listeners without ids or naming the user, and no one else. */
  method UserFilter(d: Payload) returns (batch: seq<Delivery>)
    ensures batch == [EventDelivered(UserScoped(1, None), UserChanged(UserInfo("u9", d)))]
  {
    var robot := new Robot(false, None);
    var any, only1 := UserScoped(1, None), UserScoped(2, Some(["u1"]));
    robot.AddListener(UsersUpdated, any);
    robot.AddListener(UsersUpdated, only1);
    var e := UserChanged(UserInfo("u9", d));
    var _ := robot.OnEvent(e);
    var ran;
    ran, batch := robot.RunNext();
    assert robot.listeners[UsersUpdated] == {any, only1};
    OnlyUnfilteredReached(d);
    FanoutToOne(batch, any, e);
  }

  lemma OnlyUnfilteredReached(d: Payload)
    ensures Recipients({UserScoped(1, None), UserScoped(2, Some(["u1"]))}, UserChanged(UserInfo("u9", d)))
         == Recipients({UserScoped(1, None)}, UserChanged(UserInfo("u9", d)))
  {
    assert "u9" != "u1" by { assert "u9"[1] != "u1"[1]; }
  }

  /** A notification listener is called back once; a second click for the same id reaches no one. */
  method NotificationClickedTwice(id: string, h: Handle, button: int)
    returns (shown: Result<()>, first: seq<Delivery>, second: seq<Delivery>)
    ensures shown.Ok?
    ensures first == [NotificationDelivered(h, button)]
    ensures second == []
  {
    var robot := new Robot(false, None);
    var _ := robot.SetSdkService(true);
    shown := robot.ShowAlertNotification(id, h, false);
    robot.OnNotificationBtnClicked(NotificationCallback(id, button));
    robot.OnNotificationBtnClicked(NotificationCallback(id, button));
    var ran;
    ran, first := robot.RunNext();
    ran, second := robot.RunNext();
  }

  /** Without the service, showing an alert throws and registers nothing. */
  method AlertWithoutServiceFails(id: string, h: Handle, button: int)
    returns (shown: Result<()>, clicked: seq<Delivery>)
    ensures shown == Err(RemoteException)
    ensures clicked == []
  {
    var robot := new Robot(false, None);
    shown := robot.ShowAlertNotification(id, h, false);
    robot.OnNotificationBtnClicked(NotificationCallback(id, button));
    var ran;
    ran, clicked := robot.RunNext();
  }

  /** Listeners stay registered across a disconnect and reconnect. */
  method ReconnectKeepsListeners(c: Category, p: Payload) returns (acknowledged: bool, batch: seq<Delivery>)
    requires c != TelepresenceStatus && c != UsersUpdated && c != FaceRecognized
    ensures acknowledged
    ensures batch == [EventDelivered(Plain(3), Broadcast(c, p))]
  {
    var robot := new Robot(false, None);
    robot.AddListener(c, Plain(3));
    var _ := robot.SetSdkService(true);
    var _ := robot.SetSdkService(false);
    var _ := robot.SetSdkService(true);
    acknowledged := robot.OnEvent(Broadcast(c, p));
    var ran;
    ran, batch := robot.RunNext();
    FanoutToOne(batch, Plain(3), Broadcast(c, p));
  }

  /** Face recognition is posted and delivered, yet never acknowledged. */
  method FaceRecognitionNeverAcknowledged(p: Payload) returns (acknowledged: bool, batch: seq<Delivery>)
    ensures !acknowledged
    ensures batch == [EventDelivered(Plain(5), Broadcast(FaceRecognized, p))]
  {
    var robot := new Robot(false, None);
    robot.AddListener(FaceRecognized, Plain(5));
    acknowledged := robot.OnEvent(Broadcast(FaceRecognized, p));
    var ran;
    ran, batch := robot.RunNext();
    FanoutToOne(batch, Plain(5), Broadcast(FaceRecognized, p));
  }

  /** A media unit reads the media slot when it runs, not when it was posted. */
  method MediaSlotReadAtRunTime(h: Handle) returns (batch: seq<Delivery>)
    ensures batch == []
  {
    var robot := new Robot(false, None);
    robot.SetMediaButtonListener(h);
    robot.OnMediaButton(Next);
    robot.RemoveMediaButtonListener();
    var ran;
    ran, batch := robot.RunNext();
  }

  /** A ready listener added before the service connects hears false, then true. */
  method ReadyListenerHearsConnection(h: Handle) returns (before: seq<Delivery>, notified: seq<Delivery>)
    ensures before == [ReadyNotified(h, false)]
    ensures notified == [ReadyNotified(h, true)]
  {
    var robot := new Robot(false, None);
    var told := robot.AddOnRobotReadyListener(h);
    before := [told];
    notified := robot.SetSdkService(true);
    assert ReadyNotices({h}, true) == {ReadyNotified(h, true)};
    EachOnceSingle(notified, ReadyNotified(h, true));
  }
}
