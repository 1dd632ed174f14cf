/**
 * Units of work posted to the main-thread handler, the callback invocations
 * they perform, and the loops that fan an event out over a listener set.
 */
module Dispatch {
  import opened Events

  /** The media bar buttons forwarded by the remote service. */
  datatype MediaAction = Play(play: bool) | Next | Back | TrackBar(position: int)

  /** A click on a button of an alert notification. */
  datatype NotificationCallback = NotificationCallback(notificationId: string, button: int)

  /** One closure posted to the main-thread handler. */
  datatype Work =
    | DispatchEvent(event: Event)
    | NotificationClick(callback: NotificationCallback)
    | MediaButton(action: MediaAction)

  /** One listener callback invocation. */
  datatype Delivery =
    | EventDelivered(listener: Listener, event: Event)
    | NotificationDelivered(handle: Handle, button: int)
    | MediaDelivered(handle: Handle, action: MediaAction)
    | Published(handle: Handle, message: Payload)
    | ReadyNotified(handle: Handle, ready: bool)

  /**
   * The boolean a broadcast entry point returns to the service: whether a
   * unit was posted, except that face recognition always answers false.
   */
  function Acknowledges(c: Category, members: set<Listener>): (r: bool)
    ensures r ==> members != {}
    ensures c == FaceRecognized ==> !r
    ensures c != FaceRecognized && members != {} ==> r
  {
    members != {} && c != FaceRecognized
  }

  ghost predicate NoDuplicates(s: seq<Delivery>) {
    forall i, j :: 0 <= i < j < |s| ==> s[i] != s[j]
  }

  /** `batch` performs every expected invocation exactly once and nothing else. */
  ghost predicate EachOnce(batch: seq<Delivery>, expected: set<Delivery>) {
    (forall x :: x in batch <==> x in expected) && NoDuplicates(batch)
  }

  /** A batch that performs each expected invocation once has one entry per invocation. */
  lemma {:induction false} EachOnceSize(batch: seq<Delivery>, expected: set<Delivery>)
    requires EachOnce(batch, expected)
    ensures |batch| == |expected|
  {
    if batch == [] {
      assert expected == {};
    } else {
      var x := batch[0];
      assert x !in batch[1..] by {
        forall k | 0 <= k < |batch[1..]| ensures batch[1..][k] != x {
          assert batch[1..][k] == batch[k + 1];
        }
      }
      forall y ensures y in batch[1..] <==> y in expected - {x} {
        if y in batch[1..] {
          assert y in batch;
        }
        if y in expected - {x} {
          assert y in batch;
          var k :| 0 <= k < |batch| && batch[k] == y;
          assert k != 0;
          assert batch[1..][k - 1] == y;
        }
      }
      assert NoDuplicates(batch[1..]) by {
        forall i, j | 0 <= i < j < |batch[1..]| ensures batch[1..][i] != batch[1..][j] {
          assert batch[1..][i] == batch[i + 1] && batch[1..][j] == batch[j + 1];
        }
      }
      EachOnceSize(batch[1..], expected - {x});
    }
  }

  /** With nothing expected, nothing is performed. */
  lemma EachOnceNone(batch: seq<Delivery>)
    requires EachOnce(batch, {})
    ensures batch == []
  {
    EachOnceSize(batch, {});
  }

  /** With one invocation expected, the batch is exactly that invocation. */
  lemma EachOnceSingle(batch: seq<Delivery>, d: Delivery)
    requires EachOnce(batch, {d})
    ensures batch == [d]
  {
    EachOnceSize(batch, {d});
    assert batch[0] in batch;
  }

  /** The invocations a dispatched event performs on its recipients. */
  function Deliveries(recipients: set<Listener>, e: Event): (r: set<Delivery>)
    ensures forall d :: d in r ==> d.EventDelivered? && d.event == e && d.listener in recipients
  {
    set l | l in recipients :: EventDelivered(l, e)
  }

  /** A unit whose set is exactly one admitting listener calls that listener once. */
  lemma FanoutToOne(batch: seq<Delivery>, l: Listener, e: Event)
    requires Matches(l, e)
    requires EachOnce(batch, Deliveries(Recipients({l}, e), e))
    ensures batch == [EventDelivered(l, e)]
  {
    assert Recipients({l}, e) == {l};
    assert Deliveries({l}, e) == {EventDelivered(l, e)};
    EachOnceSingle(batch, EventDelivered(l, e));
  }

  /** A unit whose set is two admitting listeners calls each of them once. */
  lemma FanoutToTwo(batch: seq<Delivery>, l1: Listener, l2: Listener, e: Event)
    requires l1 != l2 && Matches(l1, e) && Matches(l2, e)
    requires EachOnce(batch, Deliveries(Recipients({l1, l2}, e), e))
    ensures |batch| == 2
    ensures EventDelivered(l1, e) in batch && EventDelivered(l2, e) in batch
  {
    assert Recipients({l1, l2}, e) == {l1, l2};
    assert Deliveries({l1, l2}, e) == {EventDelivered(l1, e), EventDelivered(l2, e)};
    EachOnceSize(batch, {EventDelivered(l1, e), EventDelivered(l2, e)});
  }

  /** The invocations `setSdkService` performs on the ready listeners. */
  function ReadyNotices(targets: set<Handle>, ready: bool): (r: set<Delivery>)
    ensures forall d :: d in r ==> d.ReadyNotified? && d.ready == ready && d.handle in targets
  {
    set h | h in targets :: ReadyNotified(h, ready)
  }

  /**
   * The body of a posted broadcast unit: iterate over the listener set as it
   * is when the unit runs and invoke every member the event's filter admits.
   */
  method Fanout(members: set<Listener>, e: Event) returns (batch: seq<Delivery>)
    ensures EachOnce(batch, Deliveries(Recipients(members, e), e))
  {
    batch := [];
    var rest := members;
    while rest != {}
      invariant rest <= members
      invariant EachOnce(batch, Deliveries(Recipients(members - rest, e), e))
      invariant forall i :: 0 <= i < |batch| ==> batch[i].EventDelivered? && batch[i].listener !in rest
      decreases rest
    {
      var l :| l in rest;
      ghost var done := members - rest;
      if Matches(l, e) {
        assert EventDelivered(l, e) !in batch;
        batch := batch + [EventDelivered(l, e)];
      }
      rest := rest - {l};
      assert members - rest == done + {l};
    }
    assert members - rest == members;
  }

  /** `onRobotReadyListeners.forEach { it.onRobotReady(ready) }`. */
  method NotifyAll(targets: set<Handle>, ready: bool) returns (batch: seq<Delivery>)
    ensures EachOnce(batch, ReadyNotices(targets, ready))
  {
    batch := [];
    var rest := targets;
    while rest != {}
      invariant rest <= targets
      invariant EachOnce(batch, ReadyNotices(targets - rest, ready))
      invariant forall i :: 0 <= i < |batch| ==> batch[i].ReadyNotified? && batch[i].handle !in rest
      decreases rest
    {
      var h :| h in rest;
      ghost var done := targets - rest;
      assert ReadyNotified(h, ready) !in batch;
      batch := batch + [ReadyNotified(h, ready)];
      rest := rest - {h};
      assert targets - rest == done + {h};
    }
    assert targets - rest == targets;
  }
}
