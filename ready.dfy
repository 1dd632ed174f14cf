/**
 * Re-entrant ready listeners. `setSdkService` tells the ready listeners
 * through `onRobotReadyListeners.forEach`, and `onRobotReadyListeners` is a
 * plain `HashSet`, whose iterator fails fast. A listener that adds or
 * removes a ready listener from inside `onRobotReady` while others are
 * still to be told stops the loop with `ConcurrentModificationException`.
 * The robot model's callbacks never re-enter, and there the loop as written
 * and the loop over a snapshot agree.
 */
module ReadyNotification {
  import opened Events
  import opened Dispatch

  /** What a ready listener does to the ready set from inside `onRobotReady`. */
  datatype Reaction = Inert | RemovesItself | Registers(other: Handle)

  /**
   * The outcome of telling the ready listeners: the callbacks performed, the
   * ready set afterwards, and whether the loop stopped on an exception.
   */
  datatype Run = Run(told: seq<Delivery>, after: set<Handle>, failed: bool)

  /** The ready set after `h`'s callback reacted. */
  function Apply(s: set<Handle>, h: Handle, r: Reaction): (s': set<Handle>)
    ensures r.Inert? ==> s' == s
    ensures r.RemovesItself? ==> h !in s'
    ensures r.Registers? ==> r.other in s'
  {
    match r
    case Inert => s
    case RemovesItself => s - {h}
    case Registers(o) => s + {o}
  }

  /**
   * The callbacks one listener's turn performs: its own notice and, when it
   * registers another listener, that listener's immediate notice from
   * `addOnRobotReadyListener` (whose own reaction is not followed further).
   */
  function Told(h: Handle, r: Reaction, ready: bool): (t: seq<Delivery>)
    ensures |t| >= 1 && t[0] == ReadyNotified(h, ready)
  {
    [ReadyNotified(h, ready)] + (if r.Registers? then [ReadyNotified(r.other, ready)] else [])
  }

  /**
   * The loop as written, visiting the listeners in the `HashSet`'s order. A
   * callback that changes the set while a later listener remains makes the
   * next step of the iterator throw; a change in the last turn ends the loop
   * normally.
   */
  function NotifyAsWritten(order: seq<Handle>, s: set<Handle>, react: Handle -> Reaction, ready: bool): (r: Run)
    ensures |r.told| >= |order| || r.failed
    decreases |order|
  {
    if order == [] then Run([], s, false)
    else
      var h := order[0];
      var s' := Apply(s, h, react(h));
      if s' != s && |order| > 1 then Run(Told(h, react(h), ready), s', true)
      else
        var rest := NotifyAsWritten(order[1..], s', react, ready);
        Run(Told(h, react(h), ready) + rest.told, rest.after, rest.failed)
  }

  /**
   * The corrected loop, over a copy of the set taken before the first
   * callback (`onRobotReadyListeners.toList().forEach`): it never fails.
   */
  function NotifySnapshot(order: seq<Handle>, s: set<Handle>, react: Handle -> Reaction, ready: bool): (r: Run)
    ensures !r.failed
    ensures |r.told| >= |order|
    decreases |order|
  {
    if order == [] then Run([], s, false)
    else
      var h := order[0];
      var rest := NotifySnapshot(order[1..], Apply(s, h, react(h)), react, ready);
      Run(Told(h, react(h), ready) + rest.told, rest.after, false)
  }

  /** The corrected loop tells every listener of the snapshot, whatever the callbacks do. */
  lemma {:induction false} SnapshotTellsEveryone(order: seq<Handle>, s: set<Handle>, react: Handle -> Reaction, ready: bool)
    ensures forall h :: h in order ==> ReadyNotified(h, ready) in NotifySnapshot(order, s, react, ready).told
    decreases |order|
  {
    if order != [] {
      var h0 := order[0];
      var s' := Apply(s, h0, react(h0));
      SnapshotTellsEveryone(order[1..], s', react, ready);
      var r := NotifySnapshot(order, s, react, ready);
      var rest := NotifySnapshot(order[1..], s', react, ready);
      assert r.told == Told(h0, react(h0), ready) + rest.told;
      forall h | h in order ensures ReadyNotified(h, ready) in r.told {
        if h == h0 {
          assert r.told[0] == ReadyNotified(h0, ready);
        } else {
          assert h in order[1..];
          var k :| 0 <= k < |rest.told| && rest.told[k] == ReadyNotified(h, ready);
          assert r.told[|Told(h0, react(h0), ready)| + k] == ReadyNotified(h, ready);
        }
      }
    }
  }

  /** With callbacks that do not re-enter, the loop as written is the corrected loop. */
  lemma {:induction false} InertListenersAgree(order: seq<Handle>, s: set<Handle>, react: Handle -> Reaction, ready: bool)
    requires forall i :: 0 <= i < |order| ==> react(order[i]).Inert?
    ensures NotifyAsWritten(order, s, react, ready) == NotifySnapshot(order, s, react, ready)
    ensures !NotifyAsWritten(order, s, react, ready).failed
    ensures NotifyAsWritten(order, s, react, ready).after == s
    decreases |order|
  {
    if order != [] {
      assert react(order[0]).Inert?;
      forall i | 0 <= i < |order[1..]| ensures react(order[1..][i]).Inert? {
        assert order[1..][i] == order[i + 1];
      }
      InertListenersAgree(order[1..], s, react, ready);
    }
  }

  /** With callbacks that do not re-enter, listener `order[i]` is told `i`-th and alone. */
  lemma {:induction false} InertToldInOrder(order: seq<Handle>, s: set<Handle>, react: Handle -> Reaction, ready: bool)
    requires forall i :: 0 <= i < |order| ==> react(order[i]).Inert?
    ensures |NotifySnapshot(order, s, react, ready).told| == |order|
    ensures forall i :: 0 <= i < |order| ==> NotifySnapshot(order, s, react, ready).told[i] == ReadyNotified(order[i], ready)
    decreases |order|
  {
    if order != [] {
      assert react(order[0]).Inert?;
      forall i | 0 <= i < |order[1..]| ensures react(order[1..][i]).Inert? {
        assert order[1..][i] == order[i + 1];
      }
      InertToldInOrder(order[1..], s, react, ready);
    }
  }

  /**
   * With callbacks that do not re-enter, a visit of every ready listener once
   * tells each of them exactly once: the `Dispatch.NotifyAll` contract the
   * robot model's `setSdkService` relies on.
   */
  lemma InertMatchesNotifyAll(order: seq<Handle>, s: set<Handle>, react: Handle -> Reaction, ready: bool)
    requires forall i, j :: 0 <= i < j < |order| ==> order[i] != order[j]
    requires forall h :: h in s <==> h in order
    requires forall i :: 0 <= i < |order| ==> react(order[i]).Inert?
    ensures EachOnce(NotifyAsWritten(order, s, react, ready).told, ReadyNotices(s, ready))
  {
    InertListenersAgree(order, s, react, ready);
    InertToldInOrder(order, s, react, ready);
    var told := NotifySnapshot(order, s, react, ready).told;
    forall x ensures x in told <==> x in ReadyNotices(s, ready) {
      if x in told {
        var k :| 0 <= k < |told| && told[k] == x;
        assert order[k] in s;
      }
      if x in ReadyNotices(s, ready) {
        var h :| h in s && x == ReadyNotified(h, ready);
        var k :| 0 <= k < |order| && order[k] == h;
        assert told[k] == x;
      }
    }
  }

  /**
   * Two ready listeners, the first of which removes itself when told: the
   * loop as written fails before the second listener hears anything, while
   * the corrected loop tells both.
   */
  lemma SelfRemovalSkipsTheRest()
    ensures var react := (h: Handle) => if h == Handle(0) then RemovesItself else Inert;
            var order := [Handle(0), Handle(1)];
            var s := {Handle(0), Handle(1)};
            && NotifyAsWritten(order, s, react, true).failed
            && ReadyNotified(Handle(1), true) !in NotifyAsWritten(order, s, react, true).told
            && ReadyNotified(Handle(1), true) in NotifySnapshot(order, s, react, true).told
  {
    var react := (h: Handle) => if h == Handle(0) then RemovesItself else Inert;
    var order := [Handle(0), Handle(1)];
    var s := {Handle(0), Handle(1)};
    assert Apply(s, Handle(0), react(Handle(0))) == {Handle(1)};
    assert NotifyAsWritten(order, s, react, true).told == [ReadyNotified(Handle(0), true)];
    SnapshotTellsEveryone(order, s, react, true);
  }
}
