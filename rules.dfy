/**
 * The robot's small decision rules: the volume clamp, the permission filter
 * of `requestPermissions`, the kiosk gates and the `goTo` argument check.
 * A call through the service handle (`sdkService?.f(...)`) is issued only
 * while the handle is present; `Call` names the remote calls these rules issue.
 */
module Rules {
  import opened Outcomes

  /** The remote calls issued by the rules below. */
  datatype Call =
    | SetVolume(volume: int)
    | PermissionRequest(values: seq<string>, requestCode: int)
    | SetTopBadgeEnabled(enabled: bool)
    | ToggleWakeup(disabled: bool)
    | SetGoToBillboardDisabled(disabled: bool)
    | RequestToBeKioskApp
    | GoTo(location: string)
    | StartNlu(text: string)

  /** `sdkService?.f(...)`: nothing is issued while the handle is null. */
  function Forward(connected: bool, call: Call): (r: Option<Call>)
    ensures r.Some? <==> connected
    ensures r.Some? ==> r.value == call
  {
    if connected then Some(call) else None
  }

  // ---------------------------------------------------------------- volume

  const MinVolume: int := 0
  const MaxVolume: int := 10

  /** The `volume` setter's `when` clamp. */
  function ClampVolume(volume: int): (r: int)
    ensures MinVolume <= r <= MaxVolume
    ensures MinVolume <= volume <= MaxVolume ==> r == volume
  {
    if volume < MinVolume then MinVolume
    else if volume > MaxVolume then MaxVolume
    else volume
  }

  function Distance(a: int, b: int): nat {
    if a <= b then b - a else a - b
  }

  /** The clamped volume is the in-range value nearest the requested one. */
  lemma ClampVolumeIsNearest(volume: int, w: int)
    requires MinVolume <= w <= MaxVolume
    ensures Distance(ClampVolume(volume), volume) <= Distance(w, volume)
  {
  }

  /** Clamping twice is clamping once. */
  lemma ClampVolumeIdempotent(volume: int)
    ensures ClampVolume(ClampVolume(volume)) == ClampVolume(volume)
  {
  }

  /** The call the `volume` setter issues. */
  function VolumeCall(volume: int, connected: bool): (r: Option<Call>)
    ensures r.Some? <==> connected
    ensures r.Some? ==> r.value.SetVolume? && MinVolume <= r.value.volume <= MaxVolume
    ensures r.Some? && MinVolume <= volume <= MaxVolume ==> r.value == SetVolume(volume)
  {
    Forward(connected, SetVolume(ClampVolume(volume)))
  }

  // ------------------------------------------------------------- strings

  /** Kotlin's `Char.isWhitespace` on the JVM (Java whitespace or space characters). */
  function IsWhitespace(c: char): (r: bool)
    ensures c == ' ' || c == '\t' || c == '\n' ==> r
    ensures '0' <= c <= '9' || 'a' <= c <= 'z' || 'A' <= c <= 'Z' ==> !r
  {
    || ('\t' <= c <= '\r')
    || ('\U{1C}' <= c <= ' ')
    || c == '\U{A0}' || c == '\U{1680}'
    || ('\U{2000}' <= c <= '\U{200A}')
    || c == '\U{2028}' || c == '\U{2029}' || c == '\U{202F}' || c == '\U{205F}' || c == '\U{3000}'
  }

  /** Kotlin's `isNullOrBlank`. */
  function IsNullOrBlank(s: Option<string>): (r: bool)
    ensures s.None? || s == Some([]) ==> r
    ensures s.Some? && (exists i :: 0 <= i < |s.value| && 'a' <= s.value[i] <= 'z') ==> !r
  {
    s.None? || forall i | 0 <= i < |s.value| :: IsWhitespace(s.value[i])
  }

  /** Kotlin's `String.contains(other)`: `part` occurs somewhere in `text`. */
  function Contains(text: string, part: string): (r: bool)
    ensures part <= text ==> r
    ensures r ==> |part| <= |text|
    decreases |text|
  {
    part <= text || (|text| > 0 && Contains(text[1..], part))
  }

  ghost predicate OccursAt(text: string, part: string, i: int) {
    0 <= i && i + |part| <= |text| && text[i..i + |part|] == part
  }

  /** `Contains` holds exactly when `part` occurs at some offset of `text`. */
  lemma {:induction false} ContainsIffOccurs(text: string, part: string)
    ensures Contains(text, part) <==> exists i :: OccursAt(text, part, i)
    decreases |text|
  {
    if part <= text {
      assert text[0..|part|] == part;
      assert OccursAt(text, part, 0);
    } else if |text| == 0 {
    } else {
      ContainsIffOccurs(text[1..], part);
      if exists i :: OccursAt(text[1..], part, i) {
        var i :| OccursAt(text[1..], part, i);
        assert text[1..][i..i + |part|] == text[i + 1..i + 1 + |part|];
        assert OccursAt(text, part, i + 1);
      }
      if exists i :: OccursAt(text, part, i) {
        var i :| OccursAt(text, part, i);
        if i != 0 {
          assert text[1..][i - 1..i - 1 + |part|] == text[i..i + |part|];
          assert OccursAt(text[1..], part, i - 1);
        }
      }
    }
  }

  /**
   * The declaration test is a substring test, not a match of whole names: a
   * value that is only a part of a longer declared name passes it.
   */
  lemma DeclaredSubstringPasses(before: string, v: string, after: string, isKiosk: bool)
    ensures Admissible(Permission(v, false), before + v + after, isKiosk)
  {
    var text := before + v + after;
    assert text[|before|..|before| + |v|] == v;
    assert OccursAt(text, v, |before|);
    ContainsIffOccurs(text, v);
  }

  // ---------------------------------------------------------- permissions

  /** A robot permission: its manifest value and whether only kiosk apps may hold it. */
  datatype Permission = Permission(value: string, isKioskPermission: bool)

  /** The two `continue` tests of `requestPermissions`. */
  function Admissible(p: Permission, declared: string, isKiosk: bool): (r: bool)
    ensures p.isKioskPermission && !isKiosk ==> !r
    ensures !p.isKioskPermission && p.value <= declared ==> r
    ensures r ==> |p.value| <= |declared|
  {
    Contains(declared, p.value) && !(p.isKioskPermission && !isKiosk)
  }

  /** The values `requestPermissions` collects, in input order. */
  function ValidPermissions(perms: seq<Permission>, declared: string, isKiosk: bool): (r: seq<string>)
    ensures |r| <= |perms|
    ensures forall i :: 0 <= i < |r| ==> |r[i]| <= |declared|
  {
    if perms == [] then []
    else (if Admissible(perms[0], declared, isKiosk) then [perms[0].value] else [])
         + ValidPermissions(perms[1..], declared, isKiosk)
  }

  /** Filtering distributes over concatenation, so input order is kept. */
  lemma {:induction false} ValidPermissionsAppend(a: seq<Permission>, b: seq<Permission>, declared: string, isKiosk: bool)
    ensures ValidPermissions(a + b, declared, isKiosk)
         == ValidPermissions(a, declared, isKiosk) + ValidPermissions(b, declared, isKiosk)
  {
    if a == [] {
      assert a + b == b;
    } else {
      assert (a + b)[0] == a[0];
      assert (a + b)[1..] == a[1..] + b;
      ValidPermissionsAppend(a[1..], b, declared, isKiosk);
    }
  }

  /** A value is collected exactly when some admissible permission of the input has it. */
  lemma {:induction false} ValidPermissionsExactly(perms: seq<Permission>, declared: string, isKiosk: bool, v: string)
    ensures v in ValidPermissions(perms, declared, isKiosk)
        <==> exists p :: p in perms && Admissible(p, declared, isKiosk) && p.value == v
  {
    if perms != [] {
      ValidPermissionsExactly(perms[1..], declared, isKiosk, v);
      if exists p :: p in perms[1..] && Admissible(p, declared, isKiosk) && p.value == v {
        var p :| p in perms[1..] && Admissible(p, declared, isKiosk) && p.value == v;
        assert p in perms;
      }
      if exists p :: p in perms && Admissible(p, declared, isKiosk) && p.value == v {
        var p :| p in perms && Admissible(p, declared, isKiosk) && p.value == v;
        if p != perms[0] {
          var k :| 0 <= k < |perms| && perms[k] == p;
          assert perms[1..][k - 1] == p;
        }
      }
    }
  }

  /**
   * A non-kiosk app never forwards the value of a kiosk permission (when no
   * non-kiosk permission of the input shares that value).
   */
  lemma NonKioskAppNeverRequestsKioskPermission(perms: seq<Permission>, declared: string, p: Permission)
    requires p.isKioskPermission
    requires forall q :: q in perms && q.value == p.value ==> q.isKioskPermission
    ensures p.value !in ValidPermissions(perms, declared, false)
  {
    ValidPermissionsExactly(perms, declared, false, p.value);
  }

  // ----------------------------------------------------------- kiosk gates

  /**
   * The gate of the kiosk-only setters (`topBadgeEnabled`, `toggleWakeup`,
   * `toggleNavigationBillboard`, `requestToBeKioskApp`): a non-kiosk app
   * returns without issuing anything.
   */
  function KioskGated(isKiosk: bool, connected: bool, call: Call): (r: Option<Call>)
    ensures r.Some? <==> isKiosk && connected
    ensures r.Some? ==> r.value == call
  {
    if !isKiosk then None else Forward(connected, call)
  }

  /** `isSelectedKioskApp`; `remote` is the service's answer, `None` when the call throws. */
  function IsSelectedKioskApp(isKiosk: bool, connected: bool, remote: Option<bool>): (r: bool)
    ensures r <==> isKiosk && connected && remote == Some(true)
  {
    if !isKiosk then false
    else if !connected then false
    else match remote
      case Some(answer) => answer
      case None => false
  }

  /** The answer of `checkSelfPermission`. */
  datatype PermissionAnswer = Denied | Reported(result: int)

  /** `checkSelfPermission`; `remote` is the service's answer, `None` when the call throws. */
  function CheckSelfPermission(p: Permission, isKiosk: bool, connected: bool, remote: Option<int>): (r: PermissionAnswer)
    ensures p.isKioskPermission && !isKiosk ==> r == Denied
    ensures r.Reported? <==> !(p.isKioskPermission && !isKiosk) && connected && remote.Some?
    ensures r.Reported? ==> r.result == remote.value
  {
    if p.isKioskPermission && !isKiosk then Denied
    else if !connected then Denied
    else match remote
      case Some(result) => Reported(result)
      case None => Denied
  }

  /** `startNlu` does nothing when the app's metadata overrides the NLU. */
  function StartNluCall(overrideNlu: bool, connected: bool, text: string): (r: Option<Call>)
    ensures r.Some? <==> !overrideNlu && connected
    ensures r.Some? ==> r.value == StartNlu(text)
  {
    if overrideNlu then None else Forward(connected, StartNlu(text))
  }

  // ---------------------------------------------------------------- goTo

  /** `goTo`: a blank location throws; otherwise the call is forwarded. */
  function GoToCall(location: string, connected: bool): (r: Result<Option<Call>>)
    ensures r.Err? <==> IsNullOrBlank(Some(location))
    ensures r.Err? ==> r.error == IllegalArgument
    ensures r.Ok? ==> (r.value.Some? <==> connected)
    ensures r.Ok? && r.value.Some? ==> r.value.value == GoTo(location)
  {
    if IsNullOrBlank(Some(location)) then Err(IllegalArgument)
    else Ok(Forward(connected, GoTo(location)))
  }
}
