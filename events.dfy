/**
 * Event categories, listener handles and inbound events of the robot's
 * callback sink, with the per-listener filters that narrow delivery.
 */
module Events {
  import opened Outcomes

  /** One tag per broadcast listener set of the robot (its closed set of event kinds). */
  datatype Category =
    | ConversationViewAttaches | Tts | Asr | Nlp | WakeupWord
    | GoToLocationStatus | LocationsUpdated | DistanceToLocation | CurrentPosition
    | BeWithMeStatus | ConstraintBeWithStatus | RobotLifted
    | TelepresenceStatus | UsersUpdated | TelepresenceEvent
    | PrivacyModeState | BatteryStatus | RequestPermissionResult
    | UserInteraction | DetectionState | DetectionData
    | SequencePlayStatus | FaceRecognized | SdkException

  /** Event contents the router never inspects. */
  type Payload = nat

  /** A telepresence call state; only its session id takes part in routing. */
  datatype CallState = CallState(sessionId: string, details: Payload)

  /** A user record; only its user id takes part in routing. */
  datatype UserInfo = UserInfo(userId: string, details: Payload)

  /**
   * A registered broadcast listener. Telepresence-status listeners carry the
   * session id they follow; user-update listeners carry an optional list of
   * user ids; every other listener is a plain handle. A listener's
   * identity is the whole value, filter key included: the model does not
   * tie one `id` to a single session or id list, so `SessionScoped(1, "a")`
   * and `SessionScoped(1, "b")` are two listeners, as two Kotlin objects would be.
   */
  datatype Listener =
    | Plain(id: nat)
    | SessionScoped(id: nat, sessionId: string)
    | UserScoped(id: nat, userIds: Option<seq<string>>)

  /** An opaque single-slot or one-shot listener (ready, notification, media, publish). */
  datatype Handle = Handle(id: nat)

  /** The listener kind each category's typed add method accepts. */
  predicate Fits(c: Category, l: Listener) {
    match c
    case TelepresenceStatus => l.SessionScoped?
    case UsersUpdated => l.UserScoped?
    case _ => l.Plain?
  }

  /** An inbound broadcast event. */
  datatype Event =
    | Broadcast(category: Category, payload: Payload)
    | CallStatusChanged(callState: CallState)
    | UserChanged(user: UserInfo)

  /** The two filtered categories have their own event shapes. */
  predicate WellFormed(e: Event) {
    e.Broadcast? ==> e.category != TelepresenceStatus && e.category != UsersUpdated
  }

  function CategoryOf(e: Event): Category {
    match e
    case Broadcast(c, _) => c
    case CallStatusChanged(_) => TelepresenceStatus
    case UserChanged(_) => UsersUpdated
  }

  /** The user-update filter: no ids, no ids at all, or the user's id among them. */
  function UserFilterAdmits(userIds: Option<seq<string>>, userId: string): (r: bool)
    ensures userIds.None? ==> r
    ensures userIds == Some([]) ==> r
    ensures userIds.Some? && |userIds.value| > 0
            ==> (r <==> exists i :: 0 <= i < |userIds.value| && userIds.value[i] == userId)
  {
    userIds.None? || |userIds.value| == 0 || userId in userIds.value
  }

  /** Whether a registered listener receives an event when its unit runs. */
  function Matches(l: Listener, e: Event): (r: bool)
    ensures e.Broadcast? ==> r
    ensures r && !e.Broadcast? ==> Fits(CategoryOf(e), l)
    ensures e.UserChanged? && l.UserScoped? && l.userIds.None? ==> r
  {
    match e
    case Broadcast(_, _) => true
    case CallStatusChanged(cs) => l.SessionScoped? && l.sessionId == cs.sessionId
    case UserChanged(u) => l.UserScoped? && UserFilterAdmits(l.userIds, u.userId)
  }

  /** The members of a listener set that an event reaches. */
  function Recipients(members: set<Listener>, e: Event): (r: set<Listener>)
    ensures r <= members
  {
    set l | l in members && Matches(l, e)
  }

  /** An unfiltered category reaches every member of its set. */
  lemma BroadcastReachesAll(members: set<Listener>, c: Category, p: Payload)
    ensures Recipients(members, Broadcast(c, p)) == members
  {
  }

  /** A telepresence status reaches exactly the members following its session. */
  lemma CallStatusReachesSession(members: set<Listener>, cs: CallState, l: Listener)
    ensures l in Recipients(members, CallStatusChanged(cs))
        <==> l in members && l.SessionScoped? && l.sessionId == cs.sessionId
  {
  }

  /** A user update reaches exactly the members whose id list is absent, empty or names the user. */
  lemma UserUpdateReachesInterested(members: set<Listener>, u: UserInfo, l: Listener)
    ensures l in Recipients(members, UserChanged(u))
        <==> l in members && l.UserScoped?
             && (l.userIds.None? || l.userIds.value == [] || u.userId in l.userIds.value)
  {
  }

  /** An empty set has no recipients, whatever the event. */
  lemma EmptySetReachesNoOne(e: Event)
    ensures Recipients({}, e) == {}
  {
  }
}
