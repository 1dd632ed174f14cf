/**
 * The listener registry: one set of listeners per category, updated by the
 * typed add/remove pairs of the robot.
 */
module Registry {
  import opened Events

  type Registry = map<Category, set<Listener>>

  /** Every category has a set. */
  ghost predicate Total(reg: Registry) {
    forall c: Category :: c in reg
  }

  /** Every set holds only listeners of its category's kind. */
  ghost predicate Typed(reg: Registry) {
    forall c, l :: c in reg && l in reg[c] ==> Fits(c, l)
  }

  /** The registry of a freshly created robot: every category with an empty set. */
  function Empty(): (r: Registry)
    ensures forall c :: c in r ==> r[c] == {}
  {
    map[ConversationViewAttaches := {}, Tts := {}, Asr := {}, Nlp := {}, WakeupWord := {},
        GoToLocationStatus := {}, LocationsUpdated := {}, DistanceToLocation := {}, CurrentPosition := {},
        BeWithMeStatus := {}, ConstraintBeWithStatus := {}, RobotLifted := {},
        TelepresenceStatus := {}, UsersUpdated := {}, TelepresenceEvent := {},
        PrivacyModeState := {}, BatteryStatus := {}, RequestPermissionResult := {},
        UserInteraction := {}, DetectionState := {}, DetectionData := {},
        SequencePlayStatus := {}, FaceRecognized := {}, SdkException := {}]
  }

  lemma EmptyIsTotal()
    ensures Total(Empty()) && Typed(Empty())
    ensures forall c: Category :: Empty()[c] == {}
  {
    forall c: Category ensures c in Empty() {
      match c
      case ConversationViewAttaches =>
      case Tts =>
      case Asr =>
      case Nlp =>
      case WakeupWord =>
      case GoToLocationStatus =>
      case LocationsUpdated =>
      case DistanceToLocation =>
      case CurrentPosition =>
      case BeWithMeStatus =>
      case ConstraintBeWithStatus =>
      case RobotLifted =>
      case TelepresenceStatus =>
      case UsersUpdated =>
      case TelepresenceEvent =>
      case PrivacyModeState =>
      case BatteryStatus =>
      case RequestPermissionResult =>
      case UserInteraction =>
      case DetectionState =>
      case DetectionData =>
      case SequencePlayStatus =>
      case FaceRecognized =>
      case SdkException =>
    }
  }

  /**
   * `add<Category>Listener`: set insertion. Afterwards the listener is a
   * member, the set changed in no other element, and no other category's
   * set changed.
   */
  function Add(reg: Registry, c: Category, l: Listener): (r: Registry)
    requires c in reg
    ensures r.Keys == reg.Keys
    ensures l in r[c] && r[c] - {l} == reg[c] - {l}
    ensures forall d :: d in reg && d != c ==> r[d] == reg[d]
  {
    reg[c := reg[c] + {l}]
  }

  /**
   * `remove<Category>Listener`: set deletion. Afterwards the listener is
   * absent, the set lost no other element, and no other category's set
   * changed.
   */
  function Remove(reg: Registry, c: Category, l: Listener): (r: Registry)
    requires c in reg
    ensures r.Keys == reg.Keys
    ensures l !in r[c] && r[c] + {l} == reg[c] + {l}
    ensures forall d :: d in reg && d != c ==> r[d] == reg[d]
  {
    reg[c := reg[c] - {l}]
  }

  lemma AddKeepsShape(reg: Registry, c: Category, l: Listener)
    requires Total(reg) && Typed(reg) && Fits(c, l)
    ensures Total(Add(reg, c, l)) && Typed(Add(reg, c, l))
  {
  }

  lemma RemoveKeepsShape(reg: Registry, c: Category, l: Listener)
    requires Total(reg) && Typed(reg)
    ensures Total(Remove(reg, c, l)) && Typed(Remove(reg, c, l))
  {
  }

  /** Adding an already-registered listener changes nothing. */
  lemma AddPresentIsNoop(reg: Registry, c: Category, l: Listener)
    requires Total(reg) && l in reg[c]
    ensures Add(reg, c, l) == reg
  {
    assert reg[c] + {l} == reg[c];
  }

  /** Removing an absent listener changes nothing. */
  lemma RemoveAbsentIsNoop(reg: Registry, c: Category, l: Listener)
    requires Total(reg) && l !in reg[c]
    ensures Remove(reg, c, l) == reg
  {
    assert reg[c] - {l} == reg[c];
  }

  /** Add and remove are idempotent. */
  lemma AddRemoveIdempotent(reg: Registry, c: Category, l: Listener)
    requires Total(reg)
    ensures Add(Add(reg, c, l), c, l) == Add(reg, c, l)
    ensures Remove(Remove(reg, c, l), c, l) == Remove(reg, c, l)
  {
    AddPresentIsNoop(Add(reg, c, l), c, l);
    RemoveAbsentIsNoop(Remove(reg, c, l), c, l);
  }

  /** Removing a listener that was just added for the first time restores the registry. */
  lemma RemoveUndoesAdd(reg: Registry, c: Category, l: Listener)
    requires Total(reg) && l !in reg[c]
    ensures Remove(Add(reg, c, l), c, l) == reg
  {
    assert reg[c] + {l} - {l} == reg[c];
  }
}
