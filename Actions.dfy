/** The user actions a player reports, and their printable names. */
module Actions {

  /** The eight actions, in declaration order. */
  datatype Action =
    | PlayStart
    | PlayComplete
    | Replay
    | SkipEarly
    | SkipLate
    | Like
    | Dislike
    | NotInterested

  /** Every action, in declaration order. */
  const AllActions: seq<Action> :=
    [PlayStart, PlayComplete, Replay, SkipEarly, SkipLate, Like, Dislike, NotInterested]

  /** The underlying value of the enumerator: its position in the declaration. */
  function Ordinal(a: Action): (r: nat)
    ensures r < |AllActions| && AllActions[r] == a
  {
    match a
    case PlayStart => 0
    case PlayComplete => 1
    case Replay => 2
    case SkipEarly => 3
    case SkipLate => 4
    case Like => 5
    case Dislike => 6
    case NotInterested => 7
  }

  /** There are exactly eight actions, each listed once. */
  lemma AllActionsExact()
    ensures |AllActions| == 8
    ensures forall i, j :: 0 <= i < j < |AllActions| ==> AllActions[i] != AllActions[j]
    ensures forall a: Action :: a in AllActions
  {
    forall a: Action ensures a in AllActions {
      assert AllActions[Ordinal(a)] == a;
    }
  }

  /** The enumerator's own name. */
  function ToCStr(a: Action): (s: string)
    ensures s != "UNKNOWN"
    ensures a == PlayStart <==> s == "PLAY_START"
    ensures a == PlayComplete <==> s == "PLAY_COMPLETE"
    ensures a == Replay <==> s == "REPLAY"
    ensures a == SkipEarly <==> s == "SKIP_EARLY"
    ensures a == SkipLate <==> s == "SKIP_LATE"
    ensures a == Like <==> s == "LIKE"
    ensures a == Dislike <==> s == "DISLIKE"
    ensures a == NotInterested <==> s == "NOT_INTERESTED"
  {
    match a
    case PlayStart => "PLAY_START"
    case PlayComplete => "PLAY_COMPLETE"
    case Replay => "REPLAY"
    case SkipEarly => "SKIP_EARLY"
    case SkipLate => "SKIP_LATE"
    case Like => "LIKE"
    case Dislike => "DISLIKE"
    case NotInterested => "NOT_INTERESTED"
  }

  /** Distinct actions have distinct names. */
  lemma ToCStrInjective(a: Action, b: Action)
    requires ToCStr(a) == ToCStr(b)
    ensures a == b
  {
  }
}

/** The fixed table from actions to feedback deltas. */
module ActionPolicy {
  import opened Actions

  /** The change an action makes to a song's feedback score. */
  function Delta(a: Action): (d: int)
    ensures a == Like ==> d == 3
    ensures a == Replay ==> d == 1
    ensures a == PlayComplete ==> d == 1
    ensures a == SkipEarly ==> d == -3
    ensures a == SkipLate ==> d == -1
    ensures a == Dislike ==> d == -4
    ensures a == NotInterested ==> d == -1000
    ensures a == PlayStart ==> d == 0
    ensures d > 0 <==> a == Like || a == Replay || a == PlayComplete
    ensures d == 0 <==> a == PlayStart
  {
    match a
    case Like => 3
    case Replay => 1
    case PlayComplete => 1
    case SkipEarly => -3
    case SkipLate => -1
    case Dislike => -4
    case NotInterested => -1000
    case PlayStart => 0
  }

  /** NotInterested has the strictly smallest delta of all actions. */
  lemma NotInterestedIsMinimum(a: Action)
    requires a != NotInterested
    ensures Delta(NotInterested) < Delta(a)
  {
  }
}
