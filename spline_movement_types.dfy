/**
 * ESplineMovementAttachState and the contract of the six attach/detach delegates.
 * A broadcast is modelled as an event appended to a log; `Replay` says which logs a
 * component that starts Detached can have produced, and so states the firing rules.
 */
module SplineMovementTypes {
  import opened Wrappers

  /** Detached from the spline, attaching to it with blending, or attached to it. */
  datatype AttachState = Detached | Attaching | Attached

  /** The enum's uint8 value. */
  function AttachStateValue(s: AttachState): (v: nat)
    ensures v <= 2
  {
    match s
    case Detached => 0
    case Attaching => 1
    case Attached => 2
  }

  /** The state with the given uint8 value, if there is one. */
  function AttachStateFromValue(v: nat): (r: Option<AttachState>)
    ensures r.Some? <==> v <= 2
  {
    if v == 0 then Some(Detached)
    else if v == 1 then Some(Attaching)
    else if v == 2 then Some(Attached)
    else None
  }

  /** The values 0, 1, 2 and the three states are in one-to-one correspondence. */
  lemma AttachStateValueRoundTrip(s: AttachState, v: nat)
    ensures AttachStateFromValue(AttachStateValue(s)) == Some(s)
    ensures AttachStateFromValue(v).Some? ==> AttachStateValue(AttachStateFromValue(v).value) == v
  {
  }

  /** The three transitions that have delegates. */
  datatype Transition = ToAttached | ToBeginAttaching | ToDetached

  /**
   * One broadcast. `Before(t, s)` is the Before* delegate of `t`, carrying the state `s`
   * right before the change; `After(t)` is the On* delegate of `t`:
   *   Before(ToAttached, _)      BeforeMovementAttachedToSpline
   *   Before(ToBeginAttaching, _) BeforeMovementBeginAttachingToSpline
   *   Before(ToDetached, _)      BeforeMovementDetachedFromSpline
   *   After(ToAttached)          OnMovementAttachedToSpline
   *   After(ToBeginAttaching)    OnMovementBeginAttachingToSpline
   *   After(ToDetached)          OnMovementDetachedFromSpline
   */
  datatype Event = Before(transition: Transition, stateBefore: AttachState) | After(transition: Transition)

  /** The state a transition establishes. */
  function TargetState(t: Transition): (s: AttachState)
    ensures t == ToBeginAttaching <==> s == Attaching
    ensures t == ToDetached <==> s == Detached
  {
    match t
    case ToAttached => Attached
    case ToBeginAttaching => Attaching
    case ToDetached => Detached
  }

  /** The pair of broadcasts one transition from state `s` makes. */
  function Broadcasts(t: Transition, s: AttachState): seq<Event>
  {
    [Before(t, s), After(t)]
  }

  /**
   * Replays a log from state `s`: a log is accepted when it is a sequence of
   * Before/After pairs of the same transition, each Before carrying the state that the
   * previous pair established (or `s` for the first). The result is the final state.
   */
  function Replay(s: AttachState, log: seq<Event>): Option<AttachState>
    decreases |log|
  {
    if |log| == 0 then Some(s)
    else if |log| >= 2 && log[0].Before? && log[0].stateBefore == s && log[1] == After(log[0].transition)
    then Replay(TargetState(log[0].transition), log[2..])
    else None
  }

  /** Appending the broadcasts of one transition from the current state keeps a log replayable. */
  lemma {:induction false} ReplayAppend(s: AttachState, log: seq<Event>, t: Transition, s1: AttachState)
    requires Replay(s, log) == Some(s1)
    ensures Replay(s, log + Broadcasts(t, s1)) == Some(TargetState(t))
    decreases |log|
  {
    if |log| == 0 {
      assert log + Broadcasts(t, s1) == Broadcasts(t, s1);
      assert Broadcasts(t, s1)[2..] == [];
    } else {
      assert (log + Broadcasts(t, s1))[2..] == log[2..] + Broadcasts(t, s1);
      ReplayAppend(TargetState(log[0].transition), log[2..], t, s1);
    }
  }

  /**
   * The firing rules a replayable log obeys: every Before* event comes at an even position,
   * is followed by the On* event of the same transition, and carries the state the previous
   * transition established (the initial state for the first); every On* event follows the
   * Before* event of its transition; and the log's last transition set the final state.
   */
  ghost predicate FiringRules(s: AttachState, log: seq<Event>, final: AttachState)
  {
    |log| % 2 == 0 &&
    (forall i :: 0 <= i < |log| ==> (log[i].Before? <==> i % 2 == 0)) &&
    (forall i :: 0 <= i < |log| && log[i].Before? ==>
       i + 1 < |log| && log[i + 1] == After(log[i].transition) &&
       log[i].stateBefore == (if i == 0 then s else TargetState(log[i - 1].transition))) &&
    final == (if |log| == 0 then s else TargetState(log[|log| - 1].transition))
  }

  lemma {:induction false} ReplayObeysFiringRules(s: AttachState, log: seq<Event>)
    requires Replay(s, log).Some?
    ensures FiringRules(s, log, Replay(s, log).value)
    decreases |log|
  {
    if |log| > 0 {
      var s1 := TargetState(log[0].transition);
      var rest := log[2..];
      ReplayObeysFiringRules(s1, rest);
      forall i | 0 <= i < |log|
        ensures log[i].Before? <==> i % 2 == 0
      {
        if i >= 2 { assert log[i] == rest[i - 2]; }
      }
      forall i | 0 <= i < |log| && log[i].Before?
        ensures i + 1 < |log| && log[i + 1] == After(log[i].transition)
        ensures log[i].stateBefore == (if i == 0 then s else TargetState(log[i - 1].transition))
      {
        if i >= 2 {
          assert log[i] == rest[i - 2];
          assert i - 2 + 1 < |rest| && rest[i - 2 + 1] == After(rest[i - 2].transition);
          assert log[i + 1] == rest[i - 1];
          if i == 2 { assert log[i - 1] == After(log[0].transition); }
          else { assert log[i - 1] == rest[i - 3]; }
        }
      }
      if |rest| > 0 { assert log[|log| - 1] == rest[|rest| - 1]; }
    }
  }
}
