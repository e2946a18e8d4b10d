/**
 * The control/movement state machine of a controllable entity: each update
 * samples whether the entity moves, keeps a grace window after it stops, and
 * raises edge-triggered control notifications. Time is an integer count of
 * seconds; the grace period is a parameter.
 */
module ControllableEntity {
  import opened Wrappers

  /** The three persisted fields; `recentlyMovedEnds` only means something while `recentlyMoved`. */
  datatype ControlState = ControlState(isMoving: bool, recentlyMoved: bool, recentlyMovedEnds: int)

  /** An entity is controlled while it moves and during the grace window after it stops. */
  predicate IsControlled(s: ControlState) {
    s.isMoving || s.recentlyMoved
  }

  /**
   * Automatic concealability narrows the base class's answer (`baseConcealable`)
   * to entities that are not controlled.
   */
  function IsConcealableAuto(baseConcealable: bool, s: ControlState): (r: bool)
    ensures r ==> baseConcealable
    ensures IsControlled(s) ==> !r
    ensures baseConcealable && !IsControlled(s) ==> r
  {
    baseConcealable && !IsControlled(s)
  }

  /** The notifications an update can raise, in the order it raises them. */
  datatype Notice = Moved | ControlAcquired | ControlReleased

  /**
   * The outcome of one update: the new state, the entity's
   * moved-since-asteroid-check flag, and the notifications raised.
   */
  datatype Tick = Tick(state: ControlState, movedSinceAsteroidCheck: bool, notices: seq<Notice>)

  /** The edge notification raised when the controlled status goes from `was` to `now`. */
  function ControlEdge(was: bool, now: bool): seq<Notice> {
    if now && !was then [ControlAcquired]
    else if !now && was then [ControlReleased]
    else []
  }

  /**
   * One update from a fresh motion sample `moving` taken at time `now`.
   * Motion sets the moving flag and leaves the grace window alone; the first
   * still sample after motion opens a window ending at `now + grace`; a later
   * still sample closes the window once `now` is strictly past its end.
   */
  function UpdateMoving(s: ControlState, movedSinceAsteroidCheck: bool, moving: bool, now: int, grace: int): (r: Tick)
    ensures moving ==> r.state == s.(isMoving := true) && r.movedSinceAsteroidCheck
    ensures !moving && s.isMoving ==> r.state == ControlState(false, true, now + grace)
    ensures !moving && !s.isMoving && s.recentlyMoved && now > s.recentlyMovedEnds ==>
              r.state == s.(recentlyMoved := false)
    ensures !moving && !s.isMoving && !(s.recentlyMoved && now > s.recentlyMovedEnds) ==> r.state == s
    ensures !moving ==> r.movedSinceAsteroidCheck == movedSinceAsteroidCheck
    ensures (Moved in r.notices) == moving
    ensures ControlAcquired in r.notices <==> !IsControlled(s) && IsControlled(r.state)
    ensures ControlReleased in r.notices <==> IsControlled(s) && !IsControlled(r.state)
    ensures !(ControlAcquired in r.notices && ControlReleased in r.notices)
    ensures |r.notices| <= 2
  {
    var wasMoving := s.isMoving;
    var wasControlled := IsControlled(s);
    var s' :=
      if moving then s.(isMoving := true)
      else if wasMoving then ControlState(false, true, now + grace)
      else if s.recentlyMoved && now > s.recentlyMovedEnds then ControlState(false, false, s.recentlyMovedEnds)
      else s.(isMoving := false);
    var flag := if moving then true else movedSinceAsteroidCheck;
    var movedNotice := if moving then [Moved] else [];
    Tick(s', flag, movedNotice + ControlEdge(wasControlled, IsControlled(s')))
  }

  /**
   * The three-state machine (idle, moving, recently moved until an expiry) the
   * persisted flags encode, stepped independently of `UpdateMoving`.
   */
  datatype Mode = Idle | Moving | RecentlyMoved(expiry: int)

  function ModeOf(s: ControlState): Mode {
    if s.isMoving then Moving
    else if s.recentlyMoved then RecentlyMoved(s.recentlyMovedEnds)
    else Idle
  }

  predicate ModeControlled(m: Mode) {
    m != Idle
  }

  function ModeStep(m: Mode, moving: bool, now: int, grace: int): Mode {
    if moving then Moving
    else match m
      case Moving => RecentlyMoved(now + grace)
      case RecentlyMoved(expiry) => if now > expiry then Idle else m
      case Idle => Idle
  }

  /** `UpdateMoving` steps the three-state machine, and its control notices are its edges. */
  lemma UpdateMovingRefinesModes(s: ControlState, flag: bool, moving: bool, now: int, grace: int)
    ensures ModeOf(UpdateMoving(s, flag, moving, now, grace).state) == ModeStep(ModeOf(s), moving, now, grace)
    ensures IsControlled(s) == ModeControlled(ModeOf(s))
    ensures UpdateMoving(s, flag, moving, now, grace).notices ==
            (if moving then [Moved] else [])
            + ControlEdge(ModeControlled(ModeOf(s)), ModeControlled(ModeStep(ModeOf(s), moving, now, grace)))
  {
  }

  /** One motion sample: whether the entity moved, and the clock reading. */
  datatype Sample = Sample(moving: bool, now: int)

  /** Runs `UpdateMoving` over a sequence of samples, concatenating the notices. */
  function Run(s: ControlState, flag: bool, samples: seq<Sample>, grace: int): (r: Tick)
    decreases |samples|
  {
    if |samples| == 0 then Tick(s, flag, [])
    else
      var t := UpdateMoving(s, flag, samples[0].moving, samples[0].now, grace);
      var rest := Run(t.state, t.movedSinceAsteroidCheck, samples[1..], grace);
      Tick(rest.state, rest.movedSinceAsteroidCheck, t.notices + rest.notices)
  }

  predicate Quiet(samples: seq<Sample>) {
    forall i :: 0 <= i < |samples| ==> !samples[i].moving
  }

  /**
   * Without motion, control can only be released, and at most once: the run
   * raises no acquire and no move notice, and one release exactly when the
   * entity starts controlled and ends uncontrolled.
   */
  lemma {:induction false} QuietRunNotices(s: ControlState, flag: bool, samples: seq<Sample>, grace: int)
    requires Quiet(samples)
    ensures var r := Run(s, flag, samples, grace);
            && multiset(r.notices)[ControlAcquired] == 0
            && multiset(r.notices)[Moved] == 0
            && multiset(r.notices)[ControlReleased] == (if IsControlled(s) && !IsControlled(r.state) then 1 else 0)
            && (!IsControlled(s) ==> !IsControlled(r.state))
    decreases |samples|
  {
    if |samples| > 0 {
      var t := UpdateMoving(s, flag, samples[0].moving, samples[0].now, grace);
      assert Quiet(samples[1..]) by {
        forall i | 0 <= i < |samples[1..]| ensures !samples[1..][i].moving {
          assert samples[1..][i] == samples[i + 1];
        }
      }
      QuietRunNotices(t.state, t.movedSinceAsteroidCheck, samples[1..], grace);
      var rest := Run(t.state, t.movedSinceAsteroidCheck, samples[1..], grace);
      assert Run(s, flag, samples, grace).notices == t.notices + rest.notices;
      assert t.notices == ControlEdge(IsControlled(s), IsControlled(t.state));
    }
  }

  /**
   * A still window that is past its end at some later sample ends uncontrolled.
   */
  lemma {:induction false} QuietRunExpires(s: ControlState, flag: bool, samples: seq<Sample>, grace: int, k: nat)
    requires Quiet(samples)
    requires !s.isMoving
    requires k < |samples| && (s.recentlyMoved ==> samples[k].now > s.recentlyMovedEnds)
    ensures !IsControlled(Run(s, flag, samples, grace).state)
    decreases |samples|
  {
    var t := UpdateMoving(s, flag, samples[0].moving, samples[0].now, grace);
    assert Quiet(samples[1..]) by {
      forall i | 0 <= i < |samples[1..]| ensures !samples[1..][i].moving {
        assert samples[1..][i] == samples[i + 1];
      }
    }
    if k == 0 {
      assert !IsControlled(t.state);
      QuietRunNotices(t.state, t.movedSinceAsteroidCheck, samples[1..], grace);
    } else {
      assert samples[1..][k - 1] == samples[k];
      QuietRunExpires(t.state, t.movedSinceAsteroidCheck, samples[1..], grace, k - 1);
    }
  }

  /**
   * Moving, then stopping at the first sample and staying still until a sample
   * past the grace window: exactly one release and no acquire.
   */
  lemma StopThenExpireReleasesOnce(s: ControlState, flag: bool, samples: seq<Sample>, grace: int, k: nat)
    requires s.isMoving
    requires Quiet(samples)
    requires 0 < k < |samples| && samples[k].now > samples[0].now + grace
    ensures multiset(Run(s, flag, samples, grace).notices)[ControlReleased] == 1
    ensures multiset(Run(s, flag, samples, grace).notices)[ControlAcquired] == 0
  {
    QuietRunNotices(s, flag, samples, grace);
    var t := UpdateMoving(s, flag, samples[0].moving, samples[0].now, grace);
    assert Quiet(samples[1..]) by {
      forall i | 0 <= i < |samples[1..]| ensures !samples[1..][i].moving {
        assert samples[1..][i] == samples[i + 1];
      }
    }
    assert samples[1..][k - 1] == samples[k];
    QuietRunExpires(t.state, t.movedSinceAsteroidCheck, samples[1..], grace, k - 1);
  }

  /**
   * Automatic concealment is blocked by motion: a tick with motion, or the
   * first still tick after it, leaves the entity not concealable.
   */
  lemma ConcealableAutoBlockedByMotion(s: ControlState, flag: bool, now: int, grace: int, baseConcealable: bool)
    ensures !IsConcealableAuto(baseConcealable, UpdateMoving(s, flag, true, now, grace).state)
    ensures s.isMoving ==> !IsConcealableAuto(baseConcealable, UpdateMoving(s, flag, false, now, grace).state)
  {
  }

  /**
   * Once a moving entity stops and stays still past its grace window,
   * automatic concealability is again exactly the base class's answer.
   */
  lemma ConcealableAutoRestoredAfterGrace(s: ControlState, flag: bool, samples: seq<Sample>, grace: int, k: nat,
                                          baseConcealable: bool)
    requires s.isMoving
    requires Quiet(samples)
    requires 0 < k < |samples| && samples[k].now > samples[0].now + grace
    ensures IsConcealableAuto(baseConcealable, Run(s, flag, samples, grace).state) == baseConcealable
  {
    var t := UpdateMoving(s, flag, samples[0].moving, samples[0].now, grace);
    assert Quiet(samples[1..]) by {
      forall i | 0 <= i < |samples[1..]| ensures !samples[1..][i].moving {
        assert samples[1..][i] == samples[i + 1];
      }
    }
    assert samples[1..][k - 1] == samples[k];
    QuietRunExpires(t.state, t.movedSinceAsteroidCheck, samples[1..], grace, k - 1);
  }

  /** The fields a byte stream carries, as far as this model distinguishes them. */
  datatype Field = BoolField(b: bool) | DateTimeField(t: int)

  /** The control fields in serialization order: moving, recently moved, window end. */
  function Encode(s: ControlState): seq<Field> {
    [BoolField(s.isMoving), BoolField(s.recentlyMoved), DateTimeField(s.recentlyMovedEnds)]
  }

  /** `AddToByteStream`: appends the control fields after whatever the base class wrote. */
  function AddToByteStream(stream: seq<Field>, s: ControlState): (r: seq<Field>)
    ensures |r| == |stream| + 3
    ensures r[..|stream|] == stream
    ensures r[|stream|] == BoolField(s.isMoving)
    ensures r[|stream| + 1] == BoolField(s.recentlyMoved)
    ensures r[|stream| + 2] == DateTimeField(s.recentlyMovedEnds)
  {
    stream + Encode(s)
  }

  datatype Decoded = Decoded(state: ControlState, rest: seq<Field>)

  /**
   * The stream constructor: reads moving, recently moved and the window end,
   * in that order, from the fields left after the base class read its own.
   * A stream too short or holding the wrong kind of field yields `None`.
   */
  function ReadControlState(stream: seq<Field>): Option<Decoded> {
    if |stream| < 3 then None
    else match (stream[0], stream[1], stream[2])
      case (BoolField(m), BoolField(rm), DateTimeField(t)) => Some(Decoded(ControlState(m, rm, t), stream[3..]))
      case _ => None
  }

  /** Reading back what was written returns the same three fields and leaves the rest. */
  lemma RoundTrip(s: ControlState, rest: seq<Field>)
    ensures ReadControlState(Encode(s) + rest) == Some(Decoded(s, rest))
  {
    assert (Encode(s) + rest)[3..] == rest;
  }

  /** Whatever reads successfully was written by `Encode`. */
  lemma ReadIsInverse(stream: seq<Field>)
    requires ReadControlState(stream).Some?
    ensures var d := ReadControlState(stream).value; stream == Encode(d.state) + d.rest
  {
    assert stream == stream[..3] + stream[3..];
  }
}
