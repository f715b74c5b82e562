/**
  Properties of the player model over single frames and arbitrary frame sequences:
  stamina and pitch stay clamped, the regeneration timer only grows, crouch toggles are
  ignored while a transition runs, and a transition ends exactly at the target profile.
*/
module PlayerProperties {
  import opened UnityMath
  import opened FrameTime
  import opened Player

  /** Inspector ranges the bounds rely on (the look limits carry `Range(1, 100)`). */
  ghost predicate WellConfigured(cfg: Config) {
    0.0 <= cfg.maxStamina && 0.0 <= cfg.upperLookLimit && 0.0 <= cfg.lowerLookLimit
  }

  /** The state invariant: clamped stamina and pitch, and a running transition heading away from the current pose. */
  ghost predicate Valid(cfg: Config, s: State) {
    && 0.0 <= s.stamina <= cfg.maxStamina
    && -cfg.upperLookLimit <= s.pitch <= cfg.lowerLookLimit
    && (InCrouchAnimation(s) ==>
          && s.transition.value.elapsed >= 0.0
          && s.transition.value.targetHeight == TargetHeight(cfg, s.crouching)
          && s.transition.value.targetCenter == TargetCenter(cfg, s.crouching))
  }

  ghost predicate NonNegativeTimes(frames: seq<Frame>) {
    forall i :: 0 <= i < |frames| ==> frames[i].dt >= 0.0
  }

  ghost predicate NoCrouchInput(frames: seq<Frame>) {
    forall i :: 0 <= i < |frames| ==> !frames[i].crouchPressed
  }

  lemma RunStep(cfg: Config, s: State, frames: seq<Frame>)
    requires |frames| > 0
    ensures Run(cfg, s, frames) == Run(cfg, Tick(cfg, s, frames[0]), frames[1..])
  {
  }

  /** The state `Awake` leaves satisfies the invariant. */
  lemma AwakeIsValid(cfg: Config, height: real, center: Vec3, regenTimer: real)
    requires WellConfigured(cfg)
    ensures Valid(cfg, Awake(cfg, height, center, regenTimer))
  {
  }

  /** One frame keeps the invariant. */
  lemma TickPreservesValid(cfg: Config, s: State, f: Frame)
    requires WellConfigured(cfg) && Valid(cfg, s) && f.dt >= 0.0
    ensures Valid(cfg, Tick(cfg, s, f))
  {
    var b := Body(cfg, s, f);
    var u := StaminaStep(cfg, b, f);
    if !InCrouchAnimation(s) && !f.onSpecialMovement && cfg.canMove && cfg.canCrouch {
      var moved := MovementInput(cfg, s, f);
      var looked := MouseLook(cfg, moved, f);
      var jumped := if cfg.canJump then Jump(cfg, looked, f) else looked;
      assert b == ApplyGravity(cfg, HandleCrouch(cfg, jumped, f), f);
      assert jumped.crouching == s.crouching && jumped.height == s.height && jumped.center == s.center;
      assert !InCrouchAnimation(jumped);
    }
    assert Valid(cfg, u);
  }

  /** Any sequence of frames keeps the invariant: stamina in [0, maxStamina], pitch within the look limits. */
  lemma {:induction false} RunPreservesValid(cfg: Config, s: State, frames: seq<Frame>)
    requires WellConfigured(cfg) && Valid(cfg, s) && NonNegativeTimes(frames)
    ensures Valid(cfg, Run(cfg, s, frames))
    decreases |frames|
  {
    if |frames| > 0 {
      TickPreservesValid(cfg, s, frames[0]);
      RunPreservesValid(cfg, Tick(cfg, s, frames[0]), frames[1..]);
    }
  }

  /**
    The regeneration timer is never reset: over any frames it only grows, so once the
    delay has been waited out, it stays waited out for the rest of the session.
  */
  lemma {:induction false} RegenTimerNeverDecreases(cfg: Config, s: State, frames: seq<Frame>)
    requires NonNegativeTimes(frames)
    ensures Run(cfg, s, frames).regenTimer >= s.regenTimer
    ensures s.regenTimer >= cfg.staminaRegenDelay ==> Run(cfg, s, frames).regenTimer >= cfg.staminaRegenDelay
    decreases |frames|
  {
    if |frames| > 0 {
      var f := frames[0];
      var t := Tick(cfg, s, f);
      var u := StaminaStep(cfg, Body(cfg, s, f), f);
      assert u.regenTimer >= s.regenTimer;
      assert t.regenTimer == u.regenTimer;
      RegenTimerNeverDecreases(cfg, t, frames[1..]);
    }
  }

  /**
    A state without stamina, or with the player crouched, is not a sprinting one: the
    movement input is scaled by the crouch or walk speed, and a stamina block that sees
    such a state runs the regeneration timer.
  */
  lemma NoSprintWhenExhaustedOrCrouching(cfg: Config, s: State, f: Frame)
    requires s.stamina <= 0.0 || s.crouching
    ensures Speed(cfg, s, f) == (if s.crouching then cfg.crouchSpeed else cfg.walkSpeed)
    ensures var speed := if s.crouching then cfg.crouchSpeed else cfg.walkSpeed;
            && MovementInput(cfg, s, f).forwardInput == speed * f.verticalAxis
            && MovementInput(cfg, s, f).strafeInput == speed * f.horizontalAxis
    ensures StaminaStep(cfg, s, f).regenTimer == s.regenTimer + f.dt
  {
  }

  /**
    A whole frame that starts without stamina, or crouched with a positive `timeToCrouch`,
    does not sprint: the regeneration timer advances by `dt`. (With `timeToCrouch` <= 0 a
    crouched player can stand up inside the frame and sprint in its stamina block.)
  */
  lemma NoSprintFrame(cfg: Config, s: State, f: Frame)
    requires s.stamina <= 0.0 || (s.crouching && cfg.timeToCrouch > 0.0)
    ensures Tick(cfg, s, f).regenTimer == s.regenTimer + f.dt
  {
    var b := Body(cfg, s, f);
    if !f.onSpecialMovement && cfg.canMove {
      var moved := MovementInput(cfg, s, f);
      var looked := MouseLook(cfg, moved, f);
      var jumped := if cfg.canJump then Jump(cfg, looked, f) else looked;
      assert jumped.crouching == s.crouching;
      var crouched := if cfg.canCrouch then HandleCrouch(cfg, jumped, f) else jumped;
      assert s.crouching && cfg.timeToCrouch > 0.0 ==> crouched.crouching;
      assert b == ApplyGravity(cfg, crouched, f);
    }
    assert !IsSprinting(cfg, b, f);
  }

  /** Apart from `HandleCrouch`, no part of a frame reads the crouch key. */
  lemma StaminaIgnoresCrouchKey(cfg: Config, s: State, f: Frame)
    ensures StaminaStep(cfg, s, f) == StaminaStep(cfg, s, f.(crouchPressed := false))
  {
    var g := f.(crouchPressed := false);
    assert IsSprinting(cfg, s, f) == IsSprinting(cfg, s, g);
  }

  lemma BodyIgnoresCrouchKeyDuringTransition(cfg: Config, s: State, f: Frame)
    requires InCrouchAnimation(s)
    ensures Body(cfg, s, f) == Body(cfg, s, f.(crouchPressed := false))
  {
    var g := f.(crouchPressed := false);
    if !f.onSpecialMovement && cfg.canMove {
      assert Speed(cfg, s, f) == Speed(cfg, s, g);
      var moved := MovementInput(cfg, s, f);
      assert MovementInput(cfg, s, g) == moved;
      var looked := MouseLook(cfg, moved, f);
      assert MouseLook(cfg, moved, g) == looked;
      var jumped := if cfg.canJump then Jump(cfg, looked, f) else looked;
      assert (if cfg.canJump then Jump(cfg, looked, g) else looked) == jumped;
      assert InCrouchAnimation(jumped);
      assert HandleCrouch(cfg, jumped, f) == jumped == HandleCrouch(cfg, jumped, g);
      assert ApplyGravity(cfg, jumped, f) == ApplyGravity(cfg, jumped, g);
    }
  }

  /** A crouch key press during a transition changes nothing: it is not queued either. */
  lemma ToggleIgnoredDuringTransition(cfg: Config, s: State, f: Frame)
    requires InCrouchAnimation(s)
    ensures Tick(cfg, s, f) == Tick(cfg, s, f.(crouchPressed := false))
  {
    BodyIgnoresCrouchKeyDuringTransition(cfg, s, f);
    StaminaIgnoresCrouchKey(cfg, Body(cfg, s, f), f);
  }

  /**
    Standing up under an obstacle is refused: the player stays crouched, no transition
    starts, and the capsule keeps its height and center.
  */
  lemma CeilingBlocksStandUp(cfg: Config, s: State, f: Frame)
    requires s.crouching && !InCrouchAnimation(s) && f.ceilingHit
    ensures Tick(cfg, s, f).crouching && !InCrouchAnimation(Tick(cfg, s, f))
    ensures Tick(cfg, s, f).height == s.height && Tick(cfg, s, f).center == s.center
  {
    if !f.onSpecialMovement && cfg.canMove {
      var moved := MovementInput(cfg, s, f);
      var looked := MouseLook(cfg, moved, f);
      var jumped := if cfg.canJump then Jump(cfg, looked, f) else looked;
      assert HandleCrouch(cfg, jumped, f) == jumped;
    }
  }

  /** With no transition running and no crouch key, the crouch state and the capsule stay as they are. */
  lemma {:induction false} StillWithoutCrouchInput(cfg: Config, s: State, frames: seq<Frame>)
    requires !InCrouchAnimation(s) && NoCrouchInput(frames)
    ensures !InCrouchAnimation(Run(cfg, s, frames))
    ensures Run(cfg, s, frames).crouching == s.crouching
    ensures Run(cfg, s, frames).height == s.height && Run(cfg, s, frames).center == s.center
    decreases |frames|
  {
    if |frames| > 0 {
      var f := frames[0];
      var t := Tick(cfg, s, f);
      if !f.onSpecialMovement && cfg.canMove {
        var moved := MovementInput(cfg, s, f);
        var looked := MouseLook(cfg, moved, f);
        var jumped := if cfg.canJump then Jump(cfg, looked, f) else looked;
        assert HandleCrouch(cfg, jumped, f) == jumped;
      }
      assert !InCrouchAnimation(t) && t.crouching == s.crouching && t.height == s.height && t.center == s.center;
      StillWithoutCrouchInput(cfg, t, frames[1..]);
    }
  }

  /** One frame during a transition: the coroutine advances or completes, whatever else the frame does. */
  lemma TickDuringTransition(cfg: Config, s: State, f: Frame)
    requires InCrouchAnimation(s)
    ensures var t := s.transition.value;
            var r := Tick(cfg, s, f);
            if t.elapsed < cfg.timeToCrouch then
              && r.transition == Some(t.(elapsed := t.elapsed + f.dt))
              && r.crouching == s.crouching
              && Between(r.height, t.startHeight, t.targetHeight)
              && Between(r.center.x, t.startCenter.x, t.targetCenter.x)
              && Between(r.center.y, t.startCenter.y, t.targetCenter.y)
              && Between(r.center.z, t.startCenter.z, t.targetCenter.z)
            else
              && !InCrouchAnimation(r)
              && r.crouching == !s.crouching
              && r.height == t.targetHeight && r.center == t.targetCenter
  {
    var u := StaminaStep(cfg, Body(cfg, s, f), f);
    assert u.transition == s.transition && u.crouching == s.crouching;
  }

  /**
    A running transition, left alone by the crouch key, is still running after the frames
    as long as the time it had seen before the last frame is below `timeToCrouch`, and
    then sits between its start and target heights; otherwise it has completed: the crouch
    flag is flipped and the capsule is exactly at the target height and center.
  */
  lemma {:induction false} TransitionOutcome(cfg: Config, s: State, frames: seq<Frame>)
    requires InCrouchAnimation(s) && NonNegativeTimes(frames) && NoCrouchInput(frames)
    requires |frames| > 0
    ensures var t := s.transition.value;
            var r := Run(cfg, s, frames);
            if t.elapsed + SumDt(frames[..|frames| - 1]) < cfg.timeToCrouch then
              && r.transition == Some(t.(elapsed := t.elapsed + SumDt(frames)))
              && r.crouching == s.crouching
              && Between(r.height, t.startHeight, t.targetHeight)
            else
              && !InCrouchAnimation(r)
              && r.crouching == !s.crouching
              && r.height == t.targetHeight && r.center == t.targetCenter
    decreases |frames|
  {
    var t := s.transition.value;
    var f := frames[0];
    var rest := frames[1..];
    var n := Tick(cfg, s, f);
    TickDuringTransition(cfg, s, f);
    RunStep(cfg, s, frames);
    if |rest| == 0 {
      assert frames[..|frames| - 1] == [];
      assert frames[1..] == [];
      assert SumDt(frames) == Dt(f) + Sum([], Dt) == f.dt;
    } else {
      SumAllButLast(frames, Dt);
      SumNonNegative(rest[..|rest| - 1], Dt);
      if t.elapsed < cfg.timeToCrouch {
        assert forall i :: 0 <= i < |rest| ==> rest[i] == frames[i + 1];
        TransitionOutcome(cfg, n, rest);
      } else {
        assert forall i :: 0 <= i < |rest| ==> rest[i] == frames[i + 1];
        StillWithoutCrouchInput(cfg, n, rest);
      }
    }
  }
}
