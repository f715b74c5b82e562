/**
  The gating, look, jump, gravity, crouch and stamina logic of PlayerController, one
  engine frame at a time.

  A frame runs the body of `Update` and then resumes the `CrouchStand` coroutine if it was
  started in an earlier frame. Engine queries (grounded, keys, the ceiling raycast, the
  mouse and movement axes, `Time.deltaTime`) arrive in the `Frame`. The coroutine's locals
  between frames are the `Transition` record. Headbob, field of view, yaw and the final
  `CharacterController.Move` are not modelled.
*/
module Player {
  import opened UnityMath
  import opened FrameTime

  datatype Option<T> = None | Some(value: T)

  /** Inspector-configured parameters. */
  datatype Config = Config(
    canMove: bool,  // PlayerCanMove: its setter is private and never called, so the source keeps it true
    canSprint: bool,
    canJump: bool,
    canCrouch: bool,
    walkSpeed: real,
    sprintSpeed: real,
    crouchSpeed: real,
    maxStamina: real,
    staminaRegenRate: real,
    staminaDepletionRate: real,
    staminaRegenDelay: real,
    lookSpeedY: real,
    upperLookLimit: real,
    lowerLookLimit: real,
    jumpForce: real,
    gravity: real,
    crouchingHeight: real,
    standingHeight: real,
    timeToCrouch: real,
    crouchingCenter: Vec3,
    standingCenter: Vec3)

  /** The locals of a suspended `CrouchStand` coroutine. */
  datatype Transition = Transition(
    elapsed: real,
    startHeight: real,
    targetHeight: real,
    startCenter: Vec3,
    targetCenter: Vec3)

  datatype State = State(
    crouching: bool,                  // playerIsCrouching
    transition: Option<Transition>,   // Some exactly while playerInCrouchAnimation
    height: real,                     // CharacterController.height
    center: Vec3,                     // CharacterController.center
    stamina: real,                    // currentStamina
    regenTimer: real,                 // staminaRegenTimer
    pitch: real,                      // rotationX
    forwardInput: real,               // currentInput.x
    strafeInput: real,                // currentInput.y
    verticalVelocity: real)           // moveDirection.y

  /** What the engine reports for one frame. */
  datatype Frame = Frame(
    onSpecialMovement: bool,  // playerOnSpecialMovement, set by other scripts
    grounded: bool,           // characterController.isGrounded
    sprintHeld: bool,
    jumpPressed: bool,
    crouchPressed: bool,
    ceilingHit: bool,         // Physics.Raycast upwards, one unit from the camera
    mouseY: real,
    verticalAxis: real,
    horizontalAxis: real,
    dt: real)                 // Time.deltaTime

  predicate InCrouchAnimation(s: State) {
    s.transition.Some?
  }

  predicate IsSprinting(cfg: Config, s: State, f: Frame) {
    cfg.canSprint && f.sprintHeld && !s.crouching && s.stamina > 0.0
  }

  predicate ShouldJump(s: State, f: Frame) {
    f.jumpPressed && f.grounded && !s.crouching
  }

  predicate ShouldCrouch(s: State, f: Frame) {
    f.crouchPressed && !InCrouchAnimation(s) && f.grounded
  }

  /** The capsule height a toggle from `crouching` heads for. */
  function TargetHeight(cfg: Config, crouching: bool): real {
    if crouching then cfg.standingHeight else cfg.crouchingHeight
  }

  function TargetCenter(cfg: Config, crouching: bool): Vec3 {
    if crouching then cfg.standingCenter else cfg.crouchingCenter
  }

  /** `Awake`: full stamina; the capsule and the serialized regen timer are as found. */
  function Awake(cfg: Config, height: real, center: Vec3, regenTimer: real): (s: State)
    ensures s.stamina == cfg.maxStamina && s.regenTimer == regenTimer
    ensures !s.crouching && !InCrouchAnimation(s) && s.pitch == 0.0
    ensures s.height == height && s.center == center
  {
    State(false, None, height, center, cfg.maxStamina, regenTimer, 0.0, 0.0, 0.0, 0.0)
  }

  /** Locomotion speed: crouching wins over sprinting, which wins over walking. */
  function Speed(cfg: Config, s: State, f: Frame): (r: real)
    ensures s.crouching ==> r == cfg.crouchSpeed
    ensures !s.crouching && IsSprinting(cfg, s, f) ==> r == cfg.sprintSpeed
    ensures !s.crouching && !IsSprinting(cfg, s, f) ==> r == cfg.walkSpeed
  {
    if s.crouching then cfg.crouchSpeed
    else if IsSprinting(cfg, s, f) then cfg.sprintSpeed
    else cfg.walkSpeed
  }

  /** `HandleMovementInput`, without the field of view: the vertical velocity is carried over. */
  function MovementInput(cfg: Config, s: State, f: Frame): (r: State)
    ensures r.forwardInput == Speed(cfg, s, f) * f.verticalAxis
    ensures r.strafeInput == Speed(cfg, s, f) * f.horizontalAxis
    ensures r == s.(forwardInput := r.forwardInput, strafeInput := r.strafeInput)
  {
    s.(forwardInput := Speed(cfg, s, f) * f.verticalAxis,
       strafeInput := Speed(cfg, s, f) * f.horizontalAxis)
  }

  /** `HandleMouseLook`, pitch only: the angle is clamped to [-upperLookLimit, lowerLookLimit]. */
  function MouseLook(cfg: Config, s: State, f: Frame): (r: State)
    ensures -cfg.upperLookLimit <= cfg.lowerLookLimit ==>
      -cfg.upperLookLimit <= r.pitch <= cfg.lowerLookLimit
    ensures -cfg.upperLookLimit <= s.pitch - f.mouseY * cfg.lookSpeedY <= cfg.lowerLookLimit ==>
      r.pitch == s.pitch - f.mouseY * cfg.lookSpeedY
    ensures r == s.(pitch := r.pitch)
  {
    s.(pitch := Clamp(s.pitch - f.mouseY * cfg.lookSpeedY, -cfg.upperLookLimit, cfg.lowerLookLimit))
  }

  /** `HandleJump`. */
  function Jump(cfg: Config, s: State, f: Frame): (r: State)
    ensures ShouldJump(s, f) ==> r.verticalVelocity == cfg.jumpForce
    ensures !ShouldJump(s, f) ==> r == s
    ensures r == s.(verticalVelocity := r.verticalVelocity)
  {
    if ShouldJump(s, f) then s.(verticalVelocity := cfg.jumpForce) else s
  }

  /** The gravity half of `ApplyFinalMovements`. */
  function ApplyGravity(cfg: Config, s: State, f: Frame): (r: State)
    ensures f.grounded ==> r == s
    ensures !f.grounded ==> r.verticalVelocity == s.verticalVelocity - cfg.gravity * f.dt
    ensures r == s.(verticalVelocity := r.verticalVelocity)
  {
    if f.grounded then s else s.(verticalVelocity := s.verticalVelocity - cfg.gravity * f.dt)
  }

  /**
    The interpolation parameter `timeElapsed / timeToCrouch`. It is only used when
    `timeElapsed < timeToCrouch`; a zero duration then means a negative elapsed time,
    for which the float division yields negative infinity and the lerp clamps it to 0.
  */
  function Progress(elapsed: real, duration: real): real {
    if duration == 0.0 then 0.0 else elapsed / duration
  }

  /**
    One pass of the `CrouchStand` loop, or its exit: while the elapsed time is below
    `timeToCrouch` the capsule is interpolated and the clock advanced by `dt`; otherwise
    the capsule snaps to the target, the crouch flag flips and the animation ends.
  */
  function CrouchStep(cfg: Config, s: State, dt: real): (r: State)
    requires InCrouchAnimation(s)
    ensures var t := s.transition.value;
      if t.elapsed < cfg.timeToCrouch then
        && r.transition == Some(t.(elapsed := t.elapsed + dt))
        && r.crouching == s.crouching
        && Between(r.height, t.startHeight, t.targetHeight)
        && Between(r.center.x, t.startCenter.x, t.targetCenter.x)
        && Between(r.center.y, t.startCenter.y, t.targetCenter.y)
        && Between(r.center.z, t.startCenter.z, t.targetCenter.z)
      else
        && !InCrouchAnimation(r)
        && r.crouching == !s.crouching
        && r.height == t.targetHeight && r.center == t.targetCenter
    ensures r == s.(crouching := r.crouching, transition := r.transition, height := r.height, center := r.center)
  {
    var t := s.transition.value;
    if t.elapsed < cfg.timeToCrouch then
      var p := Progress(t.elapsed, cfg.timeToCrouch);
      s.(height := Lerp(t.startHeight, t.targetHeight, p),
         center := LerpVec(t.startCenter, t.targetCenter, p),
         transition := Some(t.(elapsed := t.elapsed + dt)))
    else
      s.(height := t.targetHeight, center := t.targetCenter,
         crouching := !s.crouching, transition := None)
  }

  /**
    `HandleCrouch`, together with the part of `CrouchStand` that runs before its first
    `yield`: the ceiling check, the set-up of the transition, and the first loop pass.
  */
  function HandleCrouch(cfg: Config, s: State, f: Frame): (r: State)
    ensures !ShouldCrouch(s, f) ==> r == s
    ensures s.crouching && f.ceilingHit ==> r == s
    ensures ShouldCrouch(s, f) && !(s.crouching && f.ceilingHit) && cfg.timeToCrouch > 0.0 ==>
      && r.transition.Some?
      && r.transition.value.elapsed == f.dt
      && r.transition.value.targetHeight == TargetHeight(cfg, s.crouching)
      && r.transition.value.targetCenter == TargetCenter(cfg, s.crouching)
      && r.transition.value.startHeight == s.height && r.transition.value.startCenter == s.center
      && r.crouching == s.crouching && r.height == s.height && r.center == s.center
    ensures ShouldCrouch(s, f) && !(s.crouching && f.ceilingHit) && cfg.timeToCrouch <= 0.0 ==>
      && !InCrouchAnimation(r)
      && r.crouching == !s.crouching
      && r.height == TargetHeight(cfg, s.crouching) && r.center == TargetCenter(cfg, s.crouching)
    ensures r == s.(crouching := r.crouching, transition := r.transition, height := r.height, center := r.center)
  {
    if !ShouldCrouch(s, f) || (s.crouching && f.ceilingHit) then s
    else
      var t := Transition(0.0, s.height, TargetHeight(cfg, s.crouching), s.center, TargetCenter(cfg, s.crouching));
      CrouchStep(cfg, s.(transition := Some(t)), f.dt)
  }

  /**
    The body of `Update` before its stamina block. In special-movement mode only the
    look runs; otherwise, when the player may move, input, look, jump, crouch and gravity
    run in that order.
  */
  function Body(cfg: Config, s: State, f: Frame): (r: State)
    ensures f.onSpecialMovement ==> r == s.(pitch := r.pitch)
    ensures !f.onSpecialMovement && !cfg.canMove ==> r == s
    ensures -cfg.upperLookLimit <= s.pitch <= cfg.lowerLookLimit ==>
      -cfg.upperLookLimit <= r.pitch <= cfg.lowerLookLimit
    ensures InCrouchAnimation(s) ==>
      r.transition == s.transition && r.crouching == s.crouching && r.height == s.height && r.center == s.center
    ensures !f.onSpecialMovement && cfg.canMove && f.grounded ==>
      r.verticalVelocity == (if cfg.canJump && ShouldJump(s, f) then cfg.jumpForce else s.verticalVelocity)
    ensures !f.onSpecialMovement && cfg.canMove && !f.grounded ==>
      r.verticalVelocity == s.verticalVelocity - cfg.gravity * f.dt
    ensures !f.onSpecialMovement && cfg.canMove ==>
      r.forwardInput == Speed(cfg, s, f) * f.verticalAxis && r.strafeInput == Speed(cfg, s, f) * f.horizontalAxis
    ensures r.stamina == s.stamina && r.regenTimer == s.regenTimer
  {
    if f.onSpecialMovement then
      MouseLook(cfg, s, f)
    else if cfg.canMove then
      var moved := MovementInput(cfg, s, f);
      var looked := MouseLook(cfg, moved, f);
      var jumped := if cfg.canJump then Jump(cfg, looked, f) else looked;
      var crouched := if cfg.canCrouch then HandleCrouch(cfg, jumped, f) else jumped;
      ApplyGravity(cfg, crouched, f)
    else
      s
  }

  /** `RegenerateStamina`: the timer runs on every non-sprinting frame and is never reset. */
  function RegenerateStamina(cfg: Config, s: State, f: Frame): (r: State)
    ensures IsSprinting(cfg, s, f) ==> r == s
    ensures !IsSprinting(cfg, s, f) ==> r.regenTimer == s.regenTimer + f.dt
    ensures !IsSprinting(cfg, s, f) && r.regenTimer >= cfg.staminaRegenDelay ==>
      r.stamina == s.stamina + cfg.staminaRegenRate * f.dt
    ensures r.regenTimer < cfg.staminaRegenDelay ==> r.stamina == s.stamina
    ensures r == s.(stamina := r.stamina, regenTimer := r.regenTimer)
  {
    if IsSprinting(cfg, s, f) then s
    else
      var timer := s.regenTimer + f.dt;
      s.(regenTimer := timer,
         stamina := if timer >= cfg.staminaRegenDelay then s.stamina + cfg.staminaRegenRate * f.dt else s.stamina)
  }

  /**
    The stamina block closing `Update`: sprinting drains, anything else regenerates, and
    the result is clamped to [0, maxStamina].
  */
  function StaminaStep(cfg: Config, s: State, f: Frame): (r: State)
    ensures 0.0 <= cfg.maxStamina ==> 0.0 <= r.stamina <= cfg.maxStamina
    ensures IsSprinting(cfg, s, f) && cfg.staminaDepletionRate * f.dt >= 0.0 ==> r.stamina <= s.stamina
    ensures IsSprinting(cfg, s, f) && cfg.staminaDepletionRate * f.dt > 0.0 ==> r.stamina < s.stamina
    ensures !IsSprinting(cfg, s, f) && cfg.staminaRegenRate * f.dt >= 0.0 && s.stamina <= cfg.maxStamina ==>
      r.stamina >= s.stamina
    ensures (&& !IsSprinting(cfg, s, f) && s.regenTimer + f.dt >= cfg.staminaRegenDelay
             && cfg.staminaRegenRate * f.dt > 0.0 && s.stamina < cfg.maxStamina) ==>
      r.stamina > s.stamina
    ensures (&& !IsSprinting(cfg, s, f) && s.regenTimer + f.dt < cfg.staminaRegenDelay
             && 0.0 <= s.stamina <= cfg.maxStamina) ==>
      r.stamina == s.stamina
    ensures IsSprinting(cfg, s, f) ==> r.regenTimer == s.regenTimer
    ensures !IsSprinting(cfg, s, f) ==> r.regenTimer == s.regenTimer + f.dt
    ensures r == s.(stamina := r.stamina, regenTimer := r.regenTimer)
  {
    if IsSprinting(cfg, s, f) then
      s.(stamina := Clamp(s.stamina - cfg.staminaDepletionRate * f.dt, 0.0, cfg.maxStamina))
    else
      var g := RegenerateStamina(cfg, s, f);
      g.(stamina := Clamp(g.stamina, 0.0, cfg.maxStamina))
  }

  /** One frame: the `Update` body, its stamina block, then the crouch coroutine if one was already running. */
  function Tick(cfg: Config, s: State, f: Frame): (r: State)
    ensures 0.0 <= cfg.maxStamina ==> 0.0 <= r.stamina <= cfg.maxStamina
    ensures -cfg.upperLookLimit <= s.pitch <= cfg.lowerLookLimit ==>
      -cfg.upperLookLimit <= r.pitch <= cfg.lowerLookLimit
    ensures f.onSpecialMovement && !InCrouchAnimation(s) ==>
      r == s.(pitch := r.pitch, stamina := r.stamina, regenTimer := r.regenTimer)
  {
    var u := StaminaStep(cfg, Body(cfg, s, f), f);
    if InCrouchAnimation(s) then CrouchStep(cfg, u, f.dt) else u
  }

  /** The state after a sequence of frames. */
  function Run(cfg: Config, s: State, frames: seq<Frame>): State
    decreases |frames|
  {
    if |frames| == 0 then s else Run(cfg, Tick(cfg, s, frames[0]), frames[1..])
  }

  function Dt(f: Frame): real {
    f.dt
  }

  /** Total frame time of a sequence of frames. */
  function SumDt(frames: seq<Frame>): real {
    Sum(frames, Dt)
  }
}
