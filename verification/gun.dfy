/**
  The ammunition / fire / reload machine of GunController, one engine frame at a time.

  A frame runs the body of `Update` (fire, else reload) and then resumes the pending
  `Shooting` coroutine, if one was started in an earlier frame. The coroutine's
  `WaitForSeconds(fireRate)` is the `cooldown` countdown. Aim smoothing is not modelled.

  The source reload is kept exactly as written (`Reload`), 32-bit wrap-around included;
  `ReloadCorrected` is the evidently intended transfer of min(deficit, reserve) rounds.
*/
module Gun {
  import opened Int32
  import opened FrameTime

  /** Inspector-configured parameters; `reservedAmmo` here is the starting value only. */
  datatype Config = Config(fireRate: real, magSize: i32, reservedAmmo: i32)

  datatype State = State(
    currentMag: i32,
    currentReservedAmmo: i32,
    reservedAmmo: i32,  // the configured field: the source's overflow branch decrements it
    canShoot: bool,
    cooldown: real)     // seconds left before the pending Shooting coroutine re-enables fire

  /** What one frame offers: fire held (mouse button 0), R pressed this frame, `Time.deltaTime`. */
  datatype Frame = Frame(fireHeld: bool, reloadPressed: bool, dt: real)

  /** Which reload arithmetic the frame uses: the source's, or the corrected transfer. */
  datatype ReloadRule = AsWritten | Corrected

  /** `Start`: full magazine, full reserve, ready to fire. */
  function Start(cfg: Config): (s: State)
    ensures s.currentMag == cfg.magSize
    ensures s.currentReservedAmmo == cfg.reservedAmmo && s.reservedAmmo == cfg.reservedAmmo
    ensures s.canShoot
  {
    State(cfg.magSize, cfg.reservedAmmo, cfg.reservedAmmo, true, 0.0)
  }

  /** The fire branch is taken. */
  predicate Fires(s: State, f: Frame) {
    f.fireHeld && s.canShoot && s.currentMag > 0
  }

  /** The reload branch's guard; the source tests the configured `reservedAmmo`. */
  predicate ReloadGuard(rule: ReloadRule, cfg: Config, s: State, f: Frame) {
    && f.reloadPressed
    && s.currentMag < cfg.magSize
    && match rule
       case AsWritten => s.reservedAmmo > 0
       case Corrected => s.currentReservedAmmo > 0
  }

  /** Rounds needed to fill the magazine, exactly (`amountNeeded` before wrapping). */
  function Deficit(cfg: Config, s: State): int {
    cfg.magSize - s.currentMag
  }

  /**
    None of the int arithmetic the source reload performs wraps around: the deficit, and
    then only the sums of the branch that deficit selects.
  */
  predicate NoWrap(cfg: Config, s: State) {
    && InRange(Deficit(cfg, s))
    && if Deficit(cfg, s) >= s.currentReservedAmmo then
         InRange(s.currentMag + s.currentReservedAmmo) && InRange(s.currentReservedAmmo - Deficit(cfg, s))
       else
         InRange(s.reservedAmmo - Deficit(cfg, s))
  }

  /** The source reload arithmetic, run when its guard holds. */
  function Reload(cfg: Config, s: State): (r: State)
    requires s.currentMag < cfg.magSize
    ensures r.canShoot == s.canShoot && r.cooldown == s.cooldown
    // under-supply branch: the whole reserve goes in, the whole deficit comes out
    ensures NoWrap(cfg, s) && Deficit(cfg, s) >= s.currentReservedAmmo ==>
      && r.currentMag == s.currentMag + s.currentReservedAmmo <= cfg.magSize
      && r.currentReservedAmmo == s.currentReservedAmmo - Deficit(cfg, s) <= 0
      && (r.currentReservedAmmo < 0 <==> Deficit(cfg, s) > s.currentReservedAmmo)
      && r.reservedAmmo == s.reservedAmmo
    // overflow branch: the magazine is filled, and the configured field pays for it
    ensures NoWrap(cfg, s) && Deficit(cfg, s) < s.currentReservedAmmo ==>
      && r.currentMag == cfg.magSize
      && r.currentReservedAmmo == s.currentReservedAmmo
      && r.reservedAmmo == s.reservedAmmo - Deficit(cfg, s)
  {
    var amountNeeded := Wrap(cfg.magSize - s.currentMag);
    if amountNeeded >= s.currentReservedAmmo then
      s.(currentMag := Wrap(s.currentMag + s.currentReservedAmmo),
         currentReservedAmmo := Wrap(s.currentReservedAmmo - amountNeeded))
    else
      s.(currentMag := cfg.magSize,
         reservedAmmo := Wrap(s.reservedAmmo - amountNeeded))
  }

  function Min(a: int, b: int): int {
    if a <= b then a else b
  }

  /**
    The intended reload: move min(deficit, reserve) rounds from `currentReservedAmmo`
    into the magazine. The contract pins that amount down: ammunition is conserved,
    the magazine does not overfill, the reserve does not go negative, and the transfer
    stops only when the magazine is full or the reserve is empty.
  */
  function ReloadCorrected(cfg: Config, s: State): (r: State)
    requires s.currentMag < cfg.magSize && s.currentReservedAmmo > 0
    ensures r.currentMag + r.currentReservedAmmo == s.currentMag + s.currentReservedAmmo
    ensures s.currentMag < r.currentMag <= cfg.magSize
    ensures 0 <= r.currentReservedAmmo < s.currentReservedAmmo
    ensures r.currentMag == cfg.magSize || r.currentReservedAmmo == 0
    ensures r.reservedAmmo == s.reservedAmmo && r.canShoot == s.canShoot && r.cooldown == s.cooldown
  {
    var moved := Min(Deficit(cfg, s), s.currentReservedAmmo);
    s.(currentMag := s.currentMag + moved, currentReservedAmmo := s.currentReservedAmmo - moved)
  }

  /** The fire/reload body of `Update`: reload is only considered when fire is not taken. */
  function Update(rule: ReloadRule, cfg: Config, s: State, f: Frame): (r: State)
    ensures Fires(s, f) ==>
      && r.currentMag == s.currentMag - 1
      && !r.canShoot && r.cooldown == cfg.fireRate
      && r.currentReservedAmmo == s.currentReservedAmmo && r.reservedAmmo == s.reservedAmmo
    ensures !Fires(s, f) ==> r.canShoot == s.canShoot && r.cooldown == s.cooldown
    ensures !Fires(s, f) && !ReloadGuard(rule, cfg, s, f) ==> r == s
  {
    if Fires(s, f) then
      s.(canShoot := false, currentMag := s.currentMag - 1, cooldown := cfg.fireRate)
    else if ReloadGuard(rule, cfg, s, f) then
      match rule
      case AsWritten => Reload(cfg, s)
      case Corrected => ReloadCorrected(cfg, s)
    else
      s
  }

  /** One resumption of the pending `Shooting` coroutine, `dt` seconds later. */
  function Cooldown(s: State, dt: real): (r: State)
    ensures r.canShoot <==> s.canShoot || s.cooldown <= dt
    ensures !r.canShoot ==> r.cooldown == s.cooldown - dt
    ensures r == s.(canShoot := r.canShoot, cooldown := r.cooldown)
  {
    if s.canShoot then s
    else if s.cooldown <= dt then s.(canShoot := true, cooldown := 0.0)
    else s.(cooldown := s.cooldown - dt)
  }

  /** One frame: the `Update` body, then the coroutine started in an earlier frame, if any. */
  function Tick(rule: ReloadRule, cfg: Config, s: State, f: Frame): (r: State)
    ensures Fires(s, f) ==>
      && r.currentMag == s.currentMag - 1
      && !r.canShoot && r.cooldown == cfg.fireRate
      && r.currentReservedAmmo == s.currentReservedAmmo && r.reservedAmmo == s.reservedAmmo
    ensures !Fires(s, f) ==> (r.canShoot <==> s.canShoot || s.cooldown <= f.dt)
    ensures !Fires(s, f) && !r.canShoot ==> r.cooldown == s.cooldown - f.dt
    ensures !Fires(s, f) && !ReloadGuard(rule, cfg, s, f) ==>
      && r.currentMag == s.currentMag
      && r.currentReservedAmmo == s.currentReservedAmmo
      && r.reservedAmmo == s.reservedAmmo
  {
    var u := Update(rule, cfg, s, f);
    if Fires(s, f) then u else Cooldown(u, f.dt)
  }

  /** The state after a sequence of frames. */
  function Run(rule: ReloadRule, cfg: Config, s: State, frames: seq<Frame>): State
    decreases |frames|
  {
    if |frames| == 0 then s
    else Run(rule, cfg, Tick(rule, cfg, s, frames[0]), frames[1..])
  }

  /** How many of the frames take the fire branch. */
  function ShotsFired(rule: ReloadRule, cfg: Config, s: State, frames: seq<Frame>): nat
    decreases |frames|
  {
    if |frames| == 0 then 0
    else (if Fires(s, frames[0]) then 1 else 0) + ShotsFired(rule, cfg, Tick(rule, cfg, s, frames[0]), frames[1..])
  }

  function Dt(f: Frame): real {
    f.dt
  }

  /** Total frame time of a sequence of frames. */
  function SumDt(frames: seq<Frame>): real {
    Sum(frames, Dt)
  }
}
