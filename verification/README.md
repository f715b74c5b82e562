# HorrorSurvival controllers in Dafny

This project models the two gameplay scripts of a first-person horror game as pure step
functions over immutable state records, one engine frame per step.

- **Gun** (`gun.dfy`, `gun_properties.dfy`) covers `GunController`: the magazine and reserve
  counters, the fire branch, the reload branch, and the `Shooting` coroutine that re-enables
  fire after `fireRate` seconds. A frame runs the fire/reload body of `Update`. It then resumes
  the cooldown, but only for a cooldown started in an earlier frame, because Unity resumes
  `WaitForSeconds` after `Update`. The counters are C# `int`s: they are 32-bit values
  (`Int32.i32`), and every `+=`, `-=` of the reload wraps around as unchecked C# arithmetic
  does (`Int32.Wrap`). The reload exists twice. `Gun.Reload` is the source arithmetic exactly
  as written. `Gun.ReloadCorrected` is the evidently intended transfer of
  min(deficit, reserve) rounds. `ReloadRule` selects which one a frame uses. The invariant and
  ammunition-conservation lemmas are proved of the corrected machine. The defects of the
  as-written one are exhibited under "## Findings".
- **Player** (`player.dfy`, `player_properties.dfy`) covers `PlayerController`:
  - the sprint, jump and crouch predicates;
  - the order of the `Update` body, including special-movement mode;
  - speed priority, the pitch clamp, jump and gravity;
  - the crouch toggle with its ceiling check;
  - the stamina block with `RegenerateStamina`.

  The `CrouchStand` coroutine is an explicit `Transition` record holding its locals. The first
  loop pass runs inside `HandleCrouch`, in the same frame. Each later pass runs after the
  `Update` body of a later frame. Engine queries arrive as fields of a `Frame`: grounded, key
  states, the ceiling raycast, the mouse and movement axes, and `Time.deltaTime`. Floats are
  modelled as `real`.
- `UnityMath` gives `Mathf.Clamp` (which checks the lower bound first), `Mathf.Lerp` and `Vector3.Lerp`
  (parameter clamped to [0, 1]).
- `FrameTime` gives the total frame time of a frame sequence, shared by both controllers' models.

The evidently intended reload transfers min(deficit, reserve) rounds. It takes 30/25/3 to
28/0. The code does something else: it takes 30/25/3 to 28/-2. The model
follows the code in `Gun.Reload` and keeps the intended behaviour in `Gun.ReloadCorrected`.

## Model

| member | source | states |
|---|---|---|
| Gun.Start | Assets/Scripts/GunController.cs:20-25 | The gun starts with a full magazine (`magSize`). Both reserve counters start at the configured reserve, and it is ready to fire. |
| Gun.Reload | Assets/Scripts/GunController.cs:38-51 | As written, absent wrap-around. Under-supply branch: the magazine gains the whole reserve and ends at most `magSize`. The reserve loses the whole deficit and ends at most 0, below 0 exactly when the deficit exceeded it. Overflow branch: the magazine is filled and `currentReservedAmmo` is untouched. The configured `reservedAmmo` drops by the deficit instead. |
| Gun.ReloadCorrected | Assets/Scripts/GunController.cs:38-51 | Intended reload. Rounds are conserved. The magazine strictly grows but never beyond `magSize`. The reserve strictly shrinks but stays at least 0. The transfer stops only when the magazine is full or the reserve is empty, which pins it to min(deficit, reserve). |
| Gun.Update | Assets/Scripts/GunController.cs:27-52 | A shot removes exactly one round. It disables fire, arms the cooldown with `fireRate` and leaves both reserve counters alone. Without a shot, readiness is unchanged. Without a shot and with the reload guard false, the state is unchanged. |
| Gun.Cooldown | Assets/Scripts/GunController.cs:65-69 | The pending coroutine re-enables fire exactly when the remaining time is at most the frame's time. Otherwise the remaining time shrinks by that frame time. Nothing else changes. |
| Gun.Tick | Assets/Scripts/GunController.cs:27-69 | One frame. A shot (fire held, ready, magazine positive) removes one round and touches no reserve. A frame without a shot is ready afterwards iff it was ready or the cooldown ran out. The ammunition is unchanged unless the reload guard holds. |
| GunProperties.StartSatisfiesAmmoInv | Assets/Scripts/GunController.cs:20-25 | With non-negative configuration the initial state has 0 ≤ magazine ≤ `magSize` and a non-negative reserve. The total is `magSize + reservedAmmo`. |
| GunProperties.CorrectedTickConservesAmmo | Assets/Scripts/GunController.cs:32-50 | One corrected frame keeps those bounds. The total of magazine and reserve drops by one on a shot and is otherwise unchanged. |
| GunProperties.CorrectedRunConservesAmmo | Assets/Scripts/GunController.cs:27-52 | Over any frame sequence the corrected machine keeps the bounds. Rounds lost equal shots fired. |
| GunProperties.CooldownWindow | Assets/Scripts/GunController.cs:65-69 | While the cooldown is pending, no frame fires, whatever the input. Fire is re-enabled at the end of the first frame by which the elapsed time reaches the remaining cooldown, and not earlier. |
| GunProperties.FireNotQueued | Assets/Scripts/GunController.cs:32-36 | During the cooldown a frame with fire held behaves exactly like one without. Fire input is neither acted on nor remembered. |
| GunProperties.AsWrittenNeverOverfills | Assets/Scripts/GunController.cs:38-50 | Even as written, a frame never takes the magazine above `magSize`, provided nothing wraps. |
| GunProperties.AsWrittenUnderSupplyGoesNegative | Assets/Scripts/GunController.cs:40-45 | With magSize 30, a magazine of 25 and a reserve of 3, the source reload yields a magazine of 28 and a reserve of -2. |
| GunProperties.AsWrittenOverflowDuplicatesAmmo | Assets/Scripts/GunController.cs:46-50 | With magSize 30, a magazine of 10 and a reserve of 50, the source fills the magazine but keeps the reserve at 50. The player gains 20 rounds. |
| GunProperties.AsWrittenReloadShrinksMagazine | Assets/Scripts/GunController.cs:38-45 | Suppose the reserve is negative and the configured field positive. The guard still opens, and every reload shrinks the magazine and the reserve, provided nothing wraps. |
| GunProperties.AsWrittenFiveShots | Assets/Scripts/GunController.cs:32-36 | Holding fire for ten 0.2-second frames with a 0.1-second cooldown fires five rounds, 30 to 25. |
| GunProperties.AsWrittenFiveReloads | Assets/Scripts/GunController.cs:38-50 | Five reloads from 25 rounds with a reserve of 3 end at a magazine of -2 and a reserve of -32. |
| GunProperties.AsWrittenMagazineGoesNegative | Assets/Scripts/GunController.cs:27-52 | From a fresh gun (30 rounds, 3 in reserve), five shots then five reloads leave the magazine at -2. |
| GunProperties.CorrectedReloadExamples | Assets/Scripts/GunController.cs:38-50 | The corrected reload takes 30/25/3 to 28 and 0, and 30/10/50 to 30 and 30. |
| Player.Awake | Assets/Scripts/PlayerController.cs:126-140 | The player starts at full stamina, standing, with no crouch animation and a pitch of 0. |
| Player.Speed | Assets/Scripts/PlayerController.cs:222-223 | Speed priority is crouch over sprint over walk. |
| Player.MovementInput | Assets/Scripts/PlayerController.cs:205-230 | Both input components are the chosen speed times their axis. The vertical velocity and everything else are carried over. |
| Player.MouseLook | Assets/Scripts/PlayerController.cs:232-239 | Pitch always ends in [-upperLookLimit, lowerLookLimit] when that range is non-empty. Inside the range it is exactly the old pitch minus the scaled mouse delta. Nothing else changes. |
| Player.Jump | Assets/Scripts/PlayerController.cs:241-248 | The vertical velocity becomes `jumpForce` when jump is pressed while grounded and not crouching. Otherwise nothing changes. |
| Player.ApplyGravity | Assets/Scripts/PlayerController.cs:276-286 | Gravity lowers the vertical velocity by `gravity * dt` only when not grounded. |
| Player.CrouchStep | Assets/Scripts/PlayerController.cs:306-323 | While elapsed < `timeToCrouch`, the transition stays active and the crouch flag holds. Height and all three center components lie between start and target, and the clock advances by `dt`. Otherwise the capsule snaps to the target, the flag flips and the animation ends. |
| Player.HandleCrouch | Assets/Scripts/PlayerController.cs:289-315 | No toggle without the key, grounding and a finished animation. Standing up under a ceiling aborts with nothing changed. A started toggle records the current height and center as its start and heads for the opposite profile, and on its first frame the capsule stays unchanged. With `timeToCrouch` ≤ 0 the toggle completes in the same frame. |
| Player.Body | Assets/Scripts/PlayerController.cs:143-174 | In special-movement mode only the pitch changes. During a crouch animation the crouch state and capsule are untouched. Grounded frames get the jump impulse or keep their vertical velocity, and airborne frames get gravity. Stamina is untouched. |
| Player.RegenerateStamina | Assets/Scripts/PlayerController.cs:189-203 | A non-sprinting frame adds `dt` to the timer, which is never reset. It adds `staminaRegenRate * dt` only once the timer has reached `staminaRegenDelay`. |
| Player.StaminaStep | Assets/Scripts/PlayerController.cs:176-184 | Stamina ends in [0, maxStamina] when maxStamina ≥ 0. Sprinting never raises it when `staminaDepletionRate * dt` ≥ 0, and lowers it strictly when that product is positive. Not sprinting never lowers stamina that is at most max when `staminaRegenRate * dt` ≥ 0. It raises it strictly once the delay is met, the product is positive and stamina is below max. Before the delay, stamina within [0, maxStamina] is unchanged. |
| Player.Tick | Assets/Scripts/PlayerController.cs:143-185 | After every frame stamina is in [0, maxStamina] and an in-range pitch stays in range. In special-movement mode with no animation running, only pitch, stamina and the regeneration timer change. |
| PlayerProperties.AwakeIsValid | Assets/Scripts/PlayerController.cs:126-140 | The initial state satisfies the invariant: stamina and pitch in range. |
| PlayerProperties.TickPreservesValid | Assets/Scripts/PlayerController.cs:143-185 | One frame keeps the invariant. A running transition always heads for the profile opposite the current crouch flag. |
| PlayerProperties.RunPreservesValid | Assets/Scripts/PlayerController.cs:143-185 | For all frame sequences, stamina stays in [0, maxStamina] and pitch within the look limits. |
| PlayerProperties.RegenTimerNeverDecreases | Assets/Scripts/PlayerController.cs:189-203 | Over any frames the regeneration timer never decreases. Once the delay has elapsed it stays elapsed. |
| PlayerProperties.NoSprintWhenExhaustedOrCrouching | Assets/Scripts/PlayerController.cs:11 | A state with no stamina or a crouched player is not a sprinting one. Its speed is crouch or walk speed, its movement input is that speed times each axis, and a stamina block that sees it runs the regen timer. |
| PlayerProperties.NoSprintFrame | Assets/Scripts/PlayerController.cs:143-184 | A whole frame that starts with no stamina, or crouched with a positive `timeToCrouch`, does not sprint: its regen timer advances by `dt`. With `timeToCrouch` ≤ 0 a crouched player can stand up inside the frame and then sprint. |
| PlayerProperties.BodyIgnoresCrouchKeyDuringTransition | Assets/Scripts/PlayerController.cs:250-257 | During a transition the crouch key has no effect on the `Update` body. |
| PlayerProperties.ToggleIgnoredDuringTransition | Assets/Scripts/PlayerController.cs:13 | A crouch key press during a transition has no effect on the frame and is not queued. |
| PlayerProperties.CeilingBlocksStandUp | Assets/Scripts/PlayerController.cs:292-295 | Standing up with the ceiling raycast hitting leaves the player crouched, with no animation and an unchanged capsule. |
| PlayerProperties.StillWithoutCrouchInput | Assets/Scripts/PlayerController.cs:250-257 | Without a running transition or a crouch key press, crouch state and capsule never change. |
| PlayerProperties.TickDuringTransition | Assets/Scripts/PlayerController.cs:306-323 | Whatever else a frame does, a running transition either advances by `dt` with height and center between start and target, or completes at the target. |
| PlayerProperties.TransitionOutcome | Assets/Scripts/PlayerController.cs:298-323 | After any frames without crouch input, a transition is still running as long as the time it had seen before the last frame is below `timeToCrouch`. Its elapsed time is then the sum of frame times and its height lies between start and target. Otherwise it has completed: the flag is flipped and height and center equal the target profile. |

## Findings

| source | as written | input that shows it | evidently intended | confidence | as-written member | corrected member |
|---|---|---|---|---|---|---|
| Assets/Scripts/GunController.cs:41-44 | The under-supply branch subtracts the whole deficit from the reserve, though only the reserve was moved | magSize 30, magazine 25, reserve 3 gives 28 and -2 | Subtract the rounds moved, giving 28 and 0 | high (not executed) | GunProperties.AsWrittenUnderSupplyGoesNegative | Gun.ReloadCorrected |
| Assets/Scripts/GunController.cs:49 | The overflow branch decrements the configured `reservedAmmo`, and `currentReservedAmmo` never pays for the reload | magSize 30, magazine 10, reserve 50 gives 30 and 50 (20 rounds created) | Take the deficit from `currentReservedAmmo`, giving 30 and 30 | high (not executed) | GunProperties.AsWrittenOverflowDuplicatesAmmo | GunProperties.CorrectedRunConservesAmmo |
| Assets/Scripts/GunController.cs:38 | The reload guard tests the configured `reservedAmmo`, so reloads keep running after the reserve is negative, and each one shrinks the magazine | fresh gun 30/3: five shots, then five reloads leave the magazine at -2 | Guard on `currentReservedAmmo > 0`, keeping 0 ≤ magazine ≤ magSize | high (not executed) | GunProperties.AsWrittenMagazineGoesNegative | GunProperties.CorrectedTickConservesAmmo |

## Left out

- `DetermineAim` (aim smoothing with `Vector3.Lerp` on the transform) is not modelled. It is animation of a transform with no effect on the ammunition logic.
- Headbob, the field-of-view drift in `HandleMovementInput`, yaw rotation from the horizontal mouse axis, and the camera's `Quaternion` are not modelled. The same goes for `TransformDirection` turning `currentInput` into a world-space `moveDirection`, for `CharacterController.Move`, and for cursor locking. These are engine calls or float/trigonometric animation whose semantics the scripts do not show. The model keeps `currentInput` and the vertical component of `moveDirection`.
- Coroutine scheduling is replaced by the `cooldown` countdown and the `Transition` record, advanced once per frame. Within a frame, the `Update` body runs first and the resumption comes after it.
- Input polling, `Physics.Raycast` and `isGrounded` are fields of the frame record. The grounded flag is taken as constant within a frame, since `Move` is the last call of the movement body.
- Floating-point rounding is not modelled: stamina, pitch, heights, times and velocities are `real`. The one float special case that matters, `elapsed / 0` inside the lerp, is modelled by `Player.Progress`.
- `playerCanHeadbob` has no effect in the model because headbob is left out. `PlayerCanMove` is a configuration flag, because its private setter is never called.
- The commented-out old controller at the end of `PlayerController.cs` is dead code.
- Gun.Reload: its contract describes the result only when `Gun.NoWrap` holds: the deficit and the sums of the branch it selects stay in the 32-bit range. Past that point, which a magazine already driven negative reaches after about thirty more reloads, the wrapped values are computed by `Int32.Wrap` but not characterised.
- GunProperties.AsWrittenNeverOverfills: proved only when nothing wraps, because a wrapped sum can exceed `magSize`.
- GunProperties.AsWrittenReloadShrinksMagazine: proved only when nothing wraps, because a wrapped difference can exceed the value it was taken from.
