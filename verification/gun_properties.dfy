/**
  Properties of the gun model: the corrected reload keeps the ammunition invariant over
  any sequence of frames, the fire cooldown is exact and does not queue input, and the
  source reload, as written, loses or creates ammunition (the three defects in README).
*/
module GunProperties {
  import opened Int32
  import opened FrameTime
  import opened Gun

  /** The intended bounds: the magazine within [0, magSize] and a non-negative reserve. */
  ghost predicate AmmoInv(cfg: Config, s: State) {
    0 <= s.currentMag <= cfg.magSize && 0 <= s.currentReservedAmmo
  }

  /** Rounds the player owns: the magazine plus the reserve it reloads from. */
  function Total(s: State): int {
    s.currentMag + s.currentReservedAmmo
  }

  lemma RunStep(rule: ReloadRule, cfg: Config, s: State, frames: seq<Frame>)
    requires |frames| > 0
    ensures Run(rule, cfg, s, frames) == Run(rule, cfg, Tick(rule, cfg, s, frames[0]), frames[1..])
    ensures ShotsFired(rule, cfg, s, frames)
         == (if Fires(s, frames[0]) then 1 else 0) + ShotsFired(rule, cfg, Tick(rule, cfg, s, frames[0]), frames[1..])
  {
  }

  /** A freshly started gun with non-negative configuration satisfies the intended bounds. */
  lemma StartSatisfiesAmmoInv(cfg: Config)
    requires 0 <= cfg.magSize && 0 <= cfg.reservedAmmo
    ensures AmmoInv(cfg, Start(cfg)) && Total(Start(cfg)) == cfg.magSize + cfg.reservedAmmo
  {
  }

  /** One corrected frame keeps the bounds and loses a round only by firing it. */
  lemma CorrectedTickConservesAmmo(cfg: Config, s: State, f: Frame)
    requires AmmoInv(cfg, s)
    ensures AmmoInv(cfg, Tick(Corrected, cfg, s, f))
    ensures Total(Tick(Corrected, cfg, s, f)) + (if Fires(s, f) then 1 else 0) == Total(s)
  {
    if !Fires(s, f) && ReloadGuard(Corrected, cfg, s, f) {
      var r := ReloadCorrected(cfg, s);
      assert Tick(Corrected, cfg, s, f) == Cooldown(r, f.dt);
    }
  }

  /**
    Over any frames, the corrected machine keeps the magazine in [0, magSize] and the
    reserve non-negative, and every round that leaves is a shot fired.
  */
  lemma {:induction false} CorrectedRunConservesAmmo(cfg: Config, s: State, frames: seq<Frame>)
    requires AmmoInv(cfg, s)
    ensures AmmoInv(cfg, Run(Corrected, cfg, s, frames))
    ensures Total(Run(Corrected, cfg, s, frames)) + ShotsFired(Corrected, cfg, s, frames) == Total(s)
    decreases |frames|
  {
    if |frames| > 0 {
      CorrectedTickConservesAmmo(cfg, s, frames[0]);
      CorrectedRunConservesAmmo(cfg, Tick(Corrected, cfg, s, frames[0]), frames[1..]);
    }
  }

  /**
    While a cooldown is pending, no frame fires, whatever the input; fire becomes possible
    again at the end of exactly the frame by which the elapsed frame time reaches the
    remaining cooldown. Frames are counted up to the one in which the cooldown could end.
  */
  lemma {:induction false} CooldownWindow(rule: ReloadRule, cfg: Config, s: State, frames: seq<Frame>)
    requires !s.canShoot
    requires forall i :: 0 <= i < |frames| ==> frames[i].dt >= 0.0
    requires |frames| > 0 && SumDt(frames[..|frames| - 1]) < s.cooldown
    ensures ShotsFired(rule, cfg, s, frames) == 0
    ensures Run(rule, cfg, s, frames).canShoot <==> s.cooldown <= SumDt(frames)
    ensures !Run(rule, cfg, s, frames).canShoot ==> Run(rule, cfg, s, frames).cooldown == s.cooldown - SumDt(frames)
    decreases |frames|
  {
    var f := frames[0];
    var rest := frames[1..];
    var t := Tick(rule, cfg, s, f);
    assert !Fires(s, f);
    RunStep(rule, cfg, s, frames);
    if |rest| == 0 {
      assert frames == [f];
    } else {
      SumAllButLast(frames, Dt);
      SumNonNegative(rest[..|rest| - 1], Dt);
      assert !t.canShoot && t.cooldown == s.cooldown - f.dt;
      CooldownWindow(rule, cfg, t, rest);
    }
  }

  /** Fire input while the cooldown is pending is ignored, and not remembered for later. */
  lemma FireNotQueued(rule: ReloadRule, cfg: Config, s: State, f: Frame)
    requires !s.canShoot
    ensures Tick(rule, cfg, s, f) == Tick(rule, cfg, s, f.(fireHeld := false))
    ensures Tick(rule, cfg, s, f).currentMag <= s.currentMag || ReloadGuard(rule, cfg, s, f)
  {
  }

  /** As written, the magazine still never overfills when nothing wraps around. */
  lemma AsWrittenNeverOverfills(cfg: Config, s: State, f: Frame)
    requires s.currentMag <= cfg.magSize && NoWrap(cfg, s)
    ensures Tick(AsWritten, cfg, s, f).currentMag <= cfg.magSize
  {
  }

  /** Defect 1: the under-supply branch subtracts the whole deficit, so the reserve goes negative. */
  lemma AsWrittenUnderSupplyGoesNegative()
    ensures Tick(AsWritten, Config(0.1, 30, 3), State(25, 3, 3, true, 0.0), Frame(false, true, 0.02))
         == State(28, -2, 3, true, 0.0)
  {
  }

  /** Defect 2: the overflow branch charges the configured field, so the reserve is never drawn from. */
  lemma AsWrittenOverflowDuplicatesAmmo()
    ensures var s := State(10, 50, 50, true, 0.0);
            var r := Tick(AsWritten, Config(0.1, 30, 50), s, Frame(false, true, 0.02));
            r == State(30, 50, 30, true, 0.0) && Total(r) == Total(s) + 20
  {
  }

  /**
    Defect 3: the guard reads the configured `reservedAmmo`, so with a negative reserve
    every reload still runs, takes the under-supply branch, and shrinks the magazine.
  */
  lemma AsWrittenReloadShrinksMagazine(cfg: Config, s: State, f: Frame)
    requires !Fires(s, f) && ReloadGuard(AsWritten, cfg, s, f)
    requires s.currentReservedAmmo < 0 && NoWrap(cfg, s)
    ensures Tick(AsWritten, cfg, s, f).currentMag < s.currentMag
    ensures Tick(AsWritten, cfg, s, f).currentReservedAmmo < s.currentReservedAmmo
    ensures Tick(AsWritten, cfg, s, f).reservedAmmo == s.reservedAmmo
  {
  }

  lemma {:induction false} RunAppend(rule: ReloadRule, cfg: Config, s: State, a: seq<Frame>, b: seq<Frame>)
    ensures Run(rule, cfg, s, a + b) == Run(rule, cfg, Run(rule, cfg, s, a), b)
    decreases |a|
  {
    if |a| > 0 {
      assert (a + b)[0] == a[0] && (a + b)[1..] == a[1..] + b;
      RunStep(rule, cfg, s, a + b);
      RunStep(rule, cfg, s, a);
      RunAppend(rule, cfg, Tick(rule, cfg, s, a[0]), a[1..], b);
    } else {
      assert a + b == b;
    }
  }

  /** Holding fire for ten 0.2-second frames fires five rounds (the 0.1-second cooldown ends every other frame). */
  lemma AsWrittenFiveShots()
    ensures var cfg := Config(0.1, 30, 3);
            var fire := Frame(true, false, 0.2);
            Run(AsWritten, cfg, Start(cfg), [fire, fire, fire, fire, fire, fire, fire, fire, fire, fire])
            == State(25, 3, 3, true, 0.0)
  {
    var cfg := Config(0.1, 30, 3);
    var fire := Frame(true, false, 0.2);
    var shots := [fire, fire, fire, fire, fire, fire, fire, fire, fire, fire];
    RunStep(AsWritten, cfg, State(30, 3, 3, true, 0.0), shots[0..]);
    assert shots[0..][1..] == shots[1..];
    RunStep(AsWritten, cfg, State(29, 3, 3, false, 0.1), shots[1..]);
    assert shots[1..][1..] == shots[2..];
    RunStep(AsWritten, cfg, State(29, 3, 3, true, 0.0), shots[2..]);
    assert shots[2..][1..] == shots[3..];
    RunStep(AsWritten, cfg, State(28, 3, 3, false, 0.1), shots[3..]);
    assert shots[3..][1..] == shots[4..];
    RunStep(AsWritten, cfg, State(28, 3, 3, true, 0.0), shots[4..]);
    assert shots[4..][1..] == shots[5..];
    RunStep(AsWritten, cfg, State(27, 3, 3, false, 0.1), shots[5..]);
    assert shots[5..][1..] == shots[6..];
    RunStep(AsWritten, cfg, State(27, 3, 3, true, 0.0), shots[6..]);
    assert shots[6..][1..] == shots[7..];
    RunStep(AsWritten, cfg, State(26, 3, 3, false, 0.1), shots[7..]);
    assert shots[7..][1..] == shots[8..];
    RunStep(AsWritten, cfg, State(26, 3, 3, true, 0.0), shots[8..]);
    assert shots[8..][1..] == shots[9..];
    RunStep(AsWritten, cfg, State(25, 3, 3, false, 0.1), shots[9..]);
    assert shots[9..][1..] == shots[10..];
  }

  /** Five reloads from 25 rounds with 3 in reserve drive the magazine to -2. */
  lemma AsWrittenFiveReloads()
    ensures var reload := Frame(false, true, 0.2);
            Run(AsWritten, Config(0.1, 30, 3), State(25, 3, 3, true, 0.0), [reload, reload, reload, reload, reload])
            == State(-2, -32, 3, true, 0.0)
  {
    var cfg := Config(0.1, 30, 3);
    var reload := Frame(false, true, 0.2);
    var reloads := [reload, reload, reload, reload, reload];
    RunStep(AsWritten, cfg, State(25, 3, 3, true, 0.0), reloads[0..]);
    assert reloads[0..][1..] == reloads[1..];
    RunStep(AsWritten, cfg, State(28, -2, 3, true, 0.0), reloads[1..]);
    assert reloads[1..][1..] == reloads[2..];
    RunStep(AsWritten, cfg, State(26, -4, 3, true, 0.0), reloads[2..]);
    assert reloads[2..][1..] == reloads[3..];
    RunStep(AsWritten, cfg, State(22, -8, 3, true, 0.0), reloads[3..]);
    assert reloads[3..][1..] == reloads[4..];
    RunStep(AsWritten, cfg, State(14, -16, 3, true, 0.0), reloads[4..]);
    assert reloads[4..][1..] == reloads[5..];
  }

  /**
    From a fresh gun with a 30-round magazine and 3 rounds in reserve: five shots, then
    five reloads, leave the magazine at -2.
  */
  lemma AsWrittenMagazineGoesNegative()
    ensures var cfg := Config(0.1, 30, 3);
            var fire := Frame(true, false, 0.2);
            var reload := Frame(false, true, 0.2);
            var frames := [fire, fire, fire, fire, fire, fire, fire, fire, fire, fire] + [reload, reload, reload, reload, reload];
            Run(AsWritten, cfg, Start(cfg), frames).currentMag == -2
  {
    var cfg := Config(0.1, 30, 3);
    var fire := Frame(true, false, 0.2);
    var reload := Frame(false, true, 0.2);
    var shots := [fire, fire, fire, fire, fire, fire, fire, fire, fire, fire];
    var reloads := [reload, reload, reload, reload, reload];
    RunAppend(AsWritten, cfg, Start(cfg), shots, reloads);
    AsWrittenFiveShots();
    AsWrittenFiveReloads();
  }

  /** The corrected reload on the two situations above: 30/25/3 and 30/10/50. */
  lemma CorrectedReloadExamples()
    ensures Tick(Corrected, Config(0.1, 30, 3), State(25, 3, 3, true, 0.0), Frame(false, true, 0.02))
         == State(28, 0, 3, true, 0.0)
    ensures Tick(Corrected, Config(0.1, 30, 50), State(10, 50, 50, true, 0.0), Frame(false, true, 0.02))
         == State(30, 30, 50, true, 0.0)
  {
  }
}
