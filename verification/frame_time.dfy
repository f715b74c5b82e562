/** Total elapsed time of a sequence of engine frames, for any frame record that carries a `deltaTime`. */
module FrameTime {

  /** The sum of `dt` over the frames, first frame first. */
  function Sum<F>(frames: seq<F>, dt: F -> real): real
    decreases |frames|
  {
    if |frames| == 0 then 0.0 else dt(frames[0]) + Sum(frames[1..], dt)
  }

  /** Frames with non-negative times add up to a non-negative time. */
  lemma {:induction false} SumNonNegative<F>(frames: seq<F>, dt: F -> real)
    requires forall i :: 0 <= i < |frames| ==> dt(frames[i]) >= 0.0
    ensures Sum(frames, dt) >= 0.0
    decreases |frames|
  {
    if |frames| > 0 {
      SumNonNegative(frames[1..], dt);
    }
  }

  /** Dropping the last frame of a sequence commutes with dropping its first. */
  lemma SumAllButLast<F>(frames: seq<F>, dt: F -> real)
    requires |frames| >= 2
    ensures Sum(frames[..|frames| - 1], dt) == dt(frames[0]) + Sum(frames[1..][..|frames| - 2], dt)
  {
    assert frames[..|frames| - 1][1..] == frames[1..][..|frames| - 2];
  }
}
