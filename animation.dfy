/**
 * Keyframe animation: a sampler walks a track of key times and values,
 * keeping the two keys around the current time and looping at the end of
 * the track; an animation drives a position, a rotation and a scale sampler
 * with the same clock and composes their outputs into a target matrix.
 */
module Animations {
  import opened Linear

  /** A track: key times in seconds and one value per key. */
  datatype Track<T> = Track(key: seq<real>, value: seq<T>)

  /**
   * A track a sampler can walk: one value per key, at least one key, no
   * negative key and a positive last key (with a last key of 0 the stepping
   * loop never ends).
   */
  predicate TrackOk<T>(track: Track<T>)
  {
    && |track.key| == |track.value| > 0
    && (forall k :: 0 <= k < |track.key| ==> track.key[k] >= 0.0)
    && track.key[|track.key| - 1] > 0.0
  }

  /**
   * A sampler's state: the key it heads for, the current time, the times
   * of the segment it is in, and the values at both ends of the segment.
   */
  datatype SamplerState<T> = SamplerState(nextKey: nat, t: real, t0: real, t1: real, src: T, dst: T)

  /**
   * What holds between steps: the next key is a key of the track, and the
   * segment ends at that key's time, or (as right after a reset) the next
   * key is the first and the segment ends at 0.
   */
  predicate StateOk<T>(track: Track<T>, s: SamplerState<T>)
  {
    && s.nextKey < |track.key|
    && (s.t1 == track.key[s.nextKey] || (s.nextKey == 0 && s.t1 == 0.0))
  }

  /** reset: back to the first key at time 0, both ends at the first value. */
  function ResetState<T>(track: Track<T>): (r: SamplerState<T>)
    requires |track.value| > 0
    ensures r.nextKey == 0 && r.t == 0.0 && r.t0 == 0.0 && r.t1 == 0.0
    ensures r.src == track.value[0] && r.dst == track.value[0]
    ensures TrackOk(track) ==> StateOk(track, r) && r.t0 <= r.t <= r.t1
  {
    SamplerState(0, 0.0, 0.0, 0.0, track.value[0], track.value[0])
  }

  /** Moving on from the last of n keys wraps to the first; from any other key, to the next. */
  lemma {:induction false} WrapAround(k: nat, n: nat)
    requires 0 < k <= n
    ensures k % n == if k == n then 0 else k
  {
  }

  /**
   * One pass of advance's stepping loop: the next key moves on by one,
   * wrapping at the end of the track; on the wrap the time is taken back by
   * the segment end and the segment end is reset to 0; then the segment
   * shifts: the old end becomes the start and the new key the end.
   */
  function Step<T>(track: Track<T>, s: SamplerState<T>): (r: SamplerState<T>)
    requires TrackOk(track) && StateOk(track, s)
    ensures StateOk(track, r)
    ensures r.nextKey == if s.nextKey + 1 == |track.key| then 0 else s.nextKey + 1
    ensures r.nextKey == 0 ==> r.t == s.t - s.t1 && r.t0 == 0.0
    ensures r.nextKey != 0 ==> r.t == s.t && r.t0 == s.t1
    ensures r.t1 == track.key[r.nextKey] && r.src == s.dst && r.dst == track.value[r.nextKey]
  {
    WrapAround(s.nextKey + 1, |track.key|);
    var k := (s.nextKey + 1) % |track.key|;
    var t := if k == 0 then s.t - s.t1 else s.t;
    var t1 := if k == 0 then 0.0 else s.t1;
    SamplerState(k, t, t1, track.key[k], s.dst, track.value[k])
  }

  /**
   * The stepping loop's progress is measured by two counts, compared in
   * order: the whole multiples of the last key left in the time, then the
   * keys left in the current trip through the track, plus one for the
   * reset state whose segment ends at 0 rather than at a key.
   */
  function Laps<T>(track: Track<T>, s: SamplerState<T>): int
    requires TrackOk(track)
  {
    (s.t / track.key[|track.key| - 1]).Floor
  }

  function KeysLeft<T>(track: Track<T>, s: SamplerState<T>): int
    requires TrackOk(track) && StateOk(track, s)
  {
    (|track.key| - s.nextKey) + (if s.t1 == track.key[s.nextKey] then 0 else 1)
  }

  /** Taking one period off the time takes one off the number of periods. */
  lemma {:induction false} PeriodFloor(t: real, period: real)
    requires period > 0.0
    ensures ((t - period) / period).Floor == (t / period).Floor - 1
  {
    assert period / period == 1.0;
    assert (t - period) / period == t / period - period / period;
  }

  /** A time above the segment end is at least zero periods. */
  lemma {:induction false} FloorNonneg(t: real, period: real)
    requires period > 0.0 && t >= 0.0
    ensures (t / period).Floor >= 0
  {
    assert t / period >= 0.0;
  }

  /**
   * Every pass of the stepping loop (taken while the time is past the
   * segment end) lowers the measure, which stays non-negative: the loop ends.
   */
  lemma {:induction false} StepDecreases<T>(track: Track<T>, s: SamplerState<T>)
    requires TrackOk(track) && StateOk(track, s) && s.t > s.t1
    ensures 0 <= Laps(track, s) && 0 <= KeysLeft(track, s)
    ensures var r := Step(track, s);
            || Laps(track, r) < Laps(track, s)
            || (Laps(track, r) == Laps(track, s) && KeysLeft(track, r) < KeysLeft(track, s))
  {
    var last := track.key[|track.key| - 1];
    var r := Step(track, s);
    assert s.t1 >= 0.0;
    FloorNonneg(s.t, last);
    if r.nextKey == 0 && s.t1 == last {
      PeriodFloor(s.t, last);
      assert Laps(track, r) < Laps(track, s);
    } else {
      assert r.t == s.t;
      assert Laps(track, r) == Laps(track, s);
      assert KeysLeft(track, r) < KeysLeft(track, s);
    }
  }

  /**
   * advance's stepping loop: steps while the time is past the segment end.
   */
  function Settle<T>(track: Track<T>, s: SamplerState<T>): (r: SamplerState<T>)
    requires TrackOk(track) && StateOk(track, s)
    ensures StateOk(track, r)
    decreases Laps(track, s), KeysLeft(track, s)
  {
    if s.t > s.t1 then
      StepDecreases(track, s);
      Settle(track, Step(track, s))
    else s
  }

  /**
   * When the loop ends the time is within the segment, and a time that was
   * not before the segment start still is not.
   */
  lemma SettleWithinSegment<T>(track: Track<T>, s: SamplerState<T>)
    requires TrackOk(track) && StateOk(track, s)
    ensures Settle(track, s).t <= Settle(track, s).t1
    ensures s.t0 <= s.t ==> Settle(track, s).t0 <= Settle(track, s).t
    decreases Laps(track, s), KeysLeft(track, s)
  {
    if s.t > s.t1 {
      StepDecreases(track, s);
      var r := Step(track, s);
      assert s.t1 >= 0.0;
      assert r.t0 <= r.t;
      SettleWithinSegment(track, r);
    }
  }

  /**
   * The interpolation factor: 0 at the segment start, otherwise the
   * fraction of the segment elapsed.
   */
  function Factor<T>(s: SamplerState<T>): (f: real)
    requires s.t == s.t0 || s.t1 != s.t0
  {
    if s.t == s.t0 then 0.0 else (s.t - s.t0) / (s.t1 - s.t0)
  }

  /** Within the segment the factor is a fraction: 0 at the start, 1 at the end. */
  lemma FactorInUnit<T>(s: SamplerState<T>)
    requires s.t0 <= s.t <= s.t1
    ensures 0.0 <= Factor(s) <= 1.0
    ensures s.t == s.t0 ==> Factor(s) == 0.0
    ensures s.t0 < s.t == s.t1 ==> Factor(s) == 1.0
  {
    if s.t != s.t0 {
      var d := s.t1 - s.t0;
      assert d > 0.0;
      assert (s.t - s.t0) <= d;
      assert (s.t - s.t0) / d <= d / d;
    }
  }

  /**
   * A sampler over a track. Interpolation between two values (lerp for
   * vectors and scalars, slerp for quaternions) is a parameter of advance.
   */
  class Sampler<T> {
    const track: Track<T>
    var nextKey: nat
    var t: real
    var t0: real
    var t1: real
    var src: T
    var dst: T

    function State(): SamplerState<T>
      reads this
    {
      SamplerState(nextKey, t, t0, t1, src, dst)
    }

    /** What advance hands out: the segment's values interpolated by the elapsed fraction. */
    function Output(interpolate: (real, T, T) -> T): T
      reads this
      requires t == t0 || t1 != t0
    {
      interpolate(Factor(State()), src, dst)
    }

    /** The state advance leaves: the time moved on by dt, then stepped into its segment. */
    ghost function Advanced(dt: real): SamplerState<T>
      reads this
      requires Valid() && dt >= 0.0
    {
      Settle(track, State().(t := t + dt))
    }

    /** A walkable track, a state between steps, and the time within the segment. */
    ghost predicate Valid()
      reads this
    {
      TrackOk(track) && StateOk(track, State()) && t0 <= t <= t1
    }

    /**
     * The constructor: the member initialisers put the next key and all
     * times at 0; both values are default-constructed (initial).
     */
    constructor (track: Track<T>, initial: T)
      requires TrackOk(track)
      ensures Valid()
      ensures this.track == track
      ensures State() == SamplerState(0, 0.0, 0.0, 0.0, initial, initial)
    {
      this.track := track;
      nextKey := 0;
      t, t0, t1 := 0.0, 0.0, 0.0;
      src, dst := initial, initial;
    }

    /** reset: back to the first key at time 0. */
    method Reset()
      requires TrackOk(track)
      modifies this
      ensures Valid()
      ensures State() == ResetState(track)
    {
      nextKey := 0;
      src := track.value[0];
      dst := track.value[0];
      t0 := 0.0;
      t1 := 0.0;
      t := 0.0;
    }

    /**
     * One pass of advance's stepping loop: on to the next key, looping
     * around at the end of the track, and the segment shifts to end there.
     */
    method NextSegment()
      requires TrackOk(track) && StateOk(track, State())
      modifies this
      ensures State() == Step(track, old(State()))
    {
      nextKey := (nextKey + 1) % |track.key|;
      if nextKey == 0 {
        t := t - t1;
        t1 := 0.0;
      }
      t0 := t1;
      src := dst;
      t1 := track.key[nextKey];
      dst := track.value[nextKey];
    }

    /**
     * advance: moves the time on by dt, steps through the keys until the
     * time is within the segment, and interpolates between the segment's
     * values by the elapsed fraction.
     */
    method Advance(dt: real, interpolate: (real, T, T) -> T) returns (out: T)
      requires Valid() && dt >= 0.0
      modifies this
      ensures Valid()
      ensures State() == old(Advanced(dt))
      ensures out == Output(interpolate)
    {
      ghost var goal := Advanced(dt);
      t := t + dt;
      SettleWithinSegment(track, State());
      while t > t1
        invariant TrackOk(track) && StateOk(track, State())
        invariant Settle(track, State()) == goal
        decreases Laps(track, State()), KeysLeft(track, State())
      {
        ghost var s := State();
        StepDecreases(track, s);
        NextSegment();
        assert Settle(track, s) == Settle(track, State());
      }
      var f := if t == t0 then 0.0 else (t - t0) / (t1 - t0);
      out := interpolate(f, src, dst);
    }
  }

  /** The matrix an animation writes to, owned by its caller. */
  class MatrixRef {
    var value: Mat4

    constructor (value: Mat4)
      ensures this.value == value
    {
      this.value := value;
    }
  }

  /**
   * An animation: a position, a rotation and a scale sampler over their
   * own tracks, and the target matrix it writes.
   */
  class Animation {
    const target: MatrixRef
    const positionSampler: Sampler<Vec3>
    const rotationSampler: Sampler<Quat>
    const scaleSampler: Sampler<Vec3>

    ghost predicate Valid()
      reads this, positionSampler, rotationSampler, scaleSampler
    {
      && positionSampler != scaleSampler
      && positionSampler as object != rotationSampler as object
      && scaleSampler as object != rotationSampler as object
      && positionSampler.Valid() && rotationSampler.Valid() && scaleSampler.Valid()
    }

    /** The constructor: one sampler per track, all writing to target. */
    constructor (positionTrack: Track<Vec3>, rotationTrack: Track<Quat>, scaleTrack: Track<Vec3>,
                 target: MatrixRef, zero: Vec3, identity: Quat)
      requires TrackOk(positionTrack) && TrackOk(rotationTrack) && TrackOk(scaleTrack)
      ensures Valid() && this.target == target
      ensures positionSampler.track == positionTrack && rotationSampler.track == rotationTrack
      ensures scaleSampler.track == scaleTrack
      ensures fresh(positionSampler) && fresh(rotationSampler) && fresh(scaleSampler)
    {
      this.target := target;
      positionSampler := new Sampler(positionTrack, zero);
      rotationSampler := new Sampler(rotationTrack, identity);
      scaleSampler := new Sampler(scaleTrack, zero);
    }

    /** reset: all three samplers back to time 0. */
    method Reset()
      requires Valid()
      modifies positionSampler, rotationSampler, scaleSampler
      ensures Valid()
      ensures positionSampler.State() == ResetState(positionSampler.track)
      ensures rotationSampler.State() == ResetState(rotationSampler.track)
      ensures scaleSampler.State() == ResetState(scaleSampler.track)
    {
      positionSampler.Reset();
      rotationSampler.Reset();
      scaleSampler.Reset();
    }

    /**
     * advance: the same dt for all three samplers, then the target becomes
     * translation times scale times rotation of the sampled values, which
     * the parameter compose builds.
     */
    method Advance(dt: real, lerp: (real, Vec3, Vec3) -> Vec3, slerp: (real, Quat, Quat) -> Quat,
                   compose: (Vec3, Vec3, Quat) -> Mat4)
      requires Valid() && dt >= 0.0
      modifies positionSampler, rotationSampler, scaleSampler, target
      ensures Valid()
      ensures positionSampler.State() == old(positionSampler.Advanced(dt))
      ensures rotationSampler.State() == old(rotationSampler.Advanced(dt))
      ensures scaleSampler.State() == old(scaleSampler.Advanced(dt))
      ensures target.value == compose(positionSampler.Output(lerp), scaleSampler.Output(lerp), rotationSampler.Output(slerp))
    {
      var pos := positionSampler.Advance(dt, lerp);
      var rot := rotationSampler.Advance(dt, slerp);
      var scale := scaleSampler.Advance(dt, lerp);
      target.value := compose(pos, scale, rot);
    }
  }
}
