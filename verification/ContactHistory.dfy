/** The bounded ring of per-tick frames that claims are checked against. */
module ContactHistories {
  import opened Wrappers
  import opened GameMaps
  import opened RealArithmetic

  type EntityId = string

  /** One entity in one frame; `life` is a player's life id or an enemy's generation. */
  datatype Sample<+F> = Sample(position: Position, life: nat, flags: F)

  datatype PlayerFlags = PlayerFlags(direction: Direction, speed: real, score: nat,
                                     isInvincible: bool, spawnProtected: bool, isAlive: bool)

  datatype EnemyFlags = EnemyFlags(direction: Direction, speed: real, score: nat, respawnedAtTick: nat)

  datatype Frame = Frame(tick: nat, players: map<EntityId, Sample<PlayerFlags>>,
                         enemies: map<EntityId, Sample<EnemyFlags>>)

  // ---- sampling ----

  /** The first frame of a tick. */
  function FrameAt(frames: seq<Frame>, tick: nat): Option<Frame> {
    if frames == [] then None
    else if frames[0].tick == tick then Some(frames[0])
    else FrameAt(frames[1..], tick)
  }

  function PlayerAt(frames: seq<Frame>, id: EntityId, tick: nat): Option<Sample<PlayerFlags>> {
    var f := FrameAt(frames, tick);
    if f.Some? && id in f.value.players then Some(f.value.players[id]) else None
  }

  function EnemyAt(frames: seq<Frame>, id: EntityId, tick: nat): Option<Sample<EnemyFlags>> {
    var f := FrameAt(frames, tick);
    if f.Some? && id in f.value.enemies then Some(f.value.enemies[id]) else None
  }

  /** Rounding to a tick number saturates at zero. */
  function FloorTick(t: real): nat {
    if t.Floor < 0 then 0 else t.Floor
  }

  function CeilTick(t: real): nat {
    var c := if t.Floor as real == t then t.Floor else t.Floor + 1;
    if c < 0 then 0 else c
  }

  /** The part `t` of the way along a distance `d`. */
  function Along(d: real, t: real): real {
    d * t
  }

  function Between(a: Position, b: Position, t: real): Position {
    Position(a.x + Along(b.x - a.x, t), a.y + Along(b.y - a.y, t))
  }

  /**
   What is drawn at time `tick` from the entity in the frames below and above it; refused across
   lives and at gaps.
   */
  function Interpolated<F>(lo: Option<Sample<F>>, hi: Option<Sample<F>>, life: Option<nat>, tick: real)
    : Option<Sample<F>>
  {
    if lo.None? || (life.Some? && lo.value.life != life.value) then None
    else if CeilTick(tick) == FloorTick(tick) then lo
    else if hi.None? || (life.Some? && hi.value.life != life.value) then None
    else if hi.value.life != lo.value.life then None
    else
      var position := Between(lo.value.position, hi.value.position, tick - FloorTick(tick) as real);
      Some(lo.value.(position := position))
  }

  function SampledPlayer(frames: seq<Frame>, id: EntityId, tick: real): Option<Sample<PlayerFlags>> {
    Interpolated(PlayerAt(frames, id, FloorTick(tick)), PlayerAt(frames, id, CeilTick(tick)), None, tick)
  }

  function SampledEnemy(frames: seq<Frame>, id: EntityId, generation: Option<nat>, tick: real)
    : Option<Sample<EnemyFlags>>
  {
    Interpolated(EnemyAt(frames, id, FloorTick(tick)), EnemyAt(frames, id, CeilTick(tick)), generation, tick)
  }

  /** The last `n` frames. */
  function Latest(frames: seq<Frame>, n: nat): seq<Frame> {
    if |frames| <= n then frames else frames[|frames| - n..]
  }

  // ---- the ring ----

  class ContactHistory {
    var ring: seq<Frame>
    const maxFrames: nat
    /** Every frame ever recorded. */
    ghost var log: seq<Frame>

    ghost predicate Valid()
      reads this
    {
      ring == Latest(log, maxFrames)
    }

    constructor (maxFrames: nat)
      ensures Valid() && ring == [] && log == [] && this.maxFrames == maxFrames
    {
      ring, log := [], [];
      this.maxFrames := maxFrames;
    }

    method PushFrame(frame: Frame)
      requires Valid()
      modifies this
      ensures Valid() && log == old(log) + [frame]
      ensures |ring| == Min(maxFrames, |log|) && ring == log[|log| - |ring|..]
    {
      log := log + [frame];
      ring := ring + [frame];
      ghost var pushed := ring;
      ghost var dropped := 0;
      while |ring| > maxFrames
        invariant dropped <= |pushed| && ring == pushed[dropped..] && log == old(log) + [frame]
        invariant dropped > 0 ==> |ring| >= maxFrames
        decreases |ring|
      {
        ring := ring[1..];
        dropped := dropped + 1;
      }
      assert ring == Latest(log, maxFrames);
    }

    method FindFrame(tick: nat) returns (f: Option<Frame>)
      ensures f == FrameAt(ring, tick)
    {
      var i := 0;
      while i < |ring|
        invariant i <= |ring| && FrameAt(ring, tick) == FrameAt(ring[i..], tick)
      {
        if ring[i].tick == tick {
          return Some(ring[i]);
        }
        assert ring[i..][1..] == ring[i + 1..];
        i := i + 1;
      }
      return None;
    }

    method SamplePlayer(id: EntityId, tick: real) returns (s: Option<Sample<PlayerFlags>>)
      ensures s == SampledPlayer(ring, id, tick)
    {
      var loTick, hiTick := FloorTick(tick), CeilTick(tick);
      var loFrame := FindFrame(loTick);
      if loFrame.None? || id !in loFrame.value.players {
        return None;
      }
      var lo := loFrame.value.players[id];
      if hiTick == loTick {
        return Some(lo);
      }
      var hiFrame := FindFrame(hiTick);
      if hiFrame.None? || id !in hiFrame.value.players {
        return None;
      }
      var hi := hiFrame.value.players[id];
      if hi.life != lo.life {
        return None;
      }
      return Some(lo.(position := Between(lo.position, hi.position, tick - loTick as real)));
    }

    method SampleEnemy(id: EntityId, generation: Option<nat>, tick: real) returns (s: Option<Sample<EnemyFlags>>)
      ensures s == SampledEnemy(ring, id, generation, tick)
    {
      var loTick, hiTick := FloorTick(tick), CeilTick(tick);
      var loFrame := FindFrame(loTick);
      if loFrame.None? || id !in loFrame.value.enemies {
        return None;
      }
      var lo := loFrame.value.enemies[id];
      if generation.Some? && lo.life != generation.value {
        return None;
      }
      if hiTick == loTick {
        return Some(lo);
      }
      var hiFrame := FindFrame(hiTick);
      if hiFrame.None? || id !in hiFrame.value.enemies {
        return None;
      }
      var hi := hiFrame.value.enemies[id];
      if (generation.Some? && hi.life != generation.value) || hi.life != lo.life {
        return None;
      }
      return Some(lo.(position := Between(lo.position, hi.position, tick - loTick as real)));
    }
  }

  // ---- the ring against the whole log ----

  predicate Increasing(frames: seq<Frame>) {
    forall i, j | 0 <= i < j < |frames| :: frames[i].tick < frames[j].tick
  }

  lemma {:induction false} FrameAtFinds(frames: seq<Frame>, tick: nat)
    ensures FrameAt(frames, tick).Some? ==> FrameAt(frames, tick).value in frames
    ensures FrameAt(frames, tick).Some? ==> FrameAt(frames, tick).value.tick == tick
    ensures FrameAt(frames, tick).None? <==> forall f | f in frames :: f.tick != tick
    decreases |frames|
  {
    if frames != [] {
      FrameAtFinds(frames[1..], tick);
      assert frames == [frames[0]] + frames[1..];
    }
  }

  /** With increasing ticks, the ring finds what the log finds from its first tick on, and nothing before. */
  lemma {:induction false} RingFindsRecent(log: seq<Frame>, n: nat, tick: nat)
    requires Increasing(log)
    ensures var ring := Latest(log, n);
            FrameAt(ring, tick) == if ring != [] && tick >= ring[0].tick then FrameAt(log, tick) else None
    decreases |log|
  {
    var ring := Latest(log, n);
    if |log| <= n {
      if ring == [] || tick < ring[0].tick {
        FrameAtFinds(log, tick);
      }
    } else {
      assert Latest(log[1..], n) == ring;
      RingFindsRecent(log[1..], n, tick);
      assert ring != [] ==> ring[0] == log[|log| - n];
    }
  }

  /**
   Sampling the trimmed ring is sampling the whole log, as long as the lower frame is still in the
   ring; else nothing.
   */
  lemma PlayerSamplesAgree(log: seq<Frame>, n: nat, id: EntityId, tick: real)
    requires Increasing(log)
    ensures var ring := Latest(log, n);
            SampledPlayer(ring, id, tick) ==
              if ring != [] && FloorTick(tick) >= ring[0].tick then SampledPlayer(log, id, tick) else None
  {
    RingFindsRecent(log, n, FloorTick(tick));
    RingFindsRecent(log, n, CeilTick(tick));
    FloorBelowCeil(tick);
  }

  lemma EnemySamplesAgree(log: seq<Frame>, n: nat, id: EntityId, generation: Option<nat>, tick: real)
    requires Increasing(log)
    ensures var ring := Latest(log, n);
            SampledEnemy(ring, id, generation, tick) ==
              if ring != [] && FloorTick(tick) >= ring[0].tick then SampledEnemy(log, id, generation, tick) else None
  {
    RingFindsRecent(log, n, FloorTick(tick));
    RingFindsRecent(log, n, CeilTick(tick));
    FloorBelowCeil(tick);
  }

  lemma FloorBelowCeil(tick: real)
    ensures FloorTick(tick) <= CeilTick(tick) <= FloorTick(tick) + 1
    ensures FloorTick(tick) != CeilTick(tick) ==> 0.0 < tick - FloorTick(tick) as real < 1.0
  {
  }

  // ---- what a sample is ----

  ghost predicate OnSegment(p: Position, a: Position, b: Position) {
    exists t: real :: 0.0 <= t < 1.0 && p == Between(a, b, t)
  }

  predicate WithinBox(p: Position, a: Position, b: Position) {
    && (if a.x <= b.x then a.x <= p.x <= b.x else b.x <= p.x <= a.x)
    && (if a.y <= b.y then a.y <= p.y <= b.y else b.y <= p.y <= a.y)
  }

  lemma AlongForward(d: real, t: real)
    requires d >= 0.0 && 0.0 <= t < 1.0
    ensures 0.0 <= Along(d, t) <= d
  {
    ProductNotNegative(d, t, Along(d, t));
    ProductNotNegative(d, 1.0 - t, d - Along(d, t));
  }

  lemma AlongReversed(d: real, t: real)
    ensures Along(-d, t) == -Along(d, t)
  {
  }

  lemma AlongIsWithin(d: real, t: real)
    requires 0.0 <= t < 1.0
    ensures d >= 0.0 ==> 0.0 <= Along(d, t) <= d
    ensures d <= 0.0 ==> d <= Along(d, t) <= 0.0
  {
    hide Along;
    if d >= 0.0 {
      AlongForward(d, t);
    } else {
      AlongForward(-d, t);
      AlongReversed(d, t);
    }
  }

  /**
   A sample is refused exactly when the entity is not in the frame below, or has another life
   there than asked for, or, between two frames, is not in the frame above in the same life.
   Otherwise it is the recorded entity itself on a whole tick, and between two ticks a point
   on the segment between two positions of one life, with the flags of the frame below.
   */
  lemma SampleIsOneLife<F>(lo: Option<Sample<F>>, hi: Option<Sample<F>>, life: Option<nat>, tick: real)
    ensures var s := Interpolated(lo, hi, life, tick);
            var whole := CeilTick(tick) == FloorTick(tick);
            && (s.Some? <==> && lo.Some? && (life.Some? ==> lo.value.life == life.value)
                             && (whole || (hi.Some? && hi.value.life == lo.value.life)))
            && (s.Some? && whole ==> s == lo)
            && (s.Some? ==> s.value.life == lo.value.life && s.value.flags == lo.value.flags)
            && (s.Some? && !whole ==>
                  (OnSegment(s.value.position, lo.value.position, hi.value.position)
                   && WithinBox(s.value.position, lo.value.position, hi.value.position)))
  {
    hide Along;
    FloorBelowCeil(tick);
    var s := Interpolated(lo, hi, life, tick);
    if s.Some? && CeilTick(tick) != FloorTick(tick) {
      var t := tick - FloorTick(tick) as real;
      var a, b := lo.value.position, hi.value.position;
      assert s.value.position == Between(a, b, t);
      AlongIsWithin(b.x - a.x, t);
      AlongIsWithin(b.y - a.y, t);
    }
  }

  /** A sample of the log rests on one or two recorded frames, of the ticks just below and just above. */
  lemma PlayerSampleIsRecorded(log: seq<Frame>, id: EntityId, tick: real)
    requires SampledPlayer(log, id, tick).Some?
    ensures exists f | f in log ::
              && f.tick == FloorTick(tick) && id in f.players
              && f.players[id].life == SampledPlayer(log, id, tick).value.life
    ensures CeilTick(tick) != FloorTick(tick) ==>
              exists f | f in log ::
                && f.tick == CeilTick(tick) && id in f.players
                && f.players[id].life == SampledPlayer(log, id, tick).value.life
  {
    FrameAtFinds(log, FloorTick(tick));
    FrameAtFinds(log, CeilTick(tick));
    SampleIsOneLife(PlayerAt(log, id, FloorTick(tick)), PlayerAt(log, id, CeilTick(tick)), None, tick);
  }

  /** An enemy sample asked for one generation never shows another one. */
  lemma EnemySampleIsRecorded(log: seq<Frame>, id: EntityId, generation: Option<nat>, tick: real)
    requires SampledEnemy(log, id, generation, tick).Some?
    ensures var life := SampledEnemy(log, id, generation, tick).value.life;
            && (generation.Some? ==> life == generation.value)
            && (exists f | f in log :: f.tick == FloorTick(tick) && id in f.enemies && f.enemies[id].life == life)
            && (CeilTick(tick) != FloorTick(tick) ==>
                  exists f | f in log :: f.tick == CeilTick(tick) && id in f.enemies && f.enemies[id].life == life)
  {
    FrameAtFinds(log, FloorTick(tick));
    FrameAtFinds(log, CeilTick(tick));
    SampleIsOneLife(EnemyAt(log, id, FloorTick(tick)), EnemyAt(log, id, CeilTick(tick)), generation, tick);
  }

  // ---- where a sample is ----

  /** The place at time `t` of something that moves uniformly, from `p` at time zero with velocity `v`. */
  function Uniform(p: Position, v: Position, t: real): Position {
    Position(p.x + v.x * t, p.y + v.y * t)
  }

  lemma OneTickOn(v: real, x: real, lo: real, t: real)
    ensures (x + v * lo) + Along((x + v * (lo + 1.0)) - (x + v * lo), t - lo) == x + v * t
  {
    assert (x + v * (lo + 1.0)) - (x + v * lo) == v;
    assert v * lo + v * (t - lo) == v * t;
  }

  /** Between two ticks the sample is as far along as the time is: uniform motion is drawn where it was. */
  lemma UniformMotionIsDrawn<F>(lo: Sample<F>, hi: Sample<F>, p: Position, v: Position, tick: real)
    requires tick >= 0.0 && lo.life == hi.life
    requires lo.position == Uniform(p, v, FloorTick(tick) as real)
    requires hi.position == Uniform(p, v, CeilTick(tick) as real)
    ensures var s := Interpolated(Some(lo), Some(hi), None, tick);
            s.Some? && s.value == lo.(position := Uniform(p, v, tick))
  {
    FloorBelowCeil(tick);
    if CeilTick(tick) == FloorTick(tick) {
      assert tick == FloorTick(tick) as real;
    } else {
      OneTickOn(v.x, p.x, FloorTick(tick) as real, tick);
      OneTickOn(v.y, p.y, FloorTick(tick) as real, tick);
      hide Along;
    }
  }

  /** In both frames around `tick` the player is in this life, where uniform motion puts it. */
  predicate PlayerMovesUniformly(frames: seq<Frame>, id: EntityId, life: nat, p: Position, v: Position, tick: real) {
    var lo, hi := PlayerAt(frames, id, FloorTick(tick)), PlayerAt(frames, id, CeilTick(tick));
    && lo.Some? && lo.value.life == life && lo.value.position == Uniform(p, v, FloorTick(tick) as real)
    && hi.Some? && hi.value.life == life && hi.value.position == Uniform(p, v, CeilTick(tick) as real)
  }

  predicate EnemyMovesUniformly(frames: seq<Frame>, id: EntityId, life: nat, p: Position, v: Position, tick: real) {
    var lo, hi := EnemyAt(frames, id, FloorTick(tick)), EnemyAt(frames, id, CeilTick(tick));
    && lo.Some? && lo.value.life == life && lo.value.position == Uniform(p, v, FloorTick(tick) as real)
    && hi.Some? && hi.value.life == life && hi.value.position == Uniform(p, v, CeilTick(tick) as real)
  }

  /** A player who moved uniformly is sampled where that player was, at every tick between two recorded ones. */
  lemma MovingPlayerIsSampled(frames: seq<Frame>, id: EntityId, life: nat, p: Position, v: Position, tick: real)
    requires tick >= 0.0 && PlayerMovesUniformly(frames, id, life, p, v, tick)
    ensures var s := SampledPlayer(frames, id, tick);
            && s.Some? && s.value.life == life && s.value.position == Uniform(p, v, tick)
            && s.value.flags == PlayerAt(frames, id, FloorTick(tick)).value.flags
  {
    hide Uniform;
    UniformMotionIsDrawn(PlayerAt(frames, id, FloorTick(tick)).value, PlayerAt(frames, id, CeilTick(tick)).value,
                         p, v, tick);
    hide Interpolated;
  }

  /** So is an enemy, if the claim names its generation or none; asked for another one, the sample is refused. */
  lemma MovingEnemyIsSampled(frames: seq<Frame>, id: EntityId, generation: Option<nat>, life: nat, p: Position,
                             v: Position, tick: real)
    requires tick >= 0.0 && EnemyMovesUniformly(frames, id, life, p, v, tick)
    ensures var s := SampledEnemy(frames, id, generation, tick);
            if generation.None? || generation.value == life
            then && s.Some? && s.value.life == life && s.value.position == Uniform(p, v, tick)
                 && s.value.flags == EnemyAt(frames, id, FloorTick(tick)).value.flags
            else s.None?
  {
    hide Uniform;
    var lo, hi := EnemyAt(frames, id, FloorTick(tick)).value, EnemyAt(frames, id, CeilTick(tick)).value;
    UniformMotionIsDrawn(lo, hi, p, v, tick);
    assert generation == Some(life) ==>
        Interpolated(Some(lo), Some(hi), generation, tick) == Interpolated(Some(lo), Some(hi), None, tick);
  }
}
