/** Properties of the particle pool that relate several steps: the ranges
    of the emitted values, and what repeated ticks do to one group. */
module ParticleProperties {
  import opened Optional
  import opened Vectors
  import opened Particles

  // --------------------------------------------------------------- emission

  /** The emitted speed factor and size factor lie in [0.5, 1) of their base. */
  lemma EmittedSizesInRange(b: Buffers, opts: ParticleOptions, draws: seq<Draw>, trig: Trig)
    requires |draws| == opts.count && Emitted(b, opts, draws, trig)
    requires forall i :: 0 <= i < |draws| ==> ValidDraw(draws[i])
    requires opts.size > 0.0
    ensures forall i :: 0 <= i < opts.count ==> 0.5 * opts.size <= b.sizes[i] < opts.size
  {
    forall i | 0 <= i < opts.count
      ensures 0.5 * opts.size <= b.sizes[i] < opts.size
    {
      var u := draws[i].size;
      assert ValidDraw(draws[i]);
      assert b.sizes[i] == 0.5 * opts.size + opts.size * u * 0.5;
      assert 0.0 <= opts.size * u < opts.size;
    }
  }

  lemma SpeedInRange(speed: real, u: real)
    requires UnitInterval(u) && speed > 0.0
    ensures 0.5 * speed <= Speed(speed, u) < speed
  {
    assert Speed(speed, u) == 0.5 * speed + speed * u * 0.5;
    assert 0.0 <= speed * u < speed;
  }

  /** `c` is `base` with all three channels scaled by one factor in [0.8, 1.2). */
  ghost predicate TintOf(c: Rgb, base: Rgb) {
    exists f :: 0.8 <= f < 1.2 && c == Tint(base, f)
  }

  /** Every particle colour is the base colour times one factor in [0.8, 1.2),
      the same factor on all three channels. */
  lemma EmittedColorsShareOneFactor(b: Buffers, opts: ParticleOptions, draws: seq<Draw>, trig: Trig)
    requires |draws| == opts.count && Emitted(b, opts, draws, trig)
    requires forall i :: 0 <= i < |draws| ==> ValidDraw(draws[i])
    ensures forall i :: 0 <= i < opts.count ==> TintOf(ColorAt(b.colors, i), opts.color)
  {
    forall i | 0 <= i < opts.count
      ensures TintOf(ColorAt(b.colors, i), opts.color)
    {
      assert ValidDraw(draws[i]);
      var f := TintFactor(draws[i].tint);
      assert 0.8 <= f < 1.2;
      assert ColorAt(b.colors, i) == Tint(opts.color, f);
    }
  }

  /** `sin^2 + cos^2 = 1` at `a`: the one trigonometric fact used, taken as
      a hypothesis because the functions are uninterpreted. */
  predicate Pythagorean(trig: Trig, a: real) {
    trig.sin(a) * trig.sin(a) + trig.cos(a) * trig.cos(a) == 1.0
  }

  function Azimuth(d: Draw): real {
    d.theta * Pi * 2.0
  }

  function Polar(d: Draw, trig: Trig): real {
    trig.acos(2.0 * d.phi - 1.0)
  }

  /** With the Pythagorean identity at both angles, the initial velocity has
      length exactly the sampled speed: the angles pick only a direction. */
  lemma InitialSpeedIsSampledSpeed(speed: real, d: Draw, trig: Trig)
    requires Pythagorean(trig, Azimuth(d)) && Pythagorean(trig, Polar(d, trig))
    ensures Norm2(InitialVelocity(speed, d, trig)) == Speed(speed, d.speed) * Speed(speed, d.speed)
  {
    var r := Speed(speed, d.speed);
    var st, ct := trig.sin(Azimuth(d)), trig.cos(Azimuth(d));
    var sp, cp := trig.sin(Polar(d, trig)), trig.cos(Polar(d, trig));
    var v := InitialVelocity(speed, d, trig);
    assert v == Vec3(r * sp * ct, r * sp * st, r * cp);
    calc {
      Norm2(v);
      (r * sp * ct) * (r * sp * ct) + (r * sp * st) * (r * sp * st) + (r * cp) * (r * cp);
      (r * r) * ((sp * sp) * (ct * ct + st * st) + cp * cp);
      { assert ct * ct + st * st == 1.0; }
      (r * r) * (sp * sp + cp * cp);
      r * r;
    }
  }

  /** After the first tick, particle `i` of a fresh group has moved from the
      emission point by its sampled speed times `dt`, whatever the angles. */
  lemma FirstTickDisplacement(b: Buffers, opts: ParticleOptions, draws: seq<Draw>, trig: Trig, dt: real, i: nat)
    requires |draws| == opts.count && Emitted(b, opts, draws, trig) && i < opts.count
    requires Pythagorean(trig, Azimuth(draws[i])) && Pythagorean(trig, Polar(draws[i], trig))
    ensures var moved := Item(StepPositions(b.positions, b.velocities, dt), i);
      Norm2(Sub(moved, opts.position)) == Speed(opts.speed, draws[i].speed) * Speed(opts.speed, draws[i].speed) * (dt * dt)
  {
    var v := Item(b.velocities, i);
    StepIsPerParticleEuler(b.positions, b.velocities, 0.0, dt, i);
    InitialSpeedIsSampledSpeed(opts.speed, draws[i], trig);
    var moved := Item(StepPositions(b.positions, b.velocities, dt), i);
    assert Sub(moved, opts.position) == Scale(v, dt);
    Norm2OfScale(v, dt);
  }

  // ------------------------------------------------------------ repeated ticks

  /** One group ticked with the frame durations `dts`, while it survives:
      `None` once a tick retires it. */
  function Run(g: Group, dts: seq<real>): Option<Group>
    requires WellFormed(g.buffers)
    decreases |dts|
  {
    if |dts| == 0 then Some(g)
    else if Expires(g) then None
    else Run(Advance(g, dts[0]), dts[1..])
  }

  /** With a positive decay, life falls by exactly the decay each tick and
      the group survives `n` ticks iff `life - n * decay` is still positive. */
  lemma {:induction false} LifeAfterTicks(g: Group, dts: seq<real>)
    requires WellFormed(g.buffers) && g.life > 0.0
    requires g.decay.PerTick? && g.decay.amount > 0.0
    ensures Run(g, dts).Some? <==> g.life - |dts| as real * g.decay.amount > 0.0
    ensures Run(g, dts).Some? ==> Run(g, dts).value.life == g.life - |dts| as real * g.decay.amount
    decreases |dts|
  {
    if |dts| > 0 {
      var d := g.decay.amount;
      var n := |dts| as real;
      assert g.life - n * d == (g.life - d) - (n - 1.0) * d;
      if Expires(g) {
        assert (n - 1.0) * d >= 0.0;
      } else {
        LifeAfterTicks(Advance(g, dts[0]), dts[1..]);
      }
    }
  }

  /** A group emitted with a one-second lifetime survives 59 ticks and is
      retired on the 60th, whatever the frame durations. */
  lemma OneSecondGroupLivesSixtyTicks(g: Group, dts: seq<real>)
    requires WellFormed(g.buffers) && g.life == 1.0 && g.decay == DecayFor(1.0)
    ensures Run(g, dts).Some? <==> |dts| < 60
  {
    LifeAfterTicks(g, dts);
  }

  function Pow(b: real, n: nat): real {
    if n == 0 then 1.0 else b * Pow(b, n - 1)
  }

  /** Drag compounds per tick, independently of the frame durations: after
      `k` ticks an x or z velocity component (and, without gravity, a y
      component) is its emitted value times `0.98^k`. */
  lemma {:induction false} DragCompounds(g: Group, dts: seq<real>, n: nat)
    requires WellFormed(g.buffers) && n < |g.buffers.velocities|
    requires n % 3 != 1 || g.gravity == 0.0
    requires Run(g, dts).Some?
    ensures WellFormed(Run(g, dts).value.buffers)
    ensures n < |Run(g, dts).value.buffers.velocities|
    ensures Run(g, dts).value.buffers.velocities[n] == Pow(Drag, |dts|) * g.buffers.velocities[n]
    decreases |dts|
  {
    if |dts| > 0 {
      var a := Advance(g, dts[0]);
      assert a.buffers.velocities[n] == g.buffers.velocities[n] * Drag;
      DragCompounds(a, dts[1..], n);
      assert Pow(Drag, |dts| - 1) * (g.buffers.velocities[n] * Drag)
          == Pow(Drag, |dts|) * g.buffers.velocities[n];
    }
  }
}
