/** The particle pool of `src/particleSystem.ts`: `emit` fills the flat
    attribute buffers of one new group and appends it to the pool; `update`
    decays every group's life, retires and disposes the expired ones and
    advances the survivors by one explicit Euler step with gravity and drag. */
module Particles {
  import opened Optional
  import opened Vectors
  import Seqs

  /** The tick rate the decay assumes: a group lives `lifeTime * 60` ticks. */
  const FrameRate: real := 60.0
  /** Per-tick velocity damping, applied whatever the frame duration. */
  const Drag: real := 0.98
  /** `Math.PI` as an IEEE double. */
  const Pi: real := 3.141592653589793

  datatype Rgb = Rgb(r: real, g: real, b: real)

  /** `ParticleOptions`; `spread` is accepted and never read. */
  datatype ParticleOptions = ParticleOptions(
    count: nat,
    color: Rgb,
    position: Vec3,
    size: real,
    speed: real,
    spread: real,
    lifeTime: real,
    gravity: Option<real>)

  /** The five `Math.random()` results one particle consumes, in call order. */
  datatype Draw = Draw(theta: real, phi: real, speed: real, size: real, tint: real)

  predicate UnitInterval(u: real) {
    0.0 <= u < 1.0
  }

  predicate ValidDraw(d: Draw) {
    && UnitInterval(d.theta) && UnitInterval(d.phi) && UnitInterval(d.speed)
    && UnitInterval(d.size) && UnitInterval(d.tint)
  }

  /** `Math.sin`, `Math.cos` and `Math.acos`, left uninterpreted. */
  datatype Trig = Trig(sin: real -> real, cos: real -> real, acos: real -> real)

  /** Life lost per tick. `Unbounded` is the infinite decay `1 / (0 * 60)`
      of a zero lifetime, which retires the group on its first update. */
  datatype Decay = PerTick(amount: real) | Unbounded

  /** The four attributes of a group's geometry, flat as the typed arrays
      hold them: item size 3 for positions, velocities and colours, 1 for sizes. */
  datatype Buffers = Buffers(positions: seq<real>, velocities: seq<real>, sizes: seq<real>, colors: seq<real>)

  /** Identity of one `THREE.Points` object. */
  type Handle = nat

  /** One emitted group: its geometry, its material's opacity and its `userData`. */
  datatype Group = Group(handle: Handle, buffers: Buffers, opacity: real, life: real, decay: Decay, gravity: real)

  /** The pool `particles`, the particle objects currently added to the
      scene, and the identity the next emitted object receives. */
  datatype ParticleSystem = ParticleSystem(particles: seq<Group>, scene: set<Handle>, nextHandle: Handle)

  /** What `update` does to a retired group, each a separate step. */
  datatype Event = SceneRemove(handle: Handle) | GeometryDispose(handle: Handle) | MaterialDispose(handle: Handle)

  datatype UpdateResult = UpdateResult(system: ParticleSystem, events: seq<Event>)

  // ---------------------------------------------------------------- buffers

  function Count(b: Buffers): nat {
    |b.sizes|
  }

  predicate WellFormed(b: Buffers) {
    && |b.positions| == 3 * |b.sizes|
    && |b.velocities| == 3 * |b.sizes|
    && |b.colors| == 3 * |b.sizes|
  }

  function ColorAt(buf: seq<real>, i: nat): Rgb
    requires 3 * i + 2 < |buf|
  {
    var v := Item(buf, i);
    Rgb(v.x, v.y, v.z)
  }

  // --------------------------------------------------------------- emission

  /** `1 / (lifeTime * 60)`: the decay spreads one unit of life over the
      ticks of the lifetime. */
  function DecayFor(lifeTime: real): (d: Decay)
    ensures d.Unbounded? <==> lifeTime == 0.0
    ensures d.PerTick? ==> d.amount * (lifeTime * FrameRate) == 1.0
    ensures lifeTime > 0.0 ==> d.PerTick? && d.amount > 0.0
  {
    if lifeTime == 0.0 then Unbounded else PerTick(1.0 / (lifeTime * FrameRate))
  }

  function Speed(speed: real, u: real): real {
    speed * (0.5 + u * 0.5)
  }

  function ParticleSize(size: real, u: real): real {
    size * (0.5 + u * 0.5)
  }

  function TintFactor(u: real): real {
    0.8 + u * 0.4
  }

  /** `Color.multiplyScalar`: every channel scaled by the same factor. */
  function Tint(c: Rgb, f: real): Rgb {
    Rgb(c.r * f, c.g * f, c.b * f)
  }

  /** Azimuth `2*PI*u`, polar angle `acos(2u - 1)`, radius `Speed`. */
  function InitialVelocity(speed: real, d: Draw, trig: Trig): Vec3 {
    var theta := d.theta * Pi * 2.0;
    var phi := trig.acos(2.0 * d.phi - 1.0);
    var r := Speed(speed, d.speed);
    Vec3(r * trig.sin(phi) * trig.cos(theta), r * trig.sin(phi) * trig.sin(theta), r * trig.cos(phi))
  }

  /** The buffers `emit` builds for `opts` when particle `i` consumes `draws[i]`. */
  predicate Emitted(b: Buffers, opts: ParticleOptions, draws: seq<Draw>, trig: Trig)
    requires |draws| == opts.count
  {
    && WellFormed(b)
    && Count(b) == opts.count
    && (forall i :: 0 <= i < opts.count ==> Item(b.positions, i) == opts.position)
    && (forall i :: 0 <= i < opts.count ==> Item(b.velocities, i) == InitialVelocity(opts.speed, draws[i], trig))
    && (forall i :: 0 <= i < opts.count ==> b.sizes[i] == ParticleSize(opts.size, draws[i].size))
    && (forall i :: 0 <= i < opts.count ==> ColorAt(b.colors, i) == Tint(opts.color, TintFactor(draws[i].tint)))
  }

  /** Writes the three components of item `i` of a flat buffer. */
  function SetItem(buf: seq<real>, i: nat, v: Vec3): (r: seq<real>)
    requires 3 * i + 2 < |buf|
    ensures |r| == |buf|
    ensures Item(r, i) == v
    ensures forall m: nat :: 3 * m + 2 < |buf| && m != i ==> Item(r, m) == Item(buf, m)
  {
    buf[3 * i := v.x][3 * i + 1 := v.y][3 * i + 2 := v.z]
  }

  /** The buffer fill of `emit`: four zero-filled typed arrays, then one
      pass over the particles writing components `i*3+k`. */
  method FillBuffers(opts: ParticleOptions, draws: seq<Draw>, trig: Trig) returns (b: Buffers)
    requires |draws| == opts.count
    ensures Emitted(b, opts, draws, trig)
  {
    var n := opts.count;
    var positions := seq(n * 3, _ => 0.0);
    var velocities := seq(n * 3, _ => 0.0);
    var sizes := seq(n, _ => 0.0);
    var colors := seq(n * 3, _ => 0.0);
    var baseColor := opts.color;

    for i := 0 to n
      invariant |positions| == 3 * n && |velocities| == 3 * n && |sizes| == n && |colors| == 3 * n
      invariant forall m :: 0 <= m < i ==> Item(positions, m) == opts.position
      invariant forall m :: 0 <= m < i ==> Item(velocities, m) == InitialVelocity(opts.speed, draws[m], trig)
      invariant forall m :: 0 <= m < i ==> sizes[m] == ParticleSize(opts.size, draws[m].size)
      invariant forall m :: 0 <= m < i ==> ColorAt(colors, m) == Tint(baseColor, TintFactor(draws[m].tint))
    {
      positions := SetItem(positions, i, opts.position);
      velocities := SetItem(velocities, i, InitialVelocity(opts.speed, draws[i], trig));
      sizes := sizes[i := ParticleSize(opts.size, draws[i].size)];
      var c := Tint(baseColor, TintFactor(draws[i].tint));
      colors := SetItem(colors, i, Vec3(c.r, c.g, c.b));
    }
    b := Buffers(positions, velocities, sizes, colors);
  }

  // ----------------------------------------------------------- pool invariant

  function Handles(gs: seq<Group>): set<Handle> {
    set g | g in gs :: g.handle
  }

  predicate UniqueHandles(gs: seq<Group>) {
    |gs| == 0 || (gs[0].handle !in Handles(gs[1..]) && UniqueHandles(gs[1..]))
  }

  /** A group in the pool: consistent buffers, positive life, opacity showing the life. */
  predicate Live(g: Group) {
    WellFormed(g.buffers) && g.life > 0.0 && g.opacity == g.life
  }

  /** The pool invariant: every group live, identities distinct and all
      issued, and the scene holding exactly the pooled objects. */
  predicate Valid(sys: ParticleSystem) {
    && (forall g | g in sys.particles :: Live(g) && g.handle < sys.nextHandle)
    && UniqueHandles(sys.particles)
    && sys.scene == Handles(sys.particles)
  }

  /** A freshly constructed system: empty pool, no particle object in the scene. */
  function NewSystem(): (s: ParticleSystem)
    ensures Valid(s)
    ensures |s.particles| == 0 && |s.scene| == 0
  {
    ParticleSystem([], {}, 0)
  }

  lemma {:induction false} UniqueAppend(gs: seq<Group>, g: Group)
    requires UniqueHandles(gs)
    requires g.handle !in Handles(gs)
    ensures UniqueHandles(gs + [g])
    decreases |gs|
  {
    if |gs| > 0 {
      assert (gs + [g])[1..] == gs[1..] + [g];
      assert gs[0] in gs;
      assert Handles(gs[1..] + [g]) == Handles(gs[1..]) + {g.handle};
      UniqueAppend(gs[1..], g);
    }
  }

  /** `emit`: builds one group and pushes it at the end of the pool, adding
      its object to the scene. */
  method Emit(sys: ParticleSystem, opts: ParticleOptions, draws: seq<Draw>, trig: Trig) returns (r: ParticleSystem)
    requires |draws| == opts.count
    ensures |r.particles| == |sys.particles| + 1
    ensures r.particles[..|sys.particles|] == sys.particles
    ensures var g := r.particles[|sys.particles|];
      && g.handle == sys.nextHandle
      && Emitted(g.buffers, opts, draws, trig)
      && g.life == 1.0
      && g.opacity == 1.0
      && g.decay == DecayFor(opts.lifeTime)
      && g.gravity == opts.gravity.GetOr(0.0)
    ensures r.scene == sys.scene + {sys.nextHandle}
    ensures r.nextHandle == sys.nextHandle + 1
    ensures Valid(sys) ==> Valid(r)
  {
    var b := FillBuffers(opts, draws, trig);
    var points := Group(sys.nextHandle, b, 1.0, 1.0, DecayFor(opts.lifeTime), opts.gravity.GetOr(0.0));
    r := ParticleSystem(sys.particles + [points], sys.scene + {points.handle}, sys.nextHandle + 1);
    assert r.particles[..|sys.particles|] == sys.particles;
    assert Handles(r.particles) == Handles(sys.particles) + {points.handle};
    if Valid(sys) {
      UniqueAppend(sys.particles, points);
    }
  }

  // ----------------------------------------------------------------- update

  /** Whether `life -= decay` leaves the group at or below zero. */
  predicate Expires(g: Group) {
    match g.decay
    case Unbounded => true
    case PerTick(d) => g.life - d <= 0.0
  }

  predicate Alive(g: Group) {
    !Expires(g)
  }

  /** Reference Euler step on a flat position buffer: every component moves
      by its own velocity component times `dt`. */
  function StepPositions(pos: seq<real>, vel: seq<real>, dt: real): seq<real>
    requires |vel| == |pos|
  {
    seq(|pos|, n requires 0 <= n < |pos| => pos[n] + vel[n] * dt)
  }

  /** Reference velocity step on a flat buffer: gravity on the y components
      only, then the same drag on every component. */
  function StepVelocities(vel: seq<real>, gravity: real, dt: real): seq<real>
  {
    seq(|vel|, n requires 0 <= n < |vel| => (if n % 3 == 1 then vel[n] - gravity * dt else vel[n]) * Drag)
  }

  /** The surviving group after one tick. */
  function Advance(g: Group, dt: real): (r: Group)
    requires WellFormed(g.buffers) && Alive(g)
    ensures Live(r)
    ensures r.life == g.life - g.decay.amount
    ensures r.handle == g.handle && r.decay == g.decay && r.gravity == g.gravity
    ensures Count(r.buffers) == Count(g.buffers)
    ensures r.buffers.sizes == g.buffers.sizes && r.buffers.colors == g.buffers.colors
  {
    var life := g.life - g.decay.amount;
    g.(life := life, opacity := life,
       buffers := g.buffers.(positions := StepPositions(g.buffers.positions, g.buffers.velocities, dt),
                             velocities := StepVelocities(g.buffers.velocities, g.gravity, dt)))
  }

  /** Per particle, the reference steps are the source's vector equations:
      the position moves by the pre-tick velocity times `dt`; the velocity
      loses `gravity * dt` on y and is then damped by 0.98 on all axes. */
  lemma StepIsPerParticleEuler(pos: seq<real>, vel: seq<real>, gravity: real, dt: real, j: nat)
    requires |pos| == |vel| && 3 * j + 2 < |pos|
    ensures Item(StepPositions(pos, vel, dt), j) == Add(Item(pos, j), Scale(Item(vel, j), dt))
    ensures var v := Item(vel, j);
      Item(StepVelocities(vel, gravity, dt), j) == Scale(Vec3(v.x, v.y - gravity * dt, v.z), Drag)
  {
    assert (3 * j) % 3 == 0 && (3 * j + 1) % 3 == 1 && (3 * j + 2) % 3 == 2;
  }

  /** Two flat buffers of whole items that agree item by item are equal. */
  lemma ItemsDetermine(a: seq<real>, b: seq<real>, count: nat)
    requires |a| == 3 * count && |b| == 3 * count
    requires forall m :: 0 <= m < count ==> Item(a, m) == Item(b, m)
    ensures a == b
  {
    forall n | 0 <= n < |a|
      ensures a[n] == b[n]
    {
      var m := n / 3;
      assert Item(a, m) == Item(b, m);
    }
  }

  /** The inner loop of `update` over one surviving group: for each particle
      `j`, position from the pre-tick velocity, then gravity on y, then drag. */
  method Integrate(pos: seq<real>, vel: seq<real>, gravity: real, dt: real) returns (pos': seq<real>, vel': seq<real>)
    requires |pos| == |vel| && |pos| % 3 == 0
    ensures pos' == StepPositions(pos, vel, dt)
    ensures vel' == StepVelocities(vel, gravity, dt)
  {
    var count := |pos| / 3;
    pos', vel' := pos, vel;
    var j := 0;
    while j < count
      invariant 0 <= j <= count
      invariant |pos'| == |pos| && |vel'| == |vel|
      invariant forall m :: 0 <= m < j ==> Item(pos', m) == Add(Item(pos, m), Scale(Item(vel, m), dt))
      invariant forall m :: 0 <= m < j ==>
        Item(vel', m) == Scale(Vec3(Item(vel, m).x, Item(vel, m).y - gravity * dt, Item(vel, m).z), Drag)
      invariant forall m :: j <= m < count ==> Item(pos', m) == Item(pos, m) && Item(vel', m) == Item(vel, m)
    {
      ghost var pos0, vel0 := pos', vel';
      var p, v := Item(pos', j), Item(vel', j);
      assert p == Item(pos, j) && v == Item(vel, j);
      // apply velocity
      pos' := SetItem(pos', j, Add(p, Scale(v, dt)));
      // apply gravity
      v := Vec3(v.x, v.y - gravity * dt, v.z);
      // drag
      vel' := SetItem(vel', j, Scale(v, Drag));
      assert forall m: nat :: m < count && m != j ==> Item(pos', m) == Item(pos0, m) && Item(vel', m) == Item(vel0, m);
      j := j + 1;
    }
    forall m | 0 <= m < count
      ensures Item(pos', m) == Item(StepPositions(pos, vel, dt), m)
      ensures Item(vel', m) == Item(StepVelocities(vel, gravity, dt), m)
    {
      StepIsPerParticleEuler(pos, vel, gravity, dt, m);
    }
    ItemsDetermine(pos', StepPositions(pos, vel, dt), count);
    ItemsDetermine(vel', StepVelocities(vel, gravity, dt), count);
  }

  /** The groups left by one tick: the survivors, advanced, in pool order. */
  function Survivors(gs: seq<Group>, dt: real): seq<Group>
    requires forall g | g in gs :: WellFormed(g.buffers)
  {
    if |gs| == 0 then []
    else (if Expires(gs[0]) then [] else [Advance(gs[0], dt)]) + Survivors(gs[1..], dt)
  }

  /** Identities of the groups one tick retires. */
  function ExpiredHandles(gs: seq<Group>): set<Handle>
  {
    if |gs| == 0 then {}
    else (if Expires(gs[0]) then {gs[0].handle} else {}) + ExpiredHandles(gs[1..])
  }

  /** Every group left by a tick is a non-expiring group of the pool, advanced. */
  lemma {:induction false} SurvivorsComeFromAliveGroups(gs: seq<Group>, dt: real)
    requires forall g | g in gs :: WellFormed(g.buffers)
    ensures forall g' | g' in Survivors(gs, dt) :: exists g | g in gs :: Alive(g) && g' == Advance(g, dt)
    decreases |gs|
  {
    if |gs| > 0 {
      assert forall g | g in gs[1..] :: g in gs;
      SurvivorsComeFromAliveGroups(gs[1..], dt);
      assert gs[0] in gs;
    }
  }

  /** The retired identities are exactly those of the groups that expire. */
  lemma {:induction false} ExpiredHandlesAreExpiringGroups(gs: seq<Group>, h: Handle)
    ensures h in ExpiredHandles(gs) <==> exists g | g in gs :: Expires(g) && g.handle == h
    decreases |gs|
  {
    if |gs| > 0 {
      ExpiredHandlesAreExpiringGroups(gs[1..], h);
      assert gs == [gs[0]] + gs[1..];
      assert forall g | g in gs :: g == gs[0] || g in gs[1..];
    }
  }

  /** Removal from the scene, then disposal of geometry and of material. */
  function RetireEvents(h: Handle): seq<Event> {
    [SceneRemove(h), GeometryDispose(h), MaterialDispose(h)]
  }

  /** The events of a backward walk over `gs`: the last group's first. */
  function Retirements(gs: seq<Group>): seq<Event> {
    if |gs| == 0 then []
    else Retirements(gs[1..]) + (if Expires(gs[0]) then RetireEvents(gs[0].handle) else [])
  }

  /** `update(deltaTime)` as a whole: the pool keeps the advanced survivors,
      the scene loses the retired objects, and the retirements are reported. */
  function Update(sys: ParticleSystem, dt: real): UpdateResult
    requires forall g | g in sys.particles :: WellFormed(g.buffers)
  {
    UpdateResult(
      ParticleSystem(Survivors(sys.particles, dt), sys.scene - ExpiredHandles(sys.particles), sys.nextHandle),
      Retirements(sys.particles))
  }

  /** One step of the backward walk: the part of the pool from index `i` on
      is the group at `i` followed by the rest. */
  lemma WalkStep(gs: seq<Group>, i: nat, dt: real)
    requires i < |gs|
    requires forall g | g in gs :: WellFormed(g.buffers)
    ensures Survivors(gs[i..], dt) == (if Expires(gs[i]) then [] else [Advance(gs[i], dt)]) + Survivors(gs[i + 1..], dt)
    ensures ExpiredHandles(gs[i..]) == (if Expires(gs[i]) then {gs[i].handle} else {}) + ExpiredHandles(gs[i + 1..])
    ensures Retirements(gs[i..]) == Retirements(gs[i + 1..]) + (if Expires(gs[i]) then RetireEvents(gs[i].handle) else [])
    ensures gs[..i + 1] == gs[..i] + [gs[i]]
  {
    assert gs[i..][1..] == gs[i + 1..];
    assert forall g | g in gs[i..] :: g in gs;
  }

  /** `update(deltaTime)` as written: a walk from the last index down to 0
      that splices a retired group out at its index, so the indices still
      to be visited never shift. */
  method UpdateWalk(sys: ParticleSystem, dt: real) returns (r: UpdateResult)
    requires forall g | g in sys.particles :: WellFormed(g.buffers)
    ensures r == Update(sys, dt)
  {
    var ps := sys.particles;
    var scene := sys.scene;
    var events: seq<Event> := [];
    ghost var done: seq<Group> := [];
    var i := |ps| - 1;
    while i >= 0
      invariant -1 <= i < |sys.particles|
      invariant ps == sys.particles[..i + 1] + done
      invariant done == Survivors(sys.particles[i + 1..], dt)
      invariant scene == sys.scene - ExpiredHandles(sys.particles[i + 1..])
      invariant events == Retirements(sys.particles[i + 1..])
      decreases i + 1
    {
      var p := ps[i];
      assert ps[..i] == sys.particles[..i] && p == sys.particles[i] && ps[i + 1..] == done;
      assert p in sys.particles;
      WalkStep(sys.particles, i, dt);
      // life -= decay; an infinite decay always retires
      if p.decay.Unbounded? || p.life - p.decay.amount <= 0.0 {
        scene := scene - {p.handle};
        events := events + RetireEvents(p.handle);
        ps := ps[..i] + ps[i + 1..];
      } else {
        var life := p.life - p.decay.amount;
        var pos, vel := Integrate(p.buffers.positions, p.buffers.velocities, p.gravity, dt);
        var q := p.(life := life, opacity := life, buffers := p.buffers.(positions := pos, velocities := vel));
        assert q == Advance(p, dt);
        ps := ps[..i] + [q] + ps[i + 1..];
        done := [q] + done;
        assert ps == sys.particles[..i] + done;
      }
      i := i - 1;
    }
    assert sys.particles[0..] == sys.particles;
    r := UpdateResult(ParticleSystem(ps, scene, sys.nextHandle), events);
  }

  // ------------------------------------------------------ update properties

  /** The groups left by a tick are exactly the non-expiring ones, advanced,
      in their original relative order. */
  lemma {:induction false} SurvivorsAreAliveGroupsAdvanced(gs: seq<Group>, dt: real)
    requires forall g | g in gs :: WellFormed(g.buffers)
    ensures var alive := Seqs.Filter(Alive, gs);
      && |Survivors(gs, dt)| == |alive|
      && forall i :: 0 <= i < |alive| ==> Survivors(gs, dt)[i] == Advance(alive[i], dt)
    decreases |gs|
  {
    if |gs| > 0 {
      var rest := gs[1..];
      assert forall g | g in rest :: g in gs;
      SurvivorsAreAliveGroupsAdvanced(rest, dt);
      var alive, aliveRest := Seqs.Filter(Alive, gs), Seqs.Filter(Alive, rest);
      var out, outRest := Survivors(gs, dt), Survivors(rest, dt);
      if Alive(gs[0]) {
        assert alive == [gs[0]] + aliveRest;
        assert out == [Advance(gs[0], dt)] + outRest;
        forall i | 0 <= i < |alive|
          ensures out[i] == Advance(alive[i], dt)
        {
          if i > 0 {
            assert alive[i] == aliveRest[i - 1] && out[i] == outRest[i - 1];
          }
        }
      } else {
        assert alive == aliveRest;
        assert out == outRest;
      }
    }
  }

  /** Retiring keeps identities apart: the survivors are exactly the objects
      that did not expire, each once. */
  lemma HandlesCons(x: Group, rest: seq<Group>)
    ensures Handles([x] + rest) == {x.handle} + Handles(rest)
  {
    assert x in [x] + rest;
    assert forall g | g in rest :: g in [x] + rest;
  }

  lemma {:induction false} ExpiredHandlesArePooled(gs: seq<Group>)
    ensures ExpiredHandles(gs) <= Handles(gs)
    decreases |gs|
  {
    if |gs| > 0 {
      ExpiredHandlesArePooled(gs[1..]);
      assert gs == [gs[0]] + gs[1..];
      HandlesCons(gs[0], gs[1..]);
    }
  }

  lemma {:induction false} SurvivorHandles(gs: seq<Group>, dt: real)
    requires forall g | g in gs :: WellFormed(g.buffers)
    requires UniqueHandles(gs)
    ensures Handles(Survivors(gs, dt)) == Handles(gs) - ExpiredHandles(gs)
    ensures UniqueHandles(Survivors(gs, dt))
    decreases |gs|
  {
    if |gs| > 0 {
      var rest := gs[1..];
      var h0 := gs[0].handle;
      assert forall g | g in rest :: g in gs;
      SurvivorHandles(rest, dt);
      ExpiredHandlesArePooled(rest);
      assert gs == [gs[0]] + rest;
      HandlesCons(gs[0], rest);
      var tail := Survivors(rest, dt);
      if Expires(gs[0]) {
        assert Survivors(gs, dt) == tail;
        assert ExpiredHandles(gs) == {h0} + ExpiredHandles(rest);
      } else {
        var a := Advance(gs[0], dt);
        assert Survivors(gs, dt) == [a] + tail;
        assert ExpiredHandles(gs) == ExpiredHandles(rest);
        assert ([a] + tail)[1..] == tail;
        HandlesCons(a, tail);
        assert h0 !in ExpiredHandles(rest);
      }
    }
  }

  /** Number of occurrences of the event `e`. */
  function Occurrences(events: seq<Event>, e: Event): nat {
    multiset(events)[e]
  }

  /** Each retired object is removed from the scene once, its geometry
      disposed once and its material disposed once; nothing else is touched. */
  lemma RetireEventsOccurrences(h': Handle, h: Handle)
    ensures var n := if h == h' then 1 else 0;
      && Occurrences(RetireEvents(h'), SceneRemove(h)) == n
      && Occurrences(RetireEvents(h'), GeometryDispose(h)) == n
      && Occurrences(RetireEvents(h'), MaterialDispose(h)) == n
  {
  }

  lemma {:induction false} RetiredExactlyOnce(gs: seq<Group>, h: Handle)
    requires UniqueHandles(gs)
    ensures var n := if h in ExpiredHandles(gs) then 1 else 0;
      && Occurrences(Retirements(gs), SceneRemove(h)) == n
      && Occurrences(Retirements(gs), GeometryDispose(h)) == n
      && Occurrences(Retirements(gs), MaterialDispose(h)) == n
    decreases |gs|
  {
    if |gs| > 0 {
      var rest := gs[1..];
      var own := if Expires(gs[0]) then RetireEvents(gs[0].handle) else [];
      RetiredExactlyOnce(rest, h);
      ExpiredHandlesArePooled(rest);
      assert Retirements(gs) == Retirements(rest) + own;
      assert multiset(Retirements(gs)) == multiset(Retirements(rest)) + multiset(own);
      assert ExpiredHandles(gs) == (if Expires(gs[0]) then {gs[0].handle} else {}) + ExpiredHandles(rest);
      if Expires(gs[0]) {
        RetireEventsOccurrences(gs[0].handle, h);
      }
    }
  }

  /** `update` keeps the pool invariant. */
  lemma UpdatePreservesValid(sys: ParticleSystem, dt: real)
    requires Valid(sys)
    ensures Valid(Update(sys, dt).system)
  {
    var gs := sys.particles;
    SurvivorHandles(gs, dt);
    SurvivorsComeFromAliveGroups(gs, dt);
    var r := Update(sys, dt).system;
    forall g' | g' in r.particles
      ensures Live(g') && g'.handle < r.nextHandle
    {
      var g :| g in gs && Alive(g) && g' == Advance(g, dt);
    }
  }
}
