/** The per-frame particle update of the camera page's overlay
    (src/app/camera/page.tsx, the animation `loop`): every particle drifts
    with the wind plus a small wobble and wraps around the canvas edges. The
    particles themselves are created at random and are inputs here. */
module ParticleField {
  import opened Basics
  import opened AirQuality

  /** `{ x, y, r, vx, vy, seed, alpha }`. */
  datatype Particle = Particle(x: real, y: real, r: real, vx: real, vy: real, seed: real, alpha: real)

  /** The wrap on one axis of length `size`: a coordinate more than two radii
      beyond an edge re-enters one radius beyond the opposite edge. */
  function Wrap(c: real, r: real, size: real): (w: real)
    ensures r >= 0.0 && size >= 0.0 ==> -2.0 * r <= w <= size + 2.0 * r
    ensures -2.0 * r <= c <= size + 2.0 * r ==> w == c
    ensures r >= 0.0 && c < -2.0 * r ==> w == size + r
    ensures r >= 0.0 && size >= 0.0 && c > size + 2.0 * r ==> w == -r
  {
    var afterLow := if c < -r * 2.0 then size + r else c;
    if afterLow > size + r * 2.0 then -r else afterLow
  }

  /** The wind's drift per frame at 60 frames per second. */
  function PxPerFrame(wind: Wind): real {
    wind.speedPxPerSec / 60.0
  }

  /** One component of the wind drift per frame, `dir.x * pxPerFrame`. */
  function Drift(dir: real, pxPerFrame: real): real {
    dir * pxPerFrame
  }

  /** The horizontal and vertical wobble at time `t` seconds, larger under
      worse air. */
  function WobbleX(seed: real, t: real, score: real, m: Maths): real {
    0.2 * (1.0 + score * 0.5) * m.sin(t * 0.5 + seed)
  }

  function WobbleY(seed: real, t: real, score: real, m: Maths): real {
    0.2 * (1.0 + score * 0.5) * 0.5 * m.cos(t * 0.7 + seed * 0.8)
  }

  /** Within two radii of a `w` by `h` canvas. */
  predicate InField(p: Particle, w: real, h: real) {
    -2.0 * p.r <= p.x <= w + 2.0 * p.r && -2.0 * p.r <= p.y <= h + 2.0 * p.r
  }

  /** One particle's step: the new velocity is drift plus wobble, the
      position moves by it and then wraps; radius, seed and alpha stay. */
  function Advance(p: Particle, w: real, h: real, wind: Wind, t: real, score: real, m: Maths): (q: Particle)
    ensures q.r == p.r && q.seed == p.seed && q.alpha == p.alpha
    ensures q.vx == Drift(wind.dirX, PxPerFrame(wind)) + WobbleX(p.seed, t, score, m)
    ensures q.vy == Drift(wind.dirY, PxPerFrame(wind)) + WobbleY(p.seed, t, score, m)
    ensures q.x == Wrap(p.x + q.vx, p.r, w) && q.y == Wrap(p.y + q.vy, p.r, h)
    ensures p.r >= 0.0 && w >= 0.0 && h >= 0.0 ==> InField(q, w, h)
    ensures InField(Particle(p.x + q.vx, p.y + q.vy, p.r, 0.0, 0.0, 0.0, 0.0), w, h) ==>
      q.x == p.x + q.vx && q.y == p.y + q.vy
  {
    var vx := Drift(wind.dirX, PxPerFrame(wind)) + WobbleX(p.seed, t, score, m);
    var vy := Drift(wind.dirY, PxPerFrame(wind)) + WobbleY(p.seed, t, score, m);
    p.(x := Wrap(p.x + vx, p.r, w), y := Wrap(p.y + vy, p.r, h), vx := vx, vy := vy)
  }

  /** The loop body for particle `p`: velocity from drift and wobble, then
      the move and the four edge tests in the source's order. */
  method MoveParticle(p: Particle, w: real, h: real, wind: Wind, pxPerFrame: real,
                      t: real, score: real, m: Maths) returns (q: Particle)
    requires pxPerFrame == PxPerFrame(wind)
    ensures q == Advance(p, w, h, wind, t, score, m)
  {
    var wobbleX := WobbleX(p.seed, t, score, m);
    var wobbleY := WobbleY(p.seed, t, score, m);
    var vx := Drift(wind.dirX, pxPerFrame) + wobbleX;
    var vy := Drift(wind.dirY, pxPerFrame) + wobbleY;
    var x, y := p.x + vx, p.y + vy;
    if x < -p.r * 2.0 { x := w + p.r; }
    if x > w + p.r * 2.0 { x := -p.r; }
    if y < -p.r * 2.0 { y := h + p.r; }
    if y > h + p.r * 2.0 { y := -p.r; }
    q := p.(x := x, y := y, vx := vx, vy := vy);
  }

  /** The body of the animation loop for one frame at `timeMs` milliseconds:
      each particle in turn gets its velocity, moves, and wraps, in place;
      only particle `i` changes in iteration `i`. */
  method StepFrame(particles: array<Particle>, w: real, h: real, wind: Wind,
                   timeMs: real, score: real, m: Maths)
    modifies particles
    ensures forall i :: 0 <= i < particles.Length ==>
      particles[i] == Advance(old(particles[i]), w, h, wind, timeMs / 1000.0, score, m)
    ensures w >= 0.0 && h >= 0.0 && (forall i :: 0 <= i < particles.Length ==> old(particles[i]).r >= 0.0) ==>
      forall i :: 0 <= i < particles.Length ==> InField(particles[i], w, h)
  {
    var pxPerFrame := PxPerFrame(wind);
    var t := timeMs / 1000.0;
    for i := 0 to particles.Length
      invariant forall k :: 0 <= k < i ==>
        particles[k] == Advance(old(particles[k]), w, h, wind, t, score, m)
      invariant forall k :: i <= k < particles.Length ==> particles[k] == old(particles[k])
    {
      particles[i] := MoveParticle(particles[i], w, h, wind, pxPerFrame, t, score, m);
    }
  }
}
