/**
  The two animated backgrounds of the landing page (`my-book/src/pages/index.tsx`):
  cyan particles that drift and wrap around the canvas edges, and "data lines" that turn
  steadily and wrap around a 100-pixel margin. Coordinates are reals, `Math.random()`
  results are given as draws in [0, 1), and `Math.cos`/`Math.sin` are parameters.
 */
module LandingCanvas {

  /** `Math.PI` as a double. */
  const Pi: real := 3.141592653589793

  /** How many particles and data lines the two effects create. */
  const ParticleCount: nat := 50
  const LineCount: nat := 12

  /** The margin past which a data line reappears on the other side. */
  const Margin: real := 100.0

  /** What `Math.random()` promises. */
  predicate IsUnit(r: real) {
    0.0 <= r < 1.0
  }

  /** References that are pairwise different. */
  predicate Distinct<T(==)>(s: seq<T>) {
    forall i, j :: 0 <= i < j < |s| ==> s[i] != s[j]
  }

  /** `Math.random() * canvas.width`: a coordinate in `[0, w)`, or 0 on an empty canvas. */
  function Place(r: real, w: real): (p: real)
    ensures IsUnit(r) && w >= 0.0 ==> 0.0 <= p <= w && (w > 0.0 ==> p < w)
  {
    if IsUnit(r) && w >= 0.0 then ScaleUnit(r, w); r * w else r * w
  }

  lemma ScaleUnit(r: real, w: real)
    requires IsUnit(r) && w >= 0.0
    ensures 0.0 <= r * w <= w
    ensures w > 0.0 ==> r * w < w
  {
    assert w - r * w == (1.0 - r) * w;
  }

  // ---------------------------------------------------------------------------------------
  // Particles
  // ---------------------------------------------------------------------------------------

  datatype ParticleState = ParticleState(x: real, y: real, vx: real, vy: real, size: real, opacity: real)

  /** The six `Math.random()` results a `Particle` constructor consumes, in call order. */
  datatype ParticleDraws = ParticleDraws(x: real, y: real, vx: real, vy: real, size: real, opacity: real)

  predicate UnitParticleDraws(d: ParticleDraws) {
    IsUnit(d.x) && IsUnit(d.y) && IsUnit(d.vx) && IsUnit(d.vy) && IsUnit(d.size) && IsUnit(d.opacity)
  }

  /** `new Particle()` on values. */
  function NewParticle(width: real, height: real, d: ParticleDraws): ParticleState {
    ParticleState(Place(d.x, width), Place(d.y, height), (d.vx - 0.5) * 2.0, (d.vy - 0.5) * 2.0, d.size * 2.0 + 0.5, d.opacity * 0.5 + 0.3)
  }

  /** A new particle lies on the canvas, moves below 1 per axis, has size in [0.5, 2.5) and opacity in [0.3, 0.8). */
  lemma NewParticleRanges(width: real, height: real, d: ParticleDraws)
    requires UnitParticleDraws(d) && width >= 0.0 && height >= 0.0
    ensures var s := NewParticle(width, height, d);
      && -1.0 <= s.vx < 1.0 && -1.0 <= s.vy < 1.0
      && 0.5 <= s.size < 2.5 && 0.3 <= s.opacity < 0.8
      && 0.0 <= s.x <= width && 0.0 <= s.y <= height
      && (width > 0.0 ==> s.x < width) && (height > 0.0 ==> s.y < height)
  {
  }

  /**
    One axis of `Particle.update`: add the velocity, then the two wrap tests in source order.
    Past the far edge the particle jumps to 0, below 0 to the far edge, otherwise it stays.
   */
  function ParticleAxis(p: real, v: real, bound: real): (r: real)
    ensures p + v > bound ==> r == 0.0
    ensures p + v < 0.0 && p + v <= bound ==> r == bound
    ensures 0.0 <= p + v <= bound ==> r == p + v
    ensures bound >= 0.0 ==> 0.0 <= r <= bound
  {
    var moved := p + v;
    var wrapped := if moved > bound then 0.0 else moved;
    if wrapped < 0.0 then bound else wrapped
  }

  /** `Particle.update` on values: the position moves and wraps, nothing else changes. */
  function ParticleStep(s: ParticleState, width: real, height: real): (r: ParticleState)
    ensures width >= 0.0 && height >= 0.0 ==> 0.0 <= r.x <= width && 0.0 <= r.y <= height
    ensures r.vx == s.vx && r.vy == s.vy && r.size == s.size && r.opacity == s.opacity
  {
    s.(x := ParticleAxis(s.x, s.vx, width), y := ParticleAxis(s.y, s.vy, height))
  }

  /** Without a wrap a particle made with draws in [0, 1) moves less than one unit per axis. */
  lemma ParticleMovesSlowly(d: ParticleDraws, width: real, height: real, s: ParticleState)
    requires UnitParticleDraws(d) && width >= 0.0 && height >= 0.0
    requires s.vx == NewParticle(width, height, d).vx && 0.0 <= s.x + s.vx <= width
    ensures -1.0 <= ParticleStep(s, width, height).x - s.x < 1.0
  {
    NewParticleRanges(width, height, d);
  }

  class Particle {
    var x: real
    var y: real
    var vx: real
    var vy: real
    var size: real
    var opacity: real

    function State(): ParticleState
      reads this
    {
      ParticleState(x, y, vx, vy, size, opacity)
    }

    constructor(width: real, height: real, d: ParticleDraws)
      ensures State() == NewParticle(width, height, d)
    {
      x := Place(d.x, width);
      y := Place(d.y, height);
      vx := (d.vx - 0.5) * 2.0;
      vy := (d.vy - 0.5) * 2.0;
      size := d.size * 2.0 + 0.5;
      opacity := d.opacity * 0.5 + 0.3;
    }

    method Update(width: real, height: real)
      modifies this
      ensures State() == ParticleStep(old(State()), width, height)
    {
      x := x + vx;
      y := y + vy;
      if x > width { x := 0.0; }
      if x < 0.0 { x := width; }
      if y > height { y := 0.0; }
      if y < 0.0 { y := height; }
    }
  }

  /** The particle effect: a canvas size fixed at mount and the array of particles `animate` walks. */
  class ParticleField {
    const width: real
    const height: real
    var particles: seq<Particle>

    predicate Valid()
      reads this
    {
      |particles| == ParticleCount && Distinct(particles)
    }

    /** The mount effect's loop: particle `i` is built from the `i`-th group of draws. */
    constructor(width: real, height: real, draws: nat -> ParticleDraws)
      ensures Valid() && this.width == width && this.height == height
      ensures forall i :: 0 <= i < |particles| ==> particles[i].State() == NewParticle(width, height, draws(i))
    {
      this.width := width;
      this.height := height;
      var ps: seq<Particle> := [];
      for i := 0 to ParticleCount
        invariant |ps| == i && Distinct(ps)
        invariant forall j :: 0 <= j < i ==> ps[j].State() == NewParticle(width, height, draws(j))
      {
        var p := new Particle(width, height, draws(i));
        ps := ps + [p];
      }
      particles := ps;
    }

    /** One frame: every particle is updated once, and the population stays the same. */
    method Animate()
      requires Valid()
      modifies particles
      ensures Valid() && particles == old(particles)
      ensures forall i :: 0 <= i < |particles| ==> particles[i].State() == ParticleStep(old(particles[i].State()), width, height)
    {
      for i := 0 to |particles|
        invariant forall j :: 0 <= j < i ==> particles[j].State() == ParticleStep(old(particles[j].State()), width, height)
        invariant forall j :: i <= j < |particles| ==> particles[j].State() == old(particles[j].State())
      {
        particles[i].Update(width, height);
      }
    }
  }

  // ---------------------------------------------------------------------------------------
  // Data lines
  // ---------------------------------------------------------------------------------------

  datatype LineState = LineState(x: real, y: real, vx: real, vy: real, length: real, angle: real, opacity: real, speed: real)

  /** The eight `Math.random()` results a `DataLine` constructor consumes, in call order. */
  datatype LineDraws = LineDraws(x: real, y: real, vx: real, vy: real, length: real, angle: real, opacity: real, speed: real)

  predicate UnitLineDraws(d: LineDraws) {
    IsUnit(d.x) && IsUnit(d.y) && IsUnit(d.vx) && IsUnit(d.vy)
    && IsUnit(d.length) && IsUnit(d.angle) && IsUnit(d.opacity) && IsUnit(d.speed)
  }

  /** `new DataLine()` on values. */
  function NewLine(width: real, height: real, d: LineDraws): LineState {
    LineState(Place(d.x, width), Place(d.y, height), (d.vx - 0.5) * 3.0, (d.vy - 0.5) * 3.0,
              d.length * 100.0 + 50.0, d.angle * Pi * 2.0, d.opacity * 0.5 + 0.3, d.speed * 2.0 + 1.0)
  }

  /** A new data line lies on the canvas, with length in [50, 150), heading in [0, 2π), opacity in [0.3, 0.8) and turning speed in [1, 3). */
  lemma NewLineRanges(width: real, height: real, d: LineDraws)
    requires UnitLineDraws(d) && width >= 0.0 && height >= 0.0
    ensures var s := NewLine(width, height, d);
      && 50.0 <= s.length < 150.0 && 0.0 <= s.angle < 2.0 * Pi
      && 0.3 <= s.opacity < 0.8 && 1.0 <= s.speed < 3.0
      && -1.5 <= s.vx < 1.5 && -1.5 <= s.vy < 1.5
      && 0.0 <= s.x <= width && 0.0 <= s.y <= height
  {
  }

  /**
    One axis of `DataLine.update` after the move: past the far margin the line jumps to
    the near one, and before the near margin to the far one.
   */
  function LineAxis(p: real, delta: real, bound: real): (r: real)
    ensures p + delta > bound + Margin ==> r == -Margin
    ensures p + delta < -Margin && p + delta <= bound + Margin ==> r == bound + Margin
    ensures -Margin <= p + delta <= bound + Margin ==> r == p + delta
    ensures bound >= -2.0 * Margin ==> -Margin <= r <= bound + Margin
  {
    var moved := p + delta;
    var wrapped := if moved > bound + Margin then -Margin else moved;
    if wrapped < -Margin then bound + Margin else wrapped
  }

  /**
    `DataLine.update` on values: the heading turns by `speed * 0.01` first, then the line
    moves two units along the new heading and wraps; nothing else changes.
   */
  function LineStep(s: LineState, width: real, height: real, cos: real -> real, sin: real -> real): (r: LineState)
    ensures r.angle - s.angle == s.speed * 0.01
    ensures s.speed > 0.0 ==> r.angle > s.angle
    ensures width >= 0.0 && height >= 0.0 ==> -Margin <= r.x <= width + Margin && -Margin <= r.y <= height + Margin
    ensures r.vx == s.vx && r.vy == s.vy && r.length == s.length && r.speed == s.speed && r.opacity == s.opacity
  {
    var angle := s.angle + s.speed * 0.01;
    s.(angle := angle, x := LineAxis(s.x, cos(angle) * 2.0, width), y := LineAxis(s.y, sin(angle) * 2.0, height))
  }

  /** `k` successive updates. */
  function LineSteps(s: LineState, k: nat, width: real, height: real, cos: real -> real, sin: real -> real): LineState
    decreases k
  {
    if k == 0 then s else LineStep(LineSteps(s, k - 1, width, height, cos, sin), width, height, cos, sin)
  }

  /** After `k` updates the heading has turned by exactly `k * speed * 0.01`, and the speed is unchanged. */
  lemma {:induction false} LineStepsTurn(s: LineState, k: nat, width: real, height: real, cos: real -> real, sin: real -> real)
    ensures LineSteps(s, k, width, height, cos, sin).speed == s.speed
    ensures LineSteps(s, k, width, height, cos, sin).angle == s.angle + (k as real) * s.speed * 0.01
    decreases k
  {
    if k > 0 {
      LineStepsTurn(s, k - 1, width, height, cos, sin);
      var prev := LineSteps(s, k - 1, width, height, cos, sin);
      assert (k as real) * s.speed * 0.01 == ((k - 1) as real) * s.speed * 0.01 + s.speed * 0.01;
    }
  }

  /** A line that does not wrap moves at most two units per axis when cosine and sine stay in [-1, 1]. */
  lemma LineMovesAtMostTwo(s: LineState, width: real, height: real, cos: real -> real, sin: real -> real)
    requires forall a :: -1.0 <= cos(a) <= 1.0
    requires var a := s.angle + s.speed * 0.01; -Margin <= s.x + cos(a) * 2.0 <= width + Margin
    ensures var r := LineStep(s, width, height, cos, sin); -2.0 <= r.x - s.x <= 2.0
  {
    var a := s.angle + s.speed * 0.01;
    assert -1.0 <= cos(a) <= 1.0;
  }

  class DataLine {
    var x: real
    var y: real
    var vx: real
    var vy: real
    var length: real
    var angle: real
    var opacity: real
    var speed: real

    function State(): LineState
      reads this
    {
      LineState(x, y, vx, vy, length, angle, opacity, speed)
    }

    constructor(width: real, height: real, d: LineDraws)
      ensures State() == NewLine(width, height, d)
    {
      x := Place(d.x, width);
      y := Place(d.y, height);
      vx := (d.vx - 0.5) * 3.0;
      vy := (d.vy - 0.5) * 3.0;
      length := d.length * 100.0 + 50.0;
      angle := d.angle * Pi * 2.0;
      opacity := d.opacity * 0.5 + 0.3;
      speed := d.speed * 2.0 + 1.0;
    }

    method Update(width: real, height: real, cos: real -> real, sin: real -> real)
      modifies this
      ensures State() == LineStep(old(State()), width, height, cos, sin)
    {
      angle := angle + speed * 0.01;
      x := x + cos(angle) * 2.0;
      y := y + sin(angle) * 2.0;
      if x > width + Margin { x := -Margin; }
      if x < -Margin { x := width + Margin; }
      if y > height + Margin { y := -Margin; }
      if y < -Margin { y := height + Margin; }
    }
  }

  /** The infrastructure effect: a canvas size fixed at mount and the array of lines `animate` walks. */
  class LineField {
    const width: real
    const height: real
    var lines: seq<DataLine>

    predicate Valid()
      reads this
    {
      |lines| == LineCount && Distinct(lines)
    }

    /** The mount effect's loop: line `i` is built from the `i`-th group of draws. */
    constructor(width: real, height: real, draws: nat -> LineDraws)
      ensures Valid() && this.width == width && this.height == height
      ensures forall i :: 0 <= i < |lines| ==> lines[i].State() == NewLine(width, height, draws(i))
    {
      this.width := width;
      this.height := height;
      var ls: seq<DataLine> := [];
      for i := 0 to LineCount
        invariant |ls| == i && Distinct(ls)
        invariant forall j :: 0 <= j < i ==> ls[j].State() == NewLine(width, height, draws(j))
      {
        var l := new DataLine(width, height, draws(i));
        ls := ls + [l];
      }
      lines := ls;
    }

    /** One frame: every line is updated once, and the population stays the same. */
    method Animate(cos: real -> real, sin: real -> real)
      requires Valid()
      modifies lines
      ensures Valid() && lines == old(lines)
      ensures forall i :: 0 <= i < |lines| ==> lines[i].State() == LineStep(old(lines[i].State()), width, height, cos, sin)
    {
      for i := 0 to |lines|
        invariant forall j :: 0 <= j < i ==> lines[j].State() == LineStep(old(lines[j].State()), width, height, cos, sin)
        invariant forall j :: i <= j < |lines| ==> lines[j].State() == old(lines[j].State())
      {
        lines[i].Update(width, height, cos, sin);
      }
    }
  }
}
