/** One person of the simulation: construction, movement and the
    proximity test. */
module Persons {
  import opened Random
  import opened Parameters

  /** A person.  `kind` and `nextKind` are the source's `type` and
      `nextType` (`type` is a reserved word here); `nextKind` stages the
      type the person takes at the end of the current step. */
  datatype Person = Person(
    index: nat,
    x: int,
    y: int,
    kind: PersonType,
    nextKind: PersonType,
    infectedTimeSteps: nat
  )

  /** The gap between two coordinates on one axis. */
  function AxisGap(a: int, b: int): nat {
    if a >= b then a - b else b - a
  }

  /** The person's centre lies in the world shrunk by the person radius. */
  predicate InBounds(params: Params, p: Person) {
    && params.personRadius <= p.x <= params.width - params.personRadius
    && params.personRadius <= p.y <= params.height - params.personRadius
  }

  /** The bounds test of `move` on one axis: a coordinate whose circle
      pokes out below zero is put at `radius`, and then one whose circle
      pokes out past `size` is put at `size - radius`. */
  function Clamp(v: int, radius: nat, size: nat): (c: int)
    ensures size >= 2 * radius ==> radius <= c <= size - radius
    ensures radius <= v <= size - radius ==> c == v
    ensures size < 2 * radius ==> c == size - radius
  {
    var low := if v - radius < 0 then radius else v;
    if low + radius > size then size - radius else low
  }

  /** Clamping moves a point to the nearest point of the allowed range. */
  lemma ClampIsNearest(v: int, radius: nat, size: nat)
    requires size >= 2 * radius
    ensures forall w :: radius <= w <= size - radius ==>
      AxisGap(Clamp(v, radius, size), v) <= AxisGap(w, v)
  {
  }

  /** Clamping a point towards a range that holds `from` never takes it
      further from `from` than it was. */
  lemma ClampStaysBetween(from: int, v: int, radius: nat, size: nat)
    ensures radius <= from <= size - radius ==>
      AxisGap(Clamp(v, radius, size), from) <= AxisGap(v, from)
  {
  }

  /** One velocity component: a draw in [0, 2 * maxSpeed + 1) shifted
      down by `maxSpeed`. */
  function Velocity(maxSpeed: nat, r: Unit): (v: int)
    ensures -(maxSpeed as int) <= v <= maxSpeed
  {
    RandomIntLessThan(r, 2 * maxSpeed + 1) - maxSpeed
  }

  /** Every velocity in [-maxSpeed, maxSpeed] is produced by some draw. */
  lemma {:induction false} VelocityReachesAll(maxSpeed: nat, v: int)
    requires -(maxSpeed as int) <= v <= maxSpeed
    ensures 0.0 <= (v + maxSpeed) as real / (2 * maxSpeed + 1) as real < 1.0
    ensures Velocity(maxSpeed, (v + maxSpeed) as real / (2 * maxSpeed + 1) as real) == v
  {
    RandomIntReachesAll(2 * maxSpeed + 1, v + maxSpeed);
  }

  /** `move`: draw an x- and then a y-velocity from the speed of the
      person's current type, add them, and clamp into the world.  Uses
      the draws at `k` and `k + 1` and returns the next cursor. */
  function Move(params: Params, p: Person, rand: Stream, k: nat): (r: (Person, nat))
    ensures r.1 == k + 2
    ensures r.0 == p.(x := r.0.x, y := r.0.y)
    ensures params.FitsWorld() ==> InBounds(params, r.0)
    ensures InBounds(params, p) ==>
      && AxisGap(r.0.x, p.x) <= params.MaxSpeed(p.kind)
      && AxisGap(r.0.y, p.y) <= params.MaxSpeed(p.kind)
  {
    var speed := params.MaxSpeed(p.kind);
    var vx := Velocity(speed, rand(k));
    var vy := Velocity(speed, rand(k + 1));
    ClampStaysBetween(p.x, p.x + vx, params.personRadius, params.width);
    ClampStaysBetween(p.y, p.y + vy, params.personRadius, params.height);
    (p.(x := Clamp(p.x + vx, params.personRadius, params.width),
        y := Clamp(p.y + vy, params.personRadius, params.height)),
     k + 2)
  }

  /** The velocity is drawn from the speed of the person's current type,
      and a position that is in bounds after adding it is kept as is. */
  lemma MoveUsesCurrentSpeed(params: Params, p: Person, rand: Stream, k: nat)
    ensures var vx := Velocity(params.MaxSpeed(p.kind), rand(k));
            var vy := Velocity(params.MaxSpeed(p.kind), rand(k + 1));
            && (params.personRadius <= p.x + vx <= params.width - params.personRadius ==>
                  Move(params, p, rand, k).0.x == p.x + vx)
            && (params.personRadius <= p.y + vy <= params.height - params.personRadius ==>
                  Move(params, p, rand, k).0.y == p.y + vy)
  {
  }

  /** A person whose type cannot move stays where it is. */
  lemma {:induction false} StillWhenSpeedZero(params: Params, p: Person, rand: Stream, k: nat)
    requires params.MaxSpeed(p.kind) == 0
    requires InBounds(params, p)
    ensures Move(params, p, rand, k).0 == p
  {
    var q := Move(params, p, rand, k).0;
    assert AxisGap(q.x, p.x) <= 0 && AxisGap(q.y, p.y) <= 0;
  }

  /** `nextTo`: the two centres are at most `NEARBY_DISTANCE` apart,
      compared on squares so that no square root is needed. */
  predicate NextTo(params: Params, a: Person, b: Person) {
    (a.x - b.x) * (a.x - b.x) + (a.y - b.y) * (a.y - b.y) <= params.NearbyDistance() * params.NearbyDistance()
  }

  /** The squared comparison agrees with the source's test
      `sqrt(dx^2 + dy^2) <= NEARBY_DISTANCE` for the true distance `d`. */
  lemma {:induction false} NextToIsDistanceTest(params: Params, a: Person, b: Person, d: real)
    requires d >= 0.0
    requires d * d == ((a.x - b.x) * (a.x - b.x) + (a.y - b.y) * (a.y - b.y)) as real
    ensures NextTo(params, a, b) <==> d <= params.NearbyDistance() as real
  {
    var sq := (a.x - b.x) * (a.x - b.x) + (a.y - b.y) * (a.y - b.y);
    var n := params.NearbyDistance();
    SquareCast(n);
    SquaresOrdered(d, n as real);
    assert NextTo(params, a, b) <==> sq as real <= (n * n) as real;
  }

  lemma SquareCast(n: int)
    ensures (n * n) as real == n as real * n as real
  {
  }

  lemma SquaresOrdered(d: real, n: real)
    requires d >= 0.0 && n >= 0.0
    ensures d <= n <==> d * d <= n * n
  {
    if d <= n {
      SquareMonotone(d, n);
    } else {
      SquareStrict(n, d);
    }
  }

  lemma SquareMonotone(a: real, b: real)
    requires 0.0 <= a <= b
    ensures a * a <= b * b
  {
    assert a * a <= a * b;
    assert a * b <= b * b;
  }

  lemma SquareStrict(a: real, b: real)
    requires 0.0 <= a < b
    ensures a * a < b * b
  {
    var aa, ab, bb := a * a, a * b, b * b;
    assert bb - ab == b * (b - a);
    assert b * (b - a) > 0.0;
    assert ab - aa == a * (b - a);
    assert a * (b - a) >= 0.0;
  }

  /** Proximity does not depend on which of the two is asking. */
  lemma NextToIsSymmetric(params: Params, a: Person, b: Person)
    ensures NextTo(params, a, b) <==> NextTo(params, b, a)
  {
  }

  /** The type a person gets from its index: the first
      `SUSCEPTIBLE.INIT_NUM` indices are susceptible, the next
      `INFECTED.INIT_NUM` infected, the rest recovered. */
  function InitialKind(params: Params, index: nat): (t: PersonType)
    ensures t == Susceptible <==> index < params.susceptible.initNum
    ensures t == Infected <==>
      params.susceptible.initNum <= index < params.susceptible.initNum + params.infected.initNum
    ensures t == Recovered <==> params.susceptible.initNum + params.infected.initNum <= index
  {
    if index < params.susceptible.initNum then Susceptible
    else if index < params.susceptible.initNum + params.infected.initNum then Infected
    else Recovered
  }

  /** `new Person(index)`: a random start position (draws at `k` and
      `k + 1`), the type of the index band, nothing staged, no infected
      time, and one move (draws at `k + 2` and `k + 3`). */
  function NewPerson(params: Params, index: nat, rand: Stream, k: nat): (r: (Person, nat))
    ensures r.1 == k + 4
    ensures r.0.index == index
    ensures r.0.kind == InitialKind(params, index)
    ensures r.0.nextKind == r.0.kind
    ensures r.0.infectedTimeSteps == 0
    ensures params.FitsWorld() ==> InBounds(params, r.0)
  {
    var x := RandomIntLessThan(rand(k), params.width);
    var y := RandomIntLessThan(rand(k + 1), params.height);
    var kind := InitialKind(params, index);
    Move(params, Person(index, x, y, kind, kind, 0), rand, k + 2)
  }
}
