/** The per-frame rules of the 2D arena: player input and clamping, shooting,
    bullet culling, bullet hits on enemy ships, and keeping the enemy
    population topped up. Engine commands are returned as request lists;
    the engine's vector numerics, its bounds test and its box collision are
    passed in as functions the rules never look inside. */
module Systems {
  import opened Components

  const PLAYER_SPEED: real := 300.0
  const BULLET_SPEED: real := 800.0
  const OTHER_SHIP_SPEED: real := 100.0
  const BULLET_SIZE: Vec2 := Vec2(10.0, 10.0)
  const OTHER_SHIP_SIZE: Vec2 := Vec2(30.0, 30.0)
  const MARGIN: real := 30.0
  const MIN_SHIP_COUNT: nat := 10
  const PI: real := 3.14159265358979323846

  /** The ship's initial facing vector. */
  const UNIT_Y: Vec3 := Vec3(0.0, 1.0, 0.0)

  /** Half of the arena bounds; z has no room at all. */
  const EXTENTS: Vec3 := Vec3(BOUNDS.x / 2.0, BOUNDS.y / 2.0, 0.0)

  /** The keyboard state one frame sees: three held keys and one press edge. */
  datatype KeyboardInput = KeyboardInput(
    leftPressed: bool, rightPressed: bool, upPressed: bool, spaceJustPressed: bool)

  /** An entity together with its transform, as a query yields it. */
  datatype Body = Body(entity: Entity, tfm: Transform)

  datatype PlayerEntity = PlayerEntity(body: Body, ship: Player)

  /** Requests queued on the engine's command buffer. */
  datatype Command =
    | Despawn(entity: Entity)
    | SpawnBullet(transform: Transform)
    | SpawnOtherShip(transform: Transform)

  /** A bounds rectangle in the order (left, top, right, bottom). */
  datatype Rect = Rect(left: real, top: real, right: real, bottom: real)

  /** The engine's action of a rotation on a vector (`rotation.mul_vec3`). */
  type QuatAction = (Rotation, Vec3) -> Vec3

  /** The bounds test `is_outside_bounds(point, rect)`, whose body is not part of this model. */
  type BoundsTest = (Vec2, Rect) -> bool

  /** The engine's box test `collide(posA, sizeA, posB, sizeB).is_some()`. */
  type BoxCollide = (Vec3, Vec2, Vec3, Vec2) -> bool

  // ---------------------------------------------------------------------
  // Entity identifiers

  function Ids(bs: seq<Body>): (ids: seq<Entity>)
    ensures |ids| == |bs|
  {
    seq(|bs|, i requires 0 <= i < |bs| => bs[i].entity)
  }

  function PlayerBodies(ps: seq<PlayerEntity>): (bs: seq<Body>)
    ensures |bs| == |ps|
  {
    seq(|ps|, i requires 0 <= i < |ps| => ps[i].body)
  }

  lemma IdsSplit(bs: seq<Body>)
    requires bs != []
    ensures Ids(bs) == Ids(bs[..|bs| - 1]) + [bs[|bs| - 1].entity]
  {
  }

  /** In a distinct sequence the last entity occurs nowhere before it. */
  lemma DistinctSplit(bs: seq<Body>)
    requires bs != [] && Distinct(Ids(bs))
    ensures Distinct(Ids(bs[..|bs| - 1])) && bs[|bs| - 1].entity !in Ids(bs[..|bs| - 1])
  {
    var init, n := bs[..|bs| - 1], |bs|;
    IdsSplit(bs);
    assert forall k :: 0 <= k < n - 1 ==> Ids(init)[k] == Ids(bs)[k];
    assert Ids(bs)[n - 1] == bs[n - 1].entity;
    assert forall k :: 0 <= k < n - 1 ==> Ids(init)[k] != bs[n - 1].entity;
  }

  lemma SingleIds(p: PlayerEntity)
    ensures Ids(PlayerBodies([p])) == [p.body.entity]
  {
  }

  predicate Distinct(ids: seq<Entity>) {
    forall i, j :: 0 <= i < j < |ids| ==> ids[i] != ids[j]
  }

  predicate Apart(a: seq<Entity>, b: seq<Entity>) {
    forall e :: e in a ==> e !in b
  }

  // ---------------------------------------------------------------------
  // Player movement: input factors and the clamp into the arena

  /** Left adds one, Right takes one away: both held cancel out. */
  function RotationFactor(input: KeyboardInput): (f: real)
    ensures f == 1.0 || f == 0.0 || f == -1.0
    ensures f == 1.0 <==> input.leftPressed && !input.rightPressed
    ensures f == -1.0 <==> input.rightPressed && !input.leftPressed
  {
    (if input.leftPressed then 1.0 else 0.0) - (if input.rightPressed then 1.0 else 0.0)
  }

  /** Up gives full thrust; nothing gives reverse thrust. */
  function MovementFactor(input: KeyboardInput): (f: real)
    ensures f == 0.0 || f == 1.0
    ensures f == 1.0 <==> input.upPressed
  {
    if input.upPressed then 1.0 else 0.0
  }

  /** The translation one frame of thrust adds along the facing vector `forward`. */
  function Thrust(forward: Vec3, input: KeyboardInput, dt: real): (delta: Vec3)
    ensures !input.upPressed ==> delta == Vec3(0.0, 0.0, 0.0)
    ensures input.upPressed ==> delta == forward.Scale(PLAYER_SPEED * dt)
  {
    forward.Scale(MovementFactor(input) * PLAYER_SPEED * dt)
  }

  function Clamp(v: real, lo: real, hi: real): (r: real)
    requires lo <= hi
    ensures lo <= r <= hi
    ensures lo <= v <= hi ==> r == v
    ensures v > hi ==> r == hi
    ensures v < lo ==> r == lo
  {
    MaxReal(MinReal(v, hi), lo)
  }

  /** Inside the arena: |x| <= 600, |y| <= 320 and z == 0. */
  predicate InBounds(v: Vec3) {
    -EXTENTS.x <= v.x <= EXTENTS.x && -EXTENTS.y <= v.y <= EXTENTS.y && v.z == 0.0
  }

  /** `translation.min(extents).max(-extents)`: the nearest point of the arena. */
  function ClampToBounds(v: Vec3): (r: Vec3)
    ensures r == Vec3(Clamp(v.x, -EXTENTS.x, EXTENTS.x), Clamp(v.y, -EXTENTS.y, EXTENTS.y), 0.0)
    ensures InBounds(r)
    ensures InBounds(v) ==> r == v
  {
    v.Min(EXTENTS).Max(EXTENTS.Neg())
  }

  lemma ClampToBoundsIdempotent(v: Vec3)
    ensures ClampToBounds(ClampToBounds(v)) == ClampToBounds(v)
  {
  }

  /** One frame of the movement system on the player's transform: turn by
      the rotation factor, thrust along the new facing, clamp into the arena. */
  method SteerShip(tfm: Transform, ship: Player, input: KeyboardInput, dt: real, mulVec3: QuatAction)
    returns (r: Transform)
    ensures r.rotation == RotateZ(tfm.rotation, RotationFactor(input) * ship.rotationSpeed * dt)
    ensures r.translation == ClampToBounds(tfm.translation.Add(Thrust(mulVec3(r.rotation, UNIT_Y), input, dt)))
    ensures InBounds(r.translation)
  {
    var rotationFactor := 0.0;
    var movementFactor := 0.0;
    if input.leftPressed {
      rotationFactor := rotationFactor + 1.0;
    }
    if input.rightPressed {
      rotationFactor := rotationFactor - 1.0;
    }
    if input.upPressed {
      movementFactor := movementFactor + 1.0;
    }
    assert rotationFactor == RotationFactor(input) && movementFactor == MovementFactor(input);

    r := tfm.(rotation := RotateZ(tfm.rotation, rotationFactor * ship.rotationSpeed * dt));
    var movementDirection := mulVec3(r.rotation, UNIT_Y);
    var movementDistance := movementFactor * PLAYER_SPEED * dt;
    var translationDelta := movementDirection.Scale(movementDistance);
    r := r.(translation := r.translation.Add(translationDelta));
    r := r.(translation := r.translation.Min(EXTENTS).Max(EXTENTS.Neg()));
  }

  // ---------------------------------------------------------------------
  // Shooting

  /** One bullet, at the player's transform, when Space was just pressed and
      the player query holds exactly one player; otherwise nothing. */
  function PlayerShooting(spaceJustPressed: bool, players: seq<PlayerEntity>): (cmds: seq<Command>)
    ensures |cmds| <= 1
    ensures |cmds| == 1 <==> spaceJustPressed && |players| == 1
    ensures |cmds| == 1 ==> cmds[0] == SpawnBullet(players[0].body.tfm)
  {
    if spaceJustPressed && |players| == 1 then [SpawnBullet(players[0].body.tfm)] else []
  }

  /** The shooting timer is never consulted: players that differ only in
      their ship component shoot alike. */
  lemma ShootingIgnoresShip(spaceJustPressed: bool, a: seq<PlayerEntity>, b: seq<PlayerEntity>)
    requires PlayerBodies(a) == PlayerBodies(b)
    ensures PlayerShooting(spaceJustPressed, a) == PlayerShooting(spaceJustPressed, b)
  {
    if |a| == 1 {
      assert a[0].body == PlayerBodies(a)[0];
      assert b[0].body == PlayerBodies(b)[0];
    }
  }

  // ---------------------------------------------------------------------
  // Movement along the facing direction, and culling outside a rectangle

  /** Moves a body by `local` turned by its own rotation; nothing else changes. */
  function Advance(b: Body, mulVec3: QuatAction, local: Vec3): (r: Body)
    ensures r.entity == b.entity && r.tfm.rotation == b.tfm.rotation
  {
    b.(tfm := b.tfm.(translation := b.tfm.translation.Add(mulVec3(b.tfm.rotation, local))))
  }

  function Advanced(bs: seq<Body>, mulVec3: QuatAction, local: Vec3): (r: seq<Body>)
    ensures |r| == |bs| && Ids(r) == Ids(bs)
  {
    var r := seq(|bs|, i requires 0 <= i < |bs| => Advance(bs[i], mulVec3, local));
    assert forall i :: 0 <= i < |bs| ==> Ids(r)[i] == Ids(bs)[i];
    r
  }

  /** Advancing one more body appends its advanced copy. */
  lemma AdvancedSnoc(bs: seq<Body>, b: Body, mulVec3: QuatAction, local: Vec3)
    ensures Advanced(bs + [b], mulVec3, local) == Advanced(bs, mulVec3, local) + [Advance(b, mulVec3, local)]
  {
  }

  function HalfViewport(viewport: Vec2): Vec2 {
    Vec2(viewport.x * 0.5, viewport.y * 0.5)
  }

  /** The half-viewport rectangle bullets live in. */
  function ScreenRect(viewport: Vec2): Rect {
    var s := HalfViewport(viewport);
    Rect(-s.x, s.y, s.x, -s.y)
  }

  /** The half-viewport rectangle widened by MARGIN on every side. */
  function MarginRect(viewport: Vec2): Rect {
    var s := HalfViewport(viewport);
    Rect(-s.x - MARGIN, s.y + MARGIN, s.x + MARGIN, -s.y - MARGIN)
  }

  predicate IsOutside(b: Body, rect: Rect, outside: BoundsTest) {
    outside(b.tfm.translation.Truncate(), rect)
  }

  /** A despawn request, in query order, for every body outside `rect`. */
  function OutsideRequests(bs: seq<Body>, rect: Rect, outside: BoundsTest): (cmds: seq<Command>)
    ensures |cmds| <= |bs|
    ensures forall c :: c in cmds ==> c.Despawn? && c.entity in Ids(bs)
  {
    if bs == [] then []
    else
      var init, last := bs[..|bs| - 1], bs[|bs| - 1];
      IdsSplit(bs);
      OutsideRequests(init, rect, outside)
        + (if IsOutside(last, rect, outside) then [Despawn(last.entity)] else [])
  }

  /** Appending a body appends its request, if any. */
  lemma OutsideRequestsSnoc(bs: seq<Body>, b: Body, rect: Rect, outside: BoundsTest)
    ensures OutsideRequests(bs + [b], rect, outside)
      == OutsideRequests(bs, rect, outside) + (if IsOutside(b, rect, outside) then [Despawn(b.entity)] else [])
  {
    assert (bs + [b])[..|bs|] == bs;
  }

  /** The number of bodies inside `rect`. */
  function Survivors(bs: seq<Body>, rect: Rect, outside: BoundsTest): (n: nat)
    ensures n <= |bs|
  {
    if bs == [] then 0
    else
      Survivors(bs[..|bs| - 1], rect, outside)
        + (if IsOutside(bs[|bs| - 1], rect, outside) then 0 else 1)
  }


  /** With distinct entities, a body gets a request exactly when it is outside. */
  lemma {:induction false} OutsideRequestsExact(bs: seq<Body>, rect: Rect, outside: BoundsTest)
    requires Distinct(Ids(bs))
    ensures forall i :: 0 <= i < |bs| ==>
      (Despawn(bs[i].entity) in OutsideRequests(bs, rect, outside) <==> IsOutside(bs[i], rect, outside))
  {
    if bs != [] {
      var n := |bs|;
      var init, last := bs[..n - 1], bs[n - 1];
      DistinctSplit(bs);
      OutsideRequestsExact(init, rect, outside);
      forall i | 0 <= i < n - 1
        ensures Despawn(bs[i].entity) in OutsideRequests(bs, rect, outside) <==> IsOutside(bs[i], rect, outside)
      {
        assert bs[i] == init[i];
        assert bs[i].entity != last.entity by { assert Ids(bs)[i] != Ids(bs)[n - 1]; }
      }
    }
  }

  /** With distinct entities, a body outside gets exactly one request and a
      body inside gets none. */
  lemma {:induction false} OutsideRequestCount(bs: seq<Body>, rect: Rect, outside: BoundsTest, j: nat)
    requires Distinct(Ids(bs)) && j < |bs|
    ensures multiset(OutsideRequests(bs, rect, outside))[Despawn(bs[j].entity)]
      == if IsOutside(bs[j], rect, outside) then 1 else 0
  {
    var n := |bs|;
    var init, last := bs[..n - 1], bs[n - 1];
    assert bs == init + [last];
    OutsideRequestsSnoc(init, last, rect, outside);
    DistinctSplit(bs);
    if j < n - 1 {
      assert bs[j] == init[j];
      assert bs[j].entity != last.entity by { assert Ids(bs)[j] != Ids(bs)[n - 1]; }
      OutsideRequestCount(init, rect, outside, j);
    } else {
      assert Despawn(last.entity) !in OutsideRequests(init, rect, outside);
    }
  }

  /** Every body is either culled or counted, never both. */
  lemma {:induction false} CulledPlusSurvivors(bs: seq<Body>, rect: Rect, outside: BoundsTest)
    ensures |OutsideRequests(bs, rect, outside)| + Survivors(bs, rect, outside) == |bs|
  {
    if bs != [] {
      CulledPlusSurvivors(bs[..|bs| - 1], rect, outside);
    }
  }

  /** The bullet loop: moves each body in turn and, right after moving it,
      requests its despawn if it is now outside `rect`. */
  method MoveAndCull(bs: seq<Body>, mulVec3: QuatAction, step: Vec3, rect: Rect, outside: BoundsTest)
    returns (moved: seq<Body>, cmds: seq<Command>)
    ensures moved == Advanced(bs, mulVec3, step)
    ensures cmds == OutsideRequests(moved, rect, outside)
  {
    moved := bs;
    cmds := [];
    var i := 0;
    while i < |moved|
      invariant 0 <= i <= |moved| == |bs|
      invariant forall k :: 0 <= k < i ==> moved[k] == Advance(bs[k], mulVec3, step)
      invariant forall k :: i <= k < |moved| ==> moved[k] == bs[k]
      invariant cmds == OutsideRequests(Advanced(bs[..i], mulVec3, step), rect, outside)
    {
      var b := Advance(moved[i], mulVec3, step);
      moved := moved[i := b];
      if IsOutside(b, rect, outside) {
        cmds := cmds + [Despawn(b.entity)];
      }
      assert bs[..i + 1] == bs[..i] + [bs[i]];
      AdvancedSnoc(bs[..i], bs[i], mulVec3, step);
      OutsideRequestsSnoc(Advanced(bs[..i], mulVec3, step), b, rect, outside);
      i := i + 1;
    }
    assert bs[..i] == bs;
    assert moved == Advanced(bs, mulVec3, step);
  }

  // ---------------------------------------------------------------------
  // Bullet hits

  predicate Hits(bullet: Body, ship: Body, collide: BoxCollide) {
    collide(bullet.tfm.translation, BULLET_SIZE, ship.tfm.translation, OTHER_SHIP_SIZE)
  }

  /** The requests of the inner loop: one per ship the bullet overlaps. */
  function RowRequests(bullet: Body, ships: seq<Body>, collide: BoxCollide): (cmds: seq<Command>)
    ensures |cmds| <= |ships|
    ensures forall c :: c in cmds ==> c.Despawn? && c.entity in Ids(ships)
  {
    if ships == [] then []
    else
      var init, last := ships[..|ships| - 1], ships[|ships| - 1];
      IdsSplit(ships);
      RowRequests(bullet, init, collide)
        + (if Hits(bullet, last, collide) then [Despawn(last.entity)] else [])
  }

  /** The requests of the whole nested loop, bullets outermost. */
  function HitRequests(bullets: seq<Body>, ships: seq<Body>, collide: BoxCollide): (cmds: seq<Command>)
    ensures forall c :: c in cmds ==> c.Despawn? && c.entity in Ids(ships)
  {
    if bullets == [] then []
    else
      HitRequests(bullets[..|bullets| - 1], ships, collide)
        + RowRequests(bullets[|bullets| - 1], ships, collide)
  }

  lemma RowRequestsSnoc(bullet: Body, ships: seq<Body>, ship: Body, collide: BoxCollide)
    ensures RowRequests(bullet, ships + [ship], collide)
      == RowRequests(bullet, ships, collide) + (if Hits(bullet, ship, collide) then [Despawn(ship.entity)] else [])
  {
    assert (ships + [ship])[..|ships|] == ships;
  }

  lemma HitRequestsSnoc(bullets: seq<Body>, bullet: Body, ships: seq<Body>, collide: BoxCollide)
    ensures HitRequests(bullets + [bullet], ships, collide)
      == HitRequests(bullets, ships, collide) + RowRequests(bullet, ships, collide)
  {
    assert (bullets + [bullet])[..|bullets|] == bullets;
  }

  /** How many of the bullets overlap the ship. */
  function HitCount(bullets: seq<Body>, ship: Body, collide: BoxCollide): nat {
    if bullets == [] then 0
    else
      HitCount(bullets[..|bullets| - 1], ship, collide)
        + (if Hits(bullets[|bullets| - 1], ship, collide) then 1 else 0)
  }

  lemma {:induction false} RowRequestCount(bullet: Body, ships: seq<Body>, collide: BoxCollide, j: nat)
    requires Distinct(Ids(ships)) && j < |ships|
    ensures multiset(RowRequests(bullet, ships, collide))[Despawn(ships[j].entity)]
      == if Hits(bullet, ships[j], collide) then 1 else 0
  {
    var n := |ships|;
    var init, last := ships[..n - 1], ships[n - 1];
    assert ships == init + [last];
    RowRequestsSnoc(bullet, init, last, collide);
    DistinctSplit(ships);
    if j < n - 1 {
      assert ships[j] == init[j];
      assert ships[j].entity != last.entity by { assert Ids(ships)[j] != Ids(ships)[n - 1]; }
      RowRequestCount(bullet, init, collide, j);
    } else {
      assert Despawn(last.entity) !in RowRequests(bullet, init, collide);
    }
  }

  /** An enemy with k overlapping bullets receives exactly k despawn requests. */
  lemma {:induction false} HitRequestCount(bullets: seq<Body>, ships: seq<Body>, collide: BoxCollide, j: nat)
    requires Distinct(Ids(ships)) && j < |ships|
    ensures multiset(HitRequests(bullets, ships, collide))[Despawn(ships[j].entity)]
      == HitCount(bullets, ships[j], collide)
  {
    if bullets != [] {
      HitRequestCount(bullets[..|bullets| - 1], ships, collide, j);
      RowRequestCount(bullets[|bullets| - 1], ships, collide, j);
    }
  }

  /** A ship is hit at least once exactly when some bullet overlaps it. */
  lemma {:induction false} HitCountPositive(bullets: seq<Body>, ship: Body, collide: BoxCollide)
    ensures HitCount(bullets, ship, collide) > 0 <==>
      exists i :: 0 <= i < |bullets| && Hits(bullets[i], ship, collide)
  {
    if bullets != [] {
      var init := bullets[..|bullets| - 1];
      HitCountPositive(init, ship, collide);
      if exists i :: 0 <= i < |init| && Hits(init[i], ship, collide) {
        var i :| 0 <= i < |init| && Hits(init[i], ship, collide);
        assert bullets[i] == init[i];
      }
      if exists i :: 0 <= i < |bullets| && Hits(bullets[i], ship, collide) {
        var i :| 0 <= i < |bullets| && Hits(bullets[i], ship, collide);
        if i < |init| {
          assert bullets[i] == init[i];
        }
      }
    }
  }

  /** What the hit loop requests, ship by ship: as many despawns as there
      are overlapping bullets, at least one exactly when some bullet
      overlaps, and never a despawn of a bullet. */
  lemma HitRequestsExact(bullets: seq<Body>, ships: seq<Body>, collide: BoxCollide)
    requires Distinct(Ids(ships)) && Apart(Ids(bullets), Ids(ships))
    ensures forall j :: 0 <= j < |ships| ==>
      multiset(HitRequests(bullets, ships, collide))[Despawn(ships[j].entity)] == HitCount(bullets, ships[j], collide)
    ensures forall j :: 0 <= j < |ships| ==>
      (Despawn(ships[j].entity) in HitRequests(bullets, ships, collide) <==>
        exists i :: 0 <= i < |bullets| && Hits(bullets[i], ships[j], collide))
    ensures forall i :: 0 <= i < |bullets| ==> Despawn(bullets[i].entity) !in HitRequests(bullets, ships, collide)
  {
    var cmds := HitRequests(bullets, ships, collide);
    forall j | 0 <= j < |ships|
      ensures multiset(cmds)[Despawn(ships[j].entity)] == HitCount(bullets, ships[j], collide)
      ensures Despawn(ships[j].entity) in cmds <==>
        exists i :: 0 <= i < |bullets| && Hits(bullets[i], ships[j], collide)
    {
      HitRequestCount(bullets, ships, collide, j);
      HitCountPositive(bullets, ships[j], collide);
    }
    forall i | 0 <= i < |bullets|
      ensures Despawn(bullets[i].entity) !in cmds
    {
      assert Ids(bullets)[i] == bullets[i].entity;
    }
  }

  // ---------------------------------------------------------------------
  // Spawning enemy ships

  /** The random draws one spawn uses: two coin flips and three unit draws in [0, 1). */
  datatype SpawnDraws = SpawnDraws(negativeX: bool, ux: real, negativeY: bool, uy: real, udir: real)

  predicate ValidDraws(d: SpawnDraws) {
    0.0 <= d.ux < 1.0 && 0.0 <= d.uy < 1.0 && 0.0 <= d.udir < 1.0
  }

  lemma ScaledDrawBelow(d: real, u: real)
    requires d > 0.0 && 0.0 <= u < 1.0
    ensures 0.0 <= d * u < d
  {
    assert d * (1.0 - u) > 0.0;
  }

  lemma ShiftedDrawBelow(lo: real, d: real, u: real, hi: real)
    requires d > 0.0 && 0.0 <= u < 1.0 && hi == lo + d
    ensures lo <= lo + d * u < hi
  {
    ScaledDrawBelow(d, u);
  }

  /** `gen_range(lo..hi)` fed with the unit draw `u`. */
  function GenRange(lo: real, hi: real, u: real): (r: real)
    requires lo < hi && 0.0 <= u < 1.0
    ensures lo <= r < hi
  {
    ShiftedDrawBelow(lo, hi - lo, u, hi);
    lo + (hi - lo) * u
  }

  function ToRadians(degrees: real): real {
    degrees * (PI / 180.0)
  }

  /** The transform of a newly spawned enemy ship. */
  function OtherShipSpawn(viewport: Vec2, draws: SpawnDraws): (t: Transform)
    requires ValidDraws(draws)
    ensures var s := HalfViewport(viewport);
      && (draws.negativeX ==> -s.x - MARGIN <= t.translation.x < -s.x)
      && (!draws.negativeX ==> s.x <= t.translation.x < s.x + MARGIN)
      && (draws.negativeY ==> -s.y - MARGIN <= t.translation.y < -s.y)
      && (!draws.negativeY ==> s.y <= t.translation.y < s.y + MARGIN)
      && t.translation.z == 0.0
    ensures 0.0 <= t.rotation.radians < 2.0 * PI
  {
    var s := HalfViewport(viewport);
    var x := if draws.negativeX then GenRange(-s.x - MARGIN, -s.x, draws.ux)
             else GenRange(s.x, s.x + MARGIN, draws.ux);
    var y := if draws.negativeY then GenRange(-s.y - MARGIN, -s.y, draws.uy)
             else GenRange(s.y, s.y + MARGIN, draws.uy);
    var dir := GenRange(0.0, 360.0, draws.udir);
    var t := FromXyz(x, y, 0.0);
    t.(rotation := RotateZ(t.rotation, ToRadians(dir)))
  }

  /** The inner loop of the hit system: one bullet against every ship. */
  method RowHits(bullet: Body, ships: seq<Body>, collide: BoxCollide) returns (row: seq<Command>)
    ensures row == RowRequests(bullet, ships, collide)
  {
    row := [];
    for j := 0 to |ships|
      invariant row == RowRequests(bullet, ships[..j], collide)
    {
      if Hits(bullet, ships[j], collide) {
        row := row + [Despawn(ships[j].entity)];
      }
      assert ships[..j + 1] == ships[..j] + [ships[j]];
      RowRequestsSnoc(bullet, ships[..j], ships[j], collide);
    }
    assert ships[..|ships|] == ships;
  }

  // ---------------------------------------------------------------------
  // The arena's entity storage and the systems that run over it

  class World {
    var players: seq<PlayerEntity>
    var bullets: seq<Body>
    var others: seq<Body>

    /** The engine never hands out one entity twice. */
    ghost predicate Valid()
      reads this
    {
      var p, b, o := Ids(PlayerBodies(players)), Ids(bullets), Ids(others);
      Distinct(p) && Distinct(b) && Distinct(o) && Apart(p, b) && Apart(p, o) && Apart(b, o)
    }

    /** A world over stores the engine filled with distinct entities. */
    constructor (players: seq<PlayerEntity>, bullets: seq<Body>, others: seq<Body>)
      requires Distinct(Ids(PlayerBodies(players))) && Distinct(Ids(bullets)) && Distinct(Ids(others))
      requires Apart(Ids(PlayerBodies(players)), Ids(bullets)) && Apart(Ids(PlayerBodies(players)), Ids(others))
      requires Apart(Ids(bullets), Ids(others))
      ensures Valid()
      ensures this.players == players && this.bullets == bullets && this.others == others
    {
      this.players := players;
      this.bullets := bullets;
      this.others := others;
    }

    /** Turns and thrusts the single player, then clamps it into the arena. */
    method PlayerMovement(input: KeyboardInput, dt: real, mulVec3: QuatAction)
      requires Valid() && |players| == 1
      modifies this`players
      ensures Valid() && |players| == 1
      ensures players[0].body.entity == old(players[0].body.entity)
      ensures players[0].ship == old(players[0].ship)
      ensures players[0].body.tfm.rotation == RotateZ(old(players[0].body.tfm.rotation),
        RotationFactor(input) * old(players[0].ship.rotationSpeed) * dt)
      ensures players[0].body.tfm.translation == ClampToBounds(old(players[0].body.tfm.translation)
        .Add(Thrust(mulVec3(players[0].body.tfm.rotation, UNIT_Y), input, dt)))
      ensures InBounds(players[0].body.tfm.translation)
    {
      var player := players[0];
      var tfm := SteerShip(player.body.tfm, player.ship, input, dt, mulVec3);
      assert players == [player];
      SingleIds(player);
      players := [player.(body := player.body.(tfm := tfm))];
      SingleIds(players[0]);
    }

    /** Moves every bullet forward and requests the despawn of those that
        left the half-viewport rectangle. */
    method BulletMovement(viewport: Vec2, dt: real, mulVec3: QuatAction, outside: BoundsTest)
      returns (cmds: seq<Command>)
      requires Valid()
      modifies this`bullets
      ensures Valid()
      ensures bullets == Advanced(old(bullets), mulVec3, Vec3(0.0, BULLET_SPEED * dt, 0.0))
      ensures cmds == OutsideRequests(bullets, ScreenRect(viewport), outside)
      ensures forall i :: 0 <= i < |bullets| ==>
        (Despawn(bullets[i].entity) in cmds <==> IsOutside(bullets[i], ScreenRect(viewport), outside))
    {
      var screen := ScreenRect(viewport);
      var moved;
      moved, cmds := MoveAndCull(bullets, mulVec3, Vec3(0.0, BULLET_SPEED * dt, 0.0), screen, outside);
      OutsideRequestsExact(moved, screen, outside);
      bullets := moved;
    }

    /** Compares every bullet with every enemy ship and requests the despawn
        of the ship on each overlap; bullets are never despawned here. */
    method BulletHit(collide: BoxCollide) returns (cmds: seq<Command>)
      requires Valid()
      ensures cmds == HitRequests(bullets, others, collide)
      ensures forall j :: 0 <= j < |others| ==>
        multiset(cmds)[Despawn(others[j].entity)] == HitCount(bullets, others[j], collide)
      ensures forall j :: 0 <= j < |others| ==>
        (Despawn(others[j].entity) in cmds <==> exists i :: 0 <= i < |bullets| && Hits(bullets[i], others[j], collide))
      ensures forall i :: 0 <= i < |bullets| ==> Despawn(bullets[i].entity) !in cmds
    {
      var shots, ships := bullets, others;
      cmds := [];
      for i := 0 to |shots|
        invariant cmds == HitRequests(shots[..i], ships, collide)
      {
        var row := RowHits(shots[i], ships, collide);
        cmds := cmds + row;
        assert shots[..i + 1] == shots[..i] + [shots[i]];
        HitRequestsSnoc(shots[..i], shots[i], ships, collide);
      }
      assert shots[..|shots|] == shots;
      HitRequestsExact(shots, ships, collide);
    }

    /** Despawns the enemy ships outside the margin rectangle, counts the
        rest, and spawns one new ship in the margin band while fewer than
        MIN_SHIP_COUNT remain. */
    method SpawnOtherShips(viewport: Vec2, outside: BoundsTest, draws: SpawnDraws)
      returns (cmds: seq<Command>, otherShipsCount: nat)
      requires ValidDraws(draws)
      ensures otherShipsCount == Survivors(others, MarginRect(viewport), outside)
      ensures cmds == OutsideRequests(others, MarginRect(viewport), outside)
        + (if otherShipsCount < MIN_SHIP_COUNT then [SpawnOtherShip(OtherShipSpawn(viewport, draws))] else [])
      ensures |cmds| == |others| - otherShipsCount + (if otherShipsCount < MIN_SHIP_COUNT then 1 else 0)
    {
      var margin := MarginRect(viewport);
      cmds := [];
      otherShipsCount := 0;
      for i := 0 to |others|
        invariant cmds == OutsideRequests(others[..i], margin, outside)
        invariant otherShipsCount == Survivors(others[..i], margin, outside)
      {
        if IsOutside(others[i], margin, outside) {
          cmds := cmds + [Despawn(others[i].entity)];
        } else {
          otherShipsCount := otherShipsCount + 1;
        }
        assert others[..i + 1][..i] == others[..i];
      }
      assert others[..|others|] == others;
      CulledPlusSurvivors(others, margin, outside);

      if otherShipsCount < MIN_SHIP_COUNT {
        cmds := cmds + [SpawnOtherShip(OtherShipSpawn(viewport, draws))];
      }
    }

    /** Moves every enemy ship forward along its facing. */
    method MoveOtherShips(dt: real, mulVec3: QuatAction)
      requires Valid()
      modifies this`others
      ensures Valid()
      ensures others == Advanced(old(others), mulVec3, Vec3(0.0, OTHER_SHIP_SPEED * dt, 0.0))
    {
      var step := Vec3(0.0, OTHER_SHIP_SPEED * dt, 0.0);
      var start, ships := others, others;
      var i := 0;
      while i < |ships|
        invariant 0 <= i <= |ships| == |start|
        invariant forall k :: 0 <= k < i ==> ships[k] == Advance(start[k], mulVec3, step)
        invariant forall k :: i <= k < |ships| ==> ships[k] == start[k]
      {
        ships := ships[i := Advance(ships[i], mulVec3, step)];
        i := i + 1;
      }
      assert ships == Advanced(start, mulVec3, step);
      others := ships;
    }
  }
}
