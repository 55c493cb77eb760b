/** Component data shared by the arena systems: vectors, transforms, the
    player component and the arena bounds. Coordinates are exact reals. */
module Components {

  datatype Option<T> = None | Some(value: T)

  datatype Vec2 = Vec2(x: real, y: real)

  datatype Vec3 = Vec3(x: real, y: real, z: real) {

    function Add(other: Vec3): Vec3 {
      Vec3(x + other.x, y + other.y, z + other.z)
    }

    function Scale(k: real): Vec3 {
      Vec3(x * k, y * k, z * k)
    }

    function Neg(): Vec3 {
      Vec3(-x, -y, -z)
    }

    /** Componentwise minimum, as the engine's vector `min`. */
    function Min(other: Vec3): Vec3 {
      Vec3(MinReal(x, other.x), MinReal(y, other.y), MinReal(z, other.z))
    }

    /** Componentwise maximum, as the engine's vector `max`. */
    function Max(other: Vec3): Vec3 {
      Vec3(MaxReal(x, other.x), MaxReal(y, other.y), MaxReal(z, other.z))
    }

    /** Drops the z coordinate. */
    function Truncate(): Vec2 {
      Vec2(x, y)
    }
  }

  function MinReal(a: real, b: real): real {
    if a <= b then a else b
  }

  function MaxReal(a: real, b: real): real {
    if a >= b then a else b
  }

  /** A rotation about the z axis (perpendicular to the screen), as an angle
      in radians. Every rotation the arena produces is of this kind. */
  datatype Rotation = RotationZ(radians: real)

  const IDENTITY: Rotation := RotationZ(0.0)

  /** The engine's `rotate_z`: composes a further turn about z. */
  function RotateZ(r: Rotation, angle: real): Rotation {
    RotationZ(r.radians + angle)
  }

  datatype Transform = Transform(translation: Vec3, rotation: Rotation)

  /** The engine's `Transform::from_xyz`: a translation with no rotation. */
  function FromXyz(x: real, y: real, z: real): Transform {
    Transform(Vec3(x, y, z), IDENTITY)
  }

  /** Size of the arena the player is kept inside, centred at the origin. */
  const BOUNDS: Vec2 := Vec2(1200.0, 640.0)

  /** A repeating or one-shot timer; the arena systems never read it. */
  datatype Timer = Timer(durationSecs: real, elapsedSecs: real)

  /** The player component. */
  datatype Player = Player(velocity: Vec3, rotationSpeed: real, shootingTimer: Option<Timer>)

  /** An entity identifier handed out by the engine. */
  type Entity = nat
}
