# Arena and debug-scene rules, modelled in Dafny

This project models the sequential logic of a small Bevy game prototype. It has two parts.

- **The 2D arena** (`systems/src/lib.rs`). This is an "asteroids" toy.
  - The player turns with Left and Right and thrusts with Up, and is then clamped into the `BOUNDS` box (1200 x 640).
  - Space fires a bullet.
  - Bullets fly forward and are despawned once they leave the half-viewport rectangle.
  - Every bullet is compared with every enemy ship, and each overlap requests a despawn of the ship.
  - Enemies that drift outside the viewport extended by a 30-unit margin are despawned. The rest are counted, and while fewer than 10 remain one new enemy is spawned in the margin band.
  - Enemies fly forward.
- **The 3D debug scene** (`src/systems.rs`).
  - `setup` lays out six rows of twenty spheres, one row per axis direction.
  - Each row shares an 8x8 RGBA test texture. The texture is filled row by row from a 32-byte palette that is rotated right by one pixel after each row.

Modules:

- `Components` (`components.dfy`) holds vectors, transforms, rotations about the screen normal, the player component and `BOUNDS`.
- `Systems` (`systems.dfy`) holds the arena rules. The engine's entity storage is the class `Systems.World`, with one `seq` per query: the player, the bullets and the enemy ships. The systems that read or change those stores are methods of `World`. `player_shooting_system` only reads the player's transform and is the function `PlayerShooting`.
  - Systems that move things compute the updated store and then write it back to the field.
  - Three pieces work on values, not on the world:
    - `SteerShip` does the player's turn, thrust and clamp;
    - `MoveAndCull` is the bullet loop;
    - `RowHits` is the inner loop of the hit system.
  - The enemy movement loop sits inside `World.MoveOtherShips`, and the cull-and-count loop inside `World.SpawnOtherShips`.
  - Systems that spawn or despawn return the engine commands they issue, as a list of `Command` values.
  - Each method is specified by functions on sequences (`Advanced`, `OutsideRequests`, `Survivors`, `HitRequests`, `OtherShipSpawn`). The lemmas about those functions carry the properties: a per-entity "despawned exactly when", per-ship request counts, and cull-plus-survivor totals.
- `Scene` (`scene.dfy`) holds the sphere layout and the texture.
  - The texture is filled in place on arrays, as the source does with `copy_from_slice` and `rotate_right`.
  - It is specified by `Texture(palette)`, which is built from `RotatedRight`.
  - The lemmas give the byte of every pixel and prove that every byte comes from the palette.

Engine operations whose code is not part of this model are parameters of the methods:

- the quaternion action `rotation.mul_vec3` (`mulVec3`);
- `utilities::is_outside_bounds` (`outside`);
- `collide_aabb::collide` (`collide`).

Everything proved about these methods holds whatever those operations do. The random draws of `spawn_other_ships` are inputs too: unit draws in [0, 1), with `gen_range(lo..hi)` taken as `lo + (hi - lo) * u`.

## Model

| member | source | states |
|---|---|---|
| Systems.RotationFactor | systems/src/lib.rs:87-96 | The rotation factor is 1, 0 or -1. It is 1 exactly when Left is held without Right, and -1 exactly when Right is held without Left. Both held cancel to 0. |
| Systems.MovementFactor | systems/src/lib.rs:88-100 | The movement factor is 0 or 1, and 1 exactly when Up is held. There is no reverse thrust. |
| Systems.Thrust | systems/src/lib.rs:106-110 | Without Up the translation step is zero. With Up it is the facing vector scaled by 300 * dt. |
| Systems.Clamp | systems/src/lib.rs:116 | The clamped value lies in [lo, hi]. A value inside is unchanged, a value above becomes hi and a value below becomes lo. |
| Systems.ClampToBounds | systems/src/lib.rs:115-116 | `min(extents).max(-extents)` clamps x into [-600, 600] and y into [-320, 320] and forces z to 0. A point already inside the arena is unchanged. |
| Systems.ClampToBoundsIdempotent | systems/src/lib.rs:116 | Clamping twice equals clamping once. |
| Systems.SteerShip | systems/src/lib.rs:87-116 | The transform after one frame turns by RotationFactor * rotation_speed * dt. Its translation is the old one plus the thrust along the new facing, clamped into the arena, so it always ends inside [-600, 600] x [-320, 320] with z = 0. |
| Systems.World.constructor | systems/src/lib.rs:80 | The world stands for the stores behind the queries at lines 80, 123, 147, 177-178, 201 and 252. A world built from stores with distinct entities, kept apart from each other, holds exactly those stores and satisfies `Valid()`, the invariant every system keeps. |
| Systems.World.PlayerMovement | systems/src/lib.rs:78-117 | The single player turns by factor * rotation_speed * dt about z, then moves along its new facing by the thrust. It ends clamped into the arena. Its entity and ship component are unchanged, and no other store changes. |
| Systems.PlayerShooting | systems/src/lib.rs:120-141 | At most one command is issued. A bullet is spawned exactly when Space was just pressed and there is exactly one player, and the bullet's transform is the player's transform. |
| Systems.ShootingIgnoresShip | systems/src/lib.rs:123-131 | Shooting depends only on the players' entities and transforms, never on the ship component or its shooting timer. |
| Systems.World.BulletMovement | systems/src/lib.rs:145-171 | Every bullet is moved forward by 800 * dt along its facing, and nothing else about it changes. The returned commands are the despawns of the moved bullets outside the rectangle (-sx, sy, sx, -sy) of the half viewport. Each bullet is despawned exactly when it is outside. |
| Systems.MoveAndCull | systems/src/lib.rs:153-171 | The bullet loop's result is every body advanced by the step. Its requests are, in order, the despawns of the advanced bodies outside the rectangle. |
| Systems.Advance | systems/src/lib.rs:154-157 | Moving a body along its facing keeps its entity and its rotation. |
| Systems.Advanced | systems/src/lib.rs:153-157 | Moving every body keeps the number of bodies and their entities, in order. `World.MoveOtherShips` (lines 254-259) uses it too. |
| Systems.OutsideRequests | systems/src/lib.rs:159-170 | There are no more cull requests than bodies, and each is a despawn of one of the bodies. The per-body count is in `OutsideRequestCount`. |
| Systems.OutsideRequestCount | systems/src/lib.rs:159-170 | With distinct entities, a body outside the rectangle gets exactly one despawn request and a body inside gets none. |
| Systems.OutsideRequestsExact | systems/src/lib.rs:159-170 | With distinct entities, a body gets a despawn request exactly when the bounds test says it is outside. |
| Systems.Survivors | systems/src/lib.rs:208-224 | The value `other_ships_count` ends with is at most the number of enemies. `CulledPlusSurvivors` says it is exactly the enemies not despawned. |
| Systems.CulledPlusSurvivors | systems/src/lib.rs:210-224 | The despawns plus the counter equal the number of enemies. With `OutsideRequestCount`, each enemy is either despawned once or counted, never both. |
| Systems.World.BulletHit | systems/src/lib.rs:175-195 | The commands are exactly those of the nested loop, bullets outermost. An enemy overlapped by k bullets gets k despawn requests, and it gets one exactly when some bullet overlaps it. No bullet is ever despawned. |
| Systems.RowRequests | systems/src/lib.rs:181-193 | One bullet's pass over the ships issues no more requests than there are ships, each a despawn of one of the ships. The per-ship count is in `RowRequestCount`. |
| Systems.RowRequestCount | systems/src/lib.rs:181-193 | With distinct ships, one bullet's pass requests a ship's despawn exactly once when the bullet overlaps it and never otherwise. |
| Systems.HitRequests | systems/src/lib.rs:180-194 | Every request of the hit loop is a despawn of an enemy ship. |
| Systems.RowHits | systems/src/lib.rs:181-193 | The inner loop of the hit system issues exactly the requests of `RowRequests` for its bullet. |
| Systems.HitRequestsExact | systems/src/lib.rs:180-194 | With distinct ships kept apart from the bullets, each ship gets as many despawns as it has overlapping bullets. It gets at least one exactly when some bullet overlaps it, and no bullet is ever despawned. |
| Systems.HitRequestCount | systems/src/lib.rs:180-194 | With distinct ships, the number of despawn requests for a ship equals the number of bullets overlapping it. |
| Systems.HitCountPositive | systems/src/lib.rs:180-194 | A ship's overlap count is positive exactly when some bullet overlaps it. |
| Systems.GenRange | systems/src/lib.rs:228-237 | A draw from `gen_range(lo..hi)` lies in the half-open range [lo, hi). |
| Systems.OtherShipSpawn | systems/src/lib.rs:227-239 | A new enemy sits in the margin band on both axes. x is in [-sx-30, -sx) or [sx, sx+30), according to the coin, and the same holds for y with sy. z is 0, and its heading is in [0, 2 pi) radians, i.e. [0, 360) degrees. |
| Systems.World.SpawnOtherShips | systems/src/lib.rs:198-249 | The commands are the despawns of the enemies outside the margin rectangle (margin 30). The counter equals the number of the rest. When the counter is below 10, exactly one `SpawnOtherShip` follows, placed by `OtherShipSpawn`; otherwise none does. The command count is the enemy count minus the survivors, plus the spawn. |
| Systems.World.MoveOtherShips | systems/src/lib.rs:252-260 | Every enemy is moved forward by 100 * dt along its facing, and nothing else about it changes. |
| Scene.SpherePosition | src/systems.rs:33-41 | Sphere i of a row lies at a distance of exactly 20 times the absolute value of i from the row's first sphere, which is (0, 0.5, 0) for directions 0, 3 and 6 to 255 and the origin otherwise. |
| Scene.SpherePositionOnGrid | src/systems.rs:33-41 | Every coordinate of sphere i is 0, 0.5, 20 i or -20 i. |
| Scene.HighDirectionsAsZero | src/systems.rs:40 | Directions 6 to 255 place spheres exactly as direction 0 does. |
| Scene.SpheresApart | src/systems.rs:33-48 | Two different spheres of one row are at least one diameter (20) apart, so the radius-10 spheres never overlap. |
| Scene.CreateSpheres | src/systems.rs:21-56 | The loop places exactly `count` spheres, or none when count <= 0. Sphere k sits at the direction's position for k, and the spheres are pairwise a diameter apart. The shared texture is the debug texture. |
| Scene.Setup | src/systems.rs:9-19 | Six rows of 20 spheres, 120 in all. Sphere k is sphere k % 20 of direction k / 20, and each row gets the debug texture. |
| Scene.RotatedRight | src/systems.rs:73 | `rotate_right` keeps the length. |
| Scene.RotatedRightAt | src/systems.rs:73 | After `rotate_right(k)`, element j is the old element (j - k) mod n. |
| Scene.RotatedRightTwice | src/systems.rs:70-73 | Rotating right by a and then by b equals rotating by a + b. So after y rows the palette is the original rotated by 4 y. |
| Scene.RotateRight | src/systems.rs:73 | The in-place rotation leaves the array holding the rotated sequence. |
| Scene.CopyFromSlice | src/systems.rs:72 | The slice copy overwrites exactly [offset, offset + len) with the source and leaves the rest of the buffer unchanged. |
| Scene.Rows | src/systems.rs:69-74 | The first n rows together are 32 n bytes long. |
| Scene.Texture | src/systems.rs:69 | The texture buffer is 8 * 8 * 4 = 256 bytes long. |
| Scene.RowsAt | src/systems.rs:70-72 | Byte x of row y of the texture is at index 32 y + x, and the rows are disjoint. |
| Scene.TextureRows | src/systems.rs:70-72 | Slice [32 y, 32 y + 32) of the texture is row y, the palette rotated right by 4 y bytes. |
| Scene.TexelAt | src/systems.rs:64-73 | Byte x of row y is palette byte (x - 4 y) mod 32. |
| Scene.PixelAt | src/systems.rs:64-73 | Channel c of pixel (px, y) is channel c of palette pixel (px - y) mod 8. |
| Scene.TextureFromPalette | src/systems.rs:64-72 | Every byte of the texture is one of the palette's bytes. |
| Scene.FillRow | src/systems.rs:71-73 | One pass of the row loop writes row y, leaves every byte after row y as it was, and leaves the palette rotated by one more pixel. |
| Scene.FillRows | src/systems.rs:69-74 | The loop over the eight rows leaves the buffer equal to `Texture` of the starting palette. |
| Scene.UvDebugTexture | src/systems.rs:61-74 | The returned bytes are `Texture` of the fixed palette. Row y is that palette rotated by 4 y bytes, and every byte is a palette byte. |

## Left out

- Bevy ECS plumbing is not modelled: `Commands`, `Query`, `Res`, `spawn_bundle` and the deferred command buffer. Queries are the sequences of `World`, and commands are returned lists that are never applied.
- Quaternion and f32 numerics are not modelled. A rotation is an angle about z, and `rotate_z` adds to it without reducing modulo 2 pi. The quaternion action `mul_vec3` is a parameter. Coordinates are exact reals with no f32 rounding.
- `utilities::is_outside_bounds` and `collide_aabb::collide` are parameters. `utilities` is not part of this model, and `collide` belongs to the engine.
- `thread_rng` is not modelled; its draws are inputs constrained to their ranges.
- Panics become preconditions. `single_mut` on the player needs exactly one player. `cam.single().logical_viewport_size().unwrap()` becomes a viewport given as a parameter.
- The clock is not modelled: the frame time `delta_seconds` is a parameter of every system that uses it.
- The per-entity in-place writes of the movement systems are modelled as one write of the whole updated store after the loop. Nothing else reads the store while the loop runs, so the final state is the same.
- Transforms carry no `scale`. The bullet copies the player's whole transform at systems/src/lib.rs:131, scale included, but the model copies only translation and rotation. No system here reads or changes scale.
- Logging (`log::info!` at systems/src/lib.rs:168 and 190) is left out. It has no effect on the game state.
- Sprite colours, sizes and the enemy sprite asset are not modelled. Bullets and enemies carry only an entity and a transform.
- Asset, mesh and material creation is not modelled (`meshes.add`, `materials.add`, `images.add`, `Image::new_fill`). `CreateSpheres` returns the texture bytes and the sphere positions instead of spawning entities.
- The camera and scene `setup` of systems/src/lib.rs:13-68 is not modelled, nor is `greet_galaxy`'s printing.
- src/main.rs only wires the window and plugins, and is not modelled.
- The orbit camera controller (`utils::camera`) is not part of this model.
- Scene.CreateSpheres: positions are exact reals, while the source computes `i as f32 * 20.0` in f32. That product is exact only while 5 i <= 2^24, i.e. i <= 3355443. Past 2^24, `i as f32` itself rounds, and neighbouring spheres can land on the same f32 position. The pairwise-spacing ensures therefore holds for the source only for such small counts. `setup` only uses i < 20.
- Scene.SpheresApart: the 20-unit spacing is proved over exact reals. In f32 it holds for i <= 3355443, for the same reason as above.
- When the player query does not hold exactly one player, the player movement system panics rather than skipping, so the model requires one player.
- `player_shooting_system` uses `get_single`, which is handled: with zero or several players nothing is spawned.
- The hit loop has no early exit. An enemy overlapped by several bullets in one frame gets one despawn request per bullet, and the model keeps that count.
