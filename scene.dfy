/** The 3D debug scene: rows of spheres laid out along the six axis
    directions, each call sharing one procedurally filled 8x8 RGBA test
    texture. */
module Scene {
  import opened Components

  newtype u8 = x: int | 0 <= x < 0x100
  newtype i32 = x: int | -0x8000_0000 <= x < 0x8000_0000

  const SPHERES_PER_DIRECTION: i32 := 20
  const SPHERE_SPACING: real := 20.0
  const SPHERE_RADIUS: real := 10.0

  /** Texture width and height in pixels. */
  const TEXTURE_SIZE: nat := 8
  /** Bytes in one texture row: TEXTURE_SIZE pixels of four bytes. */
  const ROW_BYTES: nat := 32
  const TEXTURE_BYTES: nat := 256

  /** Eight RGBA pixels; the first row of the texture. */
  const PALETTE: seq<u8> := [
    255, 102, 159, 255, 255, 159, 102, 255, 236, 255, 102, 255, 121, 255, 102, 255,
    102, 255, 198, 255, 102, 198, 255, 255, 121, 102, 255, 255, 236, 102, 255, 255]

  // ---------------------------------------------------------------------
  // Sphere layout

  /** Where sphere 0 of a row in `direction` sits. */
  function RowStart(direction: u8): Vec3 {
    if direction == 0 || direction == 3 || direction >= 6 then Vec3(0.0, 0.5, 0.0) else Vec3(0.0, 0.0, 0.0)
  }

  /** Where sphere `i` of a row in `direction` is placed: 20 |i| away from
      the row's first sphere, along one axis. */
  function SpherePosition(direction: u8, i: int): (p: Vec3)
    ensures DistSq(p, RowStart(direction)) == (i as real * SPHERE_SPACING) * (i as real * SPHERE_SPACING)
  {
    match direction
    case 0 => Vec3(i as real * SPHERE_SPACING, 0.5, 0.0)
    case 1 => Vec3(0.0, i as real * SPHERE_SPACING, 0.0)
    case 2 => Vec3(0.0, 0.0, i as real * SPHERE_SPACING)
    case 3 => Vec3((-i) as real * SPHERE_SPACING, 0.5, 0.0)
    case 4 => Vec3(0.0, (-i) as real * SPHERE_SPACING, 0.0)
    case 5 => Vec3(0.0, 0.0, (-i) as real * SPHERE_SPACING)
    case _ => Vec3(i as real * SPHERE_SPACING, 0.5, 0.0)
  }

  predicate OnGrid(c: real, i: int) {
    c == 0.0 || c == 0.5 || c == i as real * SPHERE_SPACING || c == (-i) as real * SPHERE_SPACING
  }

  /** Every coordinate is 0, 0.5 or plus or minus 20 i. */
  lemma SpherePositionOnGrid(direction: u8, i: int)
    ensures var p := SpherePosition(direction, i);
      OnGrid(p.x, i) && OnGrid(p.y, i) && OnGrid(p.z, i)
  {
  }

  /** Directions 6 to 255 lay spheres out exactly as direction 0. */
  lemma HighDirectionsAsZero(direction: u8, i: int)
    requires direction >= 6
    ensures SpherePosition(direction, i) == SpherePosition(0, i)
  {
  }

  function DistSq(a: Vec3, b: Vec3): real {
    (a.x - b.x) * (a.x - b.x) + (a.y - b.y) * (a.y - b.y) + (a.z - b.z) * (a.z - b.z)
  }

  lemma SquareAtLeastOne(n: int)
    requires n != 0
    ensures (n as real) * (n as real) >= 1.0
  {
    if n > 0 {
      assert (n as real) * ((n as real) - 1.0) >= 0.0;
    } else {
      assert (n as real) * ((n as real) + 1.0) >= 0.0;
    }
  }

  /** Two spheres of one row are at least a diameter apart, so they never overlap. */
  lemma {:induction false} SpheresApart(direction: u8, i: int, j: int)
    requires i != j
    ensures DistSq(SpherePosition(direction, i), SpherePosition(direction, j))
      >= (2.0 * SPHERE_RADIUS) * (2.0 * SPHERE_RADIUS)
  {
    var d := (i - j) as real * SPHERE_SPACING;
    SquareAtLeastOne(i - j);
    assert d * d == 400.0 * (((i - j) as real) * ((i - j) as real));
    var a, b := SpherePosition(direction, i), SpherePosition(direction, j);
    assert DistSq(a, b) == d * d;
  }

  /** Spawns `count` spheres along `direction` (none when count <= 0),
      all sharing one debug texture. */
  method CreateSpheres(count: i32, direction: u8) returns (texture: seq<u8>, positions: seq<Vec3>)
    ensures texture == Texture(PALETTE)
    ensures |positions| == if count <= 0 then 0 else count as int
    ensures forall k :: 0 <= k < |positions| ==> positions[k] == SpherePosition(direction, k)
    ensures forall k, l :: 0 <= k < l < |positions| ==>
      DistSq(positions[k], positions[l]) >= (2.0 * SPHERE_RADIUS) * (2.0 * SPHERE_RADIUS)
  {
    texture := UvDebugTexture();
    positions := [];
    var i: i32 := 0;
    while i < count
      invariant 0 <= i && (count > 0 ==> i <= count) && (count <= 0 ==> i == 0)
      invariant |positions| == i as int
      invariant forall k :: 0 <= k < |positions| ==> positions[k] == SpherePosition(direction, k)
    {
      positions := positions + [SpherePosition(direction, i as int)];
      i := i + 1;
    }
    forall k, l | 0 <= k < l < |positions|
      ensures DistSq(positions[k], positions[l]) >= (2.0 * SPHERE_RADIUS) * (2.0 * SPHERE_RADIUS)
    {
      SpheresApart(direction, k, l);
    }
  }

  /** Sphere k of the whole scene: row k / 20, place k % 20. */
  predicate SceneLayout(positions: seq<Vec3>, n: nat)
    requires n <= 120
  {
    |positions| == n && forall k :: 0 <= k < n ==> positions[k] == SpherePosition((k / 20) as u8, k % 20)
  }

  lemma AppendRow(positions: seq<Vec3>, d: nat, row: seq<Vec3>)
    requires d < 6 && SceneLayout(positions, 20 * d)
    requires |row| == 20 && forall k :: 0 <= k < 20 ==> row[k] == SpherePosition(d as u8, k)
    ensures SceneLayout(positions + row, 20 * (d + 1))
  {
    forall k | 20 * d <= k < 20 * (d + 1)
      ensures (positions + row)[k] == SpherePosition((k / 20) as u8, k % 20)
    {
      assert k / 20 == d && k % 20 == k - 20 * d;
    }
  }

  /** Six rows of twenty spheres, one per direction 0 to 5. */
  method Setup() returns (textures: seq<seq<u8>>, positions: seq<Vec3>)
    ensures |textures| == 6 && forall t :: t in textures ==> t == Texture(PALETTE)
    ensures |positions| == 120
    ensures forall k :: 0 <= k < 120 ==> positions[k] == SpherePosition((k / 20) as u8, k % 20)
  {
    textures, positions := [], [];
    var t0, p0 := CreateSpheres(SPHERES_PER_DIRECTION, 0);
    AppendRow(positions, 0, p0);
    textures, positions := textures + [t0], positions + p0;
    var t1, p1 := CreateSpheres(SPHERES_PER_DIRECTION, 1);
    AppendRow(positions, 1, p1);
    textures, positions := textures + [t1], positions + p1;
    var t2, p2 := CreateSpheres(SPHERES_PER_DIRECTION, 2);
    AppendRow(positions, 2, p2);
    textures, positions := textures + [t2], positions + p2;
    var t3, p3 := CreateSpheres(SPHERES_PER_DIRECTION, 3);
    AppendRow(positions, 3, p3);
    textures, positions := textures + [t3], positions + p3;
    var t4, p4 := CreateSpheres(SPHERES_PER_DIRECTION, 4);
    AppendRow(positions, 4, p4);
    textures, positions := textures + [t4], positions + p4;
    var t5, p5 := CreateSpheres(SPHERES_PER_DIRECTION, 5);
    AppendRow(positions, 5, p5);
    textures, positions := textures + [t5], positions + p5;
  }

  // ---------------------------------------------------------------------
  // The debug texture

  lemma ModBelow(x: int, n: int)
    requires 0 < n && -n <= x < 0
    ensures x % n == x + n
  {
  }

  lemma ModWithin(x: int, n: int)
    requires 0 <= x < n
    ensures x % n == x
  {
  }

  /** `rotate_right(k)`: the last k elements move to the front. */
  function RotatedRight<T>(s: seq<T>, k: nat): (r: seq<T>)
    requires k <= |s|
    ensures |r| == |s|
  {
    s[|s| - k..] + s[..|s| - k]
  }

  /** Element j of the rotation is element (j - k) mod |s| of the original. */
  lemma RotatedRightAt<T>(s: seq<T>, k: nat, j: nat)
    requires k <= |s| && j < |s|
    ensures RotatedRight(s, k)[j] == s[(j - k) % |s|]
  {
    if j < k {
      ModBelow(j - k, |s|);
    } else {
      ModWithin(j - k, |s|);
    }
  }

  /** Rotating by a and then by b is rotating by a + b. */
  lemma RotatedRightTwice<T>(s: seq<T>, a: nat, b: nat)
    requires a + b <= |s|
    ensures RotatedRight(RotatedRight(s, a), b) == RotatedRight(s, a + b)
  {
    var r1, r2, r := RotatedRight(s, a), RotatedRight(RotatedRight(s, a), b), RotatedRight(s, a + b);
    var n := |s|;
    forall j | 0 <= j < n
      ensures r2[j] == r[j]
    {
      var i := (j - b) % n;
      RotatedRightAt(r1, b, j);
      RotatedRightAt(s, a, i);
      RotatedRightAt(s, a + b, j);
      if j >= b {
        ModWithin(j - b, n);
        assert i - a == j - (a + b);
      } else {
        ModBelow(j - b, n);
        ModBelow(j - (a + b), n);
        ModWithin(i - a, n);
      }
    }
  }

  /** Row y of the texture filled from `palette`: the palette rotated right
      by one pixel (four bytes) per row. */
  function Row(palette: seq<u8>, y: nat): (r: seq<u8>)
    requires |palette| == ROW_BYTES && y < TEXTURE_SIZE
    ensures |r| == ROW_BYTES
  {
    RotatedRight(palette, 4 * y)
  }

  /** The first n rows, one after the other. */
  function Rows(palette: seq<u8>, n: nat): (r: seq<u8>)
    requires |palette| == ROW_BYTES && n <= TEXTURE_SIZE
    ensures |r| == ROW_BYTES * n
  {
    if n == 0 then [] else Rows(palette, n - 1) + Row(palette, n - 1)
  }

  /** The whole texture filled from `palette`. */
  function Texture(palette: seq<u8>): (t: seq<u8>)
    requires |palette| == ROW_BYTES
    ensures |t| == TEXTURE_BYTES
  {
    Rows(palette, TEXTURE_SIZE)
  }

  function TextureRow(t: seq<u8>, y: nat): seq<u8>
    requires y < TEXTURE_SIZE && |t| == TEXTURE_BYTES
  {
    t[ROW_BYTES * y..ROW_BYTES * (y + 1)]
  }

  lemma {:induction false} RowsAt(palette: seq<u8>, n: nat, y: nat, x: nat)
    requires |palette| == ROW_BYTES && y < n <= TEXTURE_SIZE && x < ROW_BYTES
    ensures Rows(palette, n)[ROW_BYTES * y + x] == Row(palette, y)[x]
  {
    if y < n - 1 {
      RowsAt(palette, n - 1, y, x);
    }
  }

  /** Row y of the texture is exactly the slice [32 y, 32 y + 32), so the
      rows are disjoint and cover every byte once. */
  lemma TextureRows(palette: seq<u8>)
    requires |palette| == ROW_BYTES
    ensures forall y :: 0 <= y < TEXTURE_SIZE ==> TextureRow(Texture(palette), y) == Row(palette, y)
  {
    forall y | 0 <= y < TEXTURE_SIZE
      ensures TextureRow(Texture(palette), y) == Row(palette, y)
    {
      forall x | 0 <= x < ROW_BYTES
        ensures TextureRow(Texture(palette), y)[x] == Row(palette, y)[x]
      {
        RowsAt(palette, TEXTURE_SIZE, y, x);
      }
    }
  }

  /** Byte x of row y is palette byte (x - 4 y) mod 32. */
  lemma TexelAt(palette: seq<u8>, y: nat, x: nat)
    requires |palette| == ROW_BYTES && y < TEXTURE_SIZE && x < ROW_BYTES
    ensures Texture(palette)[ROW_BYTES * y + x] == palette[(x - 4 * y) % ROW_BYTES]
  {
    RowsAt(palette, TEXTURE_SIZE, y, x);
    RotatedRightAt(palette, 4 * y, x);
  }

  /** Channel c of pixel (px, y) is channel c of palette pixel (px - y) mod 8. */
  lemma PixelAt(palette: seq<u8>, px: nat, y: nat, c: nat)
    requires |palette| == ROW_BYTES && px < TEXTURE_SIZE && y < TEXTURE_SIZE && c < 4
    ensures Texture(palette)[ROW_BYTES * y + 4 * px + c] == palette[4 * ((px - y) % 8) + c]
  {
    TexelAt(palette, y, 4 * px + c);
    if px >= y {
      ModWithin(px - y, 8);
      ModWithin(4 * px + c - 4 * y, ROW_BYTES);
    } else {
      ModBelow(px - y, 8);
      ModBelow(4 * px + c - 4 * y, ROW_BYTES);
    }
  }

  /** Every byte of the texture is one of the palette's bytes. */
  lemma TextureFromPalette(palette: seq<u8>)
    requires |palette| == ROW_BYTES
    ensures forall k :: 0 <= k < TEXTURE_BYTES ==> Texture(palette)[k] in palette
  {
    forall k | 0 <= k < TEXTURE_BYTES
      ensures Texture(palette)[k] in palette
    {
      TexelAt(palette, k / ROW_BYTES, k % ROW_BYTES);
    }
  }

  /** `slice[offset..offset + src.len()].copy_from_slice(src)`. */
  method CopyFromSlice<T>(dst: array<T>, offset: nat, src: array<T>)
    requires offset + src.Length <= dst.Length && dst != src
    modifies dst
    ensures dst[..] == old(dst[..offset]) + src[..] + old(dst[offset + src.Length..])
  {
    forall k | offset <= k < offset + src.Length {
      dst[k] := src[k - offset];
    }
  }

  /** `slice.rotate_right(k)`, in place. */
  method RotateRight<T>(a: array<T>, k: nat)
    requires k <= a.Length
    modifies a
    ensures a[..] == RotatedRight(old(a[..]), k)
  {
    var s := a[..];
    forall j | 0 <= j < a.Length {
      a[j] := s[(j - k) % a.Length];
    }
    forall j | 0 <= j < a.Length
      ensures a[j] == RotatedRight(s, k)[j]
    {
      RotatedRightAt(s, k, j);
    }
  }

  /** One pass of the row loop: copies the palette into row y, then rotates
      the palette right by one pixel (four bytes). */
  method FillRow(data: array<u8>, palette: array<u8>, y: nat, ghost initial: seq<u8>)
    requires data.Length == TEXTURE_BYTES && palette.Length == ROW_BYTES && data != palette
    requires |initial| == ROW_BYTES && y < TEXTURE_SIZE
    requires palette[..] == RotatedRight(initial, 4 * y)
    requires data[..ROW_BYTES * y] == Rows(initial, y)
    modifies data, palette
    ensures palette[..] == RotatedRight(initial, 4 * (y + 1))
    ensures data[..ROW_BYTES * (y + 1)] == Rows(initial, y + 1)
    ensures data[ROW_BYTES * (y + 1)..] == old(data[ROW_BYTES * (y + 1)..])
  {
    var offset := TEXTURE_SIZE * y * 4;
    ghost var before := data[..];
    CopyFromSlice(data, offset, palette);
    assert data[..ROW_BYTES * (y + 1)] == before[..offset] + palette[..];
    RotatedRightTwice(initial, 4 * y, 4);
    RotateRight(palette, 4);
  }

  /** The row loop of the texture, for y from 0 to 7, over any 32-byte
      starting palette. */
  method FillRows(palette: array<u8>) returns (data: array<u8>)
    requires palette.Length == ROW_BYTES
    modifies palette
    ensures fresh(data)
    ensures data[..] == Texture(old(palette[..]))
    ensures palette[..] == RotatedRight(old(palette[..]), ROW_BYTES)
  {
    ghost var initial := palette[..];
    data := new u8[TEXTURE_BYTES](_ => 0);
    assert palette[..] == RotatedRight(initial, 0) by {
      assert initial[ROW_BYTES..] + initial[..ROW_BYTES] == initial;
    }
    for y := 0 to TEXTURE_SIZE
      invariant palette[..] == RotatedRight(initial, 4 * y)
      invariant data[..ROW_BYTES * y] == Rows(initial, y)
    {
      FillRow(data, palette, y, initial);
    }
    assert data[..] == data[..ROW_BYTES * TEXTURE_SIZE];
  }

  /** Creates the 8x8 RGBA test texture from the palette. */
  method UvDebugTexture() returns (textureData: seq<u8>)
    ensures textureData == Texture(PALETTE)
    ensures forall y :: 0 <= y < TEXTURE_SIZE ==> TextureRow(textureData, y) == Row(PALETTE, y)
    ensures forall k :: 0 <= k < |textureData| ==> textureData[k] in PALETTE
  {
    var palette := new u8[ROW_BYTES](i requires 0 <= i < ROW_BYTES => PALETTE[i]);
    assert palette[..] == PALETTE;
    var data := FillRows(palette);
    textureData := data[..];
    TextureRows(PALETTE);
    TextureFromPalette(PALETTE);
  }
}
