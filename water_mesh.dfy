/**
 * The water surface grid (src/water/water_mesh.cpp).
 *
 * generateWaterMesh lays out an (n+1) x (n+1) grid of vertices, row by row
 * (z outer, x inner), and covers each of the n x n cells with two triangles.
 * Vertex positions are floats computed from the grid coordinates; the model
 * keeps the coordinates themselves, which is what the triangle indices refer
 * to. The random-wave constructor draws waveCount/2 long swells and then
 * waveCount/2 short ripples; the random draws are a parameter.
 */
module WaterMeshes {
  import opened Maths

  /** WaterVertex: the vertex at grid column x and row z (position ((x/n - 0.5)*size, 0, (z/n - 0.5)*size)). */
  datatype GridVertex = GridVertex(column: int, row: int)

  /** WaterWave, with the defaults of its declaration. */
  datatype WaterWave = WaterWave(direction: Vec2, wavelength: real, amplitude: real, speed: real, steepness: real)

  const DefaultWave: WaterWave := WaterWave(Vec2(1.0, 0.0), 10.0, 0.3, 1.0, 0.2)

  /** WaterMaterial: colours, sun direction and foam threshold (kept as given). */
  datatype WaterMaterial = WaterMaterial(deepColor: Vec3, sunDir: Vec3, sunColor: Vec3, foamThreshold: real)

  /** The two blocks of the random-wave constructor: long swells first, then short ripples. */
  datatype WaveBand = Swell | Ripple

  // ---------------------------------------------------------------------------
  // The grid, as values
  // ---------------------------------------------------------------------------

  /**
   * a * b, written as repeated addition. The grid offsets are built from it
   * so that reasoning about the layout stays linear; TimesIsMul ties it to `*`.
   */
  function Times(a: nat, b: int): (r: int)
    ensures 0 <= b ==> 0 <= r
  {
    if a == 0 then 0 else Times(a - 1, b) + b
  }

  /** Grid row z: its n+1 vertices, x ascending. */
  function Row(n: nat, z: int): seq<GridVertex>
  {
    seq(n + 1, x => GridVertex(x, z))
  }

  /** The first `rows` grid rows, z ascending. */
  function Rows(n: nat, rows: nat): seq<GridVertex>
  {
    if rows == 0 then [] else Rows(n, rows - 1) + Row(n, rows - 1)
  }

  /** The vertex buffer generateWaterMesh(n, size) leaves: no rows for a negative n. */
  function GridVertices(n: int): seq<GridVertex>
  {
    if n < 0 then [] else Rows(n, n + 1)
  }

  /** The six indices of cell (x, z), i0 = z*(n+1) + x: triangles (i0, i2, i1) and (i1, i2, i3). */
  function Quad(n: nat, x: nat, z: nat): seq<int>
  {
    var i0 := Times(z, n + 1) + x;
    var i1 := i0 + 1;
    var i2 := i0 + (n + 1);
    var i3 := i2 + 1;
    [i0, i2, i1, i1, i2, i3]
  }

  /** The first `count` cells of row z, x ascending. */
  function Quads(n: nat, z: nat, count: nat): seq<int>
  {
    if count == 0 then [] else Quads(n, z, count - 1) + Quad(n, count - 1, z)
  }

  /** The cells of the first `rows` rows, z ascending. */
  function QuadRows(n: nat, rows: nat): seq<int>
  {
    if rows == 0 then [] else QuadRows(n, rows - 1) + Quads(n, rows - 1, n)
  }

  /** The index buffer generateWaterMesh(n, size) leaves: no cells unless n is positive. */
  function GridIndices(n: int): seq<int>
  {
    if n <= 0 then [] else QuadRows(n, n)
  }

  // ---------------------------------------------------------------------------
  // Arithmetic helpers
  // ---------------------------------------------------------------------------

  lemma {:induction false} TimesIsMul(a: nat, b: int)
    ensures Times(a, b) == a * b
  {
    if a > 0 {
      TimesIsMul(a - 1, b);
      assert a * b == (a - 1) * b + b;
    }
  }

  lemma {:induction false} TimesMono(a: nat, c: nat, b: nat)
    requires a <= c
    ensures 0 <= Times(a, b) <= Times(c, b)
  {
    if a < c {
      TimesMono(a, c - 1, b);
    } else if a > 0 {
      TimesMono(a - 1, a, b);
    }
  }

  /** A slice of a prefix is the same slice of the longer sequence. */
  lemma SliceOfPrefix<T>(s: seq<T>, t: seq<T>, a: nat, b: nat)
    requires s <= t && a <= b <= |s|
    ensures t[a..b] == s[a..b]
  {
  }

  /** A slice past the left part of a concatenation is a slice of the right part. */
  lemma SliceOfRight<T>(l: seq<T>, r: seq<T>, a: nat, b: nat)
    requires a <= b <= |r|
    ensures (l + r)[|l| + a .. |l| + b] == r[a..b]
  {
  }

  /** Multiplying a weak inequality by a non-negative factor. */
  lemma MulLe(a: int, b: int, c: int)
    requires 0 <= c && a <= b
    ensures a * c <= b * c
  {
    assert (b - a) * c >= 0;
  }

  // ---------------------------------------------------------------------------
  // Vertex buffer
  // ---------------------------------------------------------------------------

  lemma {:induction false} RowsLength(n: nat, rows: nat)
    ensures |Rows(n, rows)| == Times(rows, n + 1)
  {
    if rows > 0 {
      RowsLength(n, rows - 1);
    }
  }

  /** The first z rows come first in those of any later row count. */
  lemma {:induction false} RowsPrefix(n: nat, z: nat, rows: nat)
    requires z <= rows
    ensures Rows(n, z) <= Rows(n, rows)
  {
    if z < rows {
      RowsPrefix(n, z, rows - 1);
    }
  }

  /** Grid vertex (x, z) sits at z*(n+1) + x: rows are laid out z-major. */
  lemma RowsAt(n: nat, rows: nat, z: nat, x: nat)
    requires z < rows && x <= n
    ensures Times(z, n + 1) + x < |Rows(n, rows)|
    ensures Rows(n, rows)[Times(z, n + 1) + x] == GridVertex(x, z)
  {
    RowsPrefix(n, z + 1, rows);
    var left := Rows(n, z);
    assert Rows(n, z + 1) == left + Row(n, z);
    RowsLength(n, z);
    assert (left + Row(n, z))[|left| + x] == GridVertex(x, z);
  }

  /** generateWaterMesh emits (n+1)^2 vertices, none for a negative n. */
  lemma GridVertexCount(n: int)
    ensures n >= 0 ==> |GridVertices(n)| == (n + 1) * (n + 1)
    ensures n < 0 ==> |GridVertices(n)| == 0
  {
    if n >= 0 {
      RowsLength(n, n + 1);
      TimesIsMul(n + 1, n + 1);
    }
  }

  /** Vertex k is grid column k mod (n+1) of row k div (n+1). */
  lemma GridVertexAt(n: int, k: int)
    requires 0 <= k < |GridVertices(n)|
    ensures GridVertices(n)[k] == GridVertex(k % (n + 1), k / (n + 1))
  {
    GridVertexCount(n);
    var z := k / (n + 1);
    var x := k % (n + 1);
    assert k == z * (n + 1) + x;
    if z >= n + 1 {
      MulLe(n + 1, z, n + 1);
    }
    TimesIsMul(z, n + 1);
    RowsAt(n, n + 1, z, x);
  }

  // ---------------------------------------------------------------------------
  // Index buffer
  // ---------------------------------------------------------------------------

  lemma {:induction false} QuadsLength(n: nat, z: nat, count: nat)
    ensures |Quads(n, z, count)| == 6 * count
  {
    if count > 0 {
      QuadsLength(n, z, count - 1);
    }
  }

  lemma {:induction false} QuadRowsLength(n: nat, rows: nat)
    ensures |QuadRows(n, rows)| == 6 * Times(rows, n)
  {
    if rows > 0 {
      QuadRowsLength(n, rows - 1);
      QuadsLength(n, rows - 1, n);
    }
  }

  /** generateWaterMesh emits 6n^2 indices, none unless n is positive. */
  lemma GridIndexCount(n: int)
    ensures |GridIndices(n)| == if n <= 0 then 0 else 6 * n * n
  {
    if n > 0 {
      QuadRowsLength(n, n);
      TimesIsMul(n, n);
    }
  }

  /** Within a row, cell x occupies indices 6x to 6x+5. */
  lemma {:induction false} QuadsAt(n: nat, z: nat, count: nat, x: nat)
    requires x < count
    ensures 6 * x + 6 <= |Quads(n, z, count)|
    ensures Quads(n, z, count)[6 * x .. 6 * x + 6] == Quad(n, x, z)
  {
    var left := Quads(n, z, count - 1);
    assert Quads(n, z, count) == left + Quad(n, count - 1, z);
    QuadsLength(n, z, count - 1);
    if x < count - 1 {
      QuadsAt(n, z, count - 1, x);
      SliceOfPrefix(left, Quads(n, z, count), 6 * x, 6 * x + 6);
    } else {
      SliceOfRight(left, Quad(n, x, z), 0, 6);
    }
  }

  /** The cells of the first z rows come first in those of any later row count. */
  lemma {:induction false} QuadRowsPrefix(n: nat, z: nat, rows: nat)
    requires z <= rows
    ensures QuadRows(n, z) <= QuadRows(n, rows)
  {
    if z < rows {
      QuadRowsPrefix(n, z, rows - 1);
    }
  }

  /** Cell (x, z) occupies indices 6(z*n + x) to 6(z*n + x)+5: cells are z-major. */
  lemma QuadRowsAt(n: nat, rows: nat, z: nat, x: nat)
    requires z < rows && x < n
    ensures 6 * (Times(z, n) + x) + 6 <= |QuadRows(n, rows)|
    ensures QuadRows(n, rows)[6 * (Times(z, n) + x) .. 6 * (Times(z, n) + x) + 6] == Quad(n, x, z)
  {
    var left := QuadRows(n, z);
    var right := Quads(n, z, n);
    var upTo := QuadRows(n, z + 1);
    assert upTo == left + right;
    QuadRowsPrefix(n, z + 1, rows);
    QuadRowsLength(n, z);
    QuadsLength(n, z, n);
    QuadsAt(n, z, n, x);
    SliceOfRight(left, right, 6 * x, 6 * x + 6);
    var start := 6 * (Times(z, n) + x);
    assert start == |left| + 6 * x;
    SliceOfPrefix(upTo, QuadRows(n, rows), start, start + 6);
  }

  /**
   * Cell (x, z) of the grid emits i0, i2, i1, i1, i2, i3 at positions
   * 6(z*n + x) to 6(z*n + x)+5, with i0 = z*(n+1) + x (Times is `*`, see
   * TimesIsMul): the cells come in z-major order.
   */
  lemma GridCellAt(n: int, z: int, x: int)
    requires 0 <= z < n && 0 <= x < n
    ensures 6 * (Times(z, n) + x) + 6 <= |GridIndices(n)|
    ensures
      var first := 6 * (Times(z, n) + x);
      var i0 := Times(z, n + 1) + x;
      GridIndices(n)[first .. first + 6] == [i0, i0 + n + 1, i0 + 1, i0 + 1, i0 + n + 1, i0 + n + 2]
  {
    QuadRowsAt(n, n, z, x);
  }

  /** Every entry of s is a vertex number below `count`. */
  ghost predicate Below(s: seq<int>, count: int)
  {
    forall k :: 0 <= k < |s| ==> 0 <= s[k] < count
  }

  lemma BelowConcat(l: seq<int>, r: seq<int>, count: int)
    requires Below(l, count) && Below(r, count)
    ensures Below(l + r, count)
  {
  }

  /** Every index of cell (x, z) names a vertex of the grid. */
  lemma QuadBound(n: nat, x: nat, z: nat)
    requires x < n && z < n
    ensures Below(Quad(n, x, z), Times(n + 1, n + 1))
  {
    TimesMono(z, n - 1, n + 1);
    assert Times(n + 1, n + 1) == Times(n - 1, n + 1) + 2 * (n + 1);
  }

  lemma {:induction false} QuadsBound(n: nat, z: nat, count: nat)
    requires count <= n && z < n
    ensures Below(Quads(n, z, count), Times(n + 1, n + 1))
  {
    if count > 0 {
      QuadsBound(n, z, count - 1);
      QuadBound(n, count - 1, z);
      BelowConcat(Quads(n, z, count - 1), Quad(n, count - 1, z), Times(n + 1, n + 1));
    }
  }

  lemma {:induction false} QuadRowsBound(n: nat, rows: nat)
    requires rows <= n
    ensures Below(QuadRows(n, rows), Times(n + 1, n + 1))
  {
    if rows > 0 {
      QuadRowsBound(n, rows - 1);
      QuadsBound(n, rows - 1, n);
      BelowConcat(QuadRows(n, rows - 1), Quads(n, rows - 1, n), Times(n + 1, n + 1));
    }
  }

  /** Every emitted index is below the vertex count. */
  lemma GridIndexBound(n: int, k: int)
    requires 0 <= k < |GridIndices(n)|
    ensures 0 <= GridIndices(n)[k] < |GridVertices(n)|
  {
    RowsLength(n, n + 1);
    QuadRowsBound(n, n);
  }

  /**
   * The cell's indices name its four corners: i0 is (x, z), i1 is (x+1, z),
   * i2 is (x, z+1) and i3 is (x+1, z+1); the two triangles share the i1-i2
   * diagonal.
   */
  lemma QuadCorners(n: int, x: int, z: int)
    requires 0 <= x < n && 0 <= z < n
    ensures forall c :: 0 <= c < 6 ==> 0 <= Quad(n, x, z)[c] < |GridVertices(n)|
    ensures GridVertices(n)[Quad(n, x, z)[0]] == GridVertex(x, z)
    ensures GridVertices(n)[Quad(n, x, z)[1]] == GridVertex(x, z + 1)
    ensures GridVertices(n)[Quad(n, x, z)[2]] == GridVertex(x + 1, z)
    ensures GridVertices(n)[Quad(n, x, z)[5]] == GridVertex(x + 1, z + 1)
  {
    RowsLength(n, n + 1);
    QuadBound(n, x, z);
    var i0 := Times(z, n + 1) + x;
    assert Quad(n, x, z) == [i0, i0 + n + 1, i0 + 1, i0 + 1, i0 + n + 1, i0 + n + 2];
    assert Times(z + 1, n + 1) + x == i0 + n + 1;
    assert GridVertices(n) == Rows(n, n + 1);
    RowsAt(n, n + 1, z, x);
    RowsAt(n, n + 1, z, x + 1);
    RowsAt(n, n + 1, z + 1, x);
    RowsAt(n, n + 1, z + 1, x + 1);
  }

  // ---------------------------------------------------------------------------
  // Waves
  // ---------------------------------------------------------------------------

  /** The first `count` waves drawn from one band's distributions. */
  function Drawn(draw: (WaveBand, nat) -> WaterWave, band: WaveBand, count: nat): (r: seq<WaterWave>)
    ensures |r| == count
    ensures forall i :: 0 <= i < count ==> r[i] == draw(band, i)
  {
    seq(count, i requires 0 <= i => draw(band, i))
  }

  /**
   * The waves of WaterMesh(n, size, waveCount): waveCount/2 swells, then
   * waveCount/2 ripples, so an odd count loses one wave.
   */
  function RandomWaves(waveCount: nat, draw: (WaveBand, nat) -> WaterWave): (r: seq<WaterWave>)
    ensures |r| == 2 * (waveCount / 2)
    ensures |r| <= waveCount && waveCount - |r| == waveCount % 2
    ensures forall i :: 0 <= i < waveCount / 2 ==> r[i] == draw(Swell, i) && r[waveCount / 2 + i] == draw(Ripple, i)
  {
    Drawn(draw, Swell, waveCount / 2) + Drawn(draw, Ripple, waveCount / 2)
  }

  // ---------------------------------------------------------------------------
  // The mesh
  // ---------------------------------------------------------------------------

  /** WaterMesh: its material and waves and the CPU-side vertex and index buffers. */
  class WaterMesh {
    var material: WaterMaterial
    var waves: seq<WaterWave>
    var envMap: int
    var vertices: seq<GridVertex>
    var indices: seq<int>

    /** WaterMesh(n, size, material, waves): the grid, with the waves given. */
    constructor (n: int, material: WaterMaterial, waves: seq<WaterWave>)
      ensures this.material == material && this.waves == waves && envMap == 0
      ensures vertices == GridVertices(n) && indices == GridIndices(n)
    {
      this.material := material;
      this.waves := waves;
      envMap := 0;
      vertices := [];
      indices := [];
      new;
      GenerateWaterMesh(n);
    }

    /**
     * WaterMesh(n, size, waveCount): the grid, then waveCount/2 waves from
     * each band. `draw(band, i)` stands for the i-th draw of that band's
     * random generator. A negative waveCount makes waves.reserve throw.
     */
    constructor Random(n: int, waveCount: int, draw: (WaveBand, nat) -> WaterWave, material: WaterMaterial)
      requires 0 <= waveCount
      ensures waves == RandomWaves(waveCount, draw)
      ensures this.material == material && envMap == 0
      ensures vertices == GridVertices(n) && indices == GridIndices(n)
    {
      this.material := material;
      waves := [];
      envMap := 0;
      vertices := [];
      indices := [];
      new;
      GenerateWaterMesh(n);
      var i := 0;
      while i < waveCount / 2
        invariant 0 <= i <= waveCount / 2
        invariant waves == Drawn(draw, Swell, i)
        invariant this.material == material && envMap == 0
        invariant vertices == GridVertices(n) && indices == GridIndices(n)
      {
        waves := waves + [draw(Swell, i)];
        i := i + 1;
      }
      i := 0;
      while i < waveCount / 2
        invariant 0 <= i <= waveCount / 2
        invariant waves == Drawn(draw, Swell, waveCount / 2) + Drawn(draw, Ripple, i)
        invariant this.material == material && envMap == 0
        invariant vertices == GridVertices(n) && indices == GridIndices(n)
      {
        waves := waves + [draw(Ripple, i)];
        i := i + 1;
      }
    }

    /**
     * WaterMesh::generateWaterMesh(n, size): both buffers are cleared, so the
     * result depends on n alone and a second call changes nothing.
     */
    method GenerateWaterMesh(n: int)
      modifies this`vertices, this`indices
      ensures vertices == GridVertices(n) && indices == GridIndices(n)
    {
      GenerateVertices(n);
      GenerateIndices(n);
    }

    /** The vertex half of generateWaterMesh: clear, then rows z = 0..n of columns x = 0..n. */
    method GenerateVertices(n: int)
      modifies this`vertices
      ensures vertices == GridVertices(n)
    {
      vertices := [];
      var z := 0;
      while z <= n
        invariant 0 <= z <= if n < 0 then 0 else n + 1
        invariant vertices == if n < 0 then [] else Rows(n, z)
      {
        var x := 0;
        while x <= n
          invariant 0 <= x <= n + 1
          invariant vertices == Rows(n, z) + seq(x, c => GridVertex(c, z))
        {
          vertices := vertices + [GridVertex(x, z)];
          x := x + 1;
        }
        z := z + 1;
      }
    }

    /** The index half of generateWaterMesh: clear, then the cells row by row, six indices each. */
    method GenerateIndices(n: int)
      modifies this`indices
      ensures indices == GridIndices(n)
    {
      indices := [];
      var z := 0;
      while z < n
        invariant 0 <= z <= if n <= 0 then 0 else n
        invariant indices == if n <= 0 then [] else QuadRows(n, z)
      {
        var x := 0;
        while x < n
          invariant 0 <= x <= n
          invariant indices == QuadRows(n, z) + Quads(n, z, x)
        {
          var i0 := z * (n + 1) + x;
          var i1 := i0 + 1;
          var i2 := i0 + (n + 1);
          var i3 := i2 + 1;
          TimesIsMul(z, n + 1);
          indices := indices + [i0, i2, i1, i1, i2, i3];
          x := x + 1;
        }
        z := z + 1;
      }
    }
  }
}
