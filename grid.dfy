/** Grid geometry of the generated wind field: the two header records built by
    `generate_header`, the centre of each cell, and the flat slot `i * nx + j`
    that `generate_data` writes for cell `(i, j)`. */
module Grid {
  import opened Wrappers

  /** The "header" object of one record. */
  datatype Header = Header(
    la1: real, la2: real,   // southern and northern edge of the box (min_lat, max_lat)
    lo1: real, lo2: real,   // western and eastern edge of the box (min_lon, max_lon)
    nx: nat, ny: nat,       // the requested resolution
    dx: real, dy: real,     // longitude step and latitude step
    element: string)        // GRIB_ELEMENT

  /** The exceptions the generator can raise: a zero resolution divides by zero
      in `generate_header`, and a write past the end of the data list raises an
      index error in `generate_data`. */
  datatype Error = ZeroDivision | IndexOutOfRange(index: nat)

  /** The field identifiers, in the order the records are emitted. */
  const ElementIds: seq<string> := ["UGRD", "VGRD"]

  /** `generate_header`: one header per field identifier, all sharing the
      geometry derived from the bounding box and the resolution. */
  function GenerateHeader(maxLat: real, minLat: real, maxLon: real, minLon: real, nx: nat, ny: nat)
    : (r: Result<seq<Header>, Error>)
    ensures r.Failure? <==> nx == 0 || ny == 0
    ensures r.Failure? ==> r.error == ZeroDivision
    ensures r.Success? ==>
              && |r.value| == 2
              && r.value[0].element == "UGRD"
              && r.value[1] == r.value[0].(element := "VGRD")
    ensures r.Success? ==>
              var h := r.value[0];
              && h.la1 == minLat && h.la2 == maxLat && h.lo1 == minLon && h.lo2 == maxLon
              && h.nx == nx && h.ny == ny
              // ny cells of height dy span the latitude range, nx cells of width dx the longitude range
              && h.dy * (ny as real) == maxLat - minLat
              && h.dx * (nx as real) == maxLon - minLon
  {
    if ny == 0 || nx == 0 then
      Failure(ZeroDivision)
    else
      var dy := (maxLat - minLat) / (ny as real);
      var dx := (maxLon - minLon) / (nx as real);
      Success(seq(|ElementIds|, k requires 0 <= k < |ElementIds| =>
        Header(minLat, maxLat, minLon, maxLon, nx, ny, dx, dy, ElementIds[k])))
  }

  /** Latitude of the centre of a cell in row `i` (the source's `center_x`). */
  function CenterLat(h: Header, i: nat): real {
    h.la1 + (0.5 + i as real) * h.dy
  }

  /** Longitude of the centre of a cell in column `j` (the source's `center_y`). */
  function CenterLon(h: Header, j: nat): real {
    h.lo1 + (0.5 + j as real) * h.dx
  }

  /** The point lies strictly inside the header's bounding box. */
  predicate StrictlyInBox(h: Header, lat: real, lon: real) {
    h.la1 < lat < h.la2 && h.lo1 < lon < h.lo2
  }

  /** The centre of cell `k` on an axis cut into `n` equal cells lies above the
      lower edge, and below the upper edge exactly when `k < n`. */
  lemma AxisCentre(lo: real, hi: real, n: nat, k: nat)
    requires lo < hi && n > 0
    ensures lo < lo + (0.5 + k as real) * ((hi - lo) / (n as real))
    ensures lo + (0.5 + k as real) * ((hi - lo) / (n as real)) < hi <==> k < n
  {
    var step := (hi - lo) / (n as real);
    var a := 0.5 + k as real;
    assert step > 0.0;
    assert step * (n as real) == hi - lo;
    assert a * step > 0.0;
    if k < n {
      assert (n as real - a) * step > 0.0;
    } else {
      assert (a - n as real) * step > 0.0;
    }
  }

  /** With the source's loops (`i < nx` for latitude with a step computed from
      `ny`, `j < ny` for longitude with a step computed from `nx`) every cell
      centre lies strictly inside a non-degenerate box if and only if the grid
      is square. */
  lemma CentresInsideIffSquare(maxLat: real, minLat: real, maxLon: real, minLon: real, nx: nat, ny: nat)
    requires minLat < maxLat && minLon < maxLon && nx > 0 && ny > 0
    ensures GenerateHeader(maxLat, minLat, maxLon, minLon, nx, ny).Success?
    ensures var h := GenerateHeader(maxLat, minLat, maxLon, minLon, nx, ny).value[0];
            (forall i: nat, j: nat :: i < nx && j < ny ==> StrictlyInBox(h, CenterLat(h, i), CenterLon(h, j)))
            <==> nx == ny
  {
    var h := GenerateHeader(maxLat, minLat, maxLon, minLon, nx, ny).value[0];
    if nx == ny {
      forall i: nat, j: nat | i < nx && j < ny
        ensures StrictlyInBox(h, CenterLat(h, i), CenterLon(h, j))
      {
        AxisCentre(minLat, maxLat, ny, i);
        AxisCentre(minLon, maxLon, nx, j);
      }
    } else if nx > ny {
      AxisCentre(minLat, maxLat, ny, nx - 1);
      assert !StrictlyInBox(h, CenterLat(h, nx - 1), CenterLon(h, 0));
    } else {
      AxisCentre(minLon, maxLon, nx, ny - 1);
      assert !StrictlyInBox(h, CenterLat(h, 0), CenterLon(h, ny - 1));
    }
  }

  /** With the two loop bounds swapped (rows `i < ny` for latitude, columns
      `j < nx` for longitude) every centre lies strictly inside the box, for
      every resolution. */
  lemma CorrectedCentresInside(maxLat: real, minLat: real, maxLon: real, minLon: real, nx: nat, ny: nat)
    requires minLat < maxLat && minLon < maxLon && nx > 0 && ny > 0
    ensures GenerateHeader(maxLat, minLat, maxLon, minLon, nx, ny).Success?
    ensures var h := GenerateHeader(maxLat, minLat, maxLon, minLon, nx, ny).value[0];
            forall i: nat, j: nat :: i < ny && j < nx ==> StrictlyInBox(h, CenterLat(h, i), CenterLon(h, j))
  {
    var h := GenerateHeader(maxLat, minLat, maxLon, minLon, nx, ny).value[0];
    forall i: nat, j: nat | i < ny && j < nx
      ensures StrictlyInBox(h, CenterLat(h, i), CenterLon(h, j))
    {
      AxisCentre(minLat, maxLat, ny, i);
      AxisCentre(minLon, maxLon, nx, j);
    }
  }

  // ---------------------------------------------------------------------------
  // Flat layout of the data array

  /** The slot the source writes for cell `(i, j)`: `i * nx + j`. */
  function FlatIndex(nx: nat, i: nat, j: nat): nat {
    i * nx + j
  }

  /** Every cell of a `rows` by `cols` loop has its slot in an array of length `n`. */
  ghost predicate InRange(nx: nat, rows: nat, cols: nat, n: nat) {
    forall i: nat, j: nat :: i < rows && j < cols ==> FlatIndex(nx, i, j) < n
  }

  /** No two cells of the loop share a slot. */
  ghost predicate OneToOne(nx: nat, rows: nat, cols: nat) {
    forall i: nat, j: nat, i': nat, j': nat ::
      i < rows && j < cols && i' < rows && j' < cols && FlatIndex(nx, i, j) == FlatIndex(nx, i', j')
      ==> i == i' && j == j'
  }

  /** Every slot of an array of length `n` belongs to some cell of the loop. */
  ghost predicate Onto(nx: nat, rows: nat, cols: nat, n: nat) {
    forall k: nat :: k < n ==> Covered(nx, rows, cols, k)
  }

  /** Some cell of the loop has slot `k`. */
  ghost predicate Covered(nx: nat, rows: nat, cols: nat, k: nat) {
    exists i: nat, j: nat :: i < rows && j < cols && FlatIndex(nx, i, j) == k
  }

  lemma MulLeq(a: nat, b: nat, c: nat)
    requires a <= b
    ensures a * c <= b * c
  {
    assert b * c - a * c == (b - a) * c;
  }

  /** Row-major slots with rows of `n` slots identify the cell. */
  lemma RowMajorUnique(n: nat, i: nat, j: nat, i': nat, j': nat)
    requires j < n && j' < n && i * n + j == i' * n + j'
    ensures i == i' && j == j'
  {
    if i < i' {
      MulLeq(i + 1, i', n);
    } else if i' < i {
      MulLeq(i' + 1, i, n);
    }
  }

  /** Every slot below `rows * n` is the row-major slot of some cell. */
  lemma RowMajorSplit(n: nat, rows: nat, k: nat)
    requires k < rows * n
    ensures n > 0 && k / n < rows && k % n < n && FlatIndex(n, k / n, k % n) == k
  {
    var i := k / n;
    assert i * n <= k;
    assert i < rows by {
      if rows <= i { MulLeq(rows, i, n); }
    }
  }

  /** The slot of the last cell of an `nx` by `ny` loop with `nx > ny >= 1`
      lies past the end of an array of `nx * ny` slots. */
  lemma LastCellOverruns(nx: nat, ny: nat)
    requires 1 <= ny < nx
    ensures FlatIndex(nx, nx - 1, ny - 1) >= nx * ny
  {
    MulLeq(ny + 1, nx, nx - 1);
  }

  /** In an `nx` by `ny` loop with `2 <= nx < ny` no cell reaches the last slot
      of an array of `nx * ny` slots. */
  lemma LastSlotUnreached(nx: nat, ny: nat, i: nat, j: nat)
    requires 2 <= nx < ny && i < nx && j < ny
    ensures FlatIndex(nx, i, j) < nx * ny - 1
  {
    MulLeq(i, nx - 1, nx);
    MulLeq(nx + 1, ny, nx - 1);
  }

  /** The source's loops (`i < nx`, `j < ny`, slot `i * nx + j`) stay inside
      the `nx * ny` array if and only if `nx <= ny`, `nx <= 1` or `ny == 0`. */
  lemma AsWrittenInRangeIff(nx: nat, ny: nat)
    ensures InRange(nx, nx, ny, nx * ny) <==> (nx <= ny || nx <= 1 || ny == 0)
  {
    if nx <= ny || nx <= 1 || ny == 0 {
      forall i: nat, j: nat | i < nx && j < ny
        ensures FlatIndex(nx, i, j) < nx * ny
      {
        if nx <= ny {
          MulLeq(nx, ny, i);
          MulLeq(i + 1, nx, ny);
        }
      }
    } else {
      LastCellOverruns(nx, ny);
    }
  }

  /** Rows no wider than the stride never share a slot. */
  lemma NarrowRowsOneToOne(nx: nat, rows: nat, cols: nat)
    requires cols <= nx
    ensures OneToOne(nx, rows, cols)
  {
    forall i: nat, j: nat, i': nat, j': nat |
      i < rows && j < cols && i' < rows && j' < cols && FlatIndex(nx, i, j) == FlatIndex(nx, i', j')
      ensures i == i' && j == j'
    {
      RowMajorUnique(nx, i, j, i', j');
    }
  }

  /** A loop of at most one row never writes a slot twice. */
  lemma SingleRowOneToOne(nx: nat, cols: nat)
    requires nx <= 1
    ensures OneToOne(nx, nx, cols)
  {
    forall i: nat, j: nat, i': nat, j': nat |
      i < nx && j < cols && i' < nx && j' < cols && FlatIndex(nx, i, j) == FlatIndex(nx, i', j')
      ensures i == i' && j == j'
    {
      assert i == 0 && i' == 0;
    }
  }

  /** The source's loops give distinct cells distinct slots if and only if
      `ny <= nx` or `nx <= 1`. */
  lemma AsWrittenOneToOneIff(nx: nat, ny: nat)
    ensures OneToOne(nx, nx, ny) <==> (ny <= nx || nx <= 1)
  {
    if ny <= nx {
      NarrowRowsOneToOne(nx, nx, ny);
    } else if nx <= 1 {
      SingleRowOneToOne(nx, ny);
    } else {
      // cells (0, nx) and (1, 0) share slot nx
      assert FlatIndex(nx, 0, nx) == FlatIndex(nx, 1, 0);
    }
  }

  /** With rows `i < ny` and columns `j < nx`, the slot `i * nx + j` is a
      bijection from the cells onto `[0, nx * ny)`, for every resolution. */
  lemma CorrectedLayoutBijective(nx: nat, ny: nat)
    ensures InRange(nx, ny, nx, nx * ny) && OneToOne(nx, ny, nx) && Onto(nx, ny, nx, nx * ny)
  {
    forall i: nat, j: nat | i < ny && j < nx
      ensures FlatIndex(nx, i, j) < nx * ny
    {
      MulLeq(i + 1, ny, nx);
    }
    NarrowRowsOneToOne(nx, ny, nx);
    forall k: nat | k < nx * ny
      ensures Covered(nx, ny, nx, k)
    {
      RowMajorSplit(nx, ny, k);
    }
  }

  /** The source's slot map is a bijection from the cells onto `[0, nx * ny)`
      if and only if the grid is square, has a single row (`nx == 1`) or has
      no cells at all. */
  lemma AsWrittenBijectiveIff(nx: nat, ny: nat)
    ensures (InRange(nx, nx, ny, nx * ny) && OneToOne(nx, nx, ny) && Onto(nx, nx, ny, nx * ny))
            <==> (nx == ny || nx <= 1 || ny == 0)
  {
    AsWrittenInRangeIff(nx, ny);
    AsWrittenOneToOneIff(nx, ny);
    if nx == ny {
      CorrectedLayoutBijective(nx, ny);
    } else if nx == 1 {
      forall k: nat | k < nx * ny
        ensures Covered(nx, nx, ny, k)
      {
        assert FlatIndex(nx, 0, k) == k;
      }
    }
  }
}
