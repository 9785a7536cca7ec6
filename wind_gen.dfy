/** The generator itself: the sampled data of a field, the in-place masking
    loop of `generate_data`, and `create_fake_data`, which builds the two
    header records and fills each with its own masked draw. */
module WindGen {
  import opened Wrappers
  import opened Grid
  import opened Masking

  /** One emitted record: a header and its flat data list. */
  datatype Record = Record(header: Header, data: seq<Option<real>>)

  /** A fraction `x` of the width `w`. */
  function Scale(x: real, w: real): real {
    x * w
  }

  /** A uniform draw in `[0, 1)` scaled to `[random_min, random_max)`. */
  function ScaleDraw(x: real, randomMin: real, randomMax: real): real {
    Scale(x, randomMax - randomMin) + randomMin
  }

  /** The sampled data list: one scaled draw per slot, every one a number. */
  function Samples(draws: seq<real>, randomMin: real, randomMax: real): (s: seq<Option<real>>)
    ensures |s| == |draws|
    ensures forall k :: 0 <= k < |s| ==> s[k].Some?
  {
    seq(|draws|, k requires 0 <= k < |draws| => Some(ScaleDraw(draws[k], randomMin, randomMax)))
  }

  /** The product of two positive reals is positive. */
  lemma MulPositive(a: real, b: real)
    requires a > 0.0 && b > 0.0
    ensures a * b > 0.0
  {
  }

  /** A fraction in `[0, 1)` of a positive width lies in `[0, width)`. */
  lemma FractionOfWidth(x: real, w: real)
    requires 0.0 <= x < 1.0 && w > 0.0
    ensures 0.0 <= Scale(x, w) < w
  {
    MulPositive(1.0 - x, w);
    assert (1.0 - x) * w == w - x * w;
    if x > 0.0 {
      MulPositive(x, w);
    }
  }

  /** A draw in `[0, 1)` scales into `[random_min, random_max)`. */
  lemma ScaleDrawWithinRange(x: real, randomMin: real, randomMax: real)
    requires randomMin < randomMax && 0.0 <= x < 1.0
    ensures randomMin <= ScaleDraw(x, randomMin, randomMax) < randomMax
  {
    FractionOfWidth(x, randomMax - randomMin);
  }

  /** Draws in `[0, 1)` give samples in `[random_min, random_max)`. */
  lemma SamplesWithinRange(draws: seq<real>, randomMin: real, randomMax: real)
    requires randomMin < randomMax
    requires forall k :: 0 <= k < |draws| ==> 0.0 <= draws[k] < 1.0
    ensures forall k :: 0 <= k < |draws| ==>
              randomMin <= Samples(draws, randomMin, randomMax)[k].value < randomMax
  {
    forall k | 0 <= k < |draws|
      ensures randomMin <= Samples(draws, randomMin, randomMax)[k].value < randomMax
    {
      assert Samples(draws, randomMin, randomMax)[k] == Some(ScaleDraw(draws[k], randomMin, randomMax));
      ScaleDrawWithinRange(draws[k], randomMin, randomMax);
    }
  }

  /** The record `generate_data` returns for a sweep over the sampled data, or
      the index error it raises. */
  function DataRecord(s: Sweep, samples: seq<Option<real>>): Result<Record, Error> {
    match Mask(s, samples)
    case Success(d) => Success(Record(s.header, d))
    case Failure(e) => Failure(e)
  }

  /** What is left of the sweep after the inner loop of row `i` has produced `r`. */
  ghost function AfterRow(s: Sweep, r: Result<seq<Option<real>>, Error>, i: nat): Result<seq<Option<real>>, Error> {
    match r
    case Failure(e) => Failure(e)
    case Success(d) => MaskRows(s, d, i + 1)
  }

  /** The nested loop of `generate_data`, run in place on the data array. It
      returns the index error the source raises, if any. */
  method SweepInPlace(a: array<Option<real>>, s: Sweep) returns (err: Option<Error>)
    modifies a
    ensures err.None? ==> Mask(s, old(a[..])) == Success(a[..])
    ensures err.Some? ==> Mask(s, old(a[..])) == Failure(err.value)
  {
    ghost var d0 := a[..];
    var i := 0;
    while i < s.rows
      invariant 0 <= i <= s.rows
      invariant MaskRows(s, a[..], i) == Mask(s, d0)
    {
      var j := 0;
      while j < s.cols
        invariant 0 <= j <= s.cols
        invariant AfterRow(s, MaskRow(s, a[..], i, j), i) == Mask(s, d0)
      {
        ghost var before := a[..];
        var centerLat := CenterLat(s.header, i);
        var centerLon := CenterLon(s.header, j);
        if !s.inside(centerLat, centerLon) {
          var k := FlatIndex(s.header.nx, i, j);
          if s.policy == "value" {
            if k >= a.Length {
              assert Step(s, a[..], i, j) == Failure(IndexOutOfRange(k));
              return Some(IndexOutOfRange(k));
            }
            a[k] := s.default;
          } else if s.policy == "None" {
            if k >= a.Length {
              assert Step(s, a[..], i, j) == Failure(IndexOutOfRange(k));
              return Some(IndexOutOfRange(k));
            }
            a[k] := None;
          }
        }
        assert Step(s, before, i, j) == Success(a[..]);
        j := j + 1;
      }
      i := i + 1;
    }
    return None;
  }

  /** `generate_data`: sample `nx * ny` values, mask them with the source's
      loop (`i < nx`, `j < ny`, slot `i * nx + j`) and attach them to the header. */
  method GenerateData(h: Header, inside: (real, real) -> bool, policy: string, default: Option<real>,
                      randomMin: real, randomMax: real, draws: seq<real>)
    returns (r: Result<Record, Error>)
    requires |draws| == h.nx * h.ny
    ensures r == DataRecord(AsWritten(h, inside, policy, default), Samples(draws, randomMin, randomMax))
    ensures r.Success? ==> r.value.header == h && |r.value.data| == h.nx * h.ny
  {
    var samples := Samples(draws, randomMin, randomMax);
    var data := new Option<real>[|samples|](k requires 0 <= k < |samples| => samples[k]);
    assert data[..] == samples;
    var err := SweepInPlace(data, AsWritten(h, inside, policy, default));
    if err.Some? {
      return Failure(err.value);
    }
    return Success(Record(h, data[..]));
  }

  /** `generate_data` with the bounds of its two loops swapped (`i < ny`,
      `j < nx`): it never raises, and every cell's own slot holds the written
      value exactly when the cell is overwritten, its sample otherwise. */
  method GenerateDataCorrected(h: Header, inside: (real, real) -> bool, policy: string, default: Option<real>,
                               randomMin: real, randomMax: real, draws: seq<real>)
    returns (r: Result<Record, Error>)
    requires |draws| == h.nx * h.ny
    ensures r == DataRecord(Corrected(h, inside, policy, default), Samples(draws, randomMin, randomMax))
    ensures r.Success? && r.value.header == h && |r.value.data| == h.nx * h.ny
    ensures forall i: nat, j: nat :: i < h.ny && j < h.nx ==>
              && FlatIndex(h.nx, i, j) < h.nx * h.ny
              && r.value.data[FlatIndex(h.nx, i, j)] ==
                 if Written(Corrected(h, inside, policy, default), i, j)
                 then Fill(Corrected(h, inside, policy, default))
                 else Samples(draws, randomMin, randomMax)[FlatIndex(h.nx, i, j)]
  {
    var samples := Samples(draws, randomMin, randomMax);
    var s := Corrected(h, inside, policy, default);
    CorrectedSweepExact(s, samples);
    var data := new Option<real>[|samples|](k requires 0 <= k < |samples| => samples[k]);
    assert data[..] == samples;
    var err := SweepInPlace(data, s);
    assert err.None?;
    return Success(Record(h, data[..]));
  }

  /** `create_fake_data` as a value: the headers of `generate_header`, each
      filled by `generate_data` from its own draw, UGRD first; the first
      exception raised is the result. */
  function FakeData(inside: (real, real) -> bool, maxLat: real, minLat: real, maxLon: real, minLon: real,
                    nx: nat, ny: nat, policy: string, default: Option<real>, randomMin: real, randomMax: real,
                    drawsU: seq<real>, drawsV: seq<real>): Result<seq<Record>, Error>
  {
    match GenerateHeader(maxLat, minLat, maxLon, minLon, nx, ny)
    case Failure(e) => Failure(e)
    case Success(hs) =>
      match DataRecord(AsWritten(hs[0], inside, policy, default), Samples(drawsU, randomMin, randomMax))
      case Failure(e) => Failure(e)
      case Success(u) =>
        match DataRecord(AsWritten(hs[1], inside, policy, default), Samples(drawsV, randomMin, randomMax))
        case Failure(e) => Failure(e)
        case Success(v) => Success([u, v])
  }

  /** `create_fake_data`. */
  method CreateFakeData(inside: (real, real) -> bool, maxLat: real, minLat: real, maxLon: real, minLon: real,
                        nx: nat, ny: nat, policy: string, default: Option<real>, randomMin: real, randomMax: real,
                        drawsU: seq<real>, drawsV: seq<real>)
    returns (r: Result<seq<Record>, Error>)
    requires |drawsU| == nx * ny && |drawsV| == nx * ny
    ensures r == FakeData(inside, maxLat, minLat, maxLon, minLon, nx, ny, policy, default,
                          randomMin, randomMax, drawsU, drawsV)
  {
    var headers := GenerateHeader(maxLat, minLat, maxLon, minLon, nx, ny);
    if headers.Failure? {
      return Failure(headers.error);
    }
    var u := GenerateData(headers.value[0], inside, policy, default, randomMin, randomMax, drawsU);
    if u.Failure? {
      return Failure(u.error);
    }
    var v := GenerateData(headers.value[1], inside, policy, default, randomMin, randomMax, drawsV);
    if v.Failure? {
      return Failure(v.error);
    }
    return Success([u.value, v.value]);
  }

  /** A successful run emits two records, UGRD then VGRD, whose headers are
      those of `generate_header` and whose data lists hold `nx * ny` values. */
  lemma FakeDataShape(inside: (real, real) -> bool, maxLat: real, minLat: real, maxLon: real, minLon: real,
                      nx: nat, ny: nat, policy: string, default: Option<real>, randomMin: real, randomMax: real,
                      drawsU: seq<real>, drawsV: seq<real>)
    requires |drawsU| == nx * ny && |drawsV| == nx * ny
    requires FakeData(inside, maxLat, minLat, maxLon, minLon, nx, ny, policy, default,
                      randomMin, randomMax, drawsU, drawsV).Success?
    ensures var rs := FakeData(inside, maxLat, minLat, maxLon, minLon, nx, ny, policy, default,
                               randomMin, randomMax, drawsU, drawsV).value;
            && |rs| == 2
            && rs[0].header == GenerateHeader(maxLat, minLat, maxLon, minLon, nx, ny).value[0]
            && rs[1].header == GenerateHeader(maxLat, minLat, maxLon, minLon, nx, ny).value[1]
            && rs[0].header.element == "UGRD" && rs[1].header.element == "VGRD"
            && |rs[0].data| == nx * ny && |rs[1].data| == nx * ny
  {
  }

  /** A run raises if and only if the resolution has a zero, or the source's
      loop overruns the data of the first field; the draws play no part, and the
      second field overruns exactly when the first does. */
  lemma FakeDataFailsIff(inside: (real, real) -> bool, maxLat: real, minLat: real, maxLon: real, minLon: real,
                         nx: nat, ny: nat, policy: string, default: Option<real>, randomMin: real, randomMax: real,
                         drawsU: seq<real>, drawsV: seq<real>)
    requires |drawsU| == nx * ny && |drawsV| == nx * ny
    ensures FakeData(inside, maxLat, minLat, maxLon, minLon, nx, ny, policy, default,
                     randomMin, randomMax, drawsU, drawsV).Failure?
            <==> (nx == 0 || ny == 0 ||
                  AnyOverrun(AsWritten(GenerateHeader(maxLat, minLat, maxLon, minLon, nx, ny).value[0],
                                       inside, policy, default), nx * ny))
  {
    if nx > 0 && ny > 0 {
      var hs := GenerateHeader(maxLat, minLat, maxLon, minLon, nx, ny).value;
      var su, sv := AsWritten(hs[0], inside, policy, default), AsWritten(hs[1], inside, policy, default);
      var n := nx * ny;
      MaskFailsIff(su, Samples(drawsU, randomMin, randomMax));
      MaskFailsIff(sv, Samples(drawsV, randomMin, randomMax));
      forall i: nat, j: nat
        ensures Overruns(su, n, i, j) == Overruns(sv, n, i, j)
      {
        assert CenterLat(hs[0], i) == CenterLat(hs[1], i);
        assert CenterLon(hs[0], j) == CenterLon(hs[1], j);
      }
      assert AnyOverrun(su, n) == AnyOverrun(sv, n);
    }
  }

  // ---------------------------------------------------------------------------
  // The flat index as written, on concrete grids

  /** `nx = 3`, `ny = 2`, every centre outside the polygon, policy "value":
      `generate_data` raises an index error instead of masking the field. */
  lemma ThreeByTwoRaises(h: Header, default: Option<real>, randomMin: real, randomMax: real, draws: seq<real>)
    requires h.nx == 3 && h.ny == 2 && |draws| == 6
    ensures DataRecord(AsWritten(h, (lat: real, lon: real) => false, "value", default),
                       Samples(draws, randomMin, randomMax)).Failure?
  {
    var s := AsWritten(h, (lat: real, lon: real) => false, "value", default);
    WiderGridOverruns(s, Samples(draws, randomMin, randomMax));
  }

  /** `nx = 2`, `ny = 3`, every centre outside the polygon, policy "None":
      `generate_data` completes, yet the last value is still a number. */
  lemma TwoByThreeLeavesSample(h: Header, randomMin: real, randomMax: real, draws: seq<real>)
    requires h.nx == 2 && h.ny == 3 && |draws| == 6
    ensures var r := DataRecord(AsWritten(h, (lat: real, lon: real) => false, "None", None),
                                Samples(draws, randomMin, randomMax));
            && r.Success?
            && r.value.data[5] == Some(ScaleDraw(draws[5], randomMin, randomMax))
  {
    var s := AsWritten(h, (lat: real, lon: real) => false, "None", None);
    var samples := Samples(draws, randomMin, randomMax);
    TallerGridMissesLastSlot(s, samples);
    assert |samples| - 1 == 5;
    assert samples[5] == Some(ScaleDraw(draws[5], randomMin, randomMax));
  }
}
