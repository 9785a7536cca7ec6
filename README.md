# wind-gen: gridded wind-field generator, modelled in Dafny

The repository is a small Python tool. It makes a fake wind dataset on a
latitude/longitude grid. The dataset has two records: UGRD for the eastward
component and VGRD for the northward one. Each record has a GRIB-like header
and a flat list of `nx * ny` random values. Values whose cell centre lies
outside a polygon are masked by a policy. This project models the generator
in `wind_gen.py` and proves properties of that model:

- `generate_header` becomes the function `Grid.GenerateHeader`. Its result is
  two header values, or a `ZeroDivision` error when `nx` or `ny` is zero
  (Python raises `ZeroDivisionError` there).
- `generate_data` becomes the method `WindGen.GenerateData`. It fills an
  `array<Option<real>>` from the samples and runs the source's nested loop in
  place (`WindGen.SweepInPlace`). The method is proved equal to a specification
  fold, `Masking.Mask`. The fold walks the cells in loop order and overwrites
  slot `i * nx + j` of each cell whose centre fails the containment test. It
  stops with `IndexOutOfRange(k)` at the first write past the end, as Python's
  `IndexError` does. `None` in a data list is the missing marker (JSON `null`).
- `create_fake_data` becomes the method `WindGen.CreateFakeData`. It is proved
  equal to the composition `WindGen.FakeData`.
- `is_point_inside_polygon` is a parameter `inside: (real, real) -> bool`
  taking (latitude, longitude). The caller closes it over the polygon.

The loops run `i` over `[0, nx)` and `j` over `[0, ny)`. They write slot
`i * nx + j`, and the latitude of a centre uses `i` with a step computed from
`ny`. The model keeps this exactly as written. It proves when the layout is a
bijection and when every centre is inside the box: in both cases, exactly when
the grid is square (with some degenerate exceptions). It also models the
corrected loop, with the two bounds swapped, and proves it sound for every
resolution (see "## Findings").

Facts about `wind_gen.py` that the model keeps:

- The policy that writes the missing marker is the string `"None"`
  (wind_gen.py:70).
- The script checks neither the bounding box nor the resolution. A zero
  resolution fails only through the divisions at wind_gen.py:41-42, and a
  degenerate box is accepted. The polygon is handed unchecked to the
  containment call (wind_gen.py:28). The model treats that call as a total
  test, so a polygon the geometry library rejects is outside the model (see
  "## Left out").
- Under `"value"`, the default `default_value` is Python `None`. So `"value"`
  may also write the missing marker, which is why `default` is an `Option<real>`.

## Model

| member | source | states |
|---|---|---|
| `Grid.GenerateHeader` | wind_gen.py:34-56 | fails exactly when `nx` or `ny` is zero; otherwise two headers, UGRD then VGRD, identical except for the element; `la1/la2/lo1/lo2/nx/ny` are the inputs, and `ny` steps of `dy` span the latitude range and `nx` steps of `dx` the longitude range |
| `Grid.AxisCentre` | wind_gen.py:64-65 | the centre `lo + (0.5 + k) * (hi - lo) / n` is above `lo`, and below `hi` exactly when `k < n` |
| `Grid.CentresInsideIffSquare` | wind_gen.py:62-65 | with the source's loops and a non-degenerate box, every cell centre is strictly inside the box if and only if `nx == ny` |
| `Grid.CorrectedCentresInside` | wind_gen.py:62-65 | with the loop bounds swapped, every cell centre is strictly inside a non-degenerate box for every resolution |
| `Grid.LastCellOverruns` | wind_gen.py:62-69 | for `nx > ny >= 1` the last cell's slot `(nx-1)*nx + ny-1` is at least `nx*ny` |
| `Grid.LastSlotUnreached` | wind_gen.py:62-71 | for `2 <= nx < ny` no cell's slot reaches the last slot `nx*ny - 1` |
| `Grid.AsWrittenInRangeIff` | wind_gen.py:61-71 | every slot `i*nx + j` (`i < nx`, `j < ny`) is below `nx*ny` if and only if `nx <= ny`, `nx <= 1` or `ny == 0` |
| `Grid.AsWrittenOneToOneIff` | wind_gen.py:62-71 | distinct cells get distinct slots if and only if `ny <= nx` or `nx <= 1` |
| `Grid.AsWrittenBijectiveIff` | wind_gen.py:61-71 | the slot map is a bijection from the cells onto `[0, nx*ny)` if and only if `nx == ny`, `nx <= 1` or `ny == 0` |
| `Grid.CorrectedLayoutBijective` | wind_gen.py:62-71 | with `i < ny` and `j < nx`, the slot `i*nx + j` is in range, one-to-one and onto `[0, nx*ny)` for every resolution |
| `Masking.MaskRow` | wind_gen.py:63-71 | the inner loop only assigns by index: a completed row leaves the data length unchanged |
| `Masking.MaskRows` | wind_gen.py:62-71 | the outer loop leaves the data length unchanged |
| `Masking.RowFailsIff` | wind_gen.py:63-71 | the inner loop from `j` on raises if and only if some later overwritten cell of the row has its slot past the end |
| `Masking.RowsFailIff` | wind_gen.py:62-71 | the outer loop from row `i` on raises if and only if some later overwritten cell has its slot past the end |
| `Masking.RowSlot` | wind_gen.py:63-71 | after the inner loop, a slot holds the written value if some overwritten cell of the row has that slot, its old value otherwise |
| `Masking.RowsSlot` | wind_gen.py:62-71 | the same for the remaining rows |
| `Masking.MaskFailsIff` | wind_gen.py:62-71 | the loop raises if and only if some overwritten cell has its slot past the end of the data |
| `Masking.MaskSlot` | wind_gen.py:62-71 | a completed loop keeps the length, and each slot holds the written value if some overwritten cell has that slot, its sample otherwise (nothing else changes) |
| `Masking.ExactOnSoundLayout` | wind_gen.py:62-71 | on an in-range, one-to-one layout the loop never raises, and each cell's slot holds the written value exactly when the cell is overwritten |
| `Masking.ValuePolicy` | wind_gen.py:67-69 | policy `"value"`, sound layout: every cell whose centre is outside holds `default_value`, every other keeps its sample |
| `Masking.NonePolicy` | wind_gen.py:67-71 | policy `"None"`, sound layout, numeric samples: a cell holds the missing marker exactly when its centre is outside, and a cell inside keeps its sample |
| `Masking.OtherPolicyIsNoOp` | wind_gen.py:59-71 | any other policy (default `"const"`): the loop returns the samples unchanged and never raises an index error, whatever the grid shape (for a polygon the containment test accepts) |
| `Masking.AsWrittenSoundIff` | wind_gen.py:61-71 | the source's loop has a sound layout over `nx*ny` samples if and only if `nx == ny`, `nx <= 1` or `ny == 0` |
| `Masking.WiderGridOverruns` | wind_gen.py:62-71 | for `nx > ny >= 1`, if the last cell is overwritten, the source's loop raises |
| `Masking.TallerGridMissesLastSlot` | wind_gen.py:62-71 | for `2 <= nx < ny` the source's loop completes but the last slot keeps its sample, whatever the polygon and policy |
| `Masking.CorrectedSweepExact` | wind_gen.py:62-71 | the corrected loop has a sound, onto layout, never raises, and each cell's slot holds the written value exactly when the cell is overwritten |
| `WindGen.Samples` | wind_gen.py:61 | one sample per draw, every one a number |
| `WindGen.ScaleDrawWithinRange` | wind_gen.py:61 | a draw in `[0, 1)` scales into `[random_min, random_max)` |
| `WindGen.SamplesWithinRange` | wind_gen.py:61 | draws in `[0, 1)` give samples in `[random_min, random_max)` |
| `WindGen.SweepInPlace` | wind_gen.py:62-71 | the in-place nested loop leaves the array equal to the specification fold, or returns the index error the fold raises |
| `WindGen.GenerateData` | wind_gen.py:59-73 | the returned record is the header with the masked samples, or the fold's index error; on success the data has `nx*ny` values |
| `WindGen.GenerateDataCorrected` | wind_gen.py:59-73 | with the bounds swapped, generation always succeeds with `nx*ny` values, and each cell's slot is in range and holds the written value exactly when the cell is overwritten, its sample otherwise |
| `WindGen.CreateFakeData` | wind_gen.py:75-91 | the result is the headers of `generate_header`, each filled by `generate_data` from its own draw, UGRD first, or the first error raised |
| `WindGen.FakeDataShape` | wind_gen.py:75-91 | a successful run emits two records, UGRD then VGRD, with the headers of `generate_header` and `nx*ny` values each |
| `WindGen.FakeDataFailsIff` | wind_gen.py:75-91 | a run fails if and only if the resolution has a zero or the source's loop overruns the first field's data; the draws play no part |
| `WindGen.ThreeByTwoRaises` | wind_gen.py:62-69 | `nx=3`, `ny=2`, every centre outside, policy `"value"`: `generate_data` raises |
| `WindGen.TwoByThreeLeavesSample` | wind_gen.py:62-71 | `nx=2`, `ny=3`, every centre outside, policy `"None"`: generation completes, yet the last value is still the sampled number |

## Left out

- The Streamlit front end, `main` (wind_gen.py:93-137): it only collects inputs and shows and downloads the output.
- `json.dumps` serialisation (wind_gen.py:133): output plumbing.
- The Shapely containment test `Point.within(Polygon(...))` (wind_gen.py:20-31) is a foreign library call. It is the parameter `inside`: a total function, with no boundary tie-break fixed. The polygon's vertex list is not a separate parameter. The exceptions of that call are not modelled. For example, `Polygon` rejects a vertex list of fewer than three points with `ValueError`, and because the call runs for every cell whatever the policy, `generate_data` would then raise on its first cell even under `"const"`. The only caller, `main`, passes the fixed 11-vertex `vertex_coor`.
- The module constant `vertex_coor` (wind_gen.py:6-18): concrete data, replaced by the `inside` parameter.
- `np.random.rand` (wind_gen.py:61): the uniform draws are inputs (`draws`, one sequence per field). Independence of the two fields' draws is not modelled.
- IEEE floating point: coordinates, steps, centres and samples are mathematical reals, so rounding in `dx`, `dy` and the centres is not modelled.
- Negative resolutions: `nx` and `ny` are `nat`. Unset (`None`) bounding-box defaults, which raise a `TypeError` in Python, are not modelled.
- `generate_data` adds `"data"` to the header dict it was given (wind_gen.py:72). The model returns a new `Record` value instead. This is not observable, because each header dict is used once.
- WindGen.SweepInPlace: says nothing about the array after an index error. The source's exception discards the partly masked list.

## Findings

| source | as written | input that shows it | evidently intended | confidence | as-written member | corrected member |
|---|---|---|---|---|---|---|
| wind_gen.py:62-69 | the loops run `i < nx`, `j < ny` and write slot `i * nx + j` of an `nx * ny` list | `nx=3`, `ny=2`, every centre outside, policy `"value"`: cell `(2, 0)` writes slot 6 of a 6-element list and Python raises `IndexError` | loop bounds swapped (`i < ny`, `j < nx`), so slot `i * nx + j` is a bijection onto `[0, nx*ny)` | not executed; proved on the model | `WindGen.ThreeByTwoRaises` | `WindGen.GenerateDataCorrected` |
| wind_gen.py:62-71 | same slot formula | `nx=2`, `ny=3`, every centre outside, policy `"None"`: cells `(0, 2)` and `(1, 0)` share slot 2, and slot 5 is never written, so it stays a number | every cell has its own slot and every slot is masked when its cell is outside | not executed; proved on the model | `WindGen.TwoByThreeLeavesSample` | `Masking.CorrectedSweepExact` |
| wind_gen.py:62-65 | the latitude centre uses `i < nx` with `dy = (max_lat - min_lat) / ny`, and the longitude centre uses `j < ny` with `dx = (max_lon - min_lon) / nx` | box `[0, 1] x [0, 1]`, `nx=3`, `ny=2`: row 2 has latitude `0 + 2.5 * 0.5 = 1.25`, above `max_lat = 1` | every centre strictly inside the box | not executed; proved on the model | `Grid.CentresInsideIffSquare` | `Grid.CorrectedCentresInside` |
