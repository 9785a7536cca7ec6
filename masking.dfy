/** The effect of `generate_data`'s nested loop on the sampled data list, as a
    specification: a fold over the cells in loop order that overwrites the slot
    of every cell whose centre is outside the polygon, under the policies that
    write, and stops with an index error at the first write past the end. */
module Masking {
  import opened Wrappers
  import opened Grid

  /** What the loop writes over a cell whose centre is outside the polygon:
      `Some(default)` for the policy "value", `Some(None)` (the missing marker)
      for "None", and nothing (`None`) for any other policy string. */
  function Overwrite(policy: string, default: Option<real>): Option<Option<real>> {
    if policy == "value" then Some(default)
    else if policy == "None" then Some(None)
    else None
  }

  /** One run of the nested loop: the header it reads, the containment test of
      the polygon, the policy and default value, and the loop bounds (`rows` for
      the outer counter `i`, `cols` for the inner counter `j`). */
  datatype Sweep = Sweep(
    header: Header,
    inside: (real, real) -> bool,
    policy: string,
    default: Option<real>,
    rows: nat,
    cols: nat)

  /** The sweep `generate_data` runs: `i` over `[0, nx)`, `j` over `[0, ny)`. */
  function AsWritten(h: Header, inside: (real, real) -> bool, policy: string, default: Option<real>): Sweep {
    Sweep(h, inside, policy, default, h.nx, h.ny)
  }

  /** The same loop with its two bounds swapped: `i` over `[0, ny)`, `j` over `[0, nx)`. */
  function Corrected(h: Header, inside: (real, real) -> bool, policy: string, default: Option<real>): Sweep {
    Sweep(h, inside, policy, default, h.ny, h.nx)
  }

  /** The loop overwrites the slot of cell `(i, j)`: the policy writes and the
      centre of the cell fails the containment test. */
  predicate Written(s: Sweep, i: nat, j: nat) {
    Overwrite(s.policy, s.default).Some? && !s.inside(CenterLat(s.header, i), CenterLon(s.header, j))
  }

  /** The value written over an outside cell. */
  function Fill(s: Sweep): Option<real>
    requires Overwrite(s.policy, s.default).Some?
  {
    Overwrite(s.policy, s.default).value
  }

  /** The body of the inner loop for cell `(i, j)`. */
  function Step(s: Sweep, d: seq<Option<real>>, i: nat, j: nat): Result<seq<Option<real>>, Error> {
    var k := FlatIndex(s.header.nx, i, j);
    if !Written(s, i, j) then Success(d)
    else if k < |d| then Success(d[k := Fill(s)])
    else Failure(IndexOutOfRange(k))
  }

  /** The inner loop from `j` on, for row `i`. */
  function MaskRow(s: Sweep, d: seq<Option<real>>, i: nat, j: nat): (r: Result<seq<Option<real>>, Error>)
    ensures r.Success? ==> |r.value| == |d|
    decreases s.cols - j
  {
    if j >= s.cols then Success(d)
    else
      match Step(s, d, i, j)
      case Failure(e) => Failure(e)
      case Success(d1) => MaskRow(s, d1, i, j + 1)
  }

  /** The outer loop from row `i` on. */
  function MaskRows(s: Sweep, d: seq<Option<real>>, i: nat): (r: Result<seq<Option<real>>, Error>)
    ensures r.Success? ==> |r.value| == |d|
    decreases s.rows - i
  {
    if i >= s.rows then Success(d)
    else
      match MaskRow(s, d, i, 0)
      case Failure(e) => Failure(e)
      case Success(d1) => MaskRows(s, d1, i + 1)
  }

  /** The whole nested loop over the sampled data `d`. */
  function Mask(s: Sweep, d: seq<Option<real>>): Result<seq<Option<real>>, Error> {
    MaskRows(s, d, 0)
  }

  /** Cell `(i, j)` is overwritten and its slot lies past the end of an array of length `n`. */
  predicate Overruns(s: Sweep, n: nat, i: nat, j: nat) {
    Written(s, i, j) && FlatIndex(s.header.nx, i, j) >= n
  }

  /** Cell `(i, j)` is overwritten and its slot is `k`. */
  predicate Hits(s: Sweep, k: nat, i: nat, j: nat) {
    Written(s, i, j) && FlatIndex(s.header.nx, i, j) == k
  }

  /** Some cell of the sweep writes past the end of an array of length `n`. */
  ghost predicate AnyOverrun(s: Sweep, n: nat) {
    exists i: nat, j: nat :: i < s.rows && j < s.cols && Overruns(s, n, i, j)
  }

  /** Some cell of the sweep writes slot `k`. */
  ghost predicate AnyHit(s: Sweep, k: nat) {
    exists i: nat, j: nat :: i < s.rows && j < s.cols && Hits(s, k, i, j)
  }

  /** The slots of distinct cells are distinct and all lie in an array of length `n`. */
  ghost predicate SoundLayout(s: Sweep, n: nat) {
    InRange(s.header.nx, s.rows, s.cols, n) && OneToOne(s.header.nx, s.rows, s.cols)
  }

  // ---------------------------------------------------------------------------
  // The fold, loop by loop

  lemma {:induction false} RowFailsIff(s: Sweep, d: seq<Option<real>>, i: nat, j: nat)
    ensures MaskRow(s, d, i, j).Failure? <==>
            exists j': nat :: j <= j' < s.cols && Overruns(s, |d|, i, j')
    decreases s.cols - j
  {
    if j < s.cols {
      match Step(s, d, i, j)
      case Failure(_) =>
        assert Overruns(s, |d|, i, j);
      case Success(d1) =>
        RowFailsIff(s, d1, i, j + 1);
        assert !Overruns(s, |d|, i, j);
    }
  }

  lemma {:induction false} RowsFailIff(s: Sweep, d: seq<Option<real>>, i: nat)
    ensures MaskRows(s, d, i).Failure? <==>
            exists i': nat, j': nat :: i <= i' < s.rows && j' < s.cols && Overruns(s, |d|, i', j')
    decreases s.rows - i
  {
    if i < s.rows {
      RowFailsIff(s, d, i, 0);
      match MaskRow(s, d, i, 0)
      case Failure(_) =>
        var j' :| 0 <= j' < s.cols && Overruns(s, |d|, i, j');
      case Success(d1) =>
        RowsFailIff(s, d1, i + 1);
        if exists i': nat, j': nat :: i <= i' < s.rows && j' < s.cols && Overruns(s, |d|, i', j') {
          var i': nat, j': nat :| i <= i' < s.rows && j' < s.cols && Overruns(s, |d|, i', j');
          assert i' != i;
          assert Overruns(s, |d1|, i', j');
        }
    }
  }

  lemma {:induction false} RowSlot(s: Sweep, d: seq<Option<real>>, i: nat, j: nat, k: nat)
    requires MaskRow(s, d, i, j).Success? && k < |d|
    ensures MaskRow(s, d, i, j).value[k] ==
            if exists j': nat :: j <= j' < s.cols && Hits(s, k, i, j') then Fill(s) else d[k]
    decreases s.cols - j
  {
    if j < s.cols {
      var d1 := Step(s, d, i, j).value;
      RowSlot(s, d1, i, j + 1, k);
      if Hits(s, k, i, j) {
        assert d1[k] == Fill(s);
      } else {
        assert d1[k] == d[k];
      }
    }
  }

  lemma {:induction false} RowsSlot(s: Sweep, d: seq<Option<real>>, i: nat, k: nat)
    requires MaskRows(s, d, i).Success? && k < |d|
    ensures MaskRows(s, d, i).value[k] ==
            if exists i': nat, j': nat :: i <= i' < s.rows && j' < s.cols && Hits(s, k, i', j')
            then Fill(s) else d[k]
    decreases s.rows - i
  {
    if i < s.rows {
      var d1 := MaskRow(s, d, i, 0).value;
      RowSlot(s, d, i, 0, k);
      RowsSlot(s, d1, i + 1, k);
      if exists j': nat :: 0 <= j' < s.cols && Hits(s, k, i, j') {
        var j': nat :| 0 <= j' < s.cols && Hits(s, k, i, j');
        assert i <= i < s.rows && j' < s.cols && Hits(s, k, i, j');
      }
      if exists i': nat, j': nat :: i + 1 <= i' < s.rows && j' < s.cols && Hits(s, k, i', j') {
        var i': nat, j': nat :| i + 1 <= i' < s.rows && j' < s.cols && Hits(s, k, i', j');
        assert i <= i' < s.rows && j' < s.cols && Hits(s, k, i', j');
      }
    }
  }

  // ---------------------------------------------------------------------------
  // What the whole loop does

  /** The loop raises an index error if and only if some overwritten cell has
      its slot past the end of the data. */
  lemma MaskFailsIff(s: Sweep, d: seq<Option<real>>)
    ensures Mask(s, d).Failure? <==> AnyOverrun(s, |d|)
  {
    RowsFailIff(s, d, 0);
  }

  /** When the loop completes, the data keeps its length, and slot `k` holds the
      written value if some overwritten cell has slot `k` and its sample otherwise. */
  lemma MaskSlot(s: Sweep, d: seq<Option<real>>, k: nat)
    requires Mask(s, d).Success? && k < |d|
    ensures |Mask(s, d).value| == |d|
    ensures Mask(s, d).value[k] == if AnyHit(s, k) then Fill(s) else d[k]
  {
    RowsSlot(s, d, 0, k);
  }

  /** On a sound layout the loop never raises, and each cell's slot holds the
      written value exactly when that cell is overwritten, its sample otherwise. */
  lemma ExactOnSoundLayout(s: Sweep, d: seq<Option<real>>)
    requires SoundLayout(s, |d|)
    ensures Mask(s, d).Success? && |Mask(s, d).value| == |d|
    ensures forall i: nat, j: nat :: i < s.rows && j < s.cols ==>
              Mask(s, d).value[FlatIndex(s.header.nx, i, j)] ==
              if Written(s, i, j) then Fill(s) else d[FlatIndex(s.header.nx, i, j)]
  {
    MaskFailsIff(s, d);
    forall i: nat, j: nat | i < s.rows && j < s.cols
      ensures Mask(s, d).value[FlatIndex(s.header.nx, i, j)] ==
              if Written(s, i, j) then Fill(s) else d[FlatIndex(s.header.nx, i, j)]
    {
      var k := FlatIndex(s.header.nx, i, j);
      MaskSlot(s, d, k);
      if Written(s, i, j) {
        assert Hits(s, k, i, j);
      } else {
        assert !AnyHit(s, k);
      }
    }
  }

  /** Policy "value" on a sound layout: every cell whose centre is outside the
      polygon holds the default value, every other cell keeps its sample. */
  lemma ValuePolicy(s: Sweep, d: seq<Option<real>>)
    requires s.policy == "value" && SoundLayout(s, |d|)
    ensures Mask(s, d).Success? && |Mask(s, d).value| == |d|
    ensures forall i: nat, j: nat :: i < s.rows && j < s.cols ==>
              Mask(s, d).value[FlatIndex(s.header.nx, i, j)] ==
              if s.inside(CenterLat(s.header, i), CenterLon(s.header, j)) then d[FlatIndex(s.header.nx, i, j)]
              else s.default
  {
    ExactOnSoundLayout(s, d);
  }

  /** Policy "None" on a sound layout over numeric samples: a cell's slot holds
      the missing marker exactly when its centre is outside the polygon, and a
      cell inside keeps its sample. */
  lemma NonePolicy(s: Sweep, d: seq<Option<real>>)
    requires s.policy == "None" && SoundLayout(s, |d|)
    requires forall k :: 0 <= k < |d| ==> d[k].Some?
    ensures Mask(s, d).Success? && |Mask(s, d).value| == |d|
    ensures forall i: nat, j: nat :: i < s.rows && j < s.cols ==>
              && (Mask(s, d).value[FlatIndex(s.header.nx, i, j)].None?
                  <==> !s.inside(CenterLat(s.header, i), CenterLon(s.header, j)))
              && (s.inside(CenterLat(s.header, i), CenterLon(s.header, j))
                  ==> Mask(s, d).value[FlatIndex(s.header.nx, i, j)] == d[FlatIndex(s.header.nx, i, j)])
  {
    ExactOnSoundLayout(s, d);
  }

  /** Any other policy (the default "const" among them): the loop changes
      nothing and never raises, whatever the grid shape. */
  lemma OtherPolicyIsNoOp(s: Sweep, d: seq<Option<real>>)
    requires s.policy != "value" && s.policy != "None"
    ensures Mask(s, d) == Success(d)
  {
    MaskFailsIff(s, d);
    assert !AnyOverrun(s, |d|);
    var r := Mask(s, d).value;
    assert |r| == |d|;
    forall k | 0 <= k < |d|
      ensures r[k] == d[k]
    {
      MaskSlot(s, d, k);
    }
    assert r == d;
  }

  // ---------------------------------------------------------------------------
  // The source's layout

  /** The source's sweep has a sound layout over its `nx * ny` samples if and
      only if the grid is square, has `nx <= 1`, or has no columns. */
  lemma AsWrittenSoundIff(h: Header, inside: (real, real) -> bool, policy: string, default: Option<real>)
    ensures SoundLayout(AsWritten(h, inside, policy, default), h.nx * h.ny)
            <==> (h.nx == h.ny || h.nx <= 1 || h.ny == 0)
  {
    AsWrittenInRangeIff(h.nx, h.ny);
    AsWrittenOneToOneIff(h.nx, h.ny);
  }

  /** Wider than tall (`nx > ny >= 1`): when the last cell is overwritten the
      source's loop writes past the end of its data and raises. */
  lemma WiderGridOverruns(s: Sweep, d: seq<Option<real>>)
    requires s.rows == s.header.nx && s.cols == s.header.ny && 1 <= s.header.ny < s.header.nx
    requires |d| == s.header.nx * s.header.ny && Written(s, s.rows - 1, s.cols - 1)
    ensures Mask(s, d).Failure?
  {
    LastCellOverruns(s.header.nx, s.header.ny);
    assert Overruns(s, |d|, s.rows - 1, s.cols - 1);
    MaskFailsIff(s, d);
  }

  /** Taller than wide (`2 <= nx < ny`): the source's loop completes but never
      writes the last slot, which keeps its sample whatever the polygon. */
  lemma TallerGridMissesLastSlot(s: Sweep, d: seq<Option<real>>)
    requires s.rows == s.header.nx && s.cols == s.header.ny && 2 <= s.header.nx < s.header.ny
    requires |d| == s.header.nx * s.header.ny
    ensures Mask(s, d).Success?
    ensures Mask(s, d).value[|d| - 1] == d[|d| - 1]
  {
    var nx, ny := s.header.nx, s.header.ny;
    AsWrittenInRangeIff(nx, ny);
    MaskFailsIff(s, d);
    MaskSlot(s, d, |d| - 1);
    if AnyHit(s, |d| - 1) {
      var i: nat, j: nat :| i < s.rows && j < s.cols && Hits(s, |d| - 1, i, j);
      LastSlotUnreached(nx, ny, i, j);
    }
  }

  /** The corrected sweep has a sound layout that covers every slot. */
  lemma CorrectedLayout(s: Sweep, n: nat)
    requires s.rows == s.header.ny && s.cols == s.header.nx && n == s.header.nx * s.header.ny
    ensures SoundLayout(s, n) && Onto(s.header.nx, s.rows, s.cols, n)
  {
    CorrectedLayoutBijective(s.header.nx, s.header.ny);
  }

  /** The corrected sweep is exact for every resolution: it never raises, and
      every slot belongs to exactly one cell and holds the written value exactly
      when that cell is overwritten. */
  lemma CorrectedSweepExact(s: Sweep, d: seq<Option<real>>)
    requires s.rows == s.header.ny && s.cols == s.header.nx && |d| == s.header.nx * s.header.ny
    ensures SoundLayout(s, |d|) && Onto(s.header.nx, s.rows, s.cols, |d|)
    ensures Mask(s, d).Success? && |Mask(s, d).value| == |d|
    ensures forall i: nat, j: nat :: i < s.rows && j < s.cols ==>
              Mask(s, d).value[FlatIndex(s.header.nx, i, j)] ==
              if Written(s, i, j) then Fill(s) else d[FlatIndex(s.header.nx, i, j)]
  {
    CorrectedLayout(s, |d|);
    ExactOnSoundLayout(s, d);
  }
}
