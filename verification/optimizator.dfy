/**
 * The offset variables and the contention-free constraints.
 *
 * Every pass is a pure function from the network to the list of constraints it
 * asserts, in the order the nested loops of the scheduler visit them. A cell
 * variable is named by (frame index, link, instance, replica); within a frame
 * whose offset list holds each link once, that names one cell of one offset.
 */
module Optimizator {
  import opened Results
  import opened Seqs
  import opened Frames
  import opened Networks
  import opened Constraints
  import opened Formulas

  /** The number of rounds of a C `for` loop running up to `x`. */
  function Count(x: int): (c: nat)
    ensures x >= 0 ==> c == x
    ensures x <= 0 ==> c == 0
  {
    if x < 0 then 0 else x
  }

  /** The number of real nodes in a frame's offset list (the sentinel excluded). */
  function Nodes(f: Frame): (c: nat)
    ensures c < |f.offsets| || c == 0
  {
    if |f.offsets| == 0 then 0 else |f.offsets| - 1
  }

  // ---------------------------------------------------------------------------
  // Offset variables
  // ---------------------------------------------------------------------------

  /** Cell (`i`, `r`) of offset `o` of frame `fi` lies in its range and, unless
      it is cell (0, 0), sits `i` periods after cell (0, 0). */
  predicate CellPlaced(fi: int, f: Frame, o: Offset, i: int, r: int, selection: bool, env: Env)
  {
    var x := env(Cell(fi, o.link, i, r));
    var x0 := env(Cell(fi, o.link, 0, 0));
    && (x > RangeMin(f, i) || (selection && x == 0))
    && x <= RangeMax(f, o, i)
    && ((i != 0 || r != 0) ==> if selection && x0 == 0 then x == 0 else x == x0 + f.period * i)
  }

  /** The constraints asserted for one cell: its range, then its distance to
      cell (0, 0). */
  function CellConstraints(fi: int, f: Frame, o: Offset, i: int, r: int, selection: bool): (cs: seq<Constraint>)
    ensures forall env :: HoldsAll(cs, env) <==> CellPlaced(fi, f, o, i, r, selection, env)
  {
    var x := Cell(fi, o.link, i, r);
    var range := OffsetRange(x, RangeMin(f, i), RangeMax(f, o, i), selection);
    var distance := FixedDistance(Cell(fi, o.link, 0, 0), x, f.period * i, selection);
    var pin := if i != 0 || r != 0 then [distance] else [];
    forall env
      ensures HoldsAll(range + pin, env) <==> HoldsAll(range, env) && HoldsAll(pin, env)
      ensures HoldsAll(pin, env) <==> ((i != 0 || r != 0) ==> Holds(distance, env))
    {
      HoldsAllAppend(range, pin, env);
      HoldsAllOne(distance, env);
    }
    range + pin
  }

  function InstanceCellBlocks(fi: int, f: Frame, o: Offset, i: int, selection: bool): seq<seq<Constraint>>
  {
    seq(Count(o.numReplicas), r => CellConstraints(fi, f, o, i, r, selection))
  }

  function OffsetCellBlocks(fi: int, f: Frame, o: Offset, selection: bool): seq<seq<Constraint>>
  {
    seq(Count(o.numInstances), i => Flatten(InstanceCellBlocks(fi, f, o, i, selection)))
  }

  function FrameCellBlocks(fi: int, f: Frame, selection: bool): seq<seq<Constraint>>
  {
    seq(Nodes(f), k requires 0 <= k < Nodes(f) => Flatten(OffsetCellBlocks(fi, f, f.offsets[k], selection)))
  }

  function NetworkCellBlocks(n: Network, selection: bool): seq<seq<Constraint>>
  {
    seq(|n.frames|, fi requires 0 <= fi < |n.frames| => Flatten(FrameCellBlocks(fi, n.frames[fi], selection)))
  }

  /** Every cell of every offset of every frame gets a variable, its range and
      its distance to cell (0, 0): the constraints hold exactly when every cell
      lies in its range and is pinned to cell (0, 0) of its offset. */
  function CreateOffsetVariables(n: Network, selection: bool): (cs: seq<Constraint>)
    ensures forall env :: HoldsAll(cs, env) <==>
      forall fi, k, i, r :: IsCell(n, fi, k, i, r) ==>
        CellPlaced(fi, n.frames[fi], n.frames[fi].offsets[k], i, r, selection, env)
  {
    forall env
      ensures HoldsAll(Flatten(NetworkCellBlocks(n, selection)), env) <==>
        forall fi, k, i, r :: IsCell(n, fi, k, i, r) ==>
          CellPlaced(fi, n.frames[fi], n.frames[fi].offsets[k], i, r, selection, env)
    {
      NetworkCellsMeaning(n, selection, env);
    }
    Flatten(NetworkCellBlocks(n, selection))
  }

  /** The cell exists: a frame, a real node of its list, an instance and a replica in range. */
  predicate IsCell(n: Network, fi: int, k: int, i: int, r: int)
  {
    && 0 <= fi < |n.frames|
    && 0 <= k < Nodes(n.frames[fi])
    && 0 <= i < n.frames[fi].offsets[k].numInstances
    && 0 <= r < n.frames[fi].offsets[k].numReplicas
  }

  lemma {:induction false} OffsetCellsMeaning(fi: int, f: Frame, o: Offset, selection: bool, env: Env)
    ensures HoldsAll(Flatten(OffsetCellBlocks(fi, f, o, selection)), env) <==>
      forall i, r :: 0 <= i < o.numInstances && 0 <= r < o.numReplicas ==> CellPlaced(fi, f, o, i, r, selection, env)
  {
    var blocks := OffsetCellBlocks(fi, f, o, selection);
    HoldsAllFlatten(blocks, env);
    forall i | 0 <= i < |blocks|
      ensures HoldsAll(blocks[i], env) <==>
        forall r :: 0 <= r < o.numReplicas ==> CellPlaced(fi, f, o, i, r, selection, env)
    {
      var row := InstanceCellBlocks(fi, f, o, i, selection);
      HoldsAllFlatten(row, env);
      if HoldsAll(blocks[i], env) {
        forall r | 0 <= r < o.numReplicas
          ensures CellPlaced(fi, f, o, i, r, selection, env)
        {
          assert HoldsAll(row[r], env);
        }
      }
    }
    if HoldsAll(Flatten(blocks), env) {
      forall i, r | 0 <= i < o.numInstances && 0 <= r < o.numReplicas
        ensures CellPlaced(fi, f, o, i, r, selection, env)
      {
        assert HoldsAll(blocks[i], env);
      }
    }
  }

  lemma {:induction false} FrameCellsMeaning(fi: int, f: Frame, selection: bool, env: Env)
    ensures HoldsAll(Flatten(FrameCellBlocks(fi, f, selection)), env) <==>
      forall k, i, r :: 0 <= k < Nodes(f) && 0 <= i < f.offsets[k].numInstances && 0 <= r < f.offsets[k].numReplicas ==>
        CellPlaced(fi, f, f.offsets[k], i, r, selection, env)
  {
    var blocks := FrameCellBlocks(fi, f, selection);
    HoldsAllFlatten(blocks, env);
    forall k | 0 <= k < |blocks|
      ensures HoldsAll(blocks[k], env) <==>
        forall i, r :: 0 <= i < f.offsets[k].numInstances && 0 <= r < f.offsets[k].numReplicas ==>
          CellPlaced(fi, f, f.offsets[k], i, r, selection, env)
    {
      OffsetCellsMeaning(fi, f, f.offsets[k], selection, env);
    }
    if HoldsAll(Flatten(blocks), env) {
      forall k, i, r | 0 <= k < Nodes(f) && 0 <= i < f.offsets[k].numInstances && 0 <= r < f.offsets[k].numReplicas
        ensures CellPlaced(fi, f, f.offsets[k], i, r, selection, env)
      {
        assert HoldsAll(blocks[k], env);
      }
    }
  }

  lemma {:induction false} NetworkCellsMeaning(n: Network, selection: bool, env: Env)
    ensures HoldsAll(Flatten(NetworkCellBlocks(n, selection)), env) <==>
      forall fi, k, i, r :: IsCell(n, fi, k, i, r) ==>
        CellPlaced(fi, n.frames[fi], n.frames[fi].offsets[k], i, r, selection, env)
  {
    var blocks := NetworkCellBlocks(n, selection);
    HoldsAllFlatten(blocks, env);
    forall fi | 0 <= fi < |blocks|
      ensures HoldsAll(blocks[fi], env) <==>
        forall k, i, r :: IsCell(n, fi, k, i, r) ==> CellPlaced(fi, n.frames[fi], n.frames[fi].offsets[k], i, r, selection, env)
    {
      FrameCellsMeaning(fi, n.frames[fi], selection, env);
    }
    if HoldsAll(Flatten(blocks), env) {
      forall fi, k, i, r | IsCell(n, fi, k, i, r)
        ensures CellPlaced(fi, n.frames[fi], n.frames[fi].offsets[k], i, r, selection, env)
      {
        assert HoldsAll(blocks[fi], env);
      }
    }
  }

  /** Without path selection, every replica of instance `i` sits exactly `i`
      periods after cell (0, 0), whatever the replica. */
  lemma InstancesFollowPeriod(n: Network, env: Env, fi: int, k: int, i: int, r: int)
    requires HoldsAll(CreateOffsetVariables(n, false), env)
    requires IsCell(n, fi, k, i, r)
    ensures var f := n.frames[fi]; var l := f.offsets[k].link;
      env(Cell(fi, l, i, r)) == env(Cell(fi, l, 0, 0)) + f.period * i
  {
    assert CellPlaced(fi, n.frames[fi], n.frames[fi].offsets[k], i, r, false, env);
  }

  // ---------------------------------------------------------------------------
  // Contention freedom
  // ---------------------------------------------------------------------------

  /** Cell (`j`, `q`) of offset `ob` of frame `b` and cell (`i`, `r`) of offset
      `oa` of frame `a` do not overlap, or the first one is unused. */
  predicate PairAvoided(b: int, ob: Offset, j: int, q: int, a: int, oa: Offset, i: int, r: int, selection: bool, env: Env)
  {
    var x := env(Cell(b, ob.link, j, q));
    var y := env(Cell(a, oa.link, i, r));
    x + ob.timeslots <= y || y + oa.timeslots <= x || (selection && x == 0)
  }

  /** The exclusion constraint for one pair of cells, when their windows may
      collide; nothing otherwise. */
  function PairBlock(b: int, fb: Frame, ob: Offset, j: int, q: int, a: int, fa: Frame, oa: Offset, i: int, r: int, selection: bool)
    : (cs: seq<Constraint>)
    ensures forall env :: HoldsAll(cs, env) <==>
      (OffsetsShareInterval(fb, j, fa, i) ==> PairAvoided(b, ob, j, q, a, oa, i, r, selection, env))
  {
    var apart := AvoidIntersection(Cell(b, ob.link, j, q), Cell(a, oa.link, i, r), ob.timeslots, oa.timeslots, selection);
    forall env
      ensures HoldsAll([apart], env) <==> Holds(apart, env)
    {
      HoldsAllOne(apart, env);
    }
    if OffsetsShareInterval(fb, j, fa, i) then [apart] else []
  }

  function EarlierInstanceBlocks(b: int, fb: Frame, ob: Offset, j: int, q: int, a: int, fa: Frame, oa: Offset, i: int, selection: bool)
    : seq<seq<Constraint>>
  {
    seq(Count(oa.numReplicas), r => PairBlock(b, fb, ob, j, q, a, fa, oa, i, r, selection))
  }

  function EarlierOffsetBlocks(b: int, fb: Frame, ob: Offset, j: int, q: int, a: int, fa: Frame, oa: Offset, selection: bool)
    : seq<seq<Constraint>>
  {
    seq(Count(oa.numInstances), i => Flatten(EarlierInstanceBlocks(b, fb, ob, j, q, a, fa, oa, i, selection)))
  }

  /** Frame `a`'s share for cell (`j`, `q`) of `ob`: nothing when frame `a`
      has no offset on the link, else one block per cell of that offset. */
  function EarlierFrame(b: int, fb: Frame, ob: Offset, j: int, q: int, a: int, fa: Frame, selection: bool): seq<Constraint>
  {
    match OffsetOn(fa, ob.link)
    case None => []
    case Some(oa) => Flatten(EarlierOffsetBlocks(b, fb, ob, j, q, a, fa, oa, selection))
  }

  /** Cell (`j`, `q`) of `ob` is compared with every earlier frame. */
  function CellContentionBlocks(n: Network, b: int, fb: Frame, ob: Offset, j: int, q: int, selection: bool): seq<seq<Constraint>>
    requires b <= |n.frames|
  {
    seq(Count(b), a requires 0 <= a < Count(b) => EarlierFrame(b, fb, ob, j, q, a, n.frames[a], selection))
  }

  function InstanceContentionBlocks(n: Network, b: int, fb: Frame, ob: Offset, j: int, selection: bool): seq<seq<Constraint>>
    requires b <= |n.frames|
  {
    seq(Count(ob.numReplicas), q => Flatten(CellContentionBlocks(n, b, fb, ob, j, q, selection)))
  }

  function OffsetContentionBlocks(n: Network, b: int, fb: Frame, ob: Offset, selection: bool): seq<seq<Constraint>>
    requires b <= |n.frames|
  {
    seq(Count(ob.numInstances), j => Flatten(InstanceContentionBlocks(n, b, fb, ob, j, selection)))
  }

  function FrameContentionBlocks(n: Network, b: int, selection: bool): seq<seq<Constraint>>
    requires 0 <= b < |n.frames|
  {
    var fb := n.frames[b];
    seq(Nodes(fb), k requires 0 <= k < Nodes(fb) => Flatten(OffsetContentionBlocks(n, b, fb, fb.offsets[k], selection)))
  }

  function NetworkContentionBlocks(n: Network, selection: bool): seq<seq<Constraint>>
  {
    seq(|n.frames|, b requires 0 <= b < |n.frames| => Flatten(FrameContentionBlocks(n, b, selection)))
  }

  /** For every cell of every offset of every frame, and every cell of the
      offset an earlier frame has on the same link, an exclusion constraint
      when their windows may collide. The constraints hold exactly when every
      such pair is kept apart; nothing is asserted about pairs whose windows
      cannot collide. */
  function ContentionFree(n: Network, selection: bool): (cs: seq<Constraint>)
    ensures forall env :: HoldsAll(cs, env) <==>
      forall b, k, j, q, a, i, r :: Clash(n, b, k, j, q, a, i, r) ==> ClashAvoided(n, b, k, j, q, a, i, r, selection, env)
  {
    forall env
      ensures HoldsAll(Flatten(NetworkContentionBlocks(n, selection)), env) <==>
        forall b, k, j, q, a, i, r :: Clash(n, b, k, j, q, a, i, r) ==> ClashAvoided(n, b, k, j, q, a, i, r, selection, env)
    {
      NetworkContentionMeaning(n, selection, env);
    }
    Flatten(NetworkContentionBlocks(n, selection))
  }

  /** Frame `a` has an offset on `link` with cell (`i`, `r`), and instance `i`
      of frame `a` may collide with instance `j` of `fb`. */
  predicate EarlierClash(fb: Frame, j: int, fa: Frame, link: int, i: int, r: int)
  {
    && OffsetOn(fa, link).Some?
    && 0 <= i < OffsetOn(fa, link).value.numInstances
    && 0 <= r < OffsetOn(fa, link).value.numReplicas
    && OffsetsShareInterval(fb, j, fa, i)
  }

  /** The pair of cells `contention_free` has to keep apart: cell (`j`, `q`) of
      node `k` of frame `b`, and cell (`i`, `r`) of the offset an earlier frame
      `a` has on the same link, when their windows may collide. */
  predicate Clash(n: Network, b: int, k: int, j: int, q: int, a: int, i: int, r: int)
  {
    && 0 <= a < b < |n.frames|
    && 0 <= k < Nodes(n.frames[b])
    && 0 <= j < n.frames[b].offsets[k].numInstances
    && 0 <= q < n.frames[b].offsets[k].numReplicas
    && EarlierClash(n.frames[b], j, n.frames[a], n.frames[b].offsets[k].link, i, r)
  }

  /** The pair is kept apart in `env`. */
  predicate ClashAvoided(n: Network, b: int, k: int, j: int, q: int, a: int, i: int, r: int, selection: bool, env: Env)
    requires Clash(n, b, k, j, q, a, i, r)
  {
    var ob := n.frames[b].offsets[k];
    PairAvoided(b, ob, j, q, a, OffsetOn(n.frames[a], ob.link).value, i, r, selection, env)
  }

  lemma {:induction false} EarlierFrameMeaning(b: int, fb: Frame, ob: Offset, j: int, q: int, a: int, fa: Frame, selection: bool, env: Env)
    ensures HoldsAll(EarlierFrame(b, fb, ob, j, q, a, fa, selection), env) <==>
      forall i, r :: EarlierClash(fb, j, fa, ob.link, i, r) ==>
        PairAvoided(b, ob, j, q, a, OffsetOn(fa, ob.link).value, i, r, selection, env)
  {
    match OffsetOn(fa, ob.link)
    case None =>
    case Some(oa) =>
      var blocks := EarlierOffsetBlocks(b, fb, ob, j, q, a, fa, oa, selection);
      HoldsAllFlatten(blocks, env);
      forall i | 0 <= i < |blocks|
        ensures HoldsAll(blocks[i], env) <==>
          forall r :: 0 <= r < oa.numReplicas ==>
            (OffsetsShareInterval(fb, j, fa, i) ==> PairAvoided(b, ob, j, q, a, oa, i, r, selection, env))
      {
        var row := EarlierInstanceBlocks(b, fb, ob, j, q, a, fa, oa, i, selection);
        HoldsAllFlatten(row, env);
        if HoldsAll(blocks[i], env) {
          forall r | 0 <= r < oa.numReplicas
            ensures OffsetsShareInterval(fb, j, fa, i) ==> PairAvoided(b, ob, j, q, a, oa, i, r, selection, env)
          {
            assert HoldsAll(row[r], env);
          }
        }
      }
      if HoldsAll(Flatten(blocks), env) {
        forall i, r | EarlierClash(fb, j, fa, ob.link, i, r)
          ensures PairAvoided(b, ob, j, q, a, oa, i, r, selection, env)
        {
          assert HoldsAll(blocks[i], env);
        }
      }
  }

  /** Cell (`j`, `q`) of `ob` is kept apart from every earlier frame's cell it
      may collide with. */
  ghost predicate CellKeptApart(n: Network, b: int, fb: Frame, ob: Offset, j: int, q: int, selection: bool, env: Env)
    requires b <= |n.frames|
  {
    forall a, i, r :: 0 <= a < b && EarlierClash(fb, j, n.frames[a], ob.link, i, r) ==>
      PairAvoided(b, ob, j, q, a, OffsetOn(n.frames[a], ob.link).value, i, r, selection, env)
  }

  lemma {:induction false} CellContentionMeaning(n: Network, b: int, fb: Frame, ob: Offset, j: int, q: int, selection: bool, env: Env)
    requires b <= |n.frames|
    ensures HoldsAll(Flatten(CellContentionBlocks(n, b, fb, ob, j, q, selection)), env) <==>
      CellKeptApart(n, b, fb, ob, j, q, selection, env)
  {
    var cells := CellContentionBlocks(n, b, fb, ob, j, q, selection);
    HoldsAllFlatten(cells, env);
    forall a | 0 <= a < |cells|
      ensures HoldsAll(cells[a], env) <==>
        forall i, r :: EarlierClash(fb, j, n.frames[a], ob.link, i, r) ==>
          PairAvoided(b, ob, j, q, a, OffsetOn(n.frames[a], ob.link).value, i, r, selection, env)
    {
      EarlierFrameMeaning(b, fb, ob, j, q, a, n.frames[a], selection, env);
    }
    if HoldsAll(Flatten(cells), env) {
      forall a, i, r | 0 <= a < b && EarlierClash(fb, j, n.frames[a], ob.link, i, r)
        ensures PairAvoided(b, ob, j, q, a, OffsetOn(n.frames[a], ob.link).value, i, r, selection, env)
      {
        assert HoldsAll(cells[a], env);
      }
    }
  }

  lemma {:induction false} OffsetContentionMeaning(n: Network, b: int, fb: Frame, ob: Offset, selection: bool, env: Env)
    requires b <= |n.frames|
    ensures HoldsAll(Flatten(OffsetContentionBlocks(n, b, fb, ob, selection)), env) <==>
      forall j, q :: 0 <= j < ob.numInstances && 0 <= q < ob.numReplicas ==> CellKeptApart(n, b, fb, ob, j, q, selection, env)
  {
    var blocks := OffsetContentionBlocks(n, b, fb, ob, selection);
    HoldsAllFlatten(blocks, env);
    forall j | 0 <= j < |blocks|
      ensures HoldsAll(blocks[j], env) <==>
        forall q :: 0 <= q < ob.numReplicas ==> CellKeptApart(n, b, fb, ob, j, q, selection, env)
    {
      var rows := InstanceContentionBlocks(n, b, fb, ob, j, selection);
      HoldsAllFlatten(rows, env);
      forall q | 0 <= q < |rows|
        ensures HoldsAll(rows[q], env) <==> CellKeptApart(n, b, fb, ob, j, q, selection, env)
      {
        CellContentionMeaning(n, b, fb, ob, j, q, selection, env);
      }
      if HoldsAll(blocks[j], env) {
        forall q | 0 <= q < ob.numReplicas
          ensures CellKeptApart(n, b, fb, ob, j, q, selection, env)
        {
          assert HoldsAll(rows[q], env);
        }
      }
    }
    if HoldsAll(Flatten(blocks), env) {
      forall j, q | 0 <= j < ob.numInstances && 0 <= q < ob.numReplicas
        ensures CellKeptApart(n, b, fb, ob, j, q, selection, env)
      {
        assert HoldsAll(blocks[j], env);
      }
    }
  }

  lemma {:induction false} NetworkContentionMeaning(n: Network, selection: bool, env: Env)
    ensures HoldsAll(Flatten(NetworkContentionBlocks(n, selection)), env) <==>
      forall b, k, j, q, a, i, r :: Clash(n, b, k, j, q, a, i, r) ==> ClashAvoided(n, b, k, j, q, a, i, r, selection, env)
  {
    var blocks := NetworkContentionBlocks(n, selection);
    HoldsAllFlatten(blocks, env);
    forall b | 0 <= b < |blocks|
      ensures HoldsAll(blocks[b], env) <==>
        forall k, j, q ::
          (0 <= k < Nodes(n.frames[b]) && 0 <= j < n.frames[b].offsets[k].numInstances &&
           0 <= q < n.frames[b].offsets[k].numReplicas) ==>
          CellKeptApart(n, b, n.frames[b], n.frames[b].offsets[k], j, q, selection, env)
    {
      var fb := n.frames[b];
      var nodes := FrameContentionBlocks(n, b, selection);
      HoldsAllFlatten(nodes, env);
      forall k | 0 <= k < |nodes|
        ensures HoldsAll(nodes[k], env) <==>
          forall j, q :: 0 <= j < fb.offsets[k].numInstances && 0 <= q < fb.offsets[k].numReplicas ==>
            CellKeptApart(n, b, fb, fb.offsets[k], j, q, selection, env)
      {
        OffsetContentionMeaning(n, b, fb, fb.offsets[k], selection, env);
      }
      if HoldsAll(blocks[b], env) {
        forall k, j, q | 0 <= k < Nodes(fb) && 0 <= j < fb.offsets[k].numInstances && 0 <= q < fb.offsets[k].numReplicas
          ensures CellKeptApart(n, b, fb, fb.offsets[k], j, q, selection, env)
        {
          assert HoldsAll(nodes[k], env);
        }
      }
    }
    if HoldsAll(Flatten(blocks), env) {
      forall b, k, j, q, a, i, r | Clash(n, b, k, j, q, a, i, r)
        ensures ClashAvoided(n, b, k, j, q, a, i, r, selection, env)
      {
        assert HoldsAll(blocks[b], env);
        assert CellKeptApart(n, b, n.frames[b], n.frames[b].offsets[k], j, q, selection, env);
      }
    }
    if forall b, k, j, q, a, i, r :: Clash(n, b, k, j, q, a, i, r) ==> ClashAvoided(n, b, k, j, q, a, i, r, selection, env) {
      forall b | 0 <= b < |blocks|
        ensures HoldsAll(blocks[b], env)
      {
        var fb := n.frames[b];
        forall k, j, q | 0 <= k < Nodes(fb) && 0 <= j < fb.offsets[k].numInstances && 0 <= q < fb.offsets[k].numReplicas
          ensures CellKeptApart(n, b, fb, fb.offsets[k], j, q, selection, env)
        {
          forall a, i, r | 0 <= a < b && EarlierClash(fb, j, n.frames[a], fb.offsets[k].link, i, r)
            ensures PairAvoided(b, fb.offsets[k], j, q, a, OffsetOn(n.frames[a], fb.offsets[k].link).value, i, r, selection, env)
          {
            assert Clash(n, b, k, j, q, a, i, r);
          }
        }
      }
    }
  }

  /** Two frames never transmit on the same link at the same time. Take frame
      `b`'s cell (`j`, `q`) on link `l` and an earlier frame `a`'s cell (`i`,
      `r`) on the same link. Under the offset-variable and contention-free
      constraints one of the two transmissions ends before the other starts.
      With path selection this holds for cells in use (non-zero). */
  lemma {:induction false} NoOverlap(n: Network, selection: bool, env: Env, b: int, k: int, j: int, q: int, a: int, i: int, r: int)
    requires HoldsAll(CreateOffsetVariables(n, selection), env)
    requires HoldsAll(ContentionFree(n, selection), env)
    requires 0 <= a < b < |n.frames| && HashSound(n.frames[a])
    requires 0 <= k < Nodes(n.frames[b])
    requires 0 <= j < n.frames[b].offsets[k].numInstances && 0 <= q < n.frames[b].offsets[k].numReplicas
    requires OffsetOn(n.frames[a], n.frames[b].offsets[k].link).Some?
    requires 0 <= i < OffsetOn(n.frames[a], n.frames[b].offsets[k].link).value.numInstances
    requires 0 <= r < OffsetOn(n.frames[a], n.frames[b].offsets[k].link).value.numReplicas
    requires selection ==> env(Cell(b, n.frames[b].offsets[k].link, j, q)) != 0
    requires selection ==> env(Cell(a, n.frames[b].offsets[k].link, i, r)) != 0
    ensures
      var l := n.frames[b].offsets[k].link;
      var x := env(Cell(b, l, j, q));
      var y := env(Cell(a, l, i, r));
      x + n.frames[b].offsets[k].timeslots <= y || y + OffsetOn(n.frames[a], l).value.timeslots <= x
  {
    var fb := n.frames[b];
    var fa := n.frames[a];
    var ob := fb.offsets[k];
    var l := ob.link;
    var oa := OffsetOn(fa, l).value;
    assert oa.link == l;
    if OffsetsShareInterval(fb, j, fa, i) {
      assert Clash(n, b, k, j, q, a, i, r);
      assert ClashAvoided(n, b, k, j, q, a, i, r, selection, env);
    } else {
      var ka: nat := fa.hash[l].value;
      assert fa.offsets[ka] == oa;
      assert IsCell(n, a, ka, i, r);
      assert IsCell(n, b, k, j, q);
      assert CellPlaced(a, fa, oa, i, r, selection, env);
      assert CellPlaced(b, fb, ob, j, q, selection, env);
      DisjointWindowsSeparate(fb, ob, j, env(Cell(b, l, j, q)), fa, oa, i, env(Cell(a, l, i, r)));
    }
  }
}
