/**
 * The passes that depend on the paths of the catalog: the path selectors, the
 * link each selected path claims, the order of the hops along a path and the
 * end-to-end delay.
 *
 * The candidate paths of receiver `ri` of a frame are the catalog's paths from
 * the frame's sender to that receiver; path `p` of them has selector
 * `Selector(frame, ri, p)`.
 */
module Routing {
  import opened Results
  import opened Seqs
  import opened Frames
  import opened Networks
  import opened Constraints
  import opened Formulas
  import opened Optimizator

  /** What the timeslot getter answers for a missing offset. */
  const NullOffsetPointer: int := -21

  /** The errors the path passes report. */
  datatype PassError =
    | EndToEndDelayFailed
    | PathDependentFailed
  {
    function Code(): (c: int)
      ensures -204 <= c <= -203
      ensures (c == -203) == (this == EndToEndDelayFailed)
    {
      match this
      case EndToEndDelayFailed => -203
      case PathDependentFailed => -204
    }
  }

  /** The timeslot size of the frame's offset on `link`, or the null-pointer
      code when the frame has none there. */
  function TimeslotOn(f: Frame, link: int): (t: int)
    ensures OffsetOn(f, link).Some? ==> t == OffsetOn(f, link).value.timeslots
    ensures OffsetOn(f, link).None? ==> t == NullOffsetPointer
  {
    match OffsetOn(f, link)
    case Some(o) => o.timeslots
    case None => NullOffsetPointer
  }

  /** The candidate paths from the frame's sender to its receiver `ri`. */
  function Candidates(n: Network, f: Frame, ri: int): seq<seq<int>>
    requires 0 <= ri < |f.receivers|
  {
    PathsBetween(n, f.sender, f.receivers[ri])
  }

  predicate IsReceiver(n: Network, fi: int, ri: int)
  {
    0 <= fi < |n.frames| && 0 <= ri < |n.frames[fi].receivers|
  }

  /** Path `p` is a candidate path of receiver `ri` of frame `fi`. */
  predicate IsRoute(n: Network, fi: int, ri: int, p: int)
  {
    IsReceiver(n, fi, ri) && 0 <= p < |Candidates(n, n.frames[fi], ri)|
  }

  function Route(n: Network, fi: int, ri: int, p: int): seq<int>
    requires IsRoute(n, fi, ri, p)
  {
    Candidates(n, n.frames[fi], ri)[p]
  }

  // ---------------------------------------------------------------------------
  // Path selectors
  // ---------------------------------------------------------------------------

  /** The selectors of the first `m` candidate paths of receiver `ri` of frame `fi`. */
  function Selectors(fi: int, ri: int, m: nat): (vs: seq<Var>)
    ensures |vs| == m
    ensures forall p :: 0 <= p < m ==> vs[p] == Selector(fi, ri, p)
  {
    seq(m, p => Selector(fi, ri, p))
  }

  /** A selector is 0 or 1. */
  function SelectorRange(x: Var): seq<Constraint>
  {
    [Ge(V(x), Lit(0)), Le(V(x), Lit(1))]
  }

  /** Each selector of the receiver is 0 or 1, and they add up to 1. */
  function SelectorBounds(fi: int, ri: int, m: nat): seq<Constraint>
  {
    Flatten(seq(m, p => SelectorRange(Selector(fi, ri, p)))) + [Eq(Term(Selectors(fi, ri, m), 0), Lit(1))]
  }

  /** Exactly one of the receiver's `m` selectors is 1 and the others are 0. */
  predicate OneHot(fi: int, ri: int, m: int, env: Env)
  {
    exists p :: 0 <= p < m && env(Selector(fi, ri, p)) == 1 &&
      forall q :: 0 <= q < m && q != p ==> env(Selector(fi, ri, q)) == 0
  }

  /** The selector constraints of one receiver hold exactly when one path is
      selected. */
  lemma {:induction false} SelectorBoundsMeaning(fi: int, ri: int, m: nat, env: Env)
    ensures HoldsAll(SelectorBounds(fi, ri, m), env) <==> OneHot(fi, ri, m, env)
  {
    var ranges := seq(m, p => SelectorRange(Selector(fi, ri, p)));
    var vs := Selectors(fi, ri, m);
    var one := Eq(Term(vs, 0), Lit(1));
    assert SelectorBounds(fi, ri, m) == Flatten(ranges) + [one];
    HoldsAllAppend(Flatten(ranges), [one], env);
    HoldsAllOne(one, env);
    HoldsAllFlatten(ranges, env);
    ValueOf(Selector(fi, ri, 0), 0, 1, env);
    assert Holds(one, env) <==> Sum(vs, env) == 1;
    forall p | 0 <= p < m
      ensures HoldsAll(ranges[p], env) <==> 0 <= env(Selector(fi, ri, p)) <= 1
    {
      var x := Selector(fi, ri, p);
      ValueOf(x, 0, 0, env);
      ValueOf(x, 0, 1, env);
      assert ranges[p] == [Ge(V(x), Lit(0)), Le(V(x), Lit(1))];
      assert HoldsAll(ranges[p], env) <==> Holds(ranges[p][0], env) && Holds(ranges[p][1], env);
    }
    if HoldsAll(SelectorBounds(fi, ri, m), env) {
      forall k | 0 <= k < |vs|
        ensures 0 <= env(vs[k]) <= 1
      {
        assert HoldsAll(ranges[k], env);
      }
      SumOneHot(vs, env);
      var p :| 0 <= p < |vs| && env(vs[p]) == 1 && forall j :: 0 <= j < |vs| && j != p ==> env(vs[j]) == 0;
      assert env(Selector(fi, ri, p)) == 1;
      forall q | 0 <= q < m && q != p
        ensures env(Selector(fi, ri, q)) == 0
      {
        assert env(vs[q]) == 0;
      }
    }
    if OneHot(fi, ri, m, env) {
      var p :| 0 <= p < m && env(Selector(fi, ri, p)) == 1 &&
        forall q :: 0 <= q < m && q != p ==> env(Selector(fi, ri, q)) == 0;
      forall k | 0 <= k < |vs|
        ensures 0 <= env(vs[k]) <= 1
      {
        if k != p {
          assert env(Selector(fi, ri, k)) == 0;
        }
      }
      forall k | 0 <= k < m
        ensures HoldsAll(ranges[k], env)
      {
        assert vs[k] == Selector(fi, ri, k);
      }
      SumOneHot(vs, env);
      assert env(vs[p]) == 1;
      forall j | 0 <= j < |vs| && j != p
        ensures env(vs[j]) == 0
      {
        assert vs[j] == Selector(fi, ri, j);
      }
    }
  }

  function FrameSelectorBlocks(n: Network, f: Frame, fi: int): seq<seq<Constraint>>
  {
    seq(|f.receivers|, ri requires 0 <= ri < |f.receivers| => SelectorBounds(fi, ri, |Candidates(n, f, ri)|))
  }

  function NetworkSelectorBlocks(n: Network): seq<seq<Constraint>>
  {
    seq(|n.frames|, fi requires 0 <= fi < |n.frames| => Flatten(FrameSelectorBlocks(n, n.frames[fi], fi)))
  }

  /** The selector constraints of every receiver of every frame. They hold
      exactly when every receiver of every frame has exactly one of its
      candidate paths selected. */
  function InitPathSelector(n: Network): (cs: seq<Constraint>)
    ensures forall env :: HoldsAll(cs, env) <==>
      forall fi, ri :: IsReceiver(n, fi, ri) ==> OneHot(fi, ri, |Candidates(n, n.frames[fi], ri)|, env)
  {
    forall env
      ensures HoldsAll(Flatten(NetworkSelectorBlocks(n)), env) <==>
        forall fi, ri :: IsReceiver(n, fi, ri) ==> OneHot(fi, ri, |Candidates(n, n.frames[fi], ri)|, env)
    {
      NetworkSelectorsMeaning(n, env);
    }
    Flatten(NetworkSelectorBlocks(n))
  }

  lemma {:induction false} NetworkSelectorsMeaning(n: Network, env: Env)
    ensures HoldsAll(Flatten(NetworkSelectorBlocks(n)), env) <==>
      forall fi, ri :: IsReceiver(n, fi, ri) ==> OneHot(fi, ri, |Candidates(n, n.frames[fi], ri)|, env)
  {
    var blocks := NetworkSelectorBlocks(n);
    HoldsAllFlatten(blocks, env);
    forall fi | 0 <= fi < |blocks|
      ensures HoldsAll(blocks[fi], env) <==>
        forall ri :: 0 <= ri < |n.frames[fi].receivers| ==> OneHot(fi, ri, |Candidates(n, n.frames[fi], ri)|, env)
    {
      var rows := FrameSelectorBlocks(n, n.frames[fi], fi);
      HoldsAllFlatten(rows, env);
      forall ri | 0 <= ri < |rows|
        ensures HoldsAll(rows[ri], env) <==> OneHot(fi, ri, |Candidates(n, n.frames[fi], ri)|, env)
      {
        SelectorBoundsMeaning(fi, ri, |Candidates(n, n.frames[fi], ri)|, env);
      }
    }
    if HoldsAll(Flatten(blocks), env) {
      forall fi, ri | IsReceiver(n, fi, ri)
        ensures OneHot(fi, ri, |Candidates(n, n.frames[fi], ri)|, env)
      {
        assert HoldsAll(blocks[fi], env);
      }
    }
  }

  /** A receiver without any candidate path makes the problem unsatisfiable. */
  lemma NoPathNoSchedule(n: Network, env: Env, fi: int, ri: int)
    requires IsReceiver(n, fi, ri) && |Candidates(n, n.frames[fi], ri)| == 0
    ensures !HoldsAll(InitPathSelector(n), env)
  {
    assert !OneHot(fi, ri, 0, env);
  }

  /** Under the selector constraints every candidate path's selector is 0 or 1. */
  lemma SelectorsAreBits(n: Network, env: Env, fi: int, ri: int, p: int)
    requires HoldsAll(InitPathSelector(n), env)
    requires IsRoute(n, fi, ri, p)
    ensures env(Selector(fi, ri, p)) == 0 || env(Selector(fi, ri, p)) == 1
  {
    assert OneHot(fi, ri, |Candidates(n, n.frames[fi], ri)|, env);
  }

  // ---------------------------------------------------------------------------
  // Choosing the path: which links a frame uses
  // ---------------------------------------------------------------------------

  /** `x` once for each appearance of `link` in `path`. */
  function Appearances(x: Var, path: seq<int>, link: int): seq<Var>
  {
    Flatten(seq(|path|, h requires 0 <= h < |path| => if path[h] == link then [x] else []))
  }

  /** The selectors of the receiver's candidate paths that cross `link`, one
      per crossing. */
  function PathUsers(fi: int, ri: int, paths: seq<seq<int>>, link: int): seq<Var>
  {
    Flatten(seq(|paths|, p requires 0 <= p < |paths| => Appearances(Selector(fi, ri, p), paths[p], link)))
  }

  lemma {:induction false} AppearancesMembers(x: Var, path: seq<int>, link: int, y: Var)
    ensures y in Appearances(x, path, link) <==> y == x && link in path
  {
    var parts := seq(|path|, h requires 0 <= h < |path| => if path[h] == link then [x] else []);
    assert Appearances(x, path, link) == Flatten(parts);
    if y in Flatten(parts) {
      FlattenMember(parts, y);
    }
    if y == x && link in path {
      var h :| 0 <= h < |path| && path[h] == link;
      assert parts[h] == [x];
      FlattenContains(parts, h, y);
    }
  }

  lemma {:induction false} PathUsersMembers(fi: int, ri: int, paths: seq<seq<int>>, link: int, y: Var)
    ensures y in PathUsers(fi, ri, paths, link) <==>
      exists p :: 0 <= p < |paths| && link in paths[p] && y == Selector(fi, ri, p)
  {
    var parts := seq(|paths|, p requires 0 <= p < |paths| => Appearances(Selector(fi, ri, p), paths[p], link));
    assert PathUsers(fi, ri, paths, link) == Flatten(parts);
    if y in Flatten(parts) {
      FlattenMember(parts, y);
      var p :| 0 <= p < |parts| && y in parts[p];
      AppearancesMembers(Selector(fi, ri, p), paths[p], link, y);
    }
    if exists p :: 0 <= p < |paths| && link in paths[p] && y == Selector(fi, ri, p) {
      var p :| 0 <= p < |paths| && link in paths[p] && y == Selector(fi, ri, p);
      AppearancesMembers(Selector(fi, ri, p), paths[p], link, y);
      assert parts[p] == Appearances(Selector(fi, ri, p), paths[p], link);
      FlattenContains(parts, p, y);
    }
  }

  /** If the selectors in `users` add up to at least 1, `o` is used (at least
      1), otherwise it is unused (0). */
  function Choice(o: Var, users: seq<Var>): (c: Constraint)
    ensures forall env :: Holds(c, env) <==> if Sum(users, env) >= 1 then env(o) >= 1 else env(o) == 0
  {
    TermValues();
    Ite(Ge(Term(users, 0), Lit(1)), Ge(V(o), Lit(1)), IsZero(o))
  }

  /** The selectors crossing `link`, one list per receiver of the frame. */
  function NodeUsers(n: Network, fi: int, f: Frame, link: int): seq<seq<Var>>
  {
    seq(|f.receivers|, ri requires 0 <= ri < |f.receivers| => PathUsers(fi, ri, Candidates(n, f, ri), link))
  }

  /** One choice over the selectors of all receivers, when some path crosses the link. */
  function NodeChoice(o: Var, users: seq<seq<Var>>): (cs: seq<Constraint>)
    ensures forall env :: HoldsAll(cs, env) <==>
      (|Flatten(users)| == 0 || if Sum(Flatten(users), env) >= 1 then env(o) >= 1 else env(o) == 0)
  {
    var all := Flatten(users);
    if |all| == 0 then []
    else
      var c := Choice(o, all);
      forall env
        ensures HoldsAll([c], env) <==> Holds(c, env)
      {
        HoldsAllOne(c, env);
      }
      [c]
  }

  function FrameChoiceBlocks(n: Network, fi: int, f: Frame): seq<seq<Constraint>>
  {
    seq(Nodes(f), k requires 0 <= k < Nodes(f) =>
      NodeChoice(Cell(fi, f.offsets[k].link, 0, 0), NodeUsers(n, fi, f, f.offsets[k].link)))
  }

  function NetworkChoiceBlocks(n: Network): seq<seq<Constraint>>
  {
    seq(|n.frames|, fi requires 0 <= fi < |n.frames| => Flatten(FrameChoiceBlocks(n, fi, n.frames[fi])))
  }

  /** One choice for every node of every frame. With non-negative selectors the
      constraints hold exactly when, for every node of every frame, the offset
      on its link is used exactly when a selected path crosses that link. */
  function ChoosePath(n: Network): (cs: seq<Constraint>)
    ensures forall env :: SelectorsNonNegative(n, env) ==> (HoldsAll(cs, env) <==>
      forall fi, k :: 0 <= fi < |n.frames| && 0 <= k < Nodes(n.frames[fi]) ==>
        LinkUsage(n, fi, n.frames[fi].offsets[k].link, env))
  {
    forall env | SelectorsNonNegative(n, env)
      ensures HoldsAll(Flatten(NetworkChoiceBlocks(n)), env) <==>
        forall fi, k :: 0 <= fi < |n.frames| && 0 <= k < Nodes(n.frames[fi]) ==>
          LinkUsage(n, fi, n.frames[fi].offsets[k].link, env)
    {
      NetworkChoiceMeaning(n, env);
    }
    Flatten(NetworkChoiceBlocks(n))
  }

  /** Some candidate path of the frame, to any receiver, crosses `link`. */
  ghost predicate Carried(n: Network, fi: int, link: int)
  {
    exists ri, p :: IsRoute(n, fi, ri, p) && link in Route(n, fi, ri, p)
  }

  /** Some selected candidate path of the frame crosses `link`. */
  ghost predicate CarriedBySelected(n: Network, fi: int, link: int, env: Env)
  {
    exists ri, p :: IsRoute(n, fi, ri, p) && link in Route(n, fi, ri, p) && env(Selector(fi, ri, p)) >= 1
  }

  /** The frame's offset on `link` is used exactly when a selected path crosses
      the link; nothing is said about a link no candidate path crosses. */
  ghost predicate LinkUsage(n: Network, fi: int, link: int, env: Env)
  {
    Carried(n, fi, link) ==>
      if CarriedBySelected(n, fi, link, env) then env(Cell(fi, link, 0, 0)) >= 1 else env(Cell(fi, link, 0, 0)) == 0
  }

  ghost predicate SelectorsNonNegative(n: Network, env: Env)
  {
    forall fi, ri, p :: IsRoute(n, fi, ri, p) ==> env(Selector(fi, ri, p)) >= 0
  }

  /** The selectors of all receivers crossing `link` are exactly the selectors
      of the frame's candidate paths that cross it. */
  lemma {:induction false} NodeUsersMembers(n: Network, fi: int, link: int, y: Var)
    requires 0 <= fi < |n.frames|
    ensures y in Flatten(NodeUsers(n, fi, n.frames[fi], link)) <==>
      exists ri, p :: IsRoute(n, fi, ri, p) && link in Route(n, fi, ri, p) && y == Selector(fi, ri, p)
  {
    var f := n.frames[fi];
    var users := NodeUsers(n, fi, f, link);
    if y in Flatten(users) {
      FlattenMember(users, y);
      var ri :| 0 <= ri < |users| && y in users[ri];
      PathUsersMembers(fi, ri, Candidates(n, f, ri), link, y);
      var p :| 0 <= p < |Candidates(n, f, ri)| && link in Candidates(n, f, ri)[p] && y == Selector(fi, ri, p);
      assert IsRoute(n, fi, ri, p);
    }
    if exists ri, p :: IsRoute(n, fi, ri, p) && link in Route(n, fi, ri, p) && y == Selector(fi, ri, p) {
      var ri, p :| IsRoute(n, fi, ri, p) && link in Route(n, fi, ri, p) && y == Selector(fi, ri, p);
      PathUsersMembers(fi, ri, Candidates(n, f, ri), link, y);
      assert Route(n, fi, ri, p) == Candidates(n, f, ri)[p];
      assert users[ri] == PathUsers(fi, ri, Candidates(n, f, ri), link);
      FlattenContains(users, ri, y);
    }
  }

  /** The choice for one node states the link usage of the frame. */
  lemma {:induction false} NodeChoiceMeaning(n: Network, fi: int, link: int, env: Env)
    requires 0 <= fi < |n.frames| && SelectorsNonNegative(n, env)
    ensures HoldsAll(NodeChoice(Cell(fi, link, 0, 0), NodeUsers(n, fi, n.frames[fi], link)), env) <==>
      LinkUsage(n, fi, link, env)
  {
    var all := Flatten(NodeUsers(n, fi, n.frames[fi], link));
    forall k | 0 <= k < |all|
      ensures env(all[k]) >= 0
      ensures exists ri, p :: IsRoute(n, fi, ri, p) && link in Route(n, fi, ri, p) && all[k] == Selector(fi, ri, p)
    {
      NodeUsersMembers(n, fi, link, all[k]);
    }
    SumPositive(all, env);
    if Carried(n, fi, link) {
      var ri, p :| IsRoute(n, fi, ri, p) && link in Route(n, fi, ri, p);
      NodeUsersMembers(n, fi, link, Selector(fi, ri, p));
    }
    if |all| > 0 {
      assert all[0] in all;
    }
    if CarriedBySelected(n, fi, link, env) {
      var ri, p :| IsRoute(n, fi, ri, p) && link in Route(n, fi, ri, p) && env(Selector(fi, ri, p)) >= 1;
      NodeUsersMembers(n, fi, link, Selector(fi, ri, p));
      var k :| 0 <= k < |all| && all[k] == Selector(fi, ri, p);
    }
    if Sum(all, env) >= 1 {
      var k :| 0 <= k < |all| && env(all[k]) >= 1;
      var ri, p :| IsRoute(n, fi, ri, p) && link in Route(n, fi, ri, p) && all[k] == Selector(fi, ri, p);
      assert CarriedBySelected(n, fi, link, env);
    }
  }

  lemma {:induction false} NetworkChoiceMeaning(n: Network, env: Env)
    requires SelectorsNonNegative(n, env)
    ensures HoldsAll(Flatten(NetworkChoiceBlocks(n)), env) <==>
      forall fi, k :: 0 <= fi < |n.frames| && 0 <= k < Nodes(n.frames[fi]) ==>
        LinkUsage(n, fi, n.frames[fi].offsets[k].link, env)
  {
    var blocks := NetworkChoiceBlocks(n);
    HoldsAllFlatten(blocks, env);
    forall fi | 0 <= fi < |blocks|
      ensures HoldsAll(blocks[fi], env) <==>
        forall k :: 0 <= k < Nodes(n.frames[fi]) ==> LinkUsage(n, fi, n.frames[fi].offsets[k].link, env)
    {
      var f := n.frames[fi];
      var rows := FrameChoiceBlocks(n, fi, f);
      HoldsAllFlatten(rows, env);
      forall k | 0 <= k < |rows|
        ensures HoldsAll(rows[k], env) <==> LinkUsage(n, fi, f.offsets[k].link, env)
      {
        NodeChoiceMeaning(n, fi, f.offsets[k].link, env);
      }
    }
    if HoldsAll(Flatten(blocks), env) {
      forall fi, k | 0 <= fi < |n.frames| && 0 <= k < Nodes(n.frames[fi])
        ensures LinkUsage(n, fi, n.frames[fi].offsets[k].link, env)
      {
        assert HoldsAll(blocks[fi], env);
      }
    }
  }

  /** Once every receiver has one selected path, a frame's offset on a link
      some candidate path crosses is in use exactly when a selected path
      crosses it. */
  lemma SelectedPathsClaimTheirLinks(n: Network, env: Env, fi: int, k: int)
    requires HoldsAll(InitPathSelector(n), env) && HoldsAll(ChoosePath(n), env)
    requires 0 <= fi < |n.frames| && 0 <= k < Nodes(n.frames[fi])
    requires Carried(n, fi, n.frames[fi].offsets[k].link)
    ensures var l := n.frames[fi].offsets[k].link;
      env(Cell(fi, l, 0, 0)) != 0 <==> CarriedBySelected(n, fi, l, env)
  {
    forall fi', ri, p | IsRoute(n, fi', ri, p)
      ensures env(Selector(fi', ri, p)) >= 0
    {
      SelectorsAreBits(n, env, fi', ri, p);
    }
  }

  // As the C code builds it: one choice per receiver whose paths cross the
  // link, and only one of them needs to hold.

  function ReceiverChoices(o: Var, users: seq<seq<Var>>): seq<Constraint>
  {
    Flatten(seq(|users|, ri requires 0 <= ri < |users| => if |users[ri]| > 0 then [Choice(o, users[ri])] else []))
  }

  /** Nothing for no formula, the formula alone for one, their disjunction otherwise. */
  function AnyOf(cs: seq<Constraint>): (r: seq<Constraint>)
    ensures forall env :: HoldsAll(r, env) <==> |cs| == 0 || exists k :: 0 <= k < |cs| && Holds(cs[k], env)
  {
    if |cs| == 0 then []
    else if |cs| == 1 then
      forall env
        ensures HoldsAll([cs[0]], env) <==> Holds(cs[0], env)
      {
        HoldsAllOne(cs[0], env);
      }
      [cs[0]]
    else
      forall env
        ensures HoldsAll([Or(cs)], env) <==> Holds(Or(cs), env)
      {
        HoldsAllOne(Or(cs), env);
      }
      [Or(cs)]
  }

  function NodeChoiceAsWritten(o: Var, users: seq<seq<Var>>): seq<Constraint>
  {
    AnyOf(ReceiverChoices(o, users))
  }

  function FrameChoiceBlocksAsWritten(n: Network, fi: int, f: Frame): seq<seq<Constraint>>
  {
    seq(Nodes(f), k requires 0 <= k < Nodes(f) =>
      NodeChoiceAsWritten(Cell(fi, f.offsets[k].link, 0, 0), NodeUsers(n, fi, f, f.offsets[k].link)))
  }

  function NetworkChoiceBlocksAsWritten(n: Network): seq<seq<Constraint>>
  {
    seq(|n.frames|, fi requires 0 <= fi < |n.frames| => Flatten(FrameChoiceBlocksAsWritten(n, fi, n.frames[fi])))
  }

  /** The choice as the C code builds it. With non-negative selectors the
      constraints hold exactly when, for every node of every frame, some
      receiver with a candidate path over the node's link passes its own test:
      the offset is used if one of that receiver's paths over the link is
      selected, and unused otherwise. */
  function ChoosePathAsWritten(n: Network): (cs: seq<Constraint>)
    ensures forall env :: SelectorsNonNegative(n, env) ==> (HoldsAll(cs, env) <==>
      forall fi, k :: 0 <= fi < |n.frames| && 0 <= k < Nodes(n.frames[fi]) ==>
        LinkUsageAsWritten(n, fi, n.frames[fi].offsets[k].link, env))
  {
    forall env | SelectorsNonNegative(n, env)
      ensures HoldsAll(Flatten(NetworkChoiceBlocksAsWritten(n)), env) <==>
        forall fi, k :: 0 <= fi < |n.frames| && 0 <= k < Nodes(n.frames[fi]) ==>
          LinkUsageAsWritten(n, fi, n.frames[fi].offsets[k].link, env)
    {
      NetworkChoiceAsWrittenMeaning(n, env);
    }
    Flatten(NetworkChoiceBlocksAsWritten(n))
  }

  /** Some candidate path of receiver `ri` crosses `link`. */
  ghost predicate ReceiverCarries(n: Network, fi: int, ri: int, link: int)
  {
    exists p :: IsRoute(n, fi, ri, p) && link in Route(n, fi, ri, p)
  }

  /** Some selected candidate path of receiver `ri` crosses `link`. */
  ghost predicate ReceiverSelects(n: Network, fi: int, ri: int, link: int, env: Env)
  {
    exists p :: IsRoute(n, fi, ri, p) && link in Route(n, fi, ri, p) && env(Selector(fi, ri, p)) >= 1
  }

  /** For a link some candidate path crosses, one receiver whose paths cross it
      agrees with the offset's use; the other receivers are not consulted. */
  ghost predicate LinkUsageAsWritten(n: Network, fi: int, link: int, env: Env)
  {
    Carried(n, fi, link) ==>
      exists ri :: IsReceiver(n, fi, ri) && ReceiverCarries(n, fi, ri, link) &&
        if ReceiverSelects(n, fi, ri, link, env) then env(Cell(fi, link, 0, 0)) >= 1 else env(Cell(fi, link, 0, 0)) == 0
  }

  /** The selectors of one receiver crossing `link` exist exactly when one of
      its candidate paths crosses the link, and add up to at least 1 exactly
      when one of those paths is selected. */
  lemma {:induction false} ReceiverUsersMeaning(n: Network, fi: int, ri: int, link: int, env: Env)
    requires IsReceiver(n, fi, ri) && SelectorsNonNegative(n, env)
    ensures var users := PathUsers(fi, ri, Candidates(n, n.frames[fi], ri), link);
      (|users| > 0 <==> ReceiverCarries(n, fi, ri, link)) &&
      (Sum(users, env) >= 1 <==> ReceiverSelects(n, fi, ri, link, env))
  {
    var ps := Candidates(n, n.frames[fi], ri);
    var users := PathUsers(fi, ri, ps, link);
    forall k | 0 <= k < |users|
      ensures env(users[k]) >= 0
    {
      PathUsersMembers(fi, ri, ps, link, users[k]);
      var p :| 0 <= p < |ps| && link in ps[p] && users[k] == Selector(fi, ri, p);
      assert IsRoute(n, fi, ri, p);
    }
    SumPositive(users, env);
    if |users| > 0 {
      assert users[0] in users;
      PathUsersMembers(fi, ri, ps, link, users[0]);
      var p :| 0 <= p < |ps| && link in ps[p] && users[0] == Selector(fi, ri, p);
      assert IsRoute(n, fi, ri, p) && Route(n, fi, ri, p) == ps[p];
    }
    if ReceiverCarries(n, fi, ri, link) {
      var p :| IsRoute(n, fi, ri, p) && link in Route(n, fi, ri, p);
      PathUsersMembers(fi, ri, ps, link, Selector(fi, ri, p));
    }
    if ReceiverSelects(n, fi, ri, link, env) {
      var p :| IsRoute(n, fi, ri, p) && link in Route(n, fi, ri, p) && env(Selector(fi, ri, p)) >= 1;
      PathUsersMembers(fi, ri, ps, link, Selector(fi, ri, p));
      var k :| 0 <= k < |users| && users[k] == Selector(fi, ri, p);
    }
    if Sum(users, env) >= 1 {
      var k :| 0 <= k < |users| && env(users[k]) >= 1;
      PathUsersMembers(fi, ri, ps, link, users[k]);
      var p :| 0 <= p < |ps| && link in ps[p] && users[k] == Selector(fi, ri, p);
      assert IsRoute(n, fi, ri, p) && Route(n, fi, ri, p) == ps[p];
    }
  }

  /** There is a choice for each receiver with selectors over the link, and only for those. */
  lemma {:induction false} ReceiverChoicesPresent(o: Var, users: seq<seq<Var>>)
    ensures |ReceiverChoices(o, users)| > 0 <==> exists ri :: 0 <= ri < |users| && |users[ri]| > 0
  {
    var parts := seq(|users|, ri requires 0 <= ri < |users| => if |users[ri]| > 0 then [Choice(o, users[ri])] else []);
    var cs := ReceiverChoices(o, users);
    assert cs == Flatten(parts);
    if |cs| > 0 {
      assert cs[0] in Flatten(parts);
      FlattenMember(parts, cs[0]);
      var ri :| 0 <= ri < |parts| && cs[0] in parts[ri];
      assert |users[ri]| > 0;
    }
    if exists ri :: 0 <= ri < |users| && |users[ri]| > 0 {
      var ri :| 0 <= ri < |users| && |users[ri]| > 0;
      assert Choice(o, users[ri]) in parts[ri];
      FlattenContains(parts, ri, Choice(o, users[ri]));
    }
  }

  /** Some receiver's choice holds exactly when the choice of a receiver with
      selectors over the link holds. */
  lemma {:induction false} ReceiverChoicesHold(o: Var, users: seq<seq<Var>>, env: Env)
    ensures var cs := ReceiverChoices(o, users);
      (exists k :: 0 <= k < |cs| && Holds(cs[k], env)) <==>
        exists ri :: 0 <= ri < |users| && |users[ri]| > 0 && Holds(Choice(o, users[ri]), env)
  {
    var parts := seq(|users|, ri requires 0 <= ri < |users| => if |users[ri]| > 0 then [Choice(o, users[ri])] else []);
    var cs := ReceiverChoices(o, users);
    assert cs == Flatten(parts);
    if exists k :: 0 <= k < |cs| && Holds(cs[k], env) {
      var k :| 0 <= k < |cs| && Holds(cs[k], env);
      assert cs[k] in Flatten(parts);
      FlattenMember(parts, cs[k]);
      var ri :| 0 <= ri < |parts| && cs[k] in parts[ri];
      assert |users[ri]| > 0 && cs[k] == Choice(o, users[ri]);
    }
    if exists ri :: 0 <= ri < |users| && |users[ri]| > 0 && Holds(Choice(o, users[ri]), env) {
      var ri :| 0 <= ri < |users| && |users[ri]| > 0 && Holds(Choice(o, users[ri]), env);
      assert Choice(o, users[ri]) in parts[ri];
      FlattenContains(parts, ri, Choice(o, users[ri]));
      var k :| 0 <= k < |cs| && cs[k] == Choice(o, users[ri]);
      assert Holds(cs[k], env);
    }
  }

  /** The choice as written for one node states the as-written link usage. */
  lemma {:induction false} NodeChoiceAsWrittenMeaning(n: Network, fi: int, link: int, env: Env)
    requires 0 <= fi < |n.frames| && SelectorsNonNegative(n, env)
    ensures HoldsAll(NodeChoiceAsWritten(Cell(fi, link, 0, 0), NodeUsers(n, fi, n.frames[fi], link)), env) <==>
      LinkUsageAsWritten(n, fi, link, env)
  {
    var f := n.frames[fi];
    var o := Cell(fi, link, 0, 0);
    var users := NodeUsers(n, fi, f, link);
    var cs := ReceiverChoices(o, users);
    ReceiverChoicesPresent(o, users);
    ReceiverChoicesHold(o, users, env);
    forall ri | 0 <= ri < |users|
      ensures IsReceiver(n, fi, ri)
      ensures |users[ri]| > 0 <==> ReceiverCarries(n, fi, ri, link)
      ensures Sum(users[ri], env) >= 1 <==> ReceiverSelects(n, fi, ri, link, env)
    {
      ReceiverUsersMeaning(n, fi, ri, link, env);
    }
    if Carried(n, fi, link) {
      var ri, p :| IsRoute(n, fi, ri, p) && link in Route(n, fi, ri, p);
      assert ReceiverCarries(n, fi, ri, link);
      assert |users[ri]| > 0;
    }
    if exists ri :: 0 <= ri < |users| && |users[ri]| > 0 {
      var ri :| 0 <= ri < |users| && |users[ri]| > 0;
      var p :| IsRoute(n, fi, ri, p) && link in Route(n, fi, ri, p);
      assert Carried(n, fi, link);
    }
    if HoldsAll(NodeChoiceAsWritten(o, users), env) && Carried(n, fi, link) {
      var ri :| 0 <= ri < |users| && |users[ri]| > 0 && Holds(Choice(o, users[ri]), env);
      assert IsReceiver(n, fi, ri) && ReceiverCarries(n, fi, ri, link);
    }
    if LinkUsageAsWritten(n, fi, link, env) && Carried(n, fi, link) {
      var ri :| IsReceiver(n, fi, ri) && ReceiverCarries(n, fi, ri, link) &&
        if ReceiverSelects(n, fi, ri, link, env) then env(o) >= 1 else env(o) == 0;
      assert |users[ri]| > 0 && Holds(Choice(o, users[ri]), env);
    }
  }

  lemma {:induction false} NetworkChoiceAsWrittenMeaning(n: Network, env: Env)
    requires SelectorsNonNegative(n, env)
    ensures HoldsAll(Flatten(NetworkChoiceBlocksAsWritten(n)), env) <==>
      forall fi, k :: 0 <= fi < |n.frames| && 0 <= k < Nodes(n.frames[fi]) ==>
        LinkUsageAsWritten(n, fi, n.frames[fi].offsets[k].link, env)
  {
    var blocks := NetworkChoiceBlocksAsWritten(n);
    HoldsAllFlatten(blocks, env);
    forall fi | 0 <= fi < |blocks|
      ensures HoldsAll(blocks[fi], env) <==>
        forall k :: 0 <= k < Nodes(n.frames[fi]) ==> LinkUsageAsWritten(n, fi, n.frames[fi].offsets[k].link, env)
    {
      var f := n.frames[fi];
      var rows := FrameChoiceBlocksAsWritten(n, fi, f);
      HoldsAllFlatten(rows, env);
      forall k | 0 <= k < |rows|
        ensures HoldsAll(rows[k], env) <==> LinkUsageAsWritten(n, fi, f.offsets[k].link, env)
      {
        NodeChoiceAsWrittenMeaning(n, fi, f.offsets[k].link, env);
      }
    }
    if HoldsAll(Flatten(blocks), env) {
      forall fi, k | 0 <= fi < |n.frames| && 0 <= k < Nodes(n.frames[fi])
        ensures LinkUsageAsWritten(n, fi, n.frames[fi].offsets[k].link, env)
      {
        assert HoldsAll(blocks[fi], env);
      }
    }
  }

  /** The choice as written admits every assignment the intended choice admits. */
  lemma {:induction false} AsWrittenAdmitsIntended(n: Network, env: Env)
    requires SelectorsNonNegative(n, env)
    ensures HoldsAll(ChoosePath(n), env) ==> HoldsAll(ChoosePathAsWritten(n), env)
  {
    if HoldsAll(ChoosePath(n), env) {
      forall fi, k | 0 <= fi < |n.frames| && 0 <= k < Nodes(n.frames[fi])
        ensures LinkUsageAsWritten(n, fi, n.frames[fi].offsets[k].link, env)
      {
        var link := n.frames[fi].offsets[k].link;
        assert LinkUsage(n, fi, link, env);
        if CarriedBySelected(n, fi, link, env) {
          var ri, p :| IsRoute(n, fi, ri, p) && link in Route(n, fi, ri, p) && env(Selector(fi, ri, p)) >= 1;
          assert ReceiverCarries(n, fi, ri, link) && ReceiverSelects(n, fi, ri, link, env);
        } else if Carried(n, fi, link) {
          var ri, p :| IsRoute(n, fi, ri, p) && link in Route(n, fi, ri, p);
          assert ReceiverCarries(n, fi, ri, link);
          assert !ReceiverSelects(n, fi, ri, link, env);
        }
      }
    }
  }

  /** As written, one receiver whose selected path avoids the link is enough
      to let the offset be unused, whatever the other receivers select. */
  lemma {:induction false} AsWrittenLetsOneReceiverDecide(o: Var, users: seq<seq<Var>>, env: Env, ri: int)
    requires 0 <= ri < |users| && |users[ri]| > 0
    requires Sum(users[ri], env) < 1 && env(o) == 0
    ensures HoldsAll(NodeChoiceAsWritten(o, users), env)
  {
    var parts := seq(|users|, ri requires 0 <= ri < |users| => if |users[ri]| > 0 then [Choice(o, users[ri])] else []);
    assert ReceiverChoices(o, users) == Flatten(parts);
    assert Choice(o, users[ri]) in parts[ri];
    FlattenContains(parts, ri, Choice(o, users[ri]));
    var cs := ReceiverChoices(o, users);
    var k :| 0 <= k < |cs| && cs[k] == Choice(o, users[ri]);
    assert Holds(cs[k], env);
  }

  /** A frame from end system 0 to end systems 1 and 2; receiver 1 has one
      path, over link 5; receiver 2 has two, over link 5 or link 6. */
  function ChoiceWitness(): Network
  {
    var f := InitFrame().(sender := 0, receivers := [1, 2],
                          offsets := [Offset(5, 1, 1, 1, [[0]]), Sentinel()], hash := [None, None, None, None, None, Some(0)]);
    Empty().(numEndSystems := 3, endSystemsHash := [0, 1, 2], frames := [f],
             paths := map[(0, 1) := [[5]], (0, 2) := [[5], [6]]])
  }

  /** Receiver 1 takes its path over link 5, receiver 2 its path over link 6,
      and the frame leaves its offset on link 5 unused. */
  function ChoiceWitnessEnv(): Env
  {
    x => if x == Selector(0, 0, 0) || x == Selector(0, 1, 1) then 1 else 0
  }

  lemma WitnessSelection()
    ensures HoldsAll(InitPathSelector(ChoiceWitness()), ChoiceWitnessEnv())
  {
    var n := ChoiceWitness();
    var env := ChoiceWitnessEnv();
    var f := n.frames[0];
    assert |n.frames| == 1 && f.receivers == [1, 2];
    assert Candidates(n, f, 0) == [[5]];
    assert Candidates(n, f, 1) == [[5], [6]];
    assert OneHot(0, 0, 1, env) by {
      assert env(Selector(0, 0, 0)) == 1;
    }
    assert OneHot(0, 1, 2, env) by {
      assert env(Selector(0, 1, 1)) == 1;
      forall q | 0 <= q < 2 && q != 1
        ensures env(Selector(0, 1, q)) == 0
      {
        assert q == 0;
      }
    }
    forall fi, ri | IsReceiver(n, fi, ri)
      ensures OneHot(fi, ri, |Candidates(n, n.frames[fi], ri)|, env)
    {
      assert fi == 0 && (ri == 0 || ri == 1);
    }
  }

  /** Receiver 1's only path crossing link 5 is not selected. */
  lemma WitnessSecondReceiver()
    ensures var users := NodeUsers(ChoiceWitness(), 0, ChoiceWitness().frames[0], 5);
      |users| == 2 && |users[1]| > 0 && Sum(users[1], ChoiceWitnessEnv()) < 1
  {
    var n := ChoiceWitness();
    var env := ChoiceWitnessEnv();
    assert Candidates(n, n.frames[0], 1) == [[5], [6]];
    var users := NodeUsers(n, 0, n.frames[0], 5);
    var second := PathUsers(0, 1, [[5], [6]], 5);
    assert users[1] == second;
    PathUsersMembers(0, 1, [[5], [6]], 5, Selector(0, 1, 0));
    assert 5 in [[5], [6]][0];
    assert Selector(0, 1, 0) in second;
    forall k | 0 <= k < |second|
      ensures env(second[k]) == 0
    {
      PathUsersMembers(0, 1, [[5], [6]], 5, second[k]);
      assert 5 !in [[5], [6]][1];
    }
    SumPositive(second, env);
  }

  lemma WitnessAsWrittenHolds()
    ensures HoldsAll(ChoosePathAsWritten(ChoiceWitness()), ChoiceWitnessEnv())
  {
    var n := ChoiceWitness();
    var env := ChoiceWitnessEnv();
    var f := n.frames[0];
    assert Nodes(f) == 1 && f.offsets[0].link == 5;
    WitnessSecondReceiver();
    AsWrittenLetsOneReceiverDecide(Cell(0, 5, 0, 0), NodeUsers(n, 0, f, 5), env, 1);
    var rows := FrameChoiceBlocksAsWritten(n, 0, f);
    assert rows == [NodeChoiceAsWritten(Cell(0, 5, 0, 0), NodeUsers(n, 0, f, 5))];
    HoldsAllFlatten(rows, env);
    var written := seq(|n.frames|, fi requires 0 <= fi < |n.frames| => Flatten(FrameChoiceBlocksAsWritten(n, fi, n.frames[fi])));
    assert written == [Flatten(rows)];
    assert ChoosePathAsWritten(n) == Flatten(written);
    HoldsAllFlatten(written, env);
  }

  lemma WitnessIntendedFails()
    ensures CarriedBySelected(ChoiceWitness(), 0, 5, ChoiceWitnessEnv())
    ensures !HoldsAll(ChoosePath(ChoiceWitness()), ChoiceWitnessEnv())
  {
    var n := ChoiceWitness();
    var env := ChoiceWitnessEnv();
    var f := n.frames[0];
    assert Candidates(n, f, 0) == [[5]];
    assert IsRoute(n, 0, 0, 0) && Route(n, 0, 0, 0) == [5];
    assert env(Selector(0, 0, 0)) == 1;
    assert CarriedBySelected(n, 0, 5, env);
    assert Carried(n, 0, 5);
    assert env(Cell(0, 5, 0, 0)) == 0;
    assert !LinkUsage(n, 0, 5, env);
    assert Nodes(f) == 1 && f.offsets[0].link == 5;
  }

  /** The disjunction across receivers lets a frame leave a link unused although
      the path selected for one of its receivers crosses it: the selection is
      valid and the choice as written holds, but the intended choice does not. */
  lemma ChoosePathAsWrittenDropsLink()
    ensures HoldsAll(InitPathSelector(ChoiceWitness()), ChoiceWitnessEnv())
    ensures CarriedBySelected(ChoiceWitness(), 0, 5, ChoiceWitnessEnv())
    ensures ChoiceWitnessEnv()(Cell(0, 5, 0, 0)) == 0
    ensures HoldsAll(ChoosePathAsWritten(ChoiceWitness()), ChoiceWitnessEnv())
    ensures !HoldsAll(ChoosePath(ChoiceWitness()), ChoiceWitnessEnv())
  {
    WitnessSelection();
    WitnessAsWrittenHolds();
    WitnessIntendedFails();
  }

  // ---------------------------------------------------------------------------
  // Hops along a path
  // ---------------------------------------------------------------------------

  /** Hop `h` of path `p`: the transmission on the next link starts at least the
      timeslot of this link plus the switch minimum time after this one starts. */
  function Hop(n: Network, fi: int, f: Frame, ri: int, p: int, path: seq<int>, h: int, selection: bool): Constraint
    requires 0 <= h < |path| - 1
  {
    MinimumDistance(Cell(fi, path[h], 0, 0), Cell(fi, path[h + 1], 0, 0),
                    TimeslotOn(f, path[h]) + n.switchMinimumTime, selection, Selector(fi, ri, p))
  }

  function RouteHops(n: Network, fi: int, f: Frame, ri: int, p: int, path: seq<int>, selection: bool): seq<Constraint>
  {
    seq(Count(|path| - 1), h requires 0 <= h < Count(|path| - 1) => Hop(n, fi, f, ri, p, path, h, selection))
  }

  function ReceiverHopBlocks(n: Network, fi: int, f: Frame, ri: int, selection: bool): seq<seq<Constraint>>
    requires 0 <= ri < |f.receivers|
  {
    var ps := Candidates(n, f, ri);
    seq(|ps|, p requires 0 <= p < |ps| => RouteHops(n, fi, f, ri, p, ps[p], selection))
  }

  function FrameHopBlocks(n: Network, fi: int, f: Frame, selection: bool): seq<seq<Constraint>>
  {
    seq(|f.receivers|, ri requires 0 <= ri < |f.receivers| => Flatten(ReceiverHopBlocks(n, fi, f, ri, selection)))
  }

  function PathDependentConstraints(n: Network, selection: bool): seq<Constraint>
  {
    Flatten(seq(|n.frames|, fi requires 0 <= fi < |n.frames| => Flatten(FrameHopBlocks(n, fi, n.frames[fi], selection))))
  }

  predicate IsHop(n: Network, fi: int, ri: int, p: int, h: int)
  {
    IsRoute(n, fi, ri, p) && 0 <= h < |Route(n, fi, ri, p)| - 1
  }

  /** The frame has an offset on both links of hop `h` of `path`. */
  predicate HopResolves(f: Frame, path: seq<int>, h: int)
    requires 0 <= h < |path| - 1
  {
    OffsetOn(f, path[h]).Some? && OffsetOn(f, path[h + 1]).Some?
  }

  /** Hop `h` of `path` is respected in `env`, or its path is not selected. */
  predicate HopOrdered(n: Network, fi: int, f: Frame, ri: int, p: int, path: seq<int>, h: int, selection: bool, env: Env)
    requires 0 <= h < |path| - 1
  {
    env(Cell(fi, path[h], 0, 0)) + TimeslotOn(f, path[h]) + n.switchMinimumTime <= env(Cell(fi, path[h + 1], 0, 0))
    || (selection && env(Selector(fi, ri, p)) == 0)
  }

  /** Every hop of every candidate path of every receiver resolves. */
  predicate HopsResolve(n: Network)
  {
    forall fi | 0 <= fi < |n.frames| ::
      forall ri | 0 <= ri < |n.frames[fi].receivers| ::
        forall p | 0 <= p < |Candidates(n, n.frames[fi], ri)| ::
          forall h | 0 <= h < |Candidates(n, n.frames[fi], ri)[p]| - 1 ::
            HopResolves(n.frames[fi], Candidates(n, n.frames[fi], ri)[p], h)
  }

  lemma HopsResolveMeaning(n: Network)
    ensures HopsResolve(n) <==>
      forall fi, ri, p, h :: IsHop(n, fi, ri, p, h) ==> HopResolves(n.frames[fi], Route(n, fi, ri, p), h)
  {
    if HopsResolve(n) {
      forall fi, ri, p, h | IsHop(n, fi, ri, p, h)
        ensures HopResolves(n.frames[fi], Route(n, fi, ri, p), h)
      {
        assert 0 <= ri < |n.frames[fi].receivers| && 0 <= p < |Candidates(n, n.frames[fi], ri)|;
      }
    }
    if forall fi, ri, p, h :: IsHop(n, fi, ri, p, h) ==> HopResolves(n.frames[fi], Route(n, fi, ri, p), h) {
      forall fi, ri, p, h |
        0 <= fi < |n.frames| && 0 <= ri < |n.frames[fi].receivers| &&
        0 <= p < |Candidates(n, n.frames[fi], ri)| && 0 <= h < |Candidates(n, n.frames[fi], ri)[p]| - 1
        ensures HopResolves(n.frames[fi], Candidates(n, n.frames[fi], ri)[p], h)
      {
        assert IsHop(n, fi, ri, p, h);
      }
    }
  }

  /** The path-dependent constraints, or the pass's error when a hop crosses a
      link the frame has no offset on. */
  function FramePathDependent(n: Network, selection: bool): (r: Result<seq<Constraint>, PassError>)
    ensures r.Ok? <==> forall fi, ri, p, h :: IsHop(n, fi, ri, p, h) ==> HopResolves(n.frames[fi], Route(n, fi, ri, p), h)
    ensures r.Err? ==> r.error.Code() == -204
    ensures r.Ok? ==> forall env :: HoldsAll(r.value, env) <==>
      forall fi, ri, p, h :: IsHop(n, fi, ri, p, h) ==>
        HopOrdered(n, fi, n.frames[fi], ri, p, Route(n, fi, ri, p), h, selection, env)
  {
    forall env
      ensures HoldsAll(PathDependentConstraints(n, selection), env) <==>
        forall fi, ri, p, h :: IsHop(n, fi, ri, p, h) ==>
          HopOrdered(n, fi, n.frames[fi], ri, p, Route(n, fi, ri, p), h, selection, env)
    {
      PathDependentMeaning(n, selection, env);
    }
    HopsResolveMeaning(n);
    if HopsResolve(n) then Ok(PathDependentConstraints(n, selection)) else Err(PathDependentFailed)
  }

  lemma {:induction false} ReceiverHopsMeaning(n: Network, fi: int, f: Frame, ri: int, selection: bool, env: Env)
    requires 0 <= ri < |f.receivers|
    ensures HoldsAll(Flatten(ReceiverHopBlocks(n, fi, f, ri, selection)), env) <==>
      forall p, h :: 0 <= p < |Candidates(n, f, ri)| && 0 <= h < |Candidates(n, f, ri)[p]| - 1 ==>
        HopOrdered(n, fi, f, ri, p, Candidates(n, f, ri)[p], h, selection, env)
  {
    var ps := Candidates(n, f, ri);
    var blocks := ReceiverHopBlocks(n, fi, f, ri, selection);
    HoldsAllFlatten(blocks, env);
    forall p | 0 <= p < |blocks|
      ensures HoldsAll(blocks[p], env) <==>
        forall h :: 0 <= h < |ps[p]| - 1 ==> HopOrdered(n, fi, f, ri, p, ps[p], h, selection, env)
    {
      var hops := RouteHops(n, fi, f, ri, p, ps[p], selection);
      if HoldsAll(hops, env) {
        forall h | 0 <= h < |ps[p]| - 1
          ensures HopOrdered(n, fi, f, ri, p, ps[p], h, selection, env)
        {
          assert Holds(hops[h], env);
        }
      }
      if forall h :: 0 <= h < |ps[p]| - 1 ==> HopOrdered(n, fi, f, ri, p, ps[p], h, selection, env) {
        forall h | 0 <= h < |hops|
          ensures Holds(hops[h], env)
        {
          assert HopOrdered(n, fi, f, ri, p, ps[p], h, selection, env);
        }
      }
    }
    if HoldsAll(Flatten(blocks), env) {
      forall p, h | 0 <= p < |ps| && 0 <= h < |ps[p]| - 1
        ensures HopOrdered(n, fi, f, ri, p, ps[p], h, selection, env)
      {
        assert HoldsAll(blocks[p], env);
      }
    }
  }

  lemma {:induction false} FrameHopsMeaning(n: Network, fi: int, selection: bool, env: Env)
    requires 0 <= fi < |n.frames|
    ensures HoldsAll(Flatten(FrameHopBlocks(n, fi, n.frames[fi], selection)), env) <==>
      forall ri, p, h :: IsHop(n, fi, ri, p, h) ==>
        HopOrdered(n, fi, n.frames[fi], ri, p, Route(n, fi, ri, p), h, selection, env)
  {
    var f := n.frames[fi];
    var rows := FrameHopBlocks(n, fi, f, selection);
    HoldsAllFlatten(rows, env);
    forall ri | 0 <= ri < |rows|
      ensures HoldsAll(rows[ri], env) <==>
        forall p, h :: 0 <= p < |Candidates(n, f, ri)| && 0 <= h < |Candidates(n, f, ri)[p]| - 1 ==>
          HopOrdered(n, fi, f, ri, p, Candidates(n, f, ri)[p], h, selection, env)
    {
      ReceiverHopsMeaning(n, fi, f, ri, selection, env);
    }
    if HoldsAll(Flatten(rows), env) {
      forall ri, p, h | IsHop(n, fi, ri, p, h)
        ensures HopOrdered(n, fi, f, ri, p, Route(n, fi, ri, p), h, selection, env)
      {
        assert HoldsAll(rows[ri], env);
      }
    }
    if forall ri, p, h :: IsHop(n, fi, ri, p, h) ==> HopOrdered(n, fi, f, ri, p, Route(n, fi, ri, p), h, selection, env) {
      forall ri | 0 <= ri < |rows|
        ensures HoldsAll(rows[ri], env)
      {
        forall p, h | 0 <= p < |Candidates(n, f, ri)| && 0 <= h < |Candidates(n, f, ri)[p]| - 1
          ensures HopOrdered(n, fi, f, ri, p, Candidates(n, f, ri)[p], h, selection, env)
        {
          assert IsHop(n, fi, ri, p, h);
        }
      }
    }
  }

  /** The path-dependent constraints hold exactly when every hop of every
      candidate path is respected, or, with path selection, its path is not
      selected. */
  lemma {:induction false} PathDependentMeaning(n: Network, selection: bool, env: Env)
    ensures HoldsAll(PathDependentConstraints(n, selection), env) <==>
      forall fi, ri, p, h :: IsHop(n, fi, ri, p, h) ==>
        HopOrdered(n, fi, n.frames[fi], ri, p, Route(n, fi, ri, p), h, selection, env)
  {
    var blocks := seq(|n.frames|, fi requires 0 <= fi < |n.frames| => Flatten(FrameHopBlocks(n, fi, n.frames[fi], selection)));
    assert PathDependentConstraints(n, selection) == Flatten(blocks);
    HoldsAllFlatten(blocks, env);
    forall fi | 0 <= fi < |blocks|
      ensures HoldsAll(blocks[fi], env) <==>
        forall ri, p, h :: IsHop(n, fi, ri, p, h) ==>
          HopOrdered(n, fi, n.frames[fi], ri, p, Route(n, fi, ri, p), h, selection, env)
    {
      FrameHopsMeaning(n, fi, selection, env);
    }
    if HoldsAll(Flatten(blocks), env) {
      forall fi, ri, p, h | IsHop(n, fi, ri, p, h)
        ensures HopOrdered(n, fi, n.frames[fi], ri, p, Route(n, fi, ri, p), h, selection, env)
      {
        assert HoldsAll(blocks[fi], env);
      }
    }
  }

  /** Along a selected path, the frame reaches later links later: between two
      positions of the path the transmission start grows by at least the
      timeslot of the earlier link plus the switch minimum time. */
  lemma {:induction false} PathFollowedInOrder(n: Network, selection: bool, env: Env, fi: int, ri: int, p: int, h1: int, h2: int)
    requires FramePathDependent(n, selection).Ok?
    requires HoldsAll(FramePathDependent(n, selection).value, env)
    requires IsRoute(n, fi, ri, p) && 0 <= h1 < h2 < |Route(n, fi, ri, p)|
    requires selection ==> env(Selector(fi, ri, p)) != 0
    requires n.switchMinimumTime >= 0
    requires forall h :: h1 <= h < h2 ==> TimeslotOn(n.frames[fi], Route(n, fi, ri, p)[h]) >= 0
    ensures var path := Route(n, fi, ri, p);
      OffsetOn(n.frames[fi], path[h1]).Some? &&
      env(Cell(fi, path[h1], 0, 0)) + TimeslotOn(n.frames[fi], path[h1]) + n.switchMinimumTime
        <= env(Cell(fi, path[h2], 0, 0))
    decreases h2 - h1
  {
    var path := Route(n, fi, ri, p);
    var f := n.frames[fi];
    assert IsHop(n, fi, ri, p, h1);
    assert HopResolves(f, path, h1);
    assert HopOrdered(n, fi, f, ri, p, path, h1, selection, env);
    if h1 + 1 < h2 {
      PathFollowedInOrder(n, selection, env, fi, ri, p, h1 + 1, h2);
      assert IsHop(n, fi, ri, p, h1 + 1);
      assert HopResolves(f, path, h1 + 1);
    }
  }

  // ---------------------------------------------------------------------------
  // End-to-end delay
  // ---------------------------------------------------------------------------

  /** The first link of a path (no link for an empty one). */
  function First(path: seq<int>): int
  {
    if |path| == 0 then NoLink else path[0]
  }

  /** The last link of a path (no link for an empty one). */
  function Last(path: seq<int>): int
  {
    if |path| == 0 then NoLink else path[|path| - 1]
  }

  /** The transmission on the last link ends at most the end-to-end delay after
      the transmission on the first link starts. */
  function RouteDeadline(fi: int, f: Frame, path: seq<int>): Constraint
  {
    MaximumDistance(Cell(fi, First(path), 0, 0), Cell(fi, Last(path), 0, 0), f.endToEnd - TimeslotOn(f, Last(path)))
  }

  function ReceiverDeadlines(n: Network, fi: int, f: Frame, ri: int): seq<Constraint>
    requires 0 <= ri < |f.receivers|
  {
    var ps := Candidates(n, f, ri);
    seq(|ps|, p requires 0 <= p < |ps| => RouteDeadline(fi, f, ps[p]))
  }

  function FrameDeadlineBlocks(n: Network, fi: int, f: Frame): seq<seq<Constraint>>
  {
    seq(|f.receivers|, ri requires 0 <= ri < |f.receivers| => ReceiverDeadlines(n, fi, f, ri))
  }

  function EndToEndConstraints(n: Network): seq<Constraint>
  {
    Flatten(seq(|n.frames|, fi requires 0 <= fi < |n.frames| => Flatten(FrameDeadlineBlocks(n, fi, n.frames[fi]))))
  }

  /** The frame has an offset on the first and on the last link of `path`. */
  predicate EndsResolve(f: Frame, path: seq<int>)
  {
    OffsetOn(f, First(path)).Some? && OffsetOn(f, Last(path)).Some?
  }

  /** Path `p` of receiver `ri` of frame `fi` meets the frame's end-to-end delay in `env`. */
  predicate RouteInTime(n: Network, fi: int, ri: int, p: int, env: Env)
    requires IsRoute(n, fi, ri, p)
  {
    var f := n.frames[fi];
    var path := Route(n, fi, ri, p);
    env(Cell(fi, Last(path), 0, 0)) + TimeslotOn(f, Last(path)) <= env(Cell(fi, First(path), 0, 0)) + f.endToEnd
  }

  predicate AllEndsResolve(n: Network)
  {
    forall fi | 0 <= fi < |n.frames| ::
      forall ri | 0 <= ri < |n.frames[fi].receivers| ::
        forall p | 0 <= p < |Candidates(n, n.frames[fi], ri)| ::
          EndsResolve(n.frames[fi], Candidates(n, n.frames[fi], ri)[p])
  }

  lemma AllEndsResolveMeaning(n: Network)
    ensures AllEndsResolve(n) <==>
      forall fi, ri, p :: IsRoute(n, fi, ri, p) ==> EndsResolve(n.frames[fi], Route(n, fi, ri, p))
  {
    if AllEndsResolve(n) {
      forall fi, ri, p | IsRoute(n, fi, ri, p)
        ensures EndsResolve(n.frames[fi], Route(n, fi, ri, p))
      {
        assert 0 <= ri < |n.frames[fi].receivers| && 0 <= p < |Candidates(n, n.frames[fi], ri)|;
      }
    }
    if forall fi, ri, p :: IsRoute(n, fi, ri, p) ==> EndsResolve(n.frames[fi], Route(n, fi, ri, p)) {
      forall fi, ri, p |
        0 <= fi < |n.frames| && 0 <= ri < |n.frames[fi].receivers| && 0 <= p < |Candidates(n, n.frames[fi], ri)|
        ensures EndsResolve(n.frames[fi], Candidates(n, n.frames[fi], ri)[p])
      {
        assert IsRoute(n, fi, ri, p);
      }
    }
  }

  /** The end-to-end constraints, or the pass's error when a path starts or
      ends on a link the frame has no offset on. The constraint binds every
      candidate path, selected or not. */
  function FrameEndToEndDelay(n: Network): (r: Result<seq<Constraint>, PassError>)
    ensures r.Ok? <==> forall fi, ri, p :: IsRoute(n, fi, ri, p) ==> EndsResolve(n.frames[fi], Route(n, fi, ri, p))
    ensures r.Err? ==> r.error.Code() == -203
    ensures r.Ok? ==> forall env :: HoldsAll(r.value, env) <==>
      forall fi, ri, p :: IsRoute(n, fi, ri, p) ==> RouteInTime(n, fi, ri, p, env)
  {
    forall env
      ensures HoldsAll(EndToEndConstraints(n), env) <==>
        forall fi, ri, p :: IsRoute(n, fi, ri, p) ==> RouteInTime(n, fi, ri, p, env)
    {
      EndToEndMeaning(n, env);
    }
    AllEndsResolveMeaning(n);
    if AllEndsResolve(n) then Ok(EndToEndConstraints(n)) else Err(EndToEndDelayFailed)
  }

  /** The end-to-end constraints hold exactly when every candidate path of
      every receiver meets the frame's end-to-end delay. */
  lemma {:induction false} EndToEndMeaning(n: Network, env: Env)
    ensures HoldsAll(EndToEndConstraints(n), env) <==>
      forall fi, ri, p :: IsRoute(n, fi, ri, p) ==> RouteInTime(n, fi, ri, p, env)
  {
    var blocks := seq(|n.frames|, fi requires 0 <= fi < |n.frames| => Flatten(FrameDeadlineBlocks(n, fi, n.frames[fi])));
    assert EndToEndConstraints(n) == Flatten(blocks);
    HoldsAllFlatten(blocks, env);
    forall fi | 0 <= fi < |blocks|
      ensures HoldsAll(blocks[fi], env) <==>
        forall ri, p :: IsRoute(n, fi, ri, p) ==> RouteInTime(n, fi, ri, p, env)
    {
      var f := n.frames[fi];
      var rows := FrameDeadlineBlocks(n, fi, f);
      HoldsAllFlatten(rows, env);
      if HoldsAll(blocks[fi], env) {
        forall ri, p | IsRoute(n, fi, ri, p)
          ensures RouteInTime(n, fi, ri, p, env)
        {
          assert HoldsAll(rows[ri], env);
          assert Holds(rows[ri][p], env);
        }
      }
      if forall ri, p :: IsRoute(n, fi, ri, p) ==> RouteInTime(n, fi, ri, p, env) {
        forall ri | 0 <= ri < |rows|
          ensures HoldsAll(rows[ri], env)
        {
          forall p | 0 <= p < |rows[ri]|
            ensures Holds(rows[ri][p], env)
          {
            assert IsRoute(n, fi, ri, p);
          }
        }
      }
    }
    if HoldsAll(Flatten(blocks), env) {
      forall fi, ri, p | IsRoute(n, fi, ri, p)
        ensures RouteInTime(n, fi, ri, p, env)
      {
        assert HoldsAll(blocks[fi], env);
      }
    }
  }
}
