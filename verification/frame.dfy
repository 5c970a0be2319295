/**
 * Frames and their per-link offsets.
 *
 * A frame is a periodic message with a timing envelope (period, deadline,
 * end-to-end delay, starting time), one sender and a list of receivers. For
 * every link it crosses it owns an offset: a grid of transmission times indexed
 * by instance and replica. The offsets form a singly linked list whose last node
 * is a sentinel with link -1; here the list is a sequence whose last element is
 * that sentinel. The accelerator hash maps a link identifier to the position of
 * the frame's offset for that link in the list.
 */
module Frames {
  import opened Results

  /** The error codes a frame or offset setter reports. */
  datatype FrameError =
    | LinkNotNatural
    | PeriodNotNatural
    | DeadlineNotNatural
    | SizeNotNatural
    | StartingNotNatural
    | EndToEndNotNatural
    | DeadlineLargerPeriod
    | EndToEndLargerDeadline
    | StartingLargerDeadline
    | SenderIdNotNatural
    | ReceiverIdNotNatural
    | NumReceiversNotNatural
    | NumInstancesNotNatural
    | NumReplicasNegative
    | SizeTimeslotNotNatural
    | LinkOffsetNotNatural
    | TransmissionTimeNotNatural
    | NumInstancesOutRange
    | NumReplicasOutRange
    | OffsetValuesNotFilled
  {
    /** The numeric code the C interface returns for this error. */
    function Code(): (c: int)
      ensures -29 <= c < 0
    {
      match this
      case LinkNotNatural => -2
      case PeriodNotNatural => -3
      case DeadlineNotNatural => -4
      case SizeNotNatural => -5
      case StartingNotNatural => -6
      case EndToEndNotNatural => -7
      case DeadlineLargerPeriod => -11
      case EndToEndLargerDeadline => -12
      case StartingLargerDeadline => -13
      case SenderIdNotNatural => -14
      case ReceiverIdNotNatural => -15
      case NumReceiversNotNatural => -16
      case NumInstancesNotNatural => -22
      case NumReplicasNegative => -23
      case SizeTimeslotNotNatural => -24
      case LinkOffsetNotNatural => -25
      case TransmissionTimeNotNatural => -26
      case NumInstancesOutRange => -27
      case NumReplicasOutRange => -28
      case OffsetValuesNotFilled => -29
    }
  }

  /** Distinct errors have distinct codes. */
  lemma CodesDistinct(a: FrameError, b: FrameError)
    ensures a.Code() == b.Code() <==> a == b
  {
  }

  /** The transmissions of one frame on one link: `times[i][r]` is the
      transmission time of instance `i`, replica `r`, in ns. */
  datatype Offset = Offset(link: int, numInstances: int, numReplicas: int, timeslots: int, times: seq<seq<int>>)

  /** `hash` is empty while the accelerator is not allocated. */
  datatype Frame = Frame(
    size: int,
    period: int,
    deadline: int,
    endToEnd: int,
    starting: int,
    sender: int,
    receivers: seq<int>,
    offsets: seq<Offset>,
    hash: seq<Option<nat>>)

  /** The link value that marks the end of the offset list. */
  const NoLink: int := -1

  /** The empty node at the end of every offset list. */
  function Sentinel(): Offset
  {
    Offset(NoLink, 0, 0, 0, [])
  }

  /** A node just claimed for `link`: no instances, replicas or timeslots yet. */
  function Fresh(link: int): Offset
  {
    Offset(link, 0, 0, 0, [])
  }

  // ---------------------------------------------------------------------------
  // Creation and the timing envelope
  // ---------------------------------------------------------------------------

  /** The envelope every loaded frame satisfies. */
  predicate TimingChain(f: Frame)
  {
    0 <= f.starting < f.deadline <= f.period && 0 < f.endToEnd <= f.deadline && f.size > 0
  }

  /** A new frame: period, deadline and size are -1, the offset list holds only
      the sentinel and no accelerator is allocated. The fields the C code leaves
      uninitialised are 0 or empty here. */
  function InitFrame(): (f: Frame)
    ensures !TimingChain(f)
    ensures f.offsets == [Sentinel()] && f.hash == []
    ensures f.period < 0 && f.deadline < 0 && f.size < 0
  {
    Frame(-1, -1, -1, 0, 0, 0, [], [Sentinel()], [])
  }

  function GetPeriod(f: Frame): int { f.period }
  function GetDeadline(f: Frame): int { f.deadline }
  function GetSize(f: Frame): int { f.size }
  function GetEndToEndDelay(f: Frame): int { f.endToEnd }
  function GetStarting(f: Frame): int { f.starting }
  function GetSenderId(f: Frame): int { f.sender }
  function GetNumReceivers(f: Frame): int { |f.receivers| }

  function GetReceiverId(f: Frame, k: int): int
    requires 0 <= k < |f.receivers|
  {
    f.receivers[k]
  }

  /** A non-positive period is refused; any positive period is stored, even one
      below the deadline already stored. */
  function SetPeriod(f: Frame, period: int): (r: Result<Frame, FrameError>)
    ensures r.Ok? <==> period > 0
    ensures r.Err? ==> r.error == PeriodNotNatural
    ensures r.Ok? ==> GetPeriod(r.value) == period && r.value.(period := f.period) == f
  {
    if period <= 0 then Err(PeriodNotNatural) else Ok(f.(period := period))
  }

  /** The deadline must be positive and at most the stored period. */
  function SetDeadline(f: Frame, deadline: int): (r: Result<Frame, FrameError>)
    ensures r.Ok? <==> 0 < deadline <= f.period
    ensures r.Err? ==> r.error == (if deadline <= 0 then DeadlineNotNatural else DeadlineLargerPeriod)
    ensures r.Ok? ==> GetDeadline(r.value) == deadline && r.value.(deadline := f.deadline) == f
  {
    if deadline <= 0 then Err(DeadlineNotNatural)
    else if deadline > f.period then Err(DeadlineLargerPeriod)
    else Ok(f.(deadline := deadline))
  }

  function SetSize(f: Frame, size: int): (r: Result<Frame, FrameError>)
    ensures r.Ok? <==> size > 0
    ensures r.Err? ==> r.error == SizeNotNatural
    ensures r.Ok? ==> GetSize(r.value) == size && r.value.(size := f.size) == f
  {
    if size <= 0 then Err(SizeNotNatural) else Ok(f.(size := size))
  }

  /** The end-to-end delay must be positive and at most the stored deadline. */
  function SetEndToEndDelay(f: Frame, delay: int): (r: Result<Frame, FrameError>)
    ensures r.Ok? <==> 0 < delay <= f.deadline
    ensures r.Err? ==> r.error == (if delay <= 0 then EndToEndNotNatural else EndToEndLargerDeadline)
    ensures r.Ok? ==> GetEndToEndDelay(r.value) == delay && r.value.(endToEnd := f.endToEnd) == f
  {
    if delay <= 0 then Err(EndToEndNotNatural)
    else if delay > f.deadline then Err(EndToEndLargerDeadline)
    else Ok(f.(endToEnd := delay))
  }

  /** The starting time must be non-negative and strictly below the stored deadline. */
  function SetStarting(f: Frame, starting: int): (r: Result<Frame, FrameError>)
    ensures r.Ok? <==> 0 <= starting < f.deadline
    ensures r.Err? ==> r.error == (if starting < 0 then StartingNotNatural else StartingLargerDeadline)
    ensures r.Ok? ==> GetStarting(r.value) == starting && r.value.(starting := f.starting) == f
  {
    if starting < 0 then Err(StartingNotNatural)
    else if starting >= f.deadline then Err(StartingLargerDeadline)
    else Ok(f.(starting := starting))
  }

  function SetSenderId(f: Frame, sender: int): (r: Result<Frame, FrameError>)
    ensures r.Ok? <==> sender >= 0
    ensures r.Err? ==> r.error == SenderIdNotNatural
    ensures r.Ok? ==> GetSenderId(r.value) == sender && r.value.(sender := f.sender) == f
  {
    if sender < 0 then Err(SenderIdNotNatural) else Ok(f.(sender := sender))
  }

  /** The position of the first negative identifier in `ids`, or `|ids|`. */
  function FirstNegative(ids: seq<int>): (k: nat)
    ensures k <= |ids|
    ensures forall j :: 0 <= j < k ==> ids[j] >= 0
    ensures k < |ids| ==> ids[k] < 0
  {
    if |ids| == 0 then 0
    else if ids[0] < 0 then 0
    else 1 + FirstNegative(ids[1..])
  }

  /** Stores the receivers one by one. An empty list is refused before anything
      is written. Otherwise the count is stored first; a negative identifier
      stops the copy, the identifiers before it are kept and the entries from it
      on stay uninitialised (0 here). */
  function SetReceiversId(f: Frame, ids: seq<int>): (r: (Frame, Option<FrameError>))
    ensures |ids| == 0 ==> r == (f, Some(NumReceiversNotNatural))
    ensures |ids| > 0 ==> GetNumReceivers(r.0) == |ids|
    ensures r.1 == None <==> |ids| > 0 && forall j :: 0 <= j < |ids| ==> ids[j] >= 0
    ensures r.1 == None ==> forall j :: 0 <= j < |ids| ==> GetReceiverId(r.0, j) == ids[j]
    ensures |ids| > 0 && r.1 != None ==> (r.1 == Some(ReceiverIdNotNatural) &&
      var k := FirstNegative(ids);
      k < |ids| && r.0.receivers[..k] == ids[..k] &&
      forall j :: k <= j < |ids| ==> GetReceiverId(r.0, j) == 0)
    ensures r.0.(receivers := f.receivers) == f
  {
    if |ids| == 0 then (f, Some(NumReceiversNotNatural))
    else
      var k := FirstNegative(ids);
      (f.(receivers := ids[..k] + seq(|ids| - k, _ => 0)), if k < |ids| then Some(ReceiverIdNotNatural) else None)
  }

  /** The copy as the C code performs it, one identifier at a time into a
      store of the full size; it stops at the first negative identifier. */
  method StoreReceivers(f: Frame, ids: seq<int>) returns (g: Frame, e: Option<FrameError>)
    ensures (g, e) == SetReceiversId(f, ids)
  {
    if |ids| == 0 {
      return f, Some(NumReceiversNotNatural);
    }
    var store := seq(|ids|, _ => 0);
    var j := 0;
    while j < |ids|
      invariant 0 <= j <= |ids|
      invariant forall m :: 0 <= m < j ==> ids[m] >= 0
      invariant store == ids[..j] + seq(|ids| - j, _ => 0)
    {
      if ids[j] < 0 {
        return f.(receivers := store), Some(ReceiverIdNotNatural);
      }
      store := store[j := ids[j]];
      assert ids[..j + 1] == ids[..j] + [ids[j]];
      j := j + 1;
    }
    assert ids[..j] == ids;
    return f.(receivers := store), None;
  }

  /** A setter that succeeds on a frame in the envelope keeps it there, except
      the period, which is not compared with the stored deadline. */
  lemma SettersKeepChain(f: Frame, x: int)
    requires TimingChain(f)
    ensures SetDeadline(f, x).Ok? && f.starting < x && f.endToEnd <= x ==> TimingChain(SetDeadline(f, x).value)
    ensures SetStarting(f, x).Ok? ==> TimingChain(SetStarting(f, x).value)
    ensures SetEndToEndDelay(f, x).Ok? ==> TimingChain(SetEndToEndDelay(f, x).value)
    ensures SetSize(f, x).Ok? ==> TimingChain(SetSize(f, x).value)
    ensures SetPeriod(f, x).Ok? ==> (TimingChain(SetPeriod(f, x).value) <==> f.deadline <= x)
  {
  }

  /** A deadline can never be set on a new frame: its period is still -1. */
  lemma NoDeadlineBeforePeriod(d: int)
    ensures SetDeadline(InitFrame(), d).Err?
  {
  }

  // ---------------------------------------------------------------------------
  // Offset fields and the transmission-time grid
  // ---------------------------------------------------------------------------

  function GetNumInstances(o: Offset): int { o.numInstances }
  function GetNumReplicas(o: Offset): int { o.numReplicas }
  function GetTimeslotSize(o: Offset): int { o.timeslots }
  function GetOffsetLink(o: Offset): int { o.link }

  function SetNumInstances(o: Offset, n: int): (r: Result<Offset, FrameError>)
    ensures r.Ok? <==> n > 0
    ensures r.Err? ==> r.error == NumInstancesNotNatural
    ensures r.Ok? ==> GetNumInstances(r.value) == n && r.value.(numInstances := o.numInstances) == o
  {
    if n <= 0 then Err(NumInstancesNotNatural) else Ok(o.(numInstances := n))
  }

  /** Zero replicas is allowed. */
  function SetReplicas(o: Offset, n: int): (r: Result<Offset, FrameError>)
    ensures r.Ok? <==> n >= 0
    ensures r.Err? ==> r.error == NumReplicasNegative
    ensures r.Ok? ==> GetNumReplicas(r.value) == n && r.value.(numReplicas := o.numReplicas) == o
  {
    if n < 0 then Err(NumReplicasNegative) else Ok(o.(numReplicas := n))
  }

  function SetTimeslotSize(o: Offset, n: int): (r: Result<Offset, FrameError>)
    ensures r.Ok? <==> n > 0
    ensures r.Err? ==> r.error == SizeTimeslotNotNatural
    ensures r.Ok? ==> GetTimeslotSize(r.value) == n && r.value.(timeslots := o.timeslots) == o
  {
    if n <= 0 then Err(SizeTimeslotNotNatural) else Ok(o.(timeslots := n))
  }

  /** Link 0 is refused along with the negative identifiers. */
  function SetOffsetLink(o: Offset, link: int): (r: Result<Offset, FrameError>)
    ensures r.Ok? <==> link > 0
    ensures r.Err? ==> r.error == LinkOffsetNotNatural
    ensures r.Ok? ==> GetOffsetLink(r.value) == link && r.value.(link := o.link) == o
  {
    if link <= 0 then Err(LinkOffsetNotNatural) else Ok(o.(link := link))
  }

  /** The grid has one row per instance and one column per replica. */
  predicate Shaped(o: Offset)
  {
    |o.times| == o.numInstances && forall i :: 0 <= i < |o.times| ==> |o.times[i]| == o.numReplicas
  }

  /** Allocates the grid once the counts are filled in. The C code leaves the
      new cells uninitialised; here they start at 0. */
  function PrepareOffset(o: Offset): (r: Result<Offset, FrameError>)
    ensures r.Ok? <==> o.numInstances > 0 && o.numReplicas >= 0
    ensures r.Err? ==> r.error == OffsetValuesNotFilled
    ensures r.Ok? ==> Shaped(r.value) && r.value.(times := o.times) == o
  {
    if o.numInstances <= 0 || o.numReplicas < 0 then Err(OffsetValuesNotFilled)
    else Ok(o.(times := seq(o.numInstances, _ => seq(o.numReplicas, _ => 0))))
  }

  /** The check `SetOffset` makes before writing, in the C code's order. */
  function SetOffsetCheck(o: Offset, i: int, rep: int, value: int): (e: Option<FrameError>)
    ensures e == None <==> 0 <= i < o.numInstances && 0 <= rep < o.numReplicas && value >= 0
  {
    if i < 0 then Some(NumInstancesNotNatural)
    else if rep < 0 then Some(NumReplicasNegative)
    else if i >= o.numInstances then Some(NumInstancesOutRange)
    else if rep >= o.numReplicas then Some(NumReplicasOutRange)
    else if value < 0 then Some(TransmissionTimeNotNatural)
    else None
  }

  /** Writes one cell of a prepared grid after checking the indices and value. */
  function SetOffset(o: Offset, i: int, rep: int, value: int): (r: Result<Offset, FrameError>)
    requires SetOffsetCheck(o, i, rep, value) == None ==> Shaped(o)
    ensures r.Ok? <==> SetOffsetCheck(o, i, rep, value) == None
    ensures r.Err? ==> Some(r.error) == SetOffsetCheck(o, i, rep, value)
    ensures r.Ok? ==> Shaped(r.value) && r.value.(times := o.times) == o
    ensures r.Ok? ==> r.value.times[i][rep] == value
    ensures r.Ok? ==> forall a, b :: 0 <= a < |o.times| && 0 <= b < |o.times[a]| && (a, b) != (i, rep) ==>
      r.value.times[a][b] == o.times[a][b]
  {
    match SetOffsetCheck(o, i, rep, value)
    case Some(e) => Err(e)
    case None => Ok(o.(times := o.times[i := o.times[i][rep := value]]))
  }

  /** Reads one cell; only negative indices are checked, so the cell must exist. */
  function GetOffset(o: Offset, i: int, rep: int): (r: Result<int, FrameError>)
    requires i >= 0 && rep >= 0 ==> i < |o.times| && rep < |o.times[i]|
    ensures r.Err? <==> i < 0 || rep < 0
    ensures r.Err? ==> r.error == (if i < 0 then NumInstancesNotNatural else NumReplicasNegative)
    ensures r.Ok? ==> r.value == o.times[i][rep]
  {
    if i < 0 then Err(NumInstancesNotNatural)
    else if rep < 0 then Err(NumReplicasNegative)
    else Ok(o.times[i][rep])
  }

  /** What `SetOffset` writes, `GetOffset` reads back; the other cells keep
      their values. */
  lemma SetThenGetOffset(o: Offset, i: int, rep: int, value: int, a: int, b: int)
    requires Shaped(o) && SetOffsetCheck(o, i, rep, value) == None
    requires 0 <= a < o.numInstances && 0 <= b < o.numReplicas
    ensures GetOffset(SetOffset(o, i, rep, value).value, a, b) ==
      (if (a, b) == (i, rep) then Ok(value) else GetOffset(o, a, b))
  {
  }

  // ---------------------------------------------------------------------------
  // The offset list
  // ---------------------------------------------------------------------------

  /** The links of the real nodes, i.e. every node but the last. */
  function RealLinks(ls: seq<Offset>): set<int>
  {
    set k | 0 <= k < |ls| - 1 :: ls[k].link
  }

  /** A list as `add_new_offset` builds it: it ends in the sentinel, no real
      node carries the sentinel's link and no two real nodes share a link. */
  predicate WellFormedList(ls: seq<Offset>)
  {
    && |ls| > 0
    && ls[|ls| - 1] == Sentinel()
    && (forall k :: 0 <= k < |ls| - 1 ==> ls[k].link != NoLink)
    && (forall a, b :: 0 <= a < b < |ls| - 1 ==> ls[a].link != ls[b].link)
  }

  /** The walk of `add_new_offset` from node `k`: it stops at the first node
      holding `link`, or at the last node. */
  function Walk(ls: seq<Offset>, link: int, k: nat): (stop: nat)
    requires k < |ls|
    decreases |ls| - k
    ensures k <= stop < |ls|
    ensures stop == |ls| - 1 || ls[stop].link == link
    ensures forall j :: k <= j < stop ==> ls[j].link != link
  {
    if k == |ls| - 1 || ls[k].link == link then k else Walk(ls, link, k + 1)
  }

  /** Claims a node for `link` at the end of the list. When some node, the
      sentinel included, already holds `link` nothing changes and no node is
      returned. Otherwise the sentinel becomes the new node and a new sentinel
      follows it; the position of the new node is returned. */
  function AddNewOffset(ls: seq<Offset>, link: int): (r: (seq<Offset>, Option<nat>))
    requires |ls| > 0
    ensures r.1 == None <==> exists k :: 0 <= k < |ls| && ls[k].link == link
    ensures r.1 == None ==> r.0 == ls
    ensures r.1 != None ==> (r.1 == Some(|ls| - 1) &&
      |r.0| == |ls| + 1 && r.0[..|ls| - 1] == ls[..|ls| - 1] &&
      r.0[|ls| - 1] == Fresh(link) && r.0[|ls|] == Sentinel())
  {
    var stop := Walk(ls, link, 0);
    if ls[stop].link != link then
      (ls[..stop] + [Fresh(link), Sentinel()], Some(stop))
    else
      (ls, None)
  }

  /** On a well-formed list, `AddNewOffset` adds `link` exactly when it is a
      real link not present yet, the link set grows by exactly that link, and
      the list stays well formed. */
  lemma {:induction false} AddNewOffsetKeepsList(ls: seq<Offset>, link: int)
    requires WellFormedList(ls)
    ensures AddNewOffset(ls, link).1 != None <==> link != NoLink && link !in RealLinks(ls)
    ensures WellFormedList(AddNewOffset(ls, link).0)
    ensures AddNewOffset(ls, link).1 != None ==> RealLinks(AddNewOffset(ls, link).0) == RealLinks(ls) + {link}
  {
    var (ls', res) := AddNewOffset(ls, link);
    if link != NoLink && link !in RealLinks(ls) {
      assert forall k :: 0 <= k < |ls| ==> ls[k].link != link by {
        forall k | 0 <= k < |ls|
          ensures ls[k].link != link
        {
          if k < |ls| - 1 {
            assert ls[k].link in RealLinks(ls);
          }
        }
      }
      assert res != None;
      forall x
        ensures x in RealLinks(ls') <==> x in RealLinks(ls) + {link}
      {
        if x in RealLinks(ls') {
          var k :| 0 <= k < |ls'| - 1 && ls'[k].link == x;
          if k < |ls| - 1 {
            assert ls'[k] == ls[k];
          }
        }
        if x in RealLinks(ls) {
          var k :| 0 <= k < |ls| - 1 && ls[k].link == x;
          assert ls'[k] == ls[k];
        }
        assert ls'[|ls| - 1].link == link;
      }
    } else if link == NoLink {
      assert ls[|ls| - 1].link == link;
    } else {
      var k :| 0 <= k < |ls| - 1 && ls[k].link == link;
      assert res == None;
    }
  }

  /** Adding the same link twice: the second call finds it and changes nothing. */
  lemma AddNewOffsetTwice(ls: seq<Offset>, link: int)
    requires |ls| > 0 && AddNewOffset(ls, link).1 != None
    ensures AddNewOffset(AddNewOffset(ls, link).0, link) == (AddNewOffset(ls, link).0, None)
  {
    var ls' := AddNewOffset(ls, link).0;
    assert ls'[|ls| - 1].link == link;
  }

  // ---------------------------------------------------------------------------
  // The accelerator hash
  // ---------------------------------------------------------------------------

  /** Allocates one empty entry per link of the network. */
  function InitHash(f: Frame, numLinks: int): (r: Result<Frame, FrameError>)
    ensures r.Ok? <==> numLinks > 0
    ensures r.Err? ==> r.error == LinkNotNatural
    ensures r.Ok? ==> |r.value.hash| == numLinks && (forall l :: 0 <= l < numLinks ==> r.value.hash[l] == None)
    ensures r.Ok? ==> r.value.(hash := f.hash) == f
  {
    if numLinks <= 0 then Err(LinkNotNatural) else Ok(f.(hash := seq(numLinks, _ => None)))
  }

  /** Records that the node at position `k` is the offset for its link. */
  function AddAcceleratorHash(f: Frame, k: nat): (r: Frame)
    requires k < |f.offsets| && 0 <= f.offsets[k].link < |f.hash|
    ensures |r.hash| == |f.hash| && r.(hash := f.hash) == f
    ensures r.hash[f.offsets[k].link] == Some(k)
    ensures forall l :: 0 <= l < |f.hash| && l != f.offsets[k].link ==> r.hash[l] == f.hash[l]
  {
    f.(hash := f.hash[f.offsets[k].link := Some(k)])
  }

  /** The position the accelerator holds for `link`, if any. */
  function GetFrameOffsetByLink(f: Frame, link: int): (r: Option<nat>)
    requires 0 <= link < |f.hash|
    ensures HashSound(f) && r.Some? ==> r.value < |f.offsets| - 1 && f.offsets[r.value].link == link
    ensures HashComplete(f) ==> forall k :: 0 <= k < |f.offsets| - 1 && f.offsets[k].link == link ==> r == Some(k)
  {
    f.hash[link]
  }

  /** Every entry of the accelerator points at a real node holding that link. */
  predicate HashSound(f: Frame)
  {
    forall l :: 0 <= l < |f.hash| && f.hash[l].Some? ==>
      f.hash[l].value < |f.offsets| - 1 && f.offsets[f.hash[l].value].link == l
  }

  /** Every real node is registered under its link. */
  predicate HashComplete(f: Frame)
  {
    forall k :: 0 <= k < |f.offsets| - 1 ==>
      0 <= f.offsets[k].link < |f.hash| && f.hash[f.offsets[k].link] == Some(k)
  }

  /** The offset list and accelerator of a frame agree. */
  predicate Indexed(f: Frame)
  {
    WellFormedList(f.offsets) && HashSound(f) && HashComplete(f)
  }

  /** The offset node the accelerator holds for `link`, if any. A link outside
      the accelerator, or an entry outside the list, counts as no offset. */
  function OffsetOn(f: Frame, link: int): (r: Option<Offset>)
    ensures HashSound(f) && 0 <= link < |f.hash| ==> (r.Some? <==> GetFrameOffsetByLink(f, link).Some?)
    ensures r.Some? ==> 0 <= link < |f.hash| && GetFrameOffsetByLink(f, link).Some?
    ensures HashSound(f) && r.Some? ==> r.value.link == link
  {
    if 0 <= link < |f.hash| && f.hash[link].Some? && f.hash[link].value < |f.offsets| then
      Some(f.offsets[f.hash[link].value])
    else
      None
  }

  /** A new frame with its accelerator allocated is indexed. */
  lemma InitIndexed(numLinks: int)
    requires numLinks > 0
    ensures Indexed(InitHash(InitFrame(), numLinks).value)
  {
  }

  /** With an indexed frame the accelerator answers exactly for the links in the list. */
  lemma {:induction false} LookupComplete(f: Frame, link: int)
    requires Indexed(f) && 0 <= link < |f.hash|
    ensures GetFrameOffsetByLink(f, link).Some? <==> link in RealLinks(f.offsets)
    ensures OffsetOn(f, link).Some? <==> link in RealLinks(f.offsets)
  {
    if link in RealLinks(f.offsets) {
      var k :| 0 <= k < |f.offsets| - 1 && f.offsets[k].link == link;
      assert f.hash[f.offsets[k].link] == Some(k);
    }
    if f.hash[link].Some? {
      assert f.offsets[f.hash[link].value].link == link;
    }
  }

  /** Claiming a node for a new link and registering it keeps the frame
      indexed, and the accelerator then returns the new node for that link. */
  lemma {:induction false} RegisterOffset(f: Frame, link: int)
    requires Indexed(f) && 0 <= link < |f.hash| && link !in RealLinks(f.offsets)
    ensures AddNewOffset(f.offsets, link).1 == Some(|f.offsets| - 1)
    ensures
      var g := AddAcceleratorHash(f.(offsets := AddNewOffset(f.offsets, link).0), |f.offsets| - 1);
      Indexed(g) && OffsetOn(g, link) == Some(Fresh(link)) &&
      RealLinks(g.offsets) == RealLinks(f.offsets) + {link} &&
      forall l :: 0 <= l < |f.hash| && l != link ==> GetFrameOffsetByLink(g, l) == GetFrameOffsetByLink(f, l)
  {
    AddNewOffsetKeepsList(f.offsets, link);
    var ls' := AddNewOffset(f.offsets, link).0;
    var n := |f.offsets| - 1;
    var f' := f.(offsets := ls');
    var g := AddAcceleratorHash(f', n);
    assert ls'[n] == Fresh(link);
    forall l | 0 <= l < |g.hash| && g.hash[l].Some?
      ensures g.hash[l].value < |g.offsets| - 1 && g.offsets[g.hash[l].value].link == l
    {
      if l != link {
        assert g.hash[l] == f.hash[l];
        assert ls'[f.hash[l].value] == f.offsets[f.hash[l].value];
      }
    }
    forall k | 0 <= k < |g.offsets| - 1
      ensures 0 <= g.offsets[k].link < |g.hash| && g.hash[g.offsets[k].link] == Some(k)
    {
      if k < n {
        assert ls'[k] == f.offsets[k];
        assert f.offsets[k].link in RealLinks(f.offsets);
      }
    }
  }
}
