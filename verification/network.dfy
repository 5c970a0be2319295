/**
 * The network: global counts, the self-healing protocol parameters, the
 * frames and links arrays and the path catalog.
 *
 * The catalog holds, for every (sender, receiver) pair of end-system
 * positions, the list of candidate paths; a path is a list of link
 * identifiers. Node identifiers are turned into end-system positions by the
 * end-systems hash, which the topology reader fills in.
 */
module Networks {
  import opened Results
  import opened Frames
  import opened Links

  /** The error codes the network setters report. */
  datatype NetworkError =
    | NumFramesNegative
    | NumSwitchesNegative
    | NumEndSystemsNegative
    | NumLinksNegative
    | SwitchMinTimeNegative
    | ProtocolPeriodNegative
    | ProtocolTimeNegative
    | ProtocolTimeLargerPeriod
    | NoMoreFramesAllocated
    | ErrorAddingFrame
    | NoMoreLinksAllocated
    | ErrorAddingLink
    | PathDoesNotExist
  {
    function Code(): (c: int)
      ensures c < 0
    {
      match this
      case NumFramesNegative => -1
      case NumSwitchesNegative => -2
      case NumEndSystemsNegative => -3
      case NumLinksNegative => -4
      case SwitchMinTimeNegative => -5
      case ProtocolPeriodNegative => -6
      case ProtocolTimeNegative => -7
      case ProtocolTimeLargerPeriod => -8
      case NoMoreFramesAllocated => -11
      case ErrorAddingFrame => -12
      case NoMoreLinksAllocated => -14
      case ErrorAddingLink => -15
      case PathDoesNotExist => -225
    }
  }

  /** The catalog maps (sender position, receiver position) to its paths. */
  type Catalog = map<(int, int), seq<seq<int>>>

  datatype Network = Network(
    protocolTime: int,
    protocolPeriod: int,
    switchMinimumTime: int,
    numFrames: int,
    numSwitches: int,
    numEndSystems: int,
    numLinks: int,
    frames: seq<Frame>,
    links: seq<Link>,
    paths: Catalog,
    endSystemsHash: seq<int>)

  /** The network before anything is read: every count and time is 0. */
  function Empty(): (n: Network)
    ensures n.numFrames == 0 && n.numLinks == 0 && n.numEndSystems == 0 && n.numSwitches == 0
    ensures n.protocolPeriod == 0 && n.protocolTime == 0 && n.switchMinimumTime == 0
  {
    Network(0, 0, 0, 0, 0, 0, 0, [], [], map[], [])
  }

  // ---------------------------------------------------------------------------
  // Counts and protocol parameters
  // ---------------------------------------------------------------------------

  /** Stores the number of frames and allocates that many frames. The C code
      leaves the new frames uninitialised; here each is a new frame. */
  function SetNumFrames(n: Network, k: int): (r: Result<Network, NetworkError>)
    ensures r.Ok? <==> k > 0
    ensures r.Err? ==> r.error == NumFramesNegative
    ensures r.Ok? ==> (r.value.numFrames == k && |r.value.frames| == k &&
      r.value.(numFrames := n.numFrames, frames := n.frames) == n)
    ensures r.Ok? ==> forall j :: 0 <= j < k ==> r.value.frames[j] == InitFrame()
  {
    if k <= 0 then Err(NumFramesNegative)
    else Ok(n.(numFrames := k, frames := seq(k, _ => InitFrame())))
  }

  function SetNumSwitches(n: Network, k: int): (r: Result<Network, NetworkError>)
    ensures r.Ok? <==> k > 0
    ensures r.Err? ==> r.error == NumSwitchesNegative
    ensures r.Ok? ==> r.value.numSwitches == k && r.value.(numSwitches := n.numSwitches) == n
  {
    if k <= 0 then Err(NumSwitchesNegative) else Ok(n.(numSwitches := k))
  }

  function SetNumEndSystems(n: Network, k: int): (r: Result<Network, NetworkError>)
    ensures r.Ok? <==> k > 0
    ensures r.Err? ==> r.error == NumEndSystemsNegative
    ensures r.Ok? ==> r.value.numEndSystems == k && r.value.(numEndSystems := n.numEndSystems) == n
  {
    if k <= 0 then Err(NumEndSystemsNegative) else Ok(n.(numEndSystems := k))
  }

  /** Stores the number of links and allocates that many links. The C code
      leaves the new links uninitialised; here each is a new link. */
  function SetNumLinks(n: Network, k: int): (r: Result<Network, NetworkError>)
    ensures r.Ok? <==> k > 0
    ensures r.Err? ==> r.error == NumLinksNegative
    ensures r.Ok? ==> (r.value.numLinks == k && |r.value.links| == k &&
      r.value.(numLinks := n.numLinks, links := n.links) == n)
    ensures r.Ok? ==> forall j :: 0 <= j < k ==> r.value.links[j] == InitLink()
  {
    if k <= 0 then Err(NumLinksNegative)
    else Ok(n.(numLinks := k, links := seq(k, _ => InitLink())))
  }

  /** A switch may forward immediately: 0 is accepted. */
  function SetSwitchMinimumTime(n: Network, t: int): (r: Result<Network, NetworkError>)
    ensures r.Ok? <==> t >= 0
    ensures r.Err? ==> r.error == SwitchMinTimeNegative
    ensures r.Ok? ==> r.value.switchMinimumTime == t && r.value.(switchMinimumTime := n.switchMinimumTime) == n
  {
    if t < 0 then Err(SwitchMinTimeNegative) else Ok(n.(switchMinimumTime := t))
  }

  /** The period is not compared with the protocol time already stored. */
  function SetProtocolPeriod(n: Network, period: int): (r: Result<Network, NetworkError>)
    ensures r.Ok? <==> period > 0
    ensures r.Err? ==> r.error == ProtocolPeriodNegative
    ensures r.Ok? ==> r.value.protocolPeriod == period && r.value.(protocolPeriod := n.protocolPeriod) == n
  {
    if period <= 0 then Err(ProtocolPeriodNegative) else Ok(n.(protocolPeriod := period))
  }

  /** The protocol time must be positive and strictly below the stored period. */
  function SetProtocolTime(n: Network, t: int): (r: Result<Network, NetworkError>)
    ensures r.Ok? <==> 0 < t < n.protocolPeriod
    ensures r.Err? ==> r.error == (if t <= 0 then ProtocolTimeNegative else ProtocolTimeLargerPeriod)
    ensures r.Ok? ==> r.value.protocolTime == t && r.value.(protocolTime := n.protocolTime) == n
  {
    if t <= 0 then Err(ProtocolTimeNegative)
    else if t >= n.protocolPeriod then Err(ProtocolTimeLargerPeriod)
    else Ok(n.(protocolTime := t))
  }

  /** The self-healing protocol fits in its period. */
  predicate ProtocolFits(n: Network)
  {
    0 < n.protocolTime < n.protocolPeriod
  }

  /** Setting the period and then the time succeeds exactly when the pair fits,
      and then the protocol fits; on the empty network the time alone always
      fails, because the period is still 0. */
  lemma ProtocolSetupIff(n: Network, period: int, t: int)
    ensures SetProtocolTime(Empty(), t).Err?
    ensures (SetProtocolPeriod(n, period).Ok? && SetProtocolTime(SetProtocolPeriod(n, period).value, t).Ok?)
      <==> 0 < t < period
    ensures 0 < t < period ==> ProtocolFits(SetProtocolTime(SetProtocolPeriod(n, period).value, t).value)
  {
  }

  // ---------------------------------------------------------------------------
  // Frames and links
  // ---------------------------------------------------------------------------

  /** The frame at `id` replaced by `f`. */
  function StoreFrame(n: Network, id: nat, f: Frame): (r: Network)
    requires id < |n.frames|
    ensures |r.frames| == |n.frames| && r.frames[id] == f
    ensures forall j :: 0 <= j < |n.frames| && j != id ==> r.frames[j] == n.frames[j]
    ensures r.(frames := n.frames) == n
  {
    n.(frames := n.frames[id := f])
  }

  /** The timing arguments satisfy the frame envelope. */
  predicate GoodTiming(period: int, deadline: int, size: int, starting: int, endToEnd: int)
  {
    0 < deadline <= period && size > 0 && 0 <= starting < deadline && 0 < endToEnd <= deadline
  }

  /** Loads the timing of frame `id`: period, deadline, size, starting time and
      end-to-end delay, in that order. The first setter that refuses its value
      ends the load with ErrorAddingFrame, and the values stored before it stay.
      After a full load the accelerator of the frame is allocated with one entry
      per link; that step's own failure is not reported. */
  function AddFrameInformation(n: Network, id: int, period: int, deadline: int, size: int, starting: int, endToEnd: int)
    : (r: (Network, Option<NetworkError>))
    requires id < n.numFrames ==> 0 <= id < |n.frames|
    ensures r.1 == None <==> id < n.numFrames && GoodTiming(period, deadline, size, starting, endToEnd)
    ensures id >= n.numFrames ==> r == (n, Some(NoMoreFramesAllocated))
    ensures id < n.numFrames && r.1 != None ==> r.1 == Some(ErrorAddingFrame)
    ensures id < n.numFrames ==> (|r.0.frames| == |n.frames| && r.0.(frames := n.frames) == n &&
      (forall j :: 0 <= j < |n.frames| && j != id ==> r.0.frames[j] == n.frames[j]) &&
      r.0.frames[id].offsets == n.frames[id].offsets && r.0.frames[id].receivers == n.frames[id].receivers)
    ensures r.1 == None ==> (TimingChain(r.0.frames[id]) &&
      GetPeriod(r.0.frames[id]) == period && GetDeadline(r.0.frames[id]) == deadline &&
      GetSize(r.0.frames[id]) == size && GetStarting(r.0.frames[id]) == starting &&
      GetEndToEndDelay(r.0.frames[id]) == endToEnd)
    ensures r.1 == None && n.numLinks > 0 ==> (|r.0.frames[id].hash| == n.numLinks &&
      forall l :: 0 <= l < n.numLinks ==> GetFrameOffsetByLink(r.0.frames[id], l) == None)
    ensures id < n.numFrames && r.1 != None && period > 0 ==> GetPeriod(r.0.frames[id]) == period
  {
    if id >= n.numFrames then (n, Some(NoMoreFramesAllocated))
    else
      match SetPeriod(n.frames[id], period)
      case Err(_) => (n, Some(ErrorAddingFrame))
      case Ok(f1) =>
        match SetDeadline(f1, deadline)
        case Err(_) => (StoreFrame(n, id, f1), Some(ErrorAddingFrame))
        case Ok(f2) =>
          match SetSize(f2, size)
          case Err(_) => (StoreFrame(n, id, f2), Some(ErrorAddingFrame))
          case Ok(f3) =>
            match SetStarting(f3, starting)
            case Err(_) => (StoreFrame(n, id, f3), Some(ErrorAddingFrame))
            case Ok(f4) =>
              match SetEndToEndDelay(f4, endToEnd)
              case Err(_) => (StoreFrame(n, id, f4), Some(ErrorAddingFrame))
              case Ok(f5) =>
                var f6 := match InitHash(f5, n.numLinks) case Ok(g) => g case Err(_) => f5;
                (StoreFrame(n, id, f6), None)
  }

  /** Stores the medium of link `id` and then its speed. A refused speed ends
      with ErrorAddingLink, and the medium stays stored. */
  function AddLink(n: Network, id: int, speed: int, kind: LinkType): (r: (Network, Option<NetworkError>))
    requires id < n.numLinks ==> 0 <= id < |n.links|
    ensures r.1 == None <==> id < n.numLinks && speed > 0
    ensures id >= n.numLinks ==> r == (n, Some(NoMoreLinksAllocated))
    ensures id < n.numLinks ==> (|r.0.links| == |n.links| && r.0.(links := n.links) == n &&
      (forall j :: 0 <= j < |n.links| && j != id ==> r.0.links[j] == n.links[j]) &&
      GetLinkType(r.0.links[id]) == kind)
    ensures id < n.numLinks && speed > 0 ==> GetLinkSpeed(r.0.links[id]) == speed
    ensures id < n.numLinks && speed <= 0 ==> (r.1 == Some(ErrorAddingLink) &&
      GetLinkSpeed(r.0.links[id]) == GetLinkSpeed(n.links[id]))
  {
    if id >= n.numLinks then (n, Some(NoMoreLinksAllocated))
    else
      var typed := SetLinkType(n.links[id], kind);
      match SetLinkSpeed(typed, speed)
      case Err(_) => (n.(links := n.links[id := typed]), Some(ErrorAddingLink))
      case Ok(l) => (n.(links := n.links[id := l]), None)
  }

  // ---------------------------------------------------------------------------
  // The path catalog
  // ---------------------------------------------------------------------------

  /** Every (sender, receiver) pair of end-system positions. */
  function Pairs(m: int): set<(int, int)>
  {
    set s, r | 0 <= s < m && 0 <= r < m :: (s, r)
  }

  /** Allocates an empty path list for every pair of end systems. */
  function InitPathStructure(n: Network): (r: Result<Network, NetworkError>)
    ensures r.Ok? <==> n.numEndSystems > 0
    ensures r.Err? ==> r.error == NumEndSystemsNegative
    ensures r.Ok? ==> r.value.(paths := n.paths) == n
    ensures r.Ok? ==> forall s, t :: 0 <= s < n.numEndSystems && 0 <= t < n.numEndSystems ==>
      (s, t) in r.value.paths && r.value.paths[(s, t)] == []
    ensures r.Ok? ==> forall key :: key in r.value.paths ==>
      0 <= key.0 < n.numEndSystems && 0 <= key.1 < n.numEndSystems
  {
    if n.numEndSystems <= 0 then Err(NumEndSystemsNegative)
    else
      var cells := Pairs(n.numEndSystems);
      assert forall s, t :: 0 <= s < n.numEndSystems && 0 <= t < n.numEndSystems ==> (s, t) in cells;
      Ok(n.(paths := map key | key in cells :: []))
  }

  /** Both node identifiers resolve, through the end-systems hash, to a cell of
      the catalog. */
  predicate Routable(n: Network, s: int, t: int)
  {
    0 <= s < |n.endSystemsHash| && 0 <= t < |n.endSystemsHash| &&
    (n.endSystemsHash[s], n.endSystemsHash[t]) in n.paths
  }

  /** The candidate paths from node `s` to node `t` (none when they do not resolve). */
  function PathsBetween(n: Network, s: int, t: int): seq<seq<int>>
  {
    if Routable(n, s, t) then n.paths[(n.endSystemsHash[s], n.endSystemsHash[t])] else []
  }

  /** The identifiers `add_path` accepts: nodes of the network and a non-empty path. */
  predicate PathAccepted(n: Network, s: int, t: int, path: seq<int>)
  {
    0 <= s < n.numEndSystems + n.numSwitches && 0 <= t < n.numEndSystems + n.numSwitches && |path| > 0
  }

  /** Appends a copy of `path` to the catalog cell of (`s`, `t`). */
  function AddPath(n: Network, s: int, t: int, path: seq<int>): (r: Result<Network, NetworkError>)
    requires PathAccepted(n, s, t, path) ==> Routable(n, s, t)
    ensures r.Ok? <==> PathAccepted(n, s, t, path)
    ensures r.Err? ==> r.error == PathDoesNotExist
    ensures r.Ok? ==> r.value.(paths := n.paths) == n && r.value.paths.Keys == n.paths.Keys
    ensures r.Ok? ==> PathsBetween(r.value, s, t) == PathsBetween(n, s, t) + [path]
    ensures r.Ok? ==> forall key :: key in n.paths && key != (n.endSystemsHash[s], n.endSystemsHash[t]) ==>
      r.value.paths[key] == n.paths[key]
  {
    if !PathAccepted(n, s, t, path) then Err(PathDoesNotExist)
    else
      var key := (n.endSystemsHash[s], n.endSystemsHash[t]);
      Ok(n.(paths := n.paths[key := n.paths[key] + [path]]))
  }

  /** Both identifiers are end systems. */
  predicate EndSystems(n: Network, s: int, t: int)
  {
    0 <= s < n.numEndSystems && 0 <= t < n.numEndSystems
  }

  /** Path `p` from end system `s` to end system `t`, if it exists. */
  function GetPath(n: Network, s: int, t: int, p: int): (r: Option<seq<int>>)
    requires EndSystems(n, s, t) ==> Routable(n, s, t)
    ensures r.Some? <==> EndSystems(n, s, t) && 0 <= p < |PathsBetween(n, s, t)|
    ensures r.Some? ==> r.value == PathsBetween(n, s, t)[p]
  {
    if !EndSystems(n, s, t) then None
    else
      var cell := n.paths[(n.endSystemsHash[s], n.endSystemsHash[t])];
      if 0 <= p < |cell| then Some(cell[p]) else None
  }

  /** A path added between two end systems is found again at the end of their list. */
  lemma AddPathThenGetPath(n: Network, s: int, t: int, path: seq<int>, p: int)
    requires PathAccepted(n, s, t, path) && EndSystems(n, s, t) && Routable(n, s, t)
    ensures GetPath(AddPath(n, s, t, path).value, s, t, |PathsBetween(n, s, t)|) == Some(path)
    ensures 0 <= p < |PathsBetween(n, s, t)| ==> GetPath(AddPath(n, s, t, path).value, s, t, p) == GetPath(n, s, t, p)
  {
  }

  /** The outcome of the lookup as the C code performs it: no path, a path, or
      a read past the end of a path list. */
  datatype Lookup = NoPath | Found(path: seq<int>) | OutOfBounds

  /** The path lookup as written: the count guard keeps the lookup exactly when
      `p` exceeds the number of paths, and the path is then read from the cell
      whose receiver is the sender's position. */
  function GetPathAsWritten(n: Network, s: int, t: int, p: int): (r: Lookup)
    requires EndSystems(n, s, t) ==> (Routable(n, s, t) &&
      (n.endSystemsHash[s], n.endSystemsHash[s]) in n.paths)
    ensures r != NoPath <==> EndSystems(n, s, t) && p > |PathsBetween(n, s, t)|
    ensures r != NoPath ==> (r.Found? <==> p < |PathsBetween(n, s, s)|)
    ensures r.Found? ==> r.path == PathsBetween(n, s, s)[p] && GetPath(n, s, t, p) == None
  {
    if !EndSystems(n, s, t) then NoPath
    else
      var sp := n.endSystemsHash[s];
      var tp := n.endSystemsHash[t];
      if |n.paths[(sp, tp)]| >= p then NoPath
      else if 0 <= p < |n.paths[(sp, sp)]| then Found(n.paths[(sp, sp)][p])
      else OutOfBounds
  }

  /** The inverted count guard hides every catalogued path: for each path the
      intended lookup finds, the lookup as written reports none. */
  lemma GuardHidesEveryPath(n: Network, s: int, t: int, p: int)
    requires EndSystems(n, s, t) && Routable(n, s, t)
    requires (n.endSystemsHash[s], n.endSystemsHash[s]) in n.paths
    requires 0 <= p < |PathsBetween(n, s, t)|
    ensures GetPath(n, s, t, p) == Some(PathsBetween(n, s, t)[p])
    ensures GetPathAsWritten(n, s, t, p) == NoPath
  {
  }

  /** A two-end-system catalog with no path from 0 to 1 and two paths from 0
      to itself. */
  function WrongCellWitness(): Network
  {
    Empty().(numEndSystems := 2, endSystemsHash := [0, 1],
             paths := map[(0, 0) := [[7], [8]], (0, 1) := [], (1, 0) := [], (1, 1) := []])
  }

  /** What gets past the guard is read from the wrong cell: path 1 from 0 to 1
      does not exist, yet the lookup as written returns the path from 0 to 0. */
  lemma WrongCellExample()
    ensures GetPath(WrongCellWitness(), 0, 1, 1) == None
    ensures GetPathAsWritten(WrongCellWitness(), 0, 1, 1) == Found([8])
  {
    var n := WrongCellWitness();
    assert PathsBetween(n, 0, 1) == [];
  }
}
