/** A network link: its transmission speed and its medium. */
module Links {
  import opened Results

  /** The medium of a link. */
  datatype LinkType = Wired | Wireless | AccessPoint

  /** A link as stored in the topology: speed in MB/s and medium type. */
  datatype Link = Link(speed: int, kind: LinkType)

  /** The only error a link setter reports (SPEED_NEGATIVE). */
  datatype LinkError = SpeedNegative
  {
    function Code(): (c: int)
      ensures c < 0
    {
      -1
    }
  }

  /** A link can carry traffic once it has been given a positive speed. */
  predicate Configured(l: Link)
  {
    l.speed > 0
  }

  /** The placeholder a link holds before the topology is read: speed -1, wired. */
  function InitLink(): (l: Link)
    ensures !Configured(l)
    ensures l.kind == Wired && GetLinkSpeed(l) == -1
  {
    Link(-1, Wired)
  }

  function GetLinkSpeed(l: Link): int
  {
    l.speed
  }

  function GetLinkType(l: Link): LinkType
  {
    l.kind
  }

  /** Sets speed and medium together; a non-positive speed is refused and nothing changes. */
  function SetLink(l: Link, speed: int, kind: LinkType): (r: Result<Link, LinkError>)
    ensures r.Ok? <==> speed > 0
    ensures r.Ok? ==> Configured(r.value) && GetLinkSpeed(r.value) == speed && GetLinkType(r.value) == kind
    ensures r.Err? ==> r.error == SpeedNegative
  {
    if speed <= 0 then Err(SpeedNegative) else Ok(Link(speed, kind))
  }

  /** Sets the speed only; a non-positive speed is refused. */
  function SetLinkSpeed(l: Link, speed: int): (r: Result<Link, LinkError>)
    ensures r.Ok? <==> speed > 0
    ensures r.Ok? ==> GetLinkSpeed(r.value) == speed && GetLinkType(r.value) == GetLinkType(l)
    ensures r.Err? ==> r.error == SpeedNegative
  {
    if speed <= 0 then Err(SpeedNegative) else Ok(l.(speed := speed))
  }

  /** Sets the medium only; it never fails. */
  function SetLinkType(l: Link, kind: LinkType): (r: Link)
    ensures GetLinkType(r) == kind && GetLinkSpeed(r) == GetLinkSpeed(l)
  {
    l.(kind := kind)
  }

  /** Setting the speed and then the medium has the same effect as SetLink, and
      a link configured either way reads back what was written. */
  lemma SetLinkIsSpeedThenType(l: Link, speed: int, kind: LinkType)
    ensures SetLink(l, speed, kind).Ok? <==> SetLinkSpeed(l, speed).Ok?
    ensures SetLinkSpeed(l, speed).Ok? ==>
      SetLink(l, speed, kind).value == SetLinkType(SetLinkSpeed(l, speed).value, kind)
  {
  }
}
