/** Which stats a resolver's scope arguments select: the `itemType`/`value`
    pair and its shorthands, read with Python truthiness. */
module StatScope {
  import opened Records

  /** A row filter over stats, each case one of the ORM filters the resolvers use. */
  datatype Selector =
    | NodePlatform(name: Option<string>)  // node__platform__name=<name>
    | NodeProtocol(name: Option<string>)  // node__protocols__name=<name>
    | NodeHost(host: string)              // node__host=<host>
    | AnyNode                             // node__isnull=False
    | AllRows                             // Stat.objects.all()

  /** The values `node__platform__name` takes on the rows of the stat's outer
      join with its node and that node's platform: a single row, NULL when
      there is no node or the node has no platform. */
  function PlatformJoin(s: Stat): set<Option<string>> {
    if s.node.None? then {None} else {s.node.value.platform}
  }

  /** The values `node__protocols__name` takes on the rows of the outer join
      through the many-to-many table: a single NULL row when there is no
      node or it speaks no protocol, else one row per protocol. */
  function ProtocolJoin(s: Stat): set<Option<string>> {
    if s.node.None? || s.node.value.protocols == {} then {None}
    else set p | p in s.node.value.protocols :: Some(p)
  }

  /** Whether the filter keeps `s`. A lookup `field=v` keeps a stat when one
      of its joined rows has `v` in that column, and the ORM reads
      `field=None` as `field IS NULL`; so a missing name keeps the stats
      without a node or whose node has no platform (no protocol). */
  predicate Selects(sel: Selector, s: Stat): (b: bool)
    ensures sel.NodePlatform? ==> (b <==> sel.name in PlatformJoin(s))
    ensures sel.NodeProtocol? ==> (b <==> sel.name in ProtocolJoin(s))
    ensures sel.NodeHost? ==> (b <==> s.node.Some? && s.node.value.host == sel.host)
    ensures sel.AnyNode? ==> (b <==> s.node.Some?)
    ensures sel.AllRows? ==> b
  {
    match sel
    case NodePlatform(name) =>
      if name.Some? then s.node.Some? && s.node.value.platform == name
      else s.node.None? || s.node.value.platform.None?
    case NodeProtocol(name) =>
      if name.Some? then s.node.Some? && name.value in s.node.value.protocols
      else s.node.None? || s.node.value.protocols == {}
    case NodeHost(host) => s.node.Some? && s.node.value.host == host
    case AnyNode => s.node.Some?
    case AllRows => true
  }

  function SelectorFilter(sel: Selector): Stat -> bool {
    s => Selects(sel, s)
  }

  predicate IsItemType(t: string) {
    t == "platform" || t == "protocol" || t == "node"
  }

  /** The scope branch of the date aggregates (`_get_stat_date_counts` and
      the same branch in the ratio and per-node average resolvers). */
  function DateScope(value: Option<string>, itemType: Option<string>): (r: Result<Selector, Error>)
    ensures r.Failure? <==> Truthy(value) && Truthy(itemType) && !IsItemType(itemType.value)
    ensures !(Truthy(value) && Truthy(itemType)) ==> r == Success(AnyNode)
    ensures r.Success? && Truthy(value) && Truthy(itemType) ==>
      forall s :: Selects(r.value, s) <==>
        s.node.Some? &&
        (if itemType.value == "platform" then s.node.value.platform == Some(value.value)
         else if itemType.value == "protocol" then value.value in s.node.value.protocols
         else s.node.value.host == value.value)
    ensures r.Success? ==> forall s :: Selects(r.value, s) ==> s.node.Some?
  {
    if Truthy(value) && Truthy(itemType) then
      if itemType.value == "platform" then Success(NodePlatform(value))
      else if itemType.value == "protocol" then Success(NodeProtocol(value))
      else if itemType.value == "node" then Success(NodeHost(value.value))
      else Failure(ValueError("itemType should be \"platform\", \"node\" or \"protocol"))
    else Success(AnyNode)
  }
}
