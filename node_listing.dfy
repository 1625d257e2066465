/** The `nodes` field: active nodes, optionally narrowed by platform or
    protocol and by host, each with today's monthly active users, largest
    first and unknown counts last. */
module NodeListing {
  import opened Records
  import opened Seqs

  /** A node annotated with the `users` column. */
  datatype NodeRow = NodeRow(node: Node, users: Option<int>)

  /** A stat the `users` subquery of node `pk` reads: that node's stat dated `today`. */
  predicate IsStatOfOn(s: Stat, pk: int, today: int) {
    s.node.Some? && s.node.value.pk == pk && s.date == today
  }

  /** The `users` subquery: today's `users_monthly` of node `pk`, NULL when
      the node has no stat today. */
  function UsersToday(stats: seq<Stat>, pk: int, today: int): (r: Option<int>)
    ensures r.None? <==> forall i :: 0 <= i < |stats| ==> !IsStatOfOn(stats[i], pk, today)
    ensures r.Some? ==> exists i :: 0 <= i < |stats| && IsStatOfOn(stats[i], pk, today) && stats[i].usersMonthly == r.value
  {
    match First(stats, (s: Stat) => IsStatOfOn(s, pk, today))
    case None => None
    case Some(s) => Some(s.usersMonthly)
  }

  /** Whether `resolve_nodes` lists node `n`: it is active, runs the
      platform when one is given, else speaks the protocol when one is
      given, and has the host when one is given. */
  predicate Listed(n: Node, host: Option<string>, platform: Option<string>, protocol: Option<string>) {
    && n.active
    && (if Truthy(platform) then n.platform == Some(platform.value)
        else if Truthy(protocol) then protocol.value in n.protocols
        else true)
    && (Truthy(host) ==> n.host == host.value)
  }

  function ListedFilter(host: Option<string>, platform: Option<string>, protocol: Option<string>): Node -> bool {
    n => Listed(n, host, platform, protocol)
  }

  function NodeOf(row: NodeRow): Node {
    row.node
  }

  function UsersKey(row: NodeRow): Option<int> {
    row.users
  }

  function Annotate(ns: seq<Node>, stats: seq<Stat>, today: int): (r: seq<NodeRow>)
    ensures |r| == |ns|
    ensures forall i :: 0 <= i < |ns| ==> r[i] == NodeRow(ns[i], UsersToday(stats, ns[i].pk, today))
  {
    seq(|ns|, i requires 0 <= i < |ns| => NodeRow(ns[i], UsersToday(stats, ns[i].pk, today)))
  }

  /** `resolve_nodes(host, platform, protocol)` on the day `today`. */
  function ResolveNodes(nodes: seq<Node>, stats: seq<Stat>, today: int,
                        host: Option<string>, platform: Option<string>, protocol: Option<string>): (r: seq<NodeRow>)
    // ordered by users, descending, NULLs last
    ensures forall i, j :: 0 <= i < j < |r| && r[j].users.Some? ==>
      r[i].users.Some? && r[i].users.value >= r[j].users.value
    // exactly the listed nodes, each once per occurrence in the table
    ensures |r| == |Filter(nodes, ListedFilter(host, platform, protocol))|
    ensures multiset(Project(r, NodeOf)) == multiset(Filter(nodes, ListedFilter(host, platform, protocol)))
    ensures forall n :: (exists i :: 0 <= i < |r| && r[i].node == n) <==> n in nodes && Listed(n, host, platform, protocol)
    ensures forall i :: 0 <= i < |r| ==> r[i].node.active
    ensures Truthy(host) ==> forall i :: 0 <= i < |r| ==> r[i].node.host == host.value
    // users is today's monthly active users of the node, NULL without a stat today
    ensures forall i :: 0 <= i < |r| ==>
      (r[i].users.None? <==> forall k :: 0 <= k < |stats| ==> !IsStatOfOn(stats[k], r[i].node.pk, today))
    ensures forall i :: 0 <= i < |r| && r[i].users.Some? ==>
      exists k :: 0 <= k < |stats| && IsStatOfOn(stats[k], r[i].node.pk, today) && stats[k].usersMonthly == r[i].users.value
  {
    RankByUsers(Filter(nodes, ListedFilter(host, platform, protocol)), stats, today)
  }

  /** `kept.annotate(users=...).order_by(F('users').desc(nulls_last=True))`. */
  function RankByUsers(kept: seq<Node>, stats: seq<Stat>, today: int): (r: seq<NodeRow>)
    ensures forall i, j :: 0 <= i < j < |r| && r[j].users.Some? ==>
      r[i].users.Some? && r[i].users.value >= r[j].users.value
    ensures |r| == |kept|
    ensures multiset(Project(r, NodeOf)) == multiset(kept)
    ensures forall n :: (exists i :: 0 <= i < |r| && r[i].node == n) <==> n in kept
    ensures forall i :: 0 <= i < |r| ==> r[i].node in kept && r[i].users == UsersToday(stats, r[i].node.pk, today)
  {
    var r := SortDesc(Annotate(kept, stats, today), UsersKey);
    ReorderedRows(kept, stats, today, r);
    SortedNodes(kept, stats, today);
    r
  }

  /** Sorting the annotated rows of `kept` permutes the nodes of `kept`. */
  lemma SortedNodes(kept: seq<Node>, stats: seq<Stat>, today: int)
    ensures multiset(Project(SortDesc(Annotate(kept, stats, today), UsersKey), NodeOf)) == multiset(kept)
  {
    var rows := Annotate(kept, stats, today);
    ProjectSortDesc(rows, UsersKey, NodeOf);
    assert Project(rows, NodeOf) == kept;
  }

  /** What a reordering of the annotated rows of `kept` holds. */
  lemma ReorderedRows(kept: seq<Node>, stats: seq<Stat>, today: int, r: seq<NodeRow>)
    requires multiset(r) == multiset(Annotate(kept, stats, today))
    ensures |r| == |kept|
    ensures forall n :: (exists i :: 0 <= i < |r| && r[i].node == n) <==> n in kept
    ensures forall i :: 0 <= i < |r| ==> r[i].node in kept && r[i].users == UsersToday(stats, r[i].node.pk, today)
  {
    var rows := Annotate(kept, stats, today);
    assert |r| == |rows| by {
      assert |multiset(r)| == |multiset(rows)|;
    }
    forall n | exists i :: 0 <= i < |r| && r[i].node == n ensures n in kept {
      var i :| 0 <= i < |r| && r[i].node == n;
      assert r[i] in multiset(rows);
      var k :| 0 <= k < |rows| && rows[k] == r[i];
      assert kept[k] == n;
    }
    forall n | n in kept ensures exists i :: 0 <= i < |r| && r[i].node == n {
      var k :| 0 <= k < |kept| && kept[k] == n;
      assert rows[k] in multiset(r);
      var i :| 0 <= i < |r| && r[i] == rows[k];
      assert r[i].node == n;
    }
    forall i | 0 <= i < |r| ensures r[i].node in kept && r[i].users == UsersToday(stats, r[i].node.pk, today) {
      assert r[i] in multiset(rows);
      var k :| 0 <= k < |rows| && rows[k] == r[i];
    }
  }

  /** A non-empty platform takes precedence: the protocol argument is then ignored. */
  lemma PlatformOverridesProtocol(nodes: seq<Node>, stats: seq<Stat>, today: int,
                                  host: Option<string>, platform: Option<string>, protocol: Option<string>)
    requires Truthy(platform)
    ensures ResolveNodes(nodes, stats, today, host, platform, protocol) == ResolveNodes(nodes, stats, today, host, platform, None)
  {
    FilterExtensional(nodes, ListedFilter(host, platform, protocol), ListedFilter(host, platform, None));
  }
}
