/** The `platforms` and `protocols` fields: the entries with at least one
    active node, annotated with their number of active nodes, most first. */
module Listings {
  import opened Records
  import opened Seqs

  /** An entry annotated with its `active_nodes` column. */
  datatype Ranked<T> = Ranked(entry: T, activeNodes: int)

  function EntryOf<T>(row: Ranked<T>): T {
    row.entry
  }

  function ActiveKey<T>(row: Ranked<T>): Option<int> {
    Some(row.activeNodes)
  }

  /** The `Count('*')` subquery grouped by entry: NULL when no row matches,
      else the number of rows. */
  function CountOrNull(n: nat): (r: Option<int>)
    ensures r.Some? ==> r.value > 0
    ensures r.None? <==> n == 0
  {
    if n == 0 then None else Some(n)
  }

  /** Whether `active_nodes__gt=0` keeps an entry: a NULL count does not compare. */
  predicate Kept<T>(count: T -> nat, e: T) {
    var c := CountOrNull(count(e));
    c.Some? && c.value > 0
  }

  function KeptFilter<T>(count: T -> nat): T -> bool {
    e => Kept(count, e)
  }

  /** The annotated rows of entries whose count is not NULL. */
  function AnnotateCounts<T>(kept: seq<T>, count: T -> nat): (rows: seq<Ranked<T>>)
    requires forall i :: 0 <= i < |kept| ==> count(kept[i]) > 0
    ensures |rows| == |kept|
    ensures forall i :: 0 <= i < |kept| ==> rows[i] == Ranked(kept[i], count(kept[i]))
  {
    seq(|kept|, i requires 0 <= i < |kept| => Ranked(kept[i], CountOrNull(count(kept[i])).value))
  }

  /** `qs.annotate(active_nodes=Subquery(...)).filter(active_nodes__gt=0)
      .order_by('-active_nodes')`, where `count` is the number of rows the
      subquery counts for an entry. */
  function RankByActiveNodes<T(==,!new)>(entries: seq<T>, count: T -> nat): (r: seq<Ranked<T>>)
    ensures forall i, j :: 0 <= i < j < |r| ==> r[i].activeNodes >= r[j].activeNodes
    ensures forall i :: 0 <= i < |r| ==> r[i].activeNodes > 0 && count(r[i].entry) == r[i].activeNodes
    ensures forall e :: (exists i :: 0 <= i < |r| && r[i].entry == e) <==> e in entries && count(e) > 0
    ensures |r| == |Filter(entries, KeptFilter(count))|
    ensures multiset(Project(r, EntryOf)) == multiset(Filter(entries, KeptFilter(count)))
  {
    var kept := Filter(entries, KeptFilter(count));
    assert forall e :: e in kept <==> e in entries && count(e) > 0;
    assert forall i :: 0 <= i < |kept| ==> count(kept[i]) > 0 by {
      forall i | 0 <= i < |kept| ensures count(kept[i]) > 0 {
        assert kept[i] in kept;
      }
    }
    var rows := AnnotateCounts(kept, count);
    var r := SortDesc(rows, ActiveKey);
    ReorderedRanks(kept, count, rows, r);
    SortedByCount(r);
    SortedEntries(kept, count);
    r
  }

  /** Sorting the annotated rows of `kept` permutes the entries of `kept`. */
  lemma SortedEntries<T>(kept: seq<T>, count: T -> nat)
    requires forall i :: 0 <= i < |kept| ==> count(kept[i]) > 0
    ensures multiset(Project(SortDesc(AnnotateCounts(kept, count), ActiveKey), EntryOf)) == multiset(kept)
  {
    var rows := AnnotateCounts(kept, count);
    ProjectSortDesc(rows, ActiveKey, EntryOf);
    assert Project(rows, EntryOf) == kept;
  }

  lemma SortedByCount<T>(r: seq<Ranked<T>>)
    requires SortedDesc(r, ActiveKey)
    ensures forall i, j :: 0 <= i < j < |r| ==> r[i].activeNodes >= r[j].activeNodes
  {
    forall i, j | 0 <= i < j < |r| ensures r[i].activeNodes >= r[j].activeNodes {
      assert Precedes(ActiveKey(r[i]), ActiveKey(r[j]));
    }
  }

  lemma ReorderedRanks<T>(kept: seq<T>, count: T -> nat, rows: seq<Ranked<T>>, r: seq<Ranked<T>>)
    requires forall e :: e in kept ==> count(e) > 0
    requires |rows| == |kept|
    requires forall i :: 0 <= i < |kept| ==> rows[i] == Ranked(kept[i], count(kept[i]))
    requires multiset(r) == multiset(rows)
    ensures |r| == |kept|
    ensures forall e :: (exists i :: 0 <= i < |r| && r[i].entry == e) <==> e in kept
    ensures forall i :: 0 <= i < |r| ==> r[i].activeNodes > 0 && count(r[i].entry) == r[i].activeNodes
  {
    assert |r| == |rows| by {
      assert |multiset(r)| == |multiset(rows)|;
    }
    forall e | exists i :: 0 <= i < |r| && r[i].entry == e ensures e in kept {
      var i :| 0 <= i < |r| && r[i].entry == e;
      assert r[i] in multiset(rows);
      var k :| 0 <= k < |rows| && rows[k] == r[i];
      assert kept[k] == e;
    }
    forall e | e in kept ensures exists i :: 0 <= i < |r| && r[i].entry == e {
      var k :| 0 <= k < |kept| && kept[k] == e;
      assert rows[k] in multiset(r);
      var i :| 0 <= i < |r| && r[i] == rows[k];
      assert r[i].entry == e;
    }
    forall i | 0 <= i < |r| ensures r[i].activeNodes > 0 && count(r[i].entry) == r[i].activeNodes {
      assert r[i] in multiset(rows);
      var k :| 0 <= k < |rows| && rows[k] == r[i];
      assert kept[k] in kept;
    }
  }

  predicate RunsPlatform(n: Node, name: string) {
    n.active && n.platform == Some(name)
  }

  predicate SpeaksProtocol(n: Node, name: string) {
    n.active && name in n.protocols
  }

  function RunsPlatformFilter(name: string): Node -> bool {
    n => RunsPlatform(n, name)
  }

  function SpeaksProtocolFilter(name: string): Node -> bool {
    n => SpeaksProtocol(n, name)
  }

  /** The `Count('*')` of active nodes on platform `name`. */
  function ActiveOnPlatform(nodes: seq<Node>, name: string): (c: nat)
    ensures c <= |nodes|
    ensures c == 0 <==> forall n :: n in nodes ==> !RunsPlatform(n, name)
  {
    var r := Filter(nodes, RunsPlatformFilter(name));
    assert r != [] ==> r[0] in r;
    |r|
  }

  /** The `Count('*')` of active nodes speaking protocol `name`. */
  function ActiveOnProtocol(nodes: seq<Node>, name: string): (c: nat)
    ensures c <= |nodes|
    ensures c == 0 <==> forall n :: n in nodes ==> !SpeaksProtocol(n, name)
  {
    var r := Filter(nodes, SpeaksProtocolFilter(name));
    assert r != [] ==> r[0] in r;
    |r|
  }

  /** The two counts count: a single node adds one exactly when it is an
      active node of that platform (protocol), and counts of two parts of
      the node table add up. */
  lemma {:induction false} ActiveCountsAdd(a: seq<Node>, b: seq<Node>, n: Node, name: string)
    ensures ActiveOnPlatform([n], name) == if RunsPlatform(n, name) then 1 else 0
    ensures ActiveOnProtocol([n], name) == if SpeaksProtocol(n, name) then 1 else 0
    ensures ActiveOnPlatform(a + b, name) == ActiveOnPlatform(a, name) + ActiveOnPlatform(b, name)
    ensures ActiveOnProtocol(a + b, name) == ActiveOnProtocol(a, name) + ActiveOnProtocol(b, name)
  {
    assert [n][1..] == [];
    FilterConcatLength(a, b, RunsPlatformFilter(name));
    FilterConcatLength(a, b, SpeaksProtocolFilter(name));
  }

  function PlatformCount(nodes: seq<Node>): Platform -> nat {
    (p: Platform) => ActiveOnPlatform(nodes, p.name)
  }

  function ProtocolCount(nodes: seq<Node>): Protocol -> nat {
    (p: Protocol) => ActiveOnProtocol(nodes, p.name)
  }

  /** The `name` filter: a non-empty name is lower-cased, then matched exactly. */
  predicate NameMatches(entryName: string, name: Option<string>) {
    Truthy(name) ==> entryName == Lower(name.value)
  }

  /** The platforms the `name` argument selects, each as often as in the table. */
  function NamedPlatforms(platforms: seq<Platform>, name: Option<string>): (qs: seq<Platform>)
    ensures forall p :: p in qs <==> p in platforms && NameMatches(p.name, name)
    ensures forall p :: multiset(qs)[p] == if NameMatches(p.name, name) then multiset(platforms)[p] else 0
  {
    if Truthy(name) then Filter(platforms, (p: Platform) => p.name == Lower(name.value)) else platforms
  }

  /** The protocols the `name` argument selects, each as often as in the table. */
  function NamedProtocols(protocols: seq<Protocol>, name: Option<string>): (qs: seq<Protocol>)
    ensures forall p :: p in qs <==> p in protocols && NameMatches(p.name, name)
    ensures forall p :: multiset(qs)[p] == if NameMatches(p.name, name) then multiset(protocols)[p] else 0
  {
    if Truthy(name) then Filter(protocols, (p: Protocol) => p.name == Lower(name.value)) else protocols
  }

  /** Whether `resolve_platforms(name)` lists platform `p`. */
  predicate ListedPlatform(nodes: seq<Node>, name: Option<string>, p: Platform) {
    NameMatches(p.name, name) && ActiveOnPlatform(nodes, p.name) > 0
  }

  function ListedPlatformFilter(nodes: seq<Node>, name: Option<string>): Platform -> bool {
    p => ListedPlatform(nodes, name, p)
  }

  /** Whether `resolve_protocols(name)` lists protocol `p`. */
  predicate ListedProtocol(nodes: seq<Node>, name: Option<string>, p: Protocol) {
    NameMatches(p.name, name) && ActiveOnProtocol(nodes, p.name) > 0
  }

  function ListedProtocolFilter(nodes: seq<Node>, name: Option<string>): Protocol -> bool {
    p => ListedProtocol(nodes, name, p)
  }

  /** Ranking the named platforms keeps each listed platform as often as the table holds it. */
  lemma PlatformsListedOnce(platforms: seq<Platform>, nodes: seq<Node>, name: Option<string>)
    ensures multiset(Project(RankByActiveNodes(NamedPlatforms(platforms, name), PlatformCount(nodes)), EntryOf))
         == multiset(Filter(platforms, ListedPlatformFilter(nodes, name)))
  {
    var qs := NamedPlatforms(platforms, name);
    forall p ensures ListedPlatformFilter(nodes, name)(p) == (NameMatches(p.name, name) && KeptFilter(PlatformCount(nodes))(p)) {
      assert PlatformCount(nodes)(p) == ActiveOnPlatform(nodes, p.name);
    }
    FilterSelected(platforms, qs, (p: Platform) => NameMatches(p.name, name), KeptFilter(PlatformCount(nodes)),
                   ListedPlatformFilter(nodes, name));
  }

  /** Ranking the named protocols keeps each listed protocol as often as the table holds it. */
  lemma ProtocolsListedOnce(protocols: seq<Protocol>, nodes: seq<Node>, name: Option<string>)
    ensures multiset(Project(RankByActiveNodes(NamedProtocols(protocols, name), ProtocolCount(nodes)), EntryOf))
         == multiset(Filter(protocols, ListedProtocolFilter(nodes, name)))
  {
    var qs := NamedProtocols(protocols, name);
    forall p ensures ListedProtocolFilter(nodes, name)(p) == (NameMatches(p.name, name) && KeptFilter(ProtocolCount(nodes))(p)) {
      assert ProtocolCount(nodes)(p) == ActiveOnProtocol(nodes, p.name);
    }
    FilterSelected(protocols, qs, (p: Protocol) => NameMatches(p.name, name), KeptFilter(ProtocolCount(nodes)),
                   ListedProtocolFilter(nodes, name));
  }

  /** The counts, membership and names of the ranked platforms. */
  lemma PlatformsRanked(platforms: seq<Platform>, nodes: seq<Node>, name: Option<string>)
    ensures var r := RankByActiveNodes(NamedPlatforms(platforms, name), PlatformCount(nodes));
      && (forall i :: 0 <= i < |r| ==> r[i].activeNodes == ActiveOnPlatform(nodes, r[i].entry.name))
      && (forall p :: (exists i :: 0 <= i < |r| && r[i].entry == p) <==>
            p in platforms && NameMatches(p.name, name) && ActiveOnPlatform(nodes, p.name) > 0)
      && (Truthy(name) ==> forall i :: 0 <= i < |r| ==> IsLower(r[i].entry.name))
  {
    var qs := NamedPlatforms(platforms, name);
    var r := RankByActiveNodes(qs, PlatformCount(nodes));
    forall i | 0 <= i < |r|
      ensures r[i].activeNodes == ActiveOnPlatform(nodes, r[i].entry.name)
      ensures Truthy(name) ==> IsLower(r[i].entry.name)
    {
      assert PlatformCount(nodes)(r[i].entry) == ActiveOnPlatform(nodes, r[i].entry.name);
      assert r[i].entry in qs;
    }
    forall p
      ensures (exists i :: 0 <= i < |r| && r[i].entry == p) <==>
              p in platforms && NameMatches(p.name, name) && ActiveOnPlatform(nodes, p.name) > 0
    {
      assert PlatformCount(nodes)(p) == ActiveOnPlatform(nodes, p.name);
    }
  }

  /** `resolve_platforms(name)`. */
  function ResolvePlatforms(platforms: seq<Platform>, nodes: seq<Node>, name: Option<string>): (r: seq<Ranked<Platform>>)
    ensures forall i, j :: 0 <= i < j < |r| ==> r[i].activeNodes >= r[j].activeNodes
    ensures forall i :: 0 <= i < |r| ==>
      r[i].activeNodes > 0 && r[i].activeNodes == ActiveOnPlatform(nodes, r[i].entry.name)
    ensures forall p :: (exists i :: 0 <= i < |r| && r[i].entry == p) <==>
      p in platforms && NameMatches(p.name, name) && ActiveOnPlatform(nodes, p.name) > 0
    ensures multiset(Project(r, EntryOf)) == multiset(Filter(platforms, ListedPlatformFilter(nodes, name)))
    ensures Truthy(name) ==> forall i :: 0 <= i < |r| ==> IsLower(r[i].entry.name)
  {
    var r := RankByActiveNodes(NamedPlatforms(platforms, name), PlatformCount(nodes));
    PlatformsRanked(platforms, nodes, name);
    PlatformsListedOnce(platforms, nodes, name);
    r
  }

  /** The counts, membership and names of the ranked protocols. */
  lemma ProtocolsRanked(protocols: seq<Protocol>, nodes: seq<Node>, name: Option<string>)
    ensures var r := RankByActiveNodes(NamedProtocols(protocols, name), ProtocolCount(nodes));
      && (forall i :: 0 <= i < |r| ==> r[i].activeNodes == ActiveOnProtocol(nodes, r[i].entry.name))
      && (forall p :: (exists i :: 0 <= i < |r| && r[i].entry == p) <==>
            p in protocols && NameMatches(p.name, name) && ActiveOnProtocol(nodes, p.name) > 0)
      && (Truthy(name) ==> forall i :: 0 <= i < |r| ==> IsLower(r[i].entry.name))
  {
    var qs := NamedProtocols(protocols, name);
    var r := RankByActiveNodes(qs, ProtocolCount(nodes));
    forall i | 0 <= i < |r|
      ensures r[i].activeNodes == ActiveOnProtocol(nodes, r[i].entry.name)
      ensures Truthy(name) ==> IsLower(r[i].entry.name)
    {
      assert ProtocolCount(nodes)(r[i].entry) == ActiveOnProtocol(nodes, r[i].entry.name);
      assert r[i].entry in qs;
    }
    forall p
      ensures (exists i :: 0 <= i < |r| && r[i].entry == p) <==>
              p in protocols && NameMatches(p.name, name) && ActiveOnProtocol(nodes, p.name) > 0
    {
      assert ProtocolCount(nodes)(p) == ActiveOnProtocol(nodes, p.name);
    }
  }

  /** `resolve_protocols(name)`. */
  function ResolveProtocols(protocols: seq<Protocol>, nodes: seq<Node>, name: Option<string>): (r: seq<Ranked<Protocol>>)
    ensures forall i, j :: 0 <= i < j < |r| ==> r[i].activeNodes >= r[j].activeNodes
    ensures forall i :: 0 <= i < |r| ==>
      r[i].activeNodes > 0 && r[i].activeNodes == ActiveOnProtocol(nodes, r[i].entry.name)
    ensures forall p :: (exists i :: 0 <= i < |r| && r[i].entry == p) <==>
      p in protocols && NameMatches(p.name, name) && ActiveOnProtocol(nodes, p.name) > 0
    ensures multiset(Project(r, EntryOf)) == multiset(Filter(protocols, ListedProtocolFilter(nodes, name)))
    ensures Truthy(name) ==> forall i :: 0 <= i < |r| ==> IsLower(r[i].entry.name)
  {
    var r := RankByActiveNodes(NamedProtocols(protocols, name), ProtocolCount(nodes));
    ProtocolsRanked(protocols, nodes, name);
    ProtocolsListedOnce(protocols, nodes, name);
    r
  }
}
