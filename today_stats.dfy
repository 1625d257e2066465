/** The fields that read today's stats: `stats_nodes` (today's per-node
    stats, optionally scoped) and `stats_platform_today` /
    `stats_protocol_today` (the one stat of a platform or protocol). */
module TodayStats {
  import opened Records
  import opened Seqs
  import opened StatScope

  /** The scope branch of `resolve_stats_nodes`: a non-empty `itemType` wins
      (with `value`, which may be missing), then a non-empty `platform`,
      then a non-empty `protocol`. An `itemType` other than 'platform' or
      'protocol' selects every row and raises nothing. */
  function StatsNodesScope(itemType: Option<string>, platform: Option<string>, protocol: Option<string>,
                           value: Option<string>): (sel: Selector)
    ensures sel.NodePlatform? || sel.NodeProtocol? || sel.AllRows?
    ensures Truthy(itemType) && itemType.value == "platform" ==> sel == NodePlatform(value)
    ensures Truthy(itemType) && itemType.value == "protocol" ==> sel == NodeProtocol(value)
    ensures !Truthy(itemType) && Truthy(platform) ==> sel == NodePlatform(platform)
    ensures !Truthy(itemType) && !Truthy(platform) && Truthy(protocol) ==> sel == NodeProtocol(protocol)
    ensures !Truthy(itemType) && !Truthy(platform) && !Truthy(protocol) ==> sel == AllRows
    ensures Truthy(itemType) && itemType.value != "platform" && itemType.value != "protocol" ==> sel == AllRows
  {
    if Truthy(itemType) then
      if itemType.value == "platform" then NodePlatform(value)
      else if itemType.value == "protocol" then NodeProtocol(value)
      else AllRows
    else if Truthy(platform) then NodePlatform(platform)
    else if Truthy(protocol) then NodeProtocol(protocol)
    else AllRows
  }

  /** The filters `resolve_stats_nodes` chains after its scope: the node's
      host when one is given, then the date and the per-node subject. */
  predicate KeepsNodeStat(s: Stat, sel: Selector, host: Option<string>, today: int) {
    && Selects(sel, s)
    && (Truthy(host) ==> s.node.Some? && s.node.value.host == host.value)
    && s.date == today && s.node.Some? && s.protocol.None? && s.platform.None?
  }

  function NodeStatFilter(sel: Selector, host: Option<string>, today: int): Stat -> bool {
    s => KeepsNodeStat(s, sel, host, today)
  }

  /** `resolve_stats_nodes(host, itemType, platform, protocol, value)` on the day `today`. */
  function ResolveStatsNodes(stats: seq<Stat>, today: int, host: Option<string>, itemType: Option<string>,
                             platform: Option<string>, protocol: Option<string>, value: Option<string>): (r: seq<Stat>)
    ensures forall s :: s in r ==> s.date == today && s.node.Some? && s.platform.None? && s.protocol.None?
    ensures Truthy(host) ==> forall s :: s in r ==> s.node.value.host == host.value
    ensures forall s :: multiset(r)[s] ==
                        (if KeepsNodeStat(s, StatsNodesScope(itemType, platform, protocol, value), host, today)
                         then multiset(stats)[s] else 0)
  {
    Filter(stats, NodeStatFilter(StatsNodesScope(itemType, platform, protocol, value), host, today))
  }

  /** A non-empty `itemType` makes the `platform` and `protocol` arguments irrelevant. */
  lemma ItemTypeOverridesShorthands(stats: seq<Stat>, today: int, host: Option<string>, itemType: Option<string>,
                                    platform: Option<string>, protocol: Option<string>, value: Option<string>)
    requires Truthy(itemType)
    ensures ResolveStatsNodes(stats, today, host, itemType, platform, protocol, value)
         == ResolveStatsNodes(stats, today, host, itemType, None, None, value)
  {
  }

  /** An `itemType` of 'node' or any unknown value is the unscoped query, not an error. */
  lemma OtherItemTypeIsUnscoped(stats: seq<Stat>, today: int, host: Option<string>, itemType: Option<string>,
                                platform: Option<string>, protocol: Option<string>, value: Option<string>)
    requires Truthy(itemType) && itemType.value != "platform" && itemType.value != "protocol"
    ensures ResolveStatsNodes(stats, today, host, itemType, platform, protocol, value)
         == ResolveStatsNodes(stats, today, host, None, None, None, None)
  {
  }

  /** Without an `itemType` (missing or empty), a non-empty `platform` makes
      `protocol` and `value` irrelevant. */
  lemma PlatformOverridesProtocolStats(stats: seq<Stat>, today: int, host: Option<string>, itemType: Option<string>,
                                       platform: Option<string>, protocol: Option<string>, value: Option<string>)
    requires !Truthy(itemType) && Truthy(platform)
    ensures ResolveStatsNodes(stats, today, host, itemType, platform, protocol, value)
         == ResolveStatsNodes(stats, today, host, None, platform, None, None)
  {
  }

  /** With `itemType` 'platform' or 'protocol' and no `value`, the ORM reads
      the missing value as IS NULL: only stats of nodes without a platform
      (without any protocol) are returned. */
  lemma {:induction false} StatsNodesMissingValue(stats: seq<Stat>, today: int, host: Option<string>,
                                 itemType: Option<string>, platform: Option<string>, protocol: Option<string>)
    requires itemType == Some("platform") || itemType == Some("protocol")
    ensures forall s :: s in ResolveStatsNodes(stats, today, host, itemType, platform, protocol, None) ==>
      if itemType == Some("platform") then s.node.value.platform.None? else s.node.value.protocols == {}
    ensures forall s :: (multiset(ResolveStatsNodes(stats, today, host, itemType, platform, protocol, None))[s] ==
      (if TodayNodeStat(s, host, today) &&
          (if itemType == Some("platform") then s.node.value.platform.None? else s.node.value.protocols == {})
       then multiset(stats)[s] else 0))
  {
    var r := ResolveStatsNodes(stats, today, host, itemType, platform, protocol, None);
    var sel := StatsNodesScope(itemType, platform, protocol, None);
    forall s | s in r
      ensures if itemType == Some("platform") then s.node.value.platform.None? else s.node.value.protocols == {}
    {
      assert s in multiset(r);
      assert KeepsNodeStat(s, sel, host, today);
    }
  }

  /** The per-node stat filters of `resolve_stats_nodes` other than its scope. */
  predicate TodayNodeStat(s: Stat, host: Option<string>, today: int) {
    && s.date == today && s.node.Some? && s.platform.None? && s.protocol.None?
    && (Truthy(host) ==> s.node.value.host == host.value)
  }

  /** With `itemType` 'platform' and a value `v`, a stat is returned (as often
      as it occurs) iff it is today's per-node stat of a node running `v`,
      with the host when one is given. */
  lemma {:induction false} StatsNodesByPlatform(stats: seq<Stat>, today: int, host: Option<string>,
                                               platform: Option<string>, protocol: Option<string>, value: Option<string>)
    requires Truthy(value)
    ensures forall s :: (multiset(ResolveStatsNodes(stats, today, host, Some("platform"), platform, protocol, value))[s] ==
      (if TodayNodeStat(s, host, today) && s.node.value.platform == Some(value.value) then multiset(stats)[s] else 0))
  {
    var sel := StatsNodesScope(Some("platform"), platform, protocol, value);
    assert sel == NodePlatform(value);
    forall s ensures KeepsNodeStat(s, sel, host, today) <==>
                     TodayNodeStat(s, host, today) && s.node.value.platform == Some(value.value) {
    }
  }

  /** With `itemType` 'protocol' and a value `v`, a stat is returned (as often
      as it occurs) iff it is today's per-node stat of a node speaking `v`,
      with the host when one is given. */
  lemma {:induction false} StatsNodesByProtocol(stats: seq<Stat>, today: int, host: Option<string>,
                                               platform: Option<string>, protocol: Option<string>, value: Option<string>)
    requires Truthy(value)
    ensures forall s :: (multiset(ResolveStatsNodes(stats, today, host, Some("protocol"), platform, protocol, value))[s] ==
      (if TodayNodeStat(s, host, today) && value.value in s.node.value.protocols then multiset(stats)[s] else 0))
  {
    var sel := StatsNodesScope(Some("protocol"), platform, protocol, value);
    assert sel == NodeProtocol(value);
    forall s ensures KeepsNodeStat(s, sel, host, today) <==>
                     TodayNodeStat(s, host, today) && value.value in s.node.value.protocols {
    }
  }

  predicate IsPlatformStatOn(s: Stat, name: string, today: int) {
    s.node.None? && s.protocol.None? && s.platform == Some(name) && s.date == today
  }

  predicate IsProtocolStatOn(s: Stat, name: string, today: int) {
    s.node.None? && s.platform.None? && s.protocol == Some(name) && s.date == today
  }

  /** `resolve_stats_platform_today(name)`: nothing for a missing or empty
      name; otherwise the first stat of today whose only subject is the
      platform with exactly that (not lower-cased) name, if there is one. */
  function ResolveStatsPlatformToday(stats: seq<Stat>, today: int, name: Option<string>): (r: Option<Stat>)
    ensures !Truthy(name) ==> r.None?
    ensures Truthy(name) ==> (r.None? <==> forall i :: 0 <= i < |stats| ==> !IsPlatformStatOn(stats[i], name.value, today))
    ensures r.Some? ==> Truthy(name) && r.value in stats && IsPlatformStatOn(r.value, name.value, today)
  {
    if !Truthy(name) then None
    else First(stats, (s: Stat) => IsPlatformStatOn(s, name.value, today))
  }

  /** `resolve_stats_protocol_today(name)`: as for platforms, with the protocol as the only subject. */
  function ResolveStatsProtocolToday(stats: seq<Stat>, today: int, name: Option<string>): (r: Option<Stat>)
    ensures !Truthy(name) ==> r.None?
    ensures Truthy(name) ==> (r.None? <==> forall i :: 0 <= i < |stats| ==> !IsProtocolStatOn(stats[i], name.value, today))
    ensures r.Some? ==> Truthy(name) && r.value in stats && IsProtocolStatOn(r.value, name.value, today)
  {
    if !Truthy(name) then None
    else First(stats, (s: Stat) => IsProtocolStatOn(s, name.value, today))
  }
}
