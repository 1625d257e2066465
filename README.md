# the-federation.info query resolvers in Dafny

This project models the row-selection logic of the GraphQL `Query` root type of
the-federation.info. The site collects statistics about federated social-network
servers: nodes, the platforms they run, the protocols they speak, and daily usage
stats. Each resolver in `thefederation/schema.py` is a chain of ORM query-set
operations (`filter`, `values`/`annotate`, `order_by`, `first`). Here each
resolver is a pure function over in-memory tables:

- `nodes: seq<Node>` holds the nodes. A node has a `pk`, a `host`, an `active` flag, an optional platform name and a set of protocol names.
- `platforms: seq<Platform>` and `protocols: seq<Protocol>` hold named entries.
- `stats: seq<Stat>` holds the daily stats. A stat has a day number, three nullable subject references (node, platform name, protocol name) and six integer metrics.

The wall clock (`now().date()`) becomes a `today` parameter. A GraphQL string
argument is an `Option<string>`, and `Truthy` gives Python's truth test for it:
a missing argument and `""` are both false. Raising `ValueError` is a `Failure`
result.

Modules:

- `Records` (records.dfy): the rows, `Option`/`Result`, `Truthy`, ASCII `Lower`.
- `Seqs` (seqs.dfy): `Filter` (`qs.filter`), `First` (`qs.first()`), and a stable insertion sort for `order_by(F(x).desc(nulls_last=True))`, proved sorted and a permutation.
- `StatScope` (scope.dfy): the stat filters the resolvers choose between, and the `value`/`itemType` decision of the date aggregates.
- `DateAggregates` (date_aggregates.dfy): `_get_stat_date_counts` and the six fields built on it. Also the date grouping behind the active-users ratio and the users-per-node average.
- `NodeListing` (node_listing.dfy): `resolve_nodes`.
- `Listings` (listings.dfy): `resolve_platforms` and `resolve_protocols`.
- `TodayStats` (today_stats.dfy): `resolve_stats_nodes`, `resolve_stats_platform_today` and `resolve_stats_protocol_today`.
- `Scenarios` (scenarios.dfy): two worked examples. One is a daily series of totals. The other is two nodes ordered by users.

The six fields `stats_users_total`, `stats_users_half_year`, `stats_users_monthly`,
`stats_users_weekly`, `stats_local_posts` and `stats_local_comments`
(thefederation/schema.py:296-334) are `ResolveDateCounts` with the matching
`Metric`.

Behaviours of the code that are easy to misread:

- The `name` argument is lower-cased for protocols as well as for platforms.
- `resolve_stats_nodes` never raises. An unknown `itemType` gives the unscoped query.
- The date aggregates raise only when both `value` and `itemType` are non-empty. An unknown `itemType` with an empty `value` selects every per-node stat.
- `resolve_stats_nodes` with `itemType` `'platform'` or `'protocol'` and no `value` filters on `name=None`. The ORM reads that as `IS NULL`, so only stats of nodes without a platform (or without any protocol) remain. `StatScope.Selects` models this lookup.

Assumptions, stated rather than modelled:

- Platform names and protocol names are unique, so a node's foreign key can be represented by the name.
- A node has at most one stat per day, so the `users` subquery returns at most one row.
- A stat carries its node's current row, so the join through `node__…` has already been resolved.

## Model

| member | source | states |
|---|---|---|
| `StatScope.DateScope` | thefederation/schema.py:161-172 | `ValueError` exactly when `value` and `itemType` are both non-empty and `itemType` is not 'platform', 'protocol' or 'node'. With either empty, the result is the node-not-null scope, even for a bogus `itemType`. With both set, a stat is kept iff its node runs that platform, speaks that protocol or has that host. Every scope keeps only stats with a node. |
| `StatScope.Selects` | thefederation/schema.py:164-172 | A scope filter keeps a stat as the ORM lookup does over outer joins. `node__platform__name=v` keeps it iff `v` is among the values of its join with node and platform; that join has one NULL row when there is no node or no platform, so `v = None` means IS NULL. `node__protocols__name=v` does the same through the many-to-many join, which has one NULL row when there is no node or no protocol, and otherwise one row per protocol. `node__host=h` keeps a stat whose node has host `h`, `node__isnull=False` one that has a node, and `all()` every stat. |
| `DateAggregates.SelectedRows` | thefederation/schema.py:161-172 | Errors exactly as `DateScope` does. Otherwise each stat keeps its multiplicity in the result if the scope keeps it, and is dropped if not. |
| `DateAggregates.DistinctDates` | thefederation/schema.py:174-176 | The grouping dates are strictly ascending, and a date appears iff some selected row has it. |
| `DateAggregates.SumPerDate` | thefederation/schema.py:174-176 | One entry per distinct date of the rows, strictly ascending by date. Each count is the metric summed over the rows of that date. |
| `DateAggregates.ResolveDateCounts` | thefederation/schema.py:160-176 | `ValueError` exactly for a non-empty unknown `itemType` with a non-empty value. Otherwise the per-date sums of the selected rows. |
| `DateAggregates.SumPerDateKeepsTotal` | thefederation/schema.py:174-176 | The per-date counts add up to the metric summed over all selected rows, so grouping loses and duplicates nothing. |
| `DateAggregates.ResolveUsersActiveRatio` | thefederation/schema.py:280-294 | Same scope and error rule as the date counts. The result pairs, date by date, the per-date sums of `users_monthly` (numerator) and of `users_total` (denominator) over the selected rows. Both are `SumPerDate` results, so the entries are one per distinct date, ascending, and `SumPerDateKeepsTotal` applies to each column. |
| `DateAggregates.ResolveUsersPerNode` | thefederation/schema.py:309-323 | Same scope and error rule. The result is the per-date sums of `users_total` over the selected rows (a `SumPerDate` result), each with the number of rows averaged on that date, which is never zero. |
| `Seqs.Filter` | thefederation/schema.py:172 | `qs.filter(p)` keeps each row that satisfies `p` with its multiplicity and drops every other row. |
| `Seqs.First` | thefederation/schema.py:267-269 | `qs.first()` is empty iff no row matches. Otherwise it is a matching row and no earlier row matches. |
| `Seqs.SortDesc` | thefederation/schema.py:195-196 | The result is a permutation of the input. A non-NULL key is never followed by a larger one, and a NULL key is never followed by a non-NULL one. |
| `Records.Lower` | thefederation/schema.py:201 | `name.lower()` keeps the length, turns each ASCII capital into its own small letter, and leaves every other character unchanged. So the result has no capital, and a lower-case string is unchanged. |
| `Records.LowerEqualIgnoringCase` | thefederation/schema.py:201 | Two strings lower-case to the same string iff they have the same length and agree letter by letter up to ASCII case. So a `name` argument matches every capitalisation of a stored lower-case name. |
| `NodeListing.UsersToday` | thefederation/schema.py:189-191 | The `users` subquery is NULL iff the node has no stat dated today. Otherwise it is the `users_monthly` of such a stat. |
| `NodeListing.ResolveNodes` | thefederation/schema.py:178-197 | The result is non-increasing by `users`, with NULLs after every value. Its multiset of nodes is exactly the multiset of listed nodes of the table, where listed means: active; on the platform if one is given, else speaking the protocol if one is given; and with the host if one is given. Every returned node is active and has the requested host. `users` is NULL iff the node has no stat today, and otherwise is that stat's `users_monthly`. |
| `NodeListing.RankByUsers` | thefederation/schema.py:189-197 | Annotating nodes with `users` and ordering them descending with NULLs last permutes the nodes (same multiset). Each row's `users` is its node's `UsersToday`. |
| `NodeListing.PlatformOverridesProtocol` | thefederation/schema.py:179-184 | With a non-empty `platform`, the `protocol` argument does not change the result. |
| `Listings.RankByActiveNodes` | thefederation/schema.py:205-209 | Rows are non-increasing by `active_nodes`. Every row's count is positive and equals the entry's count. The multiset of entries is exactly the multiset of entries with a non-zero count, so a NULL or zero subquery is excluded and nothing is duplicated. |
| `Listings.ActiveOnPlatform` | thefederation/schema.py:205-206 | The `Count('*')` subquery of a platform is at most the number of nodes, and is zero iff no active node runs the platform. |
| `Listings.ActiveOnProtocol` | thefederation/schema.py:217-218 | The `Count('*')` subquery of a protocol is at most the number of nodes, and is zero iff no active node speaks the protocol. |
| `Listings.ActiveCountsAdd` | thefederation/schema.py:205-218 | The two subqueries count rows: one node contributes 1 exactly when it is an active node of that platform (protocol), and the counts over two parts of the node table add up. |
| `Listings.NamedPlatforms` | thefederation/schema.py:200-203 | A non-empty `name` keeps exactly the platforms named `name.lower()`, and a missing or empty `name` keeps all of them. Each kept platform appears as often as in the table. |
| `Listings.ResolvePlatforms` | thefederation/schema.py:199-209 | Rows are non-increasing by `active_nodes`, each equal to the platform's number of active nodes and greater than 0. A platform is listed iff it matches the lower-cased name and has an active node. The multiset of listed platforms is that of the table's platforms passing both tests, so none is repeated. With a name given, every listed name is lower-case. |
| `Listings.NamedProtocols` | thefederation/schema.py:212-215 | A non-empty `name` keeps exactly the protocols named `name.lower()`, and a missing or empty `name` keeps all of them. Each kept protocol appears as often as in the table. |
| `Listings.ResolveProtocols` | thefederation/schema.py:211-221 | Rows are non-increasing by `active_nodes`, each equal to the number of active nodes speaking the protocol and greater than 0. A protocol is listed iff it matches the lower-cased name and has an active node. The multiset of listed protocols is that of the table's protocols passing both tests, so none is repeated. With a name given, every listed name is lower-case. |
| `TodayStats.StatsNodesScope` | thefederation/schema.py:236-255 | A non-empty `itemType` wins. 'platform' scopes by the node's platform equal to `value`, 'protocol' by the node's protocols containing `value`, and anything else is unscoped. Without an `itemType`, a non-empty `platform` wins, then a non-empty `protocol`, and otherwise the query is unscoped. No branch raises. |
| `TodayStats.ResolveStatsNodes` | thefederation/schema.py:236-260 | Every returned stat is dated today, has a node, and has neither platform nor protocol. A non-empty `host` restricts the result to that node host. Each stat keeps its multiplicity iff it passes the chosen scope and these filters. |
| `TodayStats.ItemTypeOverridesShorthands` | thefederation/schema.py:237-239 | With a non-empty `itemType`, the `platform` and `protocol` arguments do not change the result. |
| `TodayStats.OtherItemTypeIsUnscoped` | thefederation/schema.py:250-255 | An `itemType` other than 'platform' or 'protocol' gives the same result as passing no scope at all. |
| `TodayStats.PlatformOverridesProtocolStats` | thefederation/schema.py:237-245 | With `itemType` missing or empty, a non-empty `platform` makes `protocol` and `value` irrelevant. |
| `TodayStats.StatsNodesMissingValue` | thefederation/schema.py:250-260 | With `itemType` 'platform' or 'protocol' and no `value`, a stat is returned, as often as it occurs, iff it is dated today, has a node and neither platform nor protocol, has the host when one is given, and its node has no platform (no protocol). This is the IS NULL reading of `name=None`. |
| `TodayStats.StatsNodesByPlatform` | thefederation/schema.py:250-260 | With `itemType` 'platform' and a non-empty `value`, a stat is returned, as often as it occurs, iff it is dated today, has a node and neither platform nor protocol, its node runs `value`, and its node has the host when one is given. |
| `TodayStats.StatsNodesByProtocol` | thefederation/schema.py:252-260 | With `itemType` 'protocol' and a non-empty `value`, a stat is returned, as often as it occurs, iff it is dated today, has a node and neither platform nor protocol, its node speaks `value`, and its node has the host when one is given. |
| `TodayStats.ResolveStatsPlatformToday` | thefederation/schema.py:262-269 | A missing or empty name gives nothing. Otherwise the result is nothing iff no stat matches. A matching stat is dated today, has no node and no protocol, and has a platform equal to the name exactly, without lower-casing. |
| `TodayStats.ResolveStatsProtocolToday` | thefederation/schema.py:271-278 | A missing or empty name gives nothing. Otherwise the result is nothing iff no stat matches. A matching stat is dated today, has no node and no platform, and has a protocol equal to the name exactly. |
| `Scenarios.ThreeDaysOfTotals` | thefederation/schema.py:296-297 | Stats of `users_total` 10 on days 3, 1 and 2 give the field `stats_users_total`, without scope arguments, the counts (1, 10), (2, 10), (3, 10), in that order. |
| `Scenarios.LargestFirst` | thefederation/schema.py:189-197 | Two active nodes with 5 and 50 monthly users today are listed with the 50-user node first. |

## Left out

- config/local.py: environment-driven settings with no logic beyond defaults.
- `resolve_stats_counts_nodes` and `resolve_stats_global_today` (thefederation/schema.py:226-234): they delegate to the `Stat` manager methods `node_counts` and `for_days`. thefederation/models.py is not part of this model.
- `resolve_stats` (thefederation/schema.py:223-224) returns every stat unchanged. The `services` field has no resolver.
- The `NodeType` country resolvers (thefederation/schema.py:42-49) read a country object from an external library.
- The GraphQL type and argument declarations (thefederation/schema.py:12-158), `select_related` and `prefetch_related` only bind types or affect performance.
- `DateAggregates.ResolveUsersActiveRatio`: returns the numerator and denominator, not their float quotient. The database's division-by-zero behaviour for a zero denominator is not modelled.
- `DateAggregates.ResolveUsersPerNode`: returns the sum and row count, not the float average.
- `Records.Lower`: lower-cases ASCII letters only. Python's `str.lower()` applies full Unicode case mapping.
- `NodeListing.UsersToday`: takes the first of the node's stats dated today. With two stats of different `users_monthly` on one day, the SQL subquery fails with a multi-row error, and this is not modelled. The model assumes at most one stat per node per day.
- `Seqs.SortDesc`: keeps input order among equal keys. SQL leaves the order of ties unspecified, and no contract relies on it.
- `TodayStats.ResolveStatsPlatformToday`: the "no name" case returns `Stat.objects.none()` in the source, and the "no match" case returns `None`. Both are `None` here. `first()` is taken in table order.
- `TodayStats.ResolveStatsProtocolToday`: the same as for platforms (thefederation/schema.py:273-278). `Stat.objects.none()` and `None` are both `None`, and `first()` is taken in table order.
- Metrics are non-NULL integers. `thefederation/models.py` is not part of this model, so NULL metric columns, which `Sum`/`Avg` would skip, are not represented.
- Many-to-many join duplication (two protocols with one name) and lazy query-set evaluation belong to the database and ORM. Unique names are assumed instead.
