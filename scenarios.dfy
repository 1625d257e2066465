/** Worked scenarios: a daily metric series and the node ordering. */
module Scenarios {
  import opened Records
  import opened Seqs
  import opened StatScope
  import opened DateAggregates
  import opened NodeListing

  function NodeA(): Node { Node(1, "a.example", true, Some("diaspora"), {"diaspora"}) }
  function NodeB(): Node { Node(2, "b.example", true, Some("mastodon"), {"activitypub"}) }
  function DayStat(n: Node, date: int, total: int, monthly: int): Stat {
    Stat(date, Some(n), None, None, total, 0, monthly, 0, 0, 0)
  }

  function ThreeDays(): seq<Stat> {
    [DayStat(NodeA(), 3, 10, 0), DayStat(NodeA(), 1, 10, 0), DayStat(NodeA(), 2, 10, 0)]
  }

  lemma ThreeDaysSelected(rows: seq<Stat>)
    requires rows == ThreeDays()
    ensures SelectedRows(rows, None, None) == Success(rows)
  {
    FilterAll(rows, SelectorFilter(AnyNode));
  }

  lemma ThreeDaysDates(rows: seq<Stat>)
    requires rows == ThreeDays()
    ensures DistinctDates(rows) == [1, 2, 3]
  {
    assert rows[1..] == [rows[1], rows[2]] && rows[1..][1..] == [rows[2]] && [rows[2]][1..] == [];
    assert DistinctDates([rows[2]]) == [2];
    assert DistinctDates([rows[1], rows[2]]) == [1, 2];
    assert [1, 2][1..] == [2] && [2][1..] == [];
  }

  lemma ThreeDaysSums(rows: seq<Stat>, d: int)
    requires rows == ThreeDays()
    requires 1 <= d <= 3
    ensures SumOnDate(rows, UsersTotal, d) == 10
  {
    assert rows[1..] == [rows[1], rows[2]] && rows[1..][1..] == [rows[2]] && [rows[2]][1..] == [];
  }

  lemma ThreeDaysGrouped(rows: seq<Stat>)
    requires rows == ThreeDays()
    ensures SumPerDate(rows, UsersTotal) == [DateCount(1, 10), DateCount(2, 10), DateCount(3, 10)]
  {
    ThreeDaysDates(rows);
    ThreeDaysSums(rows, 1);
    ThreeDaysSums(rows, 2);
    ThreeDaysSums(rows, 3);
    CountsFromDatesAndSums(rows);
  }

  /** Three per-node stats of `users_total` 10 on days 3, 1 and 2 give the
      field `stats_users_total`, without scope arguments, three date counts
      of 10 in ascending date order. */
  lemma ThreeDaysOfTotals(rows: seq<Stat>)
    requires rows == ThreeDays()
    ensures ResolveDateCounts(rows, UsersTotal, None, None)
         == Success([DateCount(1, 10), DateCount(2, 10), DateCount(3, 10)])
  {
    ThreeDaysSelected(rows);
    ThreeDaysGrouped(rows);
  }

  lemma CountsFromDatesAndSums(rows: seq<Stat>)
    requires DistinctDates(rows) == [1, 2, 3]
    requires forall d :: 1 <= d <= 3 ==> SumOnDate(rows, UsersTotal, d) == 10
    ensures SumPerDate(rows, UsersTotal) == [DateCount(1, 10), DateCount(2, 10), DateCount(3, 10)]
  {
  }

  lemma UsersOfTwoNodes(stats: seq<Stat>)
    requires stats == [DayStat(NodeA(), 7, 0, 5), DayStat(NodeB(), 7, 0, 50)]
    ensures UsersToday(stats, 1, 7) == Some(5)
    ensures UsersToday(stats, 2, 7) == Some(50)
  {
    assert IsStatOfOn(stats[0], 1, 7) && !IsStatOfOn(stats[1], 1, 7);
    assert IsStatOfOn(stats[1], 2, 7) && !IsStatOfOn(stats[0], 2, 7);
  }

  lemma SortTwoRows(ra: NodeRow, rb: NodeRow)
    requires ra.users == Some(5) && rb.users == Some(50)
    ensures SortDesc([ra, rb], UsersKey) == [rb, ra]
  {
    assert [ra, rb][1..] == [rb];
    assert SortDesc([rb], UsersKey) == [rb];
  }

  lemma AnnotateTwoNodes(nodes: seq<Node>, stats: seq<Stat>)
    requires nodes == [NodeA(), NodeB()]
    requires stats == [DayStat(NodeA(), 7, 0, 5), DayStat(NodeB(), 7, 0, 50)]
    ensures Annotate(nodes, stats, 7) == [NodeRow(NodeA(), Some(5)), NodeRow(NodeB(), Some(50))]
  {
    UsersOfTwoNodes(stats);
  }

  /** Two active nodes with 5 and 50 monthly active users today are listed
      with the 50-user node first. */
  lemma LargestFirst(nodes: seq<Node>, stats: seq<Stat>)
    requires nodes == [NodeA(), NodeB()]
    requires stats == [DayStat(NodeA(), 7, 0, 5), DayStat(NodeB(), 7, 0, 50)]
    ensures ResolveNodes(nodes, stats, 7, None, None, None) == [NodeRow(NodeB(), Some(50)), NodeRow(NodeA(), Some(5))]
  {
    FilterAll(nodes, ListedFilter(None, None, None));
    AnnotateTwoNodes(nodes, stats);
    SortTwoRows(NodeRow(NodeA(), Some(5)), NodeRow(NodeB(), Some(50)));
  }
}
