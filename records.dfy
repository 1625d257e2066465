/** The rows the resolvers of the federation statistics schema read: nodes,
    platforms, protocols and daily stats, plus the argument conventions the
    resolvers share (Python truthiness of optional strings, lower-casing). */
module Records {

  datatype Option<+T> = None | Some(value: T)

  datatype Result<+T, +E> = Success(value: T) | Failure(error: E)

  /** The exception a resolver raises; the GraphQL layer reports it as a field error. */
  datatype Error = ValueError(message: string)

  /** A federated server. `platform` is the name of the platform it runs (the
      foreign key, resolved to the platform's unique name); `protocols` the
      names of the protocols it speaks. `active` stands for membership of
      the active-nodes manager set. */
  datatype Node = Node(pk: int, host: string, active: bool, platform: Option<string>, protocols: set<string>)

  datatype Platform = Platform(name: string)

  datatype Protocol = Protocol(name: string)

  /** A daily snapshot. `date` is a day number. Its subject is given by three
      nullable references: the node row (carried whole, the join resolved),
      the platform name and the protocol name. */
  datatype Stat = Stat(
    date: int,
    node: Option<Node>,
    platform: Option<string>,
    protocol: Option<string>,
    usersTotal: int,
    usersHalfYear: int,
    usersMonthly: int,
    usersWeekly: int,
    localPosts: int,
    localComments: int)

  /** The metric columns a date aggregate can sum. */
  datatype Metric = UsersTotal | UsersHalfYear | UsersMonthly | UsersWeekly | LocalPosts | LocalComments

  function MetricOf(s: Stat, m: Metric): int {
    match m
    case UsersTotal => s.usersTotal
    case UsersHalfYear => s.usersHalfYear
    case UsersMonthly => s.usersMonthly
    case UsersWeekly => s.usersWeekly
    case LocalPosts => s.localPosts
    case LocalComments => s.localComments
  }

  /** A GraphQL string argument as Python's truth test sees it: an argument
      that was not passed and the empty string are both false. */
  predicate Truthy(arg: Option<string>) {
    arg.Some? && arg.value != ""
  }

  function LowerChar(c: char): char {
    if 'A' <= c <= 'Z' then (c as int + 32) as char else c
  }

  predicate IsLower(s: string) {
    forall i :: 0 <= i < |s| ==> !('A' <= s[i] <= 'Z')
  }

  /** `str.lower()` restricted to ASCII letters: each capital becomes its
      own small letter, every other character stays. */
  function Lower(s: string): (r: string)
    ensures |r| == |s|
    ensures forall i :: 0 <= i < |s| ==>
      if 'A' <= s[i] <= 'Z' then r[i] as int == s[i] as int + 32 else r[i] == s[i]
    ensures IsLower(r)
    ensures IsLower(s) ==> r == s
  {
    seq(|s|, i requires 0 <= i < |s| => LowerChar(s[i]))
  }

  /** Two characters equal up to ASCII case: the same, or a capital and its small letter. */
  predicate SameLetterIgnoringCase(a: char, b: char) {
    || a == b
    || ('A' <= a <= 'Z' && b as int == a as int + 32)
    || ('A' <= b <= 'Z' && a as int == b as int + 32)
  }

  /** Lower-casing identifies exactly the strings equal up to ASCII case, so
      a `name` argument matches whatever capitalisation of a stored name. */
  lemma {:induction false} LowerEqualIgnoringCase(s: string, t: string)
    ensures Lower(s) == Lower(t) <==>
      |s| == |t| && forall i :: 0 <= i < |s| ==> SameLetterIgnoringCase(s[i], t[i])
  {
    var ls, lt := Lower(s), Lower(t);
    if ls == lt {
      forall i | 0 <= i < |s| ensures SameLetterIgnoringCase(s[i], t[i]) {
        assert ls[i] == lt[i];
      }
    }
    if |s| == |t| && forall i :: 0 <= i < |s| ==> SameLetterIgnoringCase(s[i], t[i]) {
      forall i | 0 <= i < |s| ensures ls[i] == lt[i] {
        assert SameLetterIgnoringCase(s[i], t[i]);
      }
      assert ls == lt;
    }
  }
}
