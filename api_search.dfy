/**
 * `Controllers/SearchController.cs`: the ASP.NET user search. Only usernames
 * are searched, with a case-sensitive substring test, and at most ten users
 * come back, in table order.
 */
module ApiSearch {
  import opened Wrappers
  import opened Text
  import opened Seqs
  import opened Http
  import opened ApiDb

  /** `Take(10)`. */
  const MaxUsers: nat := 10

  function NameContains(query: string): User -> bool {
    (u: User) => Contains(u.username, query)
  }

  function Dtos(us: seq<User>): (r: seq<UserDto>)
    ensures |r| == |us|
    ensures forall k | 0 <= k < |us| :: r[k] == ToUserDto(us[k])
  {
    seq(|us|, k requires 0 <= k < |us| => ToUserDto(us[k]))
  }

  /**
   * `SearchUsers`: always 200. A missing or blank query finds nobody; otherwise
   * at most ten users whose username contains the query, all of them when there
   * are no more than ten.
   */
  function SearchUsers(users: seq<User>, query: Option<string>): (r: Response<seq<UserDto>>)
    ensures r.Reply? && r.status == 200
    ensures query.None? || IsWhiteSpaceOnly(query.value) ==> r.body == []
    ensures |r.body| <= MaxUsers
    ensures query.Some? ==> forall d | d in r.body :: exists u | u in users :: Contains(u.username, query.value) && d == ToUserDto(u)
    ensures query.Some? && !IsWhiteSpaceOnly(query.value) ==>
              |r.body| == var n := Count(users, NameContains(query.value)); if n < MaxUsers then n else MaxUsers
    ensures query.Some? && !IsWhiteSpaceOnly(query.value) && Count(users, NameContains(query.value)) <= MaxUsers ==>
              forall u | u in users && Contains(u.username, query.value) :: ToUserDto(u) in r.body
  {
    if query.None? || IsWhiteSpaceOnly(query.value) then Reply(200, [])
    else
      var r := Dtos(Page(Filter(users, NameContains(query.value)), MaxUsers, 0));
      PagedDtos(users, query.value);
      Reply(200, r)
  }

  /** The DTOs of the first page of matches: each from a matching user; every match when they fit. */
  lemma PagedDtos(users: seq<User>, query: string)
    ensures var r := Dtos(Page(Filter(users, NameContains(query)), MaxUsers, 0));
      (forall d | d in r :: exists u | u in users :: Contains(u.username, query) && d == ToUserDto(u)) &&
      (Count(users, NameContains(query)) <= MaxUsers ==> forall u | u in users && Contains(u.username, query) :: ToUserDto(u) in r) &&
      |r| == var n := Count(users, NameContains(query)); if n < MaxUsers then n else MaxUsers
  {
    var matching := Filter(users, NameContains(query));
    var kept := Page(matching, MaxUsers, 0);
    var r := Dtos(kept);
    CountIsFilterSize(users, NameContains(query));
    forall d | d in r ensures exists u | u in users :: Contains(u.username, query) && d == ToUserDto(u) {
      var k :| 0 <= k < |r| && r[k] == d;
      assert kept[k] in matching;
    }
    if Count(users, NameContains(query)) <= MaxUsers {
      forall u | u in users && Contains(u.username, query) ensures ToUserDto(u) in r {
        var i :| 0 <= i < |users| && users[i] == u;
        var j :| 0 <= j < |matching| && matching[j] == u;
        assert r[j] == ToUserDto(u);
      }
    }
  }

  /** A query holding a character the name lacks is not in the name. */
  lemma MissingCharNotContained(s: string, sub: string, c: char)
    requires c in sub && c !in s
    ensures !Contains(s, sub)
  {
    forall i | 0 <= i <= |s| - |sub| ensures !OccursAt(s, sub, i) {
      var k :| 0 <= k < |sub| && sub[k] == c;
      assert s[i..i + |sub|][k] == s[i + k];
    }
  }

  /** The four users the search tests register, in order, whatever their ids and emails. */
  predicate RegisteredNames(us: seq<User>) {
    |us| == 4 && us[0].username == "mainuser" && us[1].username == "testuser1" &&
    us[2].username == "testuser2" && us[3].username == "specific_user"
  }

  function Matches(u: User, query: string): nat {
    if Contains(u.username, query) then 1 else 0
  }

  lemma Found(u: User, query: string, i: nat)
    requires i + |query| <= |u.username| && u.username[i..i + |query|] == query
    ensures Matches(u, query) == 1
  {
    assert OccursAt(u.username, query, i);
  }

  lemma Missed(u: User, query: string, c: char)
    requires c in query && c !in u.username
    ensures Matches(u, query) == 0
  {
    MissingCharNotContained(u.username, query, c);
  }

  lemma CountFrom(us: seq<User>, i: nat, query: string)
    requires i < |us|
    ensures Count(us[i..], NameContains(query)) == Matches(us[i], query) + Count(us[i + 1..], NameContains(query))
  {
    assert us[i..][1..] == us[i + 1..];
  }

  /** How many of four users a query finds: each is counted on its own. */
  lemma CountOfFour(us: seq<User>, query: string)
    requires |us| == 4
    ensures Count(us, NameContains(query)) == Matches(us[0], query) + Matches(us[1], query) + Matches(us[2], query) + Matches(us[3], query)
  {
    assert us[0..] == us;
    CountFrom(us, 0, query);
    CountFrom(us, 1, query);
    CountFrom(us, 2, query);
    CountFrom(us, 3, query);
    assert Count(us[4..], NameContains(query)) == 0;
  }

  lemma CountOfFourIs(us: seq<User>, query: string, a: nat, b: nat, c: nat, d: nat)
    requires |us| == 4
    requires Matches(us[0], query) == a && Matches(us[1], query) == b && Matches(us[2], query) == c && Matches(us[3], query) == d
    ensures Count(us, NameContains(query)) == a + b + c + d
  {
    CountOfFour(us, query);
  }

  /** A query that is not blank finds as many users as match, when no more than the limit do. */
  lemma FoundCount(us: seq<User>, query: string, n: nat)
    requires query != [] && !IsWhiteSpace(query[0])
    requires Count(us, NameContains(query)) == n && n <= MaxUsers
    ensures |SearchUsers(us, Some(query)).body| == n
  {
  }

  lemma MatchesTest(us: seq<User>)
    requires RegisteredNames(us)
    ensures Matches(us[0], "test") == 0 && Matches(us[1], "test") == 1 && Matches(us[2], "test") == 1 && Matches(us[3], "test") == 0
  {
    var q := "test";
    assert q[0] == 't'; Missed(us[0], q, 't');
    Found(us[1], q, 0);
    Found(us[2], q, 0);
    assert q[0] == 't'; Missed(us[3], q, 't');
  }

  /** Over the four registered names, "test" finds the two test users. */
  lemma SearchForTest(us: seq<User>)
    requires RegisteredNames(us)
    ensures |SearchUsers(us, Some("test")).body| == 2
  {
    MatchesTest(us);
    CountOfFourIs(us, "test", 0, 1, 1, 0);
    FoundCount(us, "test", 2);
  }

  lemma MatchesSpecific(us: seq<User>)
    requires RegisteredNames(us)
    ensures Matches(us[0], "specific") == 0 && Matches(us[1], "specific") == 0 && Matches(us[2], "specific") == 0 && Matches(us[3], "specific") == 1
  {
    var q := "specific";
    assert q[1] == 'p'; Missed(us[0], q, 'p');
    assert q[1] == 'p'; Missed(us[1], q, 'p');
    assert q[1] == 'p'; Missed(us[2], q, 'p');
    Found(us[3], q, 0);
  }

  /** "specific" finds one user. */
  lemma SearchForSpecific(us: seq<User>)
    requires RegisteredNames(us)
    ensures |SearchUsers(us, Some("specific")).body| == 1
  {
    MatchesSpecific(us);
    CountOfFourIs(us, "specific", 0, 0, 0, 1);
    FoundCount(us, "specific", 1);
  }

  lemma MatchesNonexistent(us: seq<User>)
    requires RegisteredNames(us)
    ensures Matches(us[0], "nonexistent") == 0 && Matches(us[1], "nonexistent") == 0 && Matches(us[2], "nonexistent") == 0 && Matches(us[3], "nonexistent") == 0
  {
    var q := "nonexistent";
    assert q[4] == 'x'; Missed(us[0], q, 'x');
    assert q[4] == 'x'; Missed(us[1], q, 'x');
    assert q[4] == 'x'; Missed(us[2], q, 'x');
    assert q[4] == 'x'; Missed(us[3], q, 'x');
  }

  /** "nonexistent" finds nobody. */
  lemma SearchForNonexistent(us: seq<User>)
    requires RegisteredNames(us)
    ensures SearchUsers(us, Some("nonexistent")).body == []
  {
    MatchesNonexistent(us);
    CountOfFourIs(us, "nonexistent", 0, 0, 0, 0);
    FoundCount(us, "nonexistent", 0);
  }

  lemma MatchesUser(us: seq<User>)
    requires RegisteredNames(us)
    ensures Matches(us[0], "user") == 1 && Matches(us[1], "user") == 1 && Matches(us[2], "user") == 1 && Matches(us[3], "user") == 1
  {
    var q := "user";
    Found(us[0], q, 4);
    Found(us[1], q, 4);
    Found(us[2], q, 4);
    Found(us[3], q, 9);
  }

  /** "user" finds all four registered users, one more than the three the test for that query expects. */
  lemma SearchForUser(us: seq<User>)
    requires RegisteredNames(us)
    ensures |SearchUsers(us, Some("user")).body| == 4
  {
    MatchesUser(us);
    CountOfFourIs(us, "user", 1, 1, 1, 1);
    FoundCount(us, "user", 4);
  }
}
