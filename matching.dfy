// The similar_interests route of cityconnect.py: who is offered as a match,
// how the matches are ranked and paged, and the two dictionaries the route
// builds for the page (shared interest names per user, friend-request status
// per user). The SQL parts are functions over a snapshot of the tables; the
// two dictionary-building loops and the list-building loop are methods proved
// equal to folds.

module Matching {
  import opened Tables
  import opened Collation
  import opened Sorting

  /** `per_page` */
  const PerPage: nat := 10

  datatype Scope = City | Neighborhood

  /** The columns of `users` that the route reads. */
  datatype UserRow = UserRow(id: UserId, name: string, email: string, city: Option<string>, postal: Option<string>)

  datatype RequestRow = RequestRow(sender: UserId, receiver: UserId, status: Status)

  /** The rows of the tables the route reads, each in the store's row order. */
  datatype Snapshot = Snapshot(
    users: seq<UserRow>,
    userInterests: seq<(UserId, InterestId)>,   // user_interest
    interestNames: map<InterestId, string>,     // interest: interest_id -> interest_name
    friendships: set<(UserId, UserId)>,
    requests: seq<RequestRow>)

  /** One row of the page query: a user and its shared_count. */
  datatype Match = Match(id: UserId, name: string, email: string, shared: nat)

  /** One element of `matches` as handed to the template. */
  datatype MatchEntry = MatchEntry(user: Match, sharedInterests: seq<string>)

  datatype MatchView = MatchView(
    scope: Scope,
    matches: seq<MatchEntry>,
    requestStatus: map<UserId, Status>,
    page: int,
    totalPages: nat)

  /** InvalidScope is the redirect to the city tab, NoInterests the redirect
      to the profile editor; UnknownUser is a session user without a row, and
      NegativeOffset the store refusing the OFFSET of a page below 1. */
  datatype MatchError = InvalidScope | UnknownUser | NoInterests | NegativeOffset

  datatype Result<T, E> = Ok(value: T) | Err(error: E)

  function ParseScope(s: string): Option<Scope>
  {
    if s == "city" then Some(City)
    else if s == "neighborhood" then Some(Neighborhood)
    else None
  }

  /** The first row of `users` with the given id. */
  function FindUser(users: seq<UserRow>, id: UserId): (r: Option<UserRow>)
    ensures r.Some? <==> exists k :: 0 <= k < |users| && users[k].id == id
    ensures r.Some? ==> r.value in users && r.value.id == id
  {
    if |users| == 0 then None
    else if users[0].id == id then Some(users[0])
    else FindUser(users[1..], id)
  }

  /** `interest_ids`: the requester's interests. */
  function MyInterests(snap: Snapshot, me: UserId): set<InterestId>
  {
    Tags(snap.userInterests, me)
  }

  function Location(u: UserRow, scope: Scope): Option<string>
  {
    match scope
    case City => u.city
    case Neighborhood => u.postal
  }

  /** The scope condition `u.city_code = %s` (or postal_code): a missing
      value compares equal to nothing. */
  predicate SameLocation(me: UserRow, u: UserRow, scope: Scope)
  {
    Location(me, scope).Some? && Location(u, scope) == Location(me, scope)
  }

  /** `COUNT(ui.interest_id)`: the user's interest rows among `mine`. */
  function SharedCount(rows: seq<(UserId, InterestId)>, u: UserId, mine: set<InterestId>): (n: nat)
    ensures n <= |rows|
    ensures n > 0 <==> exists k :: 0 <= k < |rows| && rows[k].0 == u && rows[k].1 in mine
  {
    if |rows| == 0 then 0
    else SharedCount(rows[1..], u, mine) + (if rows[0].0 == u && rows[0].1 in mine then 1 else 0)
  }

  /** The interests a user's rows name. */
  function Tags(rows: seq<(UserId, InterestId)>, u: UserId): set<InterestId>
  {
    set p | p in rows && p.0 == u :: p.1
  }

  predicate NoDuplicateRows<T(==)>(rows: seq<T>)
  {
    forall i, j :: 0 <= i < j < |rows| ==> rows[i] != rows[j]
  }

  lemma TagsCons(rows: seq<(UserId, InterestId)>, u: UserId)
    requires |rows| > 0
    ensures Tags(rows, u) == (if rows[0].0 == u then {rows[0].1} else {}) + Tags(rows[1..], u)
  {
    assert rows == [rows[0]] + rows[1..];
  }

  lemma NoDuplicateTail<T>(rows: seq<T>)
    requires |rows| > 0 && NoDuplicateRows(rows)
    ensures NoDuplicateRows(rows[1..])
    ensures rows[0] !in rows[1..]
  {
    var tail := rows[1..];
    forall i, j | 0 <= i < j < |tail| ensures tail[i] != tail[j] {
      assert tail[i] == rows[i + 1] && tail[j] == rows[j + 1];
    }
  }

  /** With one row per (user, interest), the count is the number of
      interests the two users have in common. */
  lemma {:induction false} SharedCountIsCommonTags(rows: seq<(UserId, InterestId)>, u: UserId, mine: set<InterestId>)
    requires NoDuplicateRows(rows)
    ensures SharedCount(rows, u, mine) == |Tags(rows, u) * mine|
  {
    if |rows| > 0 {
      var tail := rows[1..];
      NoDuplicateTail(rows);
      SharedCountIsCommonTags(tail, u, mine);
      TagsCons(rows, u);
      var common := Tags(tail, u) * mine;
      if rows[0].0 == u && rows[0].1 in mine {
        assert rows[0].1 !in common;
        assert Tags(rows, u) * mine == {rows[0].1} + common;
      } else {
        assert Tags(rows, u) * mine == common;
      }
    }
  }

  /** The page query's WHERE clause for one user. */
  predicate IsCandidate(snap: Snapshot, me: UserRow, scope: Scope, mine: set<InterestId>, u: UserRow)
  {
    && u.id != me.id
    && SameLocation(me, u, scope)
    && SharedCount(snap.userInterests, u.id, mine) > 0
    && !AreFriends(snap.friendships, me.id, u.id)
  }

  function ToMatch(snap: Snapshot, mine: set<InterestId>, u: UserRow): Match
  {
    Match(u.id, u.name, u.email, SharedCount(snap.userInterests, u.id, mine))
  }

  /** The grouped rows of the page query before ORDER BY and LIMIT. */
  function Candidates(snap: Snapshot, me: UserRow, scope: Scope, mine: set<InterestId>, users: seq<UserRow>): (r: seq<Match>)
    ensures |r| <= |users|
    ensures forall m :: m in r <==>
      exists k :: 0 <= k < |users| && IsCandidate(snap, me, scope, mine, users[k]) && m == ToMatch(snap, mine, users[k])
  {
    if |users| == 0 then []
    else
      var rest := Candidates(snap, me, scope, mine, users[1..]);
      assert forall k :: 0 <= k < |users| - 1 ==> users[1..][k] == users[k + 1];
      if IsCandidate(snap, me, scope, mine, users[0]) then [ToMatch(snap, mine, users[0])] + rest else rest
  }

  /** A requester without a location for the scope has no candidates. */
  lemma {:induction false} NoLocationNoCandidates(snap: Snapshot, me: UserRow, scope: Scope, mine: set<InterestId>, users: seq<UserRow>)
    requires Location(me, scope).None?
    ensures Candidates(snap, me, scope, mine, users) == []
  {
    if |users| > 0 {
      NoLocationNoCandidates(snap, me, scope, mine, users[1..]);
    }
  }

  /** `ORDER BY shared_count DESC, u.username ASC` */
  predicate RankLeq(a: Match, b: Match)
  {
    a.shared > b.shared || (a.shared == b.shared && LexLeq(a.name, b.name))
  }

  lemma RankLeqIsTotalPreorder()
    ensures TotalPreorder(RankLeq)
  {
    forall a, b ensures RankLeq(a, b) || RankLeq(b, a) {
      LexLeqTotal(a.name, b.name);
    }
    forall a, b, c | RankLeq(a, b) && RankLeq(b, c) ensures RankLeq(a, c) {
      if a.shared == b.shared == c.shared {
        LexLeqTransitive(a.name, b.name, c.name);
      }
    }
  }

  function Ranked(cands: seq<Match>): (r: seq<Match>)
    ensures SortedBy(r, RankLeq)
    ensures multiset(r) == multiset(cands)
  {
    RankLeqIsTotalPreorder();
    SortBySorted(cands, RankLeq);
    SortBy(cands, RankLeq)
  }

  /** `LIMIT limit OFFSET offset` */
  function Window<T>(s: seq<T>, offset: nat, limit: nat): (r: seq<T>)
    ensures |r| <= limit
    ensures offset >= |s| ==> r == []
    ensures offset < |s| ==> |r| == if |s| - offset < limit then |s| - offset else limit
    ensures forall k :: 0 <= k < |r| ==> offset + k < |s| && r[k] == s[offset + k]
  {
    if offset >= |s| then []
    else if |s| - offset < limit then s[offset..]
    else s[offset..offset + limit]
  }

  /** `total_pages = (total_users + per_page - 1) // per_page` */
  function PageCount(total: nat): nat
  {
    (total + PerPage - 1) / PerPage
  }

  /** The page count is the least number of pages that holds every row. */
  lemma PageCountIsCeiling(total: nat)
    ensures PageCount(total) * PerPage >= total
    ensures PageCount(total) > 0 ==> (PageCount(total) - 1) * PerPage < total
    ensures PageCount(total) == 0 <==> total == 0
  {
  }

  /** Row k of the ranking is shown on page k / 10 + 1, at position k % 10,
      and that page is within the page count. */
  lemma {:induction false} PagesCover<T>(s: seq<T>, k: nat)
    requires k < |s|
    ensures 1 <= k / PerPage + 1 <= PageCount(|s|)
    ensures var w := Window(s, (k / PerPage) * PerPage, PerPage);
      k % PerPage < |w| && w[k % PerPage] == s[k]
  {
    PageCountIsCeiling(|s|);
    assert (k / PerPage) * PerPage + k % PerPage == k;
  }

  /** A page past the page count is empty. */
  lemma PagesBeyondAreEmpty<T>(s: seq<T>, page: nat)
    requires page > PageCount(|s|)
    ensures Window(s, (page - 1) * PerPage, PerPage) == []
  {
    PageCountIsCeiling(|s|);
  }

  /** The interests query before its ORDER BY: (userid, interest_name) for each
      interest row of a page user among `mine` whose interest has a name row. */
  function SharedNameRows(rows: seq<(UserId, InterestId)>, names: map<InterestId, string>,
                          pageIds: set<UserId>, mine: set<InterestId>): (r: seq<(UserId, string)>)
    ensures forall x :: x in r <==>
      exists k :: 0 <= k < |rows| && rows[k].0 in pageIds && rows[k].1 in mine && rows[k].1 in names
                  && x == (rows[k].0, names[rows[k].1])
  {
    if |rows| == 0 then []
    else
      var rest := SharedNameRows(rows[1..], names, pageIds, mine);
      assert forall k :: 0 <= k < |rows| - 1 ==> rows[1..][k] == rows[k + 1];
      if rows[0].0 in pageIds && rows[0].1 in mine && rows[0].1 in names
      then [(rows[0].0, names[rows[0].1])] + rest
      else rest
  }

  /** `ORDER BY i.interest_name` */
  predicate NameLeq(x: (UserId, string), y: (UserId, string))
  {
    LexLeq(x.1, y.1)
  }

  lemma NameLeqIsTotalPreorder()
    ensures TotalPreorder(NameLeq)
  {
    forall x, y ensures NameLeq(x, y) || NameLeq(y, x) {
      LexLeqTotal(x.1, y.1);
    }
    forall x, y, z | NameLeq(x, y) && NameLeq(y, z) ensures NameLeq(x, z) {
      LexLeqTransitive(x.1, y.1, z.1);
    }
  }

  /** The rows the interests query returns. */
  function InterestRows(snap: Snapshot, pageIds: set<UserId>, mine: set<InterestId>): (r: seq<(UserId, string)>)
    ensures SortedBy(r, NameLeq)
    ensures multiset(r) == multiset(SharedNameRows(snap.userInterests, snap.interestNames, pageIds, mine))
  {
    var rows := SharedNameRows(snap.userInterests, snap.interestNames, pageIds, mine);
    NameLeqIsTotalPreorder();
    SortBySorted(rows, NameLeq);
    SortBy(rows, NameLeq)
  }

  /** The `interest_map.setdefault(userid, []).append(name)` loop as a fold. */
  function InterestMap(rows: seq<(UserId, string)>): map<UserId, seq<string>>
  {
    if |rows| == 0 then map[]
    else
      var m := InterestMap(rows[..|rows| - 1]);
      var r := rows[|rows| - 1];
      m[r.0 := (if r.0 in m then m[r.0] else []) + [r.1]]
  }

  /** The names of u's rows, in row order. */
  function NamesOf(rows: seq<(UserId, string)>, u: UserId): (r: seq<string>)
    ensures forall x :: x in r <==> (u, x) in rows
  {
    if |rows| == 0 then []
    else (if rows[0].0 == u then [rows[0].1] else []) + NamesOf(rows[1..], u)
  }

  /** `interest_map.get(userid, [])` */
  function Get(m: map<UserId, seq<string>>, u: UserId): seq<string>
  {
    if u in m then m[u] else []
  }

  lemma {:induction false} NamesOfAppend(a: seq<(UserId, string)>, b: seq<(UserId, string)>, u: UserId)
    ensures NamesOf(a + b, u) == NamesOf(a, u) + NamesOf(b, u)
  {
    if |a| > 0 {
      var head := if a[0].0 == u then [a[0].1] else [];
      assert (a + b)[0] == a[0] && (a + b)[1..] == a[1..] + b;
      calc {
        NamesOf(a + b, u);
        head + NamesOf(a[1..] + b, u);
        { NamesOfAppend(a[1..], b, u); }
        head + (NamesOf(a[1..], u) + NamesOf(b, u));
        (head + NamesOf(a[1..], u)) + NamesOf(b, u);
      }
    } else {
      assert a + b == b;
    }
  }

  /** The fold gives each user exactly the names of its rows, in row order,
      and has a key only for users with rows. */
  lemma {:induction false} InterestMapIsNamesOf(rows: seq<(UserId, string)>, u: UserId)
    ensures Get(InterestMap(rows), u) == NamesOf(rows, u)
    ensures u in InterestMap(rows) <==> NamesOf(rows, u) != []
  {
    if |rows| > 0 {
      var init, last := rows[..|rows| - 1], rows[|rows| - 1];
      InterestMapIsNamesOf(init, u);
      assert rows == init + [last];
      NamesOfAppend(init, [last], u);
    }
  }

  /** The other party of a request row seen from `me`. */
  function Other(r: RequestRow, me: UserId): UserId
  {
    if r.sender == me then r.receiver else r.sender
  }

  /** The `request_status[...] = status` loop as a fold: later rows overwrite. */
  function StatusMap(rows: seq<RequestRow>, me: UserId): map<UserId, Status>
  {
    if |rows| == 0 then map[]
    else
      var last := rows[|rows| - 1];
      StatusMap(rows[..|rows| - 1], me)[Other(last, me) := last.status]
  }

  /** Each key is the other party of some row, and holds the status of the
      last row with that other party. */
  lemma {:induction false} StatusMapLastWins(rows: seq<RequestRow>, me: UserId, u: UserId)
    ensures u in StatusMap(rows, me) <==> exists k :: 0 <= k < |rows| && Other(rows[k], me) == u
    ensures u in StatusMap(rows, me) ==>
      exists k :: 0 <= k < |rows| && Other(rows[k], me) == u && StatusMap(rows, me)[u] == rows[k].status
        && forall j :: k < j < |rows| ==> Other(rows[j], me) != u
  {
    if |rows| > 0 {
      var n := |rows| - 1;
      var init := rows[..n];
      StatusMapLastWins(init, me, u);
      assert forall k :: 0 <= k < n ==> init[k] == rows[k];
      if Other(rows[n], me) != u && u in StatusMap(rows, me) {
        var k :| 0 <= k < n && Other(init[k], me) == u && StatusMap(init, me)[u] == init[k].status
          && forall j :: k < j < n ==> Other(init[j], me) != u;
        assert Other(rows[k], me) == u && StatusMap(rows, me)[u] == rows[k].status;
      }
    }
  }

  /** The status query's WHERE clause. */
  predicate Involves(r: RequestRow, me: UserId, ids: set<UserId>)
  {
    (r.sender == me && r.receiver in ids) || (r.receiver == me && r.sender in ids)
  }

  /** The rows the status query returns, in store order. */
  function RequestRowsFor(rows: seq<RequestRow>, me: UserId, ids: set<UserId>): (r: seq<RequestRow>)
    ensures forall x :: x in r <==> x in rows && Involves(x, me, ids)
    ensures ids == {} ==> r == []
  {
    if |rows| == 0 then []
    else (if Involves(rows[0], me, ids) then [rows[0]] else []) + RequestRowsFor(rows[1..], me, ids)
  }

  /** The status map only has keys for users on the page, each the other
      party of a request between that user and the requester. */
  lemma StatusKeysArePageUsers(rows: seq<RequestRow>, me: UserId, ids: set<UserId>, u: UserId)
    requires u in StatusMap(RequestRowsFor(rows, me, ids), me)
    ensures u in ids
    ensures exists r :: r in rows && Involves(r, me, ids) && Other(r, me) == u
  {
    var q := RequestRowsFor(rows, me, ids);
    StatusMapLastWins(q, me, u);
    var k :| 0 <= k < |q| && Other(q[k], me) == u;
    assert q[k] in q;
  }

  function Entry(m: Match, byUser: map<UserId, seq<string>>): MatchEntry
  {
    MatchEntry(m, Get(byUser, m.id))
  }

  /** The assembling loop over `users_page`. */
  function Entries(onPage: seq<Match>, byUser: map<UserId, seq<string>>): (r: seq<MatchEntry>)
    ensures |r| == |onPage|
    ensures forall k :: 0 <= k < |r| ==> r[k].user == onPage[k] && r[k].sharedInterests == Get(byUser, onPage[k].id)
  {
    seq(|onPage|, k requires 0 <= k < |onPage| => Entry(onPage[k], byUser))
  }

  /** `page_user_ids`: the ids of the users on a page. */
  function PageIds(onPage: seq<Match>): set<UserId>
  {
    set m | m in onPage :: m.id
  }

  /** The whole route after the login check, as one function of the tables. */
  function FindMatches(snap: Snapshot, actor: UserId, scopeName: string, page: int): Result<MatchView, MatchError>
  {
    match ParseScope(scopeName)
    case None => Err(InvalidScope)
    case Some(scope) =>
      match FindUser(snap.users, actor)
      case None => Err(UnknownUser)
      case Some(me) =>
        var mine := MyInterests(snap, actor);
        if mine == {} then Err(NoInterests)
        else if page < 1 then Err(NegativeOffset)
        else
          var cands := Candidates(snap, me, scope, mine, snap.users);
          var onPage := Window(Ranked(cands), (page - 1) * PerPage, PerPage);
          var ids := PageIds(onPage);
          var byUser := InterestMap(InterestRows(snap, ids, mine));
          var status := StatusMap(RequestRowsFor(snap.requests, actor, ids), actor);
          Ok(MatchView(scope, Entries(onPage, byUser), status, page, PageCount(|cands|)))
  }
}
