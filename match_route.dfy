// The similar_interests route as it runs: the guards in the route's order, the
// two queries, then the three loops that build `interest_map`, `matches` and
// `request_status` by updating a dictionary or list one row at a time.

module MatchRoute {
  import opened Tables
  import opened Matching

  /** `interest_map.setdefault(userid, []).append(interest_name)` per row. */
  method BuildInterestMap(rows: seq<(UserId, string)>) returns (byUser: map<UserId, seq<string>>)
    ensures byUser == InterestMap(rows)
  {
    byUser := map[];
    var i := 0;
    while i < |rows|
      invariant 0 <= i <= |rows|
      invariant byUser == InterestMap(rows[..i])
    {
      var r := rows[i];
      var names := if r.0 in byUser then byUser[r.0] else [];
      byUser := byUser[r.0 := names + [r.1]];
      assert rows[..i + 1][..i] == rows[..i];
      i := i + 1;
    }
    assert rows[..|rows|] == rows;
  }

  /** `request_status[other] = status` per row, the other party being the
      receiver when the requester sent the request and the sender otherwise. */
  method BuildRequestStatus(rows: seq<RequestRow>, me: UserId) returns (status: map<UserId, Status>)
    ensures status == StatusMap(rows, me)
  {
    status := map[];
    var i := 0;
    while i < |rows|
      invariant 0 <= i <= |rows|
      invariant status == StatusMap(rows[..i], me)
    {
      var r := rows[i];
      if r.sender == me {
        status := status[r.receiver := r.status];
      } else {
        status := status[r.sender := r.status];
      }
      assert rows[..i + 1][..i] == rows[..i];
      i := i + 1;
    }
    assert rows[..|rows|] == rows;
  }

  /** `matches.append({...})` for each user on the page. */
  method AssembleMatches(onPage: seq<Match>, byUser: map<UserId, seq<string>>) returns (matches: seq<MatchEntry>)
    ensures matches == Entries(onPage, byUser)
  {
    matches := [];
    var i := 0;
    while i < |onPage|
      invariant 0 <= i <= |onPage|
      invariant matches == Entries(onPage[..i], byUser)
    {
      var u := onPage[i];
      matches := matches + [MatchEntry(u, if u.id in byUser then byUser[u.id] else [])];
      i := i + 1;
    }
    assert onPage[..|onPage|] == onPage;
  }

  /** The route after the login check; `actor` is the session user. */
  method SimilarInterests(snap: Snapshot, actor: UserId, scopeName: string, page: int)
    returns (r: Result<MatchView, MatchError>)
    ensures r == FindMatches(snap, actor, scopeName, page)
  {
    var scope := ParseScope(scopeName);
    if scope.None? {
      return Err(InvalidScope);
    }
    var me := FindUser(snap.users, actor);
    if me.None? {
      return Err(UnknownUser);
    }
    var mine := MyInterests(snap, actor);
    if mine == {} {
      return Err(NoInterests);
    }
    var cands := Candidates(snap, me.value, scope.value, mine, snap.users);
    var totalPages := PageCount(|cands|);
    if page < 1 {
      // the page query's OFFSET is negative
      return Err(NegativeOffset);
    }
    var onPage := Window(Ranked(cands), (page - 1) * PerPage, PerPage);
    var matches: seq<MatchEntry> := [];
    var status: map<UserId, Status> := map[];
    var ids := PageIds(onPage);
    if onPage != [] {
      var byUser := BuildInterestMap(InterestRows(snap, ids, mine));
      matches := AssembleMatches(onPage, byUser);
      status := BuildRequestStatus(RequestRowsFor(snap.requests, actor, ids), actor);
    }
    return Ok(MatchView(scope.value, matches, status, page, totalPages));
  }
}
