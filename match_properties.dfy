// What the similar_interests route promises about the page it renders, each
// stated over the whole route (FindMatches) for every snapshot of the tables.

module MatchProperties {
  import opened Tables
  import opened Collation
  import opened Sorting
  import opened Matching

  predicate ValidScopeName(s: string)
  {
    s == "city" || s == "neighborhood"
  }

  predicate HasUserRow(snap: Snapshot, actor: UserId)
  {
    exists k :: 0 <= k < |snap.users| && snap.users[k].id == actor
  }

  predicate HasInterestRow(snap: Snapshot, actor: UserId)
  {
    exists k :: 0 <= k < |snap.userInterests| && snap.userInterests[k].0 == actor
  }

  /** The route's outcome is decided by its guards, in the route's order. */
  lemma RouteOutcomes(snap: Snapshot, actor: UserId, scopeName: string, page: int)
    ensures var r := FindMatches(snap, actor, scopeName, page);
      && (r == Err(InvalidScope) <==> !ValidScopeName(scopeName))
      && (r == Err(UnknownUser) <==> ValidScopeName(scopeName) && !HasUserRow(snap, actor))
      && (r == Err(NoInterests) <==>
            ValidScopeName(scopeName) && HasUserRow(snap, actor) && !HasInterestRow(snap, actor))
      && (r == Err(NegativeOffset) <==>
            ValidScopeName(scopeName) && HasUserRow(snap, actor) && HasInterestRow(snap, actor) && page < 1)
      && (r.Ok? <==>
            ValidScopeName(scopeName) && HasUserRow(snap, actor) && HasInterestRow(snap, actor) && page >= 1)
  {
    if HasInterestRow(snap, actor) {
      var k :| 0 <= k < |snap.userInterests| && snap.userInterests[k].0 == actor;
      assert snap.userInterests[k].1 in MyInterests(snap, actor);
    }
  }

  /** The intermediate values of a successful route. */
  lemma Unfold(snap: Snapshot, actor: UserId, scopeName: string, page: int)
    returns (scope: Scope, me: UserRow, mine: set<InterestId>, cands: seq<Match>, onPage: seq<Match>)
    requires FindMatches(snap, actor, scopeName, page).Ok?
    ensures ParseScope(scopeName) == Some(scope) && FindUser(snap.users, actor) == Some(me)
    ensures mine == MyInterests(snap, actor) && mine != {} && page >= 1 && me.id == actor
    ensures cands == Candidates(snap, me, scope, mine, snap.users)
    ensures onPage == Window(Ranked(cands), (page - 1) * PerPage, PerPage)
    ensures var v := FindMatches(snap, actor, scopeName, page).value;
      && v.scope == scope && v.page == page
      && v.matches == Entries(onPage, InterestMap(InterestRows(snap, PageIds(onPage), mine)))
      && v.requestStatus == StatusMap(RequestRowsFor(snap.requests, actor, PageIds(onPage)), actor)
      && v.totalPages == PageCount(|cands|)
  {
    scope := ParseScope(scopeName).value;
    me := FindUser(snap.users, actor).value;
    mine := MyInterests(snap, actor);
    cands := Candidates(snap, me, scope, mine, snap.users);
    onPage := Window(Ranked(cands), (page - 1) * PerPage, PerPage);
  }

  lemma InMultiset<T>(x: T, r: seq<T>, s: seq<T>)
    requires multiset(r) == multiset(s) && x in r
    ensures x in s
  {
    assert x in multiset(r);
  }

  /** Every user shown is another user, not a friend in either orientation,
      at the requester's location for the chosen scope, holding at least one
      of the requester's interests, and shown with its shared count. */
  lemma MatchesAreCandidates(snap: Snapshot, actor: UserId, scopeName: string, page: int, e: MatchEntry)
    requires FindMatches(snap, actor, scopeName, page).Ok?
    requires e in FindMatches(snap, actor, scopeName, page).value.matches
    ensures e.user.id != actor
    ensures !AreFriends(snap.friendships, actor, e.user.id)
    ensures e.user.shared == SharedCount(snap.userInterests, e.user.id, MyInterests(snap, actor)) > 0
    ensures exists k :: (0 <= k < |snap.userInterests|
      && snap.userInterests[k].0 == e.user.id && snap.userInterests[k].1 in MyInterests(snap, actor))
    ensures exists u :: (u in snap.users && u.id == e.user.id && u.name == e.user.name
      && SameLocation(FindUser(snap.users, actor).value, u, FindMatches(snap, actor, scopeName, page).value.scope))
  {
    var scope, me, mine, cands, onPage := Unfold(snap, actor, scopeName, page);
    var matches := FindMatches(snap, actor, scopeName, page).value.matches;
    var i :| 0 <= i < |matches| && matches[i] == e;
    var m := onPage[i];
    var ranked := Ranked(cands);
    assert m in ranked by {
      assert m == ranked[(page - 1) * PerPage + i];
    }
    InMultiset(m, ranked, cands);
    var j :| 0 <= j < |snap.users| && IsCandidate(snap, me, scope, mine, snap.users[j])
      && m == ToMatch(snap, mine, snap.users[j]);
    var u := snap.users[j];
    assert u in snap.users && u.id == e.user.id && u.name == e.user.name && SameLocation(me, u, scope);
  }

  /** A page has at most `per_page` users, ordered by shared count descending
      and then by name ascending. */
  lemma PageIsRankedAndBounded(snap: Snapshot, actor: UserId, scopeName: string, page: int)
    requires FindMatches(snap, actor, scopeName, page).Ok?
    ensures var v := FindMatches(snap, actor, scopeName, page).value;
      && |v.matches| <= PerPage
      && forall i, j :: 0 <= i < j < |v.matches| ==> RankLeq(v.matches[i].user, v.matches[j].user)
  {
    var scope, me, mine, cands, onPage := Unfold(snap, actor, scopeName, page);
    WindowKeepsOrder(Ranked(cands), (page - 1) * PerPage, PerPage, RankLeq);
  }

  lemma WindowKeepsOrder<T>(s: seq<T>, offset: nat, limit: nat, leq: (T, T) -> bool)
    requires SortedBy(s, leq)
    ensures SortedBy(Window(s, offset, limit), leq)
  {
    var w := Window(s, offset, limit);
    forall i, j | 0 <= i < j < |w| ensures leq(w[i], w[j]) {
      assert w[i] == s[offset + i] && w[j] == s[offset + j];
    }
  }

  /** Every candidate is shown on some page between 1 and total_pages. */
  lemma EveryCandidateIsShown(snap: Snapshot, actor: UserId, scopeName: string, u: UserRow)
    requires FindMatches(snap, actor, scopeName, 1).Ok?
    requires u in snap.users
    requires IsCandidate(snap, FindUser(snap.users, actor).value, ParseScope(scopeName).value, MyInterests(snap, actor), u)
    ensures exists p :: (1 <= p <= FindMatches(snap, actor, scopeName, 1).value.totalPages
      && exists e :: e in FindMatches(snap, actor, scopeName, p).value.matches && e.user.id == u.id)
  {
    var scope, me, mine, cands, _ := Unfold(snap, actor, scopeName, 1);
    var m := ToMatch(snap, mine, u);
    var j :| 0 <= j < |snap.users| && snap.users[j] == u;
    assert m in cands;
    var ranked := Ranked(cands);
    InMultiset(m, cands, ranked);
    var k :| 0 <= k < |ranked| && ranked[k] == m;
    PagesCover(ranked, k);
    var p := k / PerPage + 1;
    RouteOutcomes(snap, actor, scopeName, 1);
    RouteOutcomes(snap, actor, scopeName, p);
    var _, _, _, _, onPage := Unfold(snap, actor, scopeName, p);
    var e := FindMatches(snap, actor, scopeName, p).value.matches[k % PerPage];
    assert e.user == onPage[k % PerPage] == m;
  }

  /** A requester without a location for the scope is matched with nobody. */
  lemma MissingLocationMatchesNobody(snap: Snapshot, actor: UserId, scopeName: string, page: int)
    requires FindMatches(snap, actor, scopeName, page).Ok?
    requires Location(FindUser(snap.users, actor).value, FindMatches(snap, actor, scopeName, page).value.scope).None?
    ensures var v := FindMatches(snap, actor, scopeName, page).value;
      v.matches == [] && v.totalPages == 0 && v.requestStatus == map[]
  {
    var scope, me, mine, cands, onPage := Unfold(snap, actor, scopeName, page);
    NoLocationNoCandidates(snap, me, scope, mine, snap.users);
    assert Ranked(cands) == [];
    assert PageIds(onPage) == {};
  }

  /** The names of the users' rows in a sequence sorted by name are sorted. */
  lemma {:induction false} NamesOfSorted(rows: seq<(UserId, string)>, u: UserId)
    requires SortedBy(rows, NameLeq)
    ensures SortedBy(NamesOf(rows, u), LexLeq)
  {
    if |rows| > 0 {
      var tail := rows[1..];
      assert SortedBy(tail, NameLeq) by {
        forall i, j | 0 <= i < j < |tail| ensures NameLeq(tail[i], tail[j]) {
          assert tail[i] == rows[i + 1] && tail[j] == rows[j + 1];
        }
      }
      NamesOfSorted(tail, u);
      var rest := NamesOf(tail, u);
      if rows[0].0 == u {
        forall j | 0 <= j < |rest| ensures LexLeq(rows[0].1, rest[j]) {
          assert (u, rest[j]) in tail;
          var i :| 0 <= i < |tail| && tail[i] == (u, rest[j]);
          assert NameLeq(rows[0], rows[i + 1]);
        }
      }
    }
  }

  /** Each user's shared interests are exactly the names of that user's
      interests that the requester also has, in name order. */
  lemma SharedInterestsExact(snap: Snapshot, actor: UserId, scopeName: string, page: int, e: MatchEntry)
    requires FindMatches(snap, actor, scopeName, page).Ok?
    requires e in FindMatches(snap, actor, scopeName, page).value.matches
    ensures forall x :: x in e.sharedInterests <==>
      exists k :: 0 <= k < |snap.userInterests| && snap.userInterests[k].0 == e.user.id
        && snap.userInterests[k].1 in MyInterests(snap, actor) && snap.userInterests[k].1 in snap.interestNames
        && x == snap.interestNames[snap.userInterests[k].1]
    ensures SortedBy(e.sharedInterests, LexLeq)
  {
    var scope, me, mine, cands, onPage := Unfold(snap, actor, scopeName, page);
    var ids := PageIds(onPage);
    var rows := InterestRows(snap, ids, mine);
    var matches := FindMatches(snap, actor, scopeName, page).value.matches;
    var i :| 0 <= i < |matches| && matches[i] == e;
    var id := onPage[i].id;
    assert id in ids && e.user.id == id;
    InterestMapIsNamesOf(rows, id);
    assert e.sharedInterests == NamesOf(rows, id);
    var unsorted := SharedNameRows(snap.userInterests, snap.interestNames, ids, mine);
    forall x ensures x in e.sharedInterests <==> (id, x) in unsorted {
      if (id, x) in rows {
        InMultiset((id, x), rows, unsorted);
      }
      if (id, x) in unsorted {
        InMultiset((id, x), unsorted, rows);
      }
    }
    NamesOfSorted(rows, id);
  }

  lemma StatusKeyHasRow(rows: seq<RequestRow>, me: UserId, ids: set<UserId>, u: UserId)
    requires u in StatusMap(RequestRowsFor(rows, me, ids), me)
    ensures u in ids
    ensures exists r :: r in rows && Connects(r.sender, r.receiver, me, u) && StatusMap(RequestRowsFor(rows, me, ids), me)[u] == r.status
  {
    var q := RequestRowsFor(rows, me, ids);
    StatusMapLastWins(q, me, u);
    var k :| 0 <= k < |q| && Other(q[k], me) == u && StatusMap(q, me)[u] == q[k].status;
    assert q[k] in q;
  }

  lemma RowGivesStatusKey(rows: seq<RequestRow>, me: UserId, ids: set<UserId>, u: UserId, r: RequestRow)
    requires u in ids && u != me && r in rows && Connects(r.sender, r.receiver, me, u)
    ensures u in StatusMap(RequestRowsFor(rows, me, ids), me)
  {
    var q := RequestRowsFor(rows, me, ids);
    assert r in q;
    var k :| 0 <= k < |q| && q[k] == r;
    assert Other(q[k], me) == u;
    StatusMapLastWins(q, me, u);
  }

  predicate Shown(v: MatchView, u: UserId)
  {
    exists e :: e in v.matches && e.user.id == u
  }

  lemma ShownIsOnPage(v: MatchView, onPage: seq<Match>, byUser: map<UserId, seq<string>>, u: UserId)
    requires v.matches == Entries(onPage, byUser)
    ensures Shown(v, u) <==> u in PageIds(onPage)
  {
    if u in PageIds(onPage) {
      var m :| m in onPage && m.id == u;
      var i :| 0 <= i < |onPage| && onPage[i] == m;
      assert v.matches[i] in v.matches;
    }
    if Shown(v, u) {
      var e :| e in v.matches && e.user.id == u;
      var i :| 0 <= i < |v.matches| && v.matches[i] == e;
      assert onPage[i] in onPage;
    }
  }

  /** `request_status` has a key only for users on the page, and its value is
      the status of a request between that user and the requester. */
  lemma RequestStatusOnlyForShown(snap: Snapshot, actor: UserId, scopeName: string, page: int, u: UserId)
    requires FindMatches(snap, actor, scopeName, page).Ok?
    requires u in FindMatches(snap, actor, scopeName, page).value.requestStatus
    ensures Shown(FindMatches(snap, actor, scopeName, page).value, u)
    ensures exists r :: (r in snap.requests && Connects(r.sender, r.receiver, actor, u)
      && FindMatches(snap, actor, scopeName, page).value.requestStatus[u] == r.status)
  {
    var scope, me, mine, cands, onPage := Unfold(snap, actor, scopeName, page);
    var v := FindMatches(snap, actor, scopeName, page).value;
    StatusKeyHasRow(snap.requests, actor, PageIds(onPage), u);
    ShownIsOnPage(v, onPage, InterestMap(InterestRows(snap, PageIds(onPage), mine)), u);
  }

  /** Every user on the page with a request to or from the requester has a
      key in `request_status`. */
  lemma RequestStatusCoversShown(snap: Snapshot, actor: UserId, scopeName: string, page: int, u: UserId, r: RequestRow)
    requires FindMatches(snap, actor, scopeName, page).Ok?
    requires Shown(FindMatches(snap, actor, scopeName, page).value, u)
    requires r in snap.requests && Connects(r.sender, r.receiver, actor, u)
    ensures u in FindMatches(snap, actor, scopeName, page).value.requestStatus
  {
    var scope, me, mine, cands, onPage := Unfold(snap, actor, scopeName, page);
    var v := FindMatches(snap, actor, scopeName, page).value;
    var e :| e in v.matches && e.user.id == u;
    MatchesAreCandidates(snap, actor, scopeName, page, e);
    ShownIsOnPage(v, onPage, InterestMap(InterestRows(snap, PageIds(onPage), mine)), u);
    RowGivesStatusKey(snap.requests, actor, PageIds(onPage), u, r);
  }
}
