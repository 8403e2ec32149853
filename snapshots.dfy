// How the rows that similar_interests reads relate to the tables the mutating
// routes write: a snapshot is taken of the store as a route left it, so what a
// route changes shows up in who is offered as a match.

module Snapshots {
  import opened Tables
  import opened Rules
  import opened Matching

  /** `snap` lists the rows of `db` that the route reads, in some row order. */
  ghost predicate SnapshotOf(snap: Snapshot, db: Db)
  {
    && snap.friendships == db.friendships
    && (forall p :: p in snap.userInterests <==> p in db.userInterests)
    && (forall u :: u in snap.users ==>
          u.id in db.users && db.users[u.id].city == u.city && db.users[u.id].postal == u.postal)
    && (forall id :: id in db.users ==> exists u :: u in snap.users && u.id == id)
    && (forall r :: r in snap.requests <==>
          exists id :: id in db.requests && db.requests[id] == FriendRequest(r.sender, r.receiver, r.status))
  }

  /** Once a and b are no longer friends, b is a candidate for a exactly when
      it shares a location and an interest: the friendship no longer excludes it. */
  lemma UnfriendReopensMatch(db: Db, snap: Snapshot, a: UserId, b: UserId,
                             me: UserRow, u: UserRow, scope: Scope, mine: set<InterestId>)
    requires Valid(db)
    requires SnapshotOf(snap, Unfriend(db, a, b))
    requires me.id == a && u.id == b && a != b
    ensures IsCandidate(snap, me, scope, mine, u) <==>
      SameLocation(me, u, scope) && SharedCount(snap.userInterests, b, mine) > 0
  {
    assert !AreFriends(Unfriend(db, a, b).friendships, a, b);
  }

  /** After accepting, the sender is never offered to the receiver again, nor
      the receiver to the sender. */
  lemma AcceptEndsMatch(db: Db, snap: Snapshot, id: RequestId,
                        me: UserRow, u: UserRow, scope: Scope, mine: set<InterestId>)
    requires Valid(db)
    requires SnapshotOf(snap, Accept(db, id))
    requires id in db.requests && db.requests[id].status == Pending
    requires {me.id, u.id} == {db.requests[id].sender, db.requests[id].receiver}
    ensures !IsCandidate(snap, me, scope, mine, u)
  {
    var r := db.requests[id];
    assert (r.sender, r.receiver) in Accept(db, id).friendships;
    assert me.id in {r.sender, r.receiver} && u.id in {r.sender, r.receiver};
  }

  /** After the cascade, no snapshot row names the deleted user, so it is never
      offered as a match and never counted as sharing an interest. */
  lemma PurgedUserIsNeverMatched(db: Db, snap: Snapshot, t: UserId)
    requires Valid(db)
    requires SnapshotOf(snap, Purge(db, t))
    ensures forall u :: u in snap.users ==> u.id != t
    ensures forall p :: p in snap.userInterests ==> p.0 != t
    ensures forall r :: r in snap.requests ==> r.sender != t && r.receiver != t
  {
    PurgeKeeps(db, t);
  }

  /** After the requester edits the profile, the interests the matching route
      starts from are exactly the ones selected, and the location is the one set. */
  lemma EditProfileSetsMatching(db: Db, snap: Snapshot, a: UserId, city: string, postal: string,
                                selected: set<InterestId>)
    requires Valid(db) && a in db.users
    requires SnapshotOf(snap, EditProfile(db, a, a, city, postal, selected))
    ensures MyInterests(snap, a) == selected
    ensures FindUser(snap.users, a).Some?
    ensures Location(FindUser(snap.users, a).value, City) == Some(city)
    ensures Location(FindUser(snap.users, a).value, Neighborhood) == Some(postal)
  {
    var d := EditProfile(db, a, a, city, postal, selected);
    forall i | i in selected ensures i in MyInterests(snap, a) {
      assert (a, i) in d.userInterests;
      assert (a, i) in snap.userInterests;
    }
    var u :| u in snap.users && u.id == a;
    var k :| 0 <= k < |snap.users| && snap.users[k] == u;
  }
}
