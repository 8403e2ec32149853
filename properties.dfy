// Properties of the relationship, rating, membership and admin rules that
// relate several routes, and the quirks of the routes as written.

module Properties {
  import opened Tables
  import opened Rules

  /** After a successful admin delete no row of any table names the user. */
  lemma PurgeForgets(db: Db, u: UserId)
    requires Valid(db)
    ensures !Mentions(Purge(db, u), u)
  {
    PurgeKeeps(db, u);
  }

  /** Send then accept makes the pair friends, marks the request accepted,
      opens rating in both directions, and turns a repeated send into a no-op. */
  lemma SendThenAccept(db: Db, a: UserId, b: UserId)
    requires Valid(db)
    requires SendCheck(db, a, b) == Sent
    ensures var d := Accept(Send(db, a, b), db.nextRequestId);
      && AreFriends(d.friendships, a, b)
      && d.requests[db.nextRequestId] == FriendRequest(a, b, Accepted)
      && RatingAllowed(d, a, b) && RatingAllowed(d, b, a)
      && SendCheck(d, a, b) == AlreadyFriends
      && Send(d, a, b) == d
  {
  }

  /** Two users who have just signed up can send each other a request: the
      rows signup adds are what send's foreign keys need. */
  lemma SignUpThenSend(db: Db, a: UserId, b: UserId, ca: Option<string>, pa: Option<string>,
                       cb: Option<string>, pb: Option<string>)
    requires Valid(db)
    requires a != b && a !in db.users && b !in db.users
    requires !HasRequest(db.requests, a, b, Pending) && !AreFriends(db.friendships, a, b)
    ensures var d := SignUp(SignUp(db, a, ca, pa, false), b, cb, pb, false);
      && SendCheck(d, a, b) == Sent
      && Send(d, a, b).requests[db.nextRequestId] == FriendRequest(a, b, Pending)
  {
  }

  /** Both ends of every request row have a users row (the foreign keys). */
  ghost predicate RequestsNameUsers(db: Db)
  {
    forall id :: id in db.requests ==> db.requests[id].sender in db.users && db.requests[id].receiver in db.users
  }

  /** A request to or from a user without a row is not stored, so send keeps
      every request row naming existing users. */
  lemma SendNamesUsers(db: Db, a: UserId, b: UserId)
    requires Valid(db) && RequestsNameUsers(db)
    ensures RequestsNameUsers(Send(db, a, b))
    ensures a !in db.users || b !in db.users ==> Send(db, a, b) == db
  {
  }

  /** After unfriend, a new request from a to b is refused only when a
      pending a->b row had survived or one of the two has no users row: the
      pair is otherwise back to none. */
  lemma UnfriendThenSend(db: Db, a: UserId, b: UserId)
    requires Valid(db)
    ensures SendCheck(Unfriend(db, a, b), a, b) ==
      if HasRequest(db.requests, a, b, Pending) then AlreadyPending
      else if a !in db.users || b !in db.users then UnknownUser
      else Sent
  {
  }

  /** Unfriend removes every ground for rating between the pair. */
  lemma UnfriendEndsRating(db: Db, a: UserId, b: UserId)
    requires Valid(db)
    ensures !RatingAllowed(Unfriend(db, a, b), a, b) && !RatingAllowed(Unfriend(db, a, b), b, a)
  {
  }

  /** Two ratings of b by a leave one entry for (a, b), holding the second. */
  lemma RatingOverwrites(db: Db, a: UserId, b: UserId, s1: int, c1: Option<string>, s2: int, c2: Option<string>)
    requires RatingAllowed(db, a, b)
    ensures var d := Rate(Rate(db, a, b, s1, c1), a, b, s2, c2);
      d.ratings.Keys == db.ratings.Keys + {(a, b)} && d.ratings[(a, b)] == Rating(s2, c2)
  {
  }

  lemma JoinGroupIdempotent(db: Db, u: UserId, g: GroupId)
    ensures JoinGroup(JoinGroup(db, u, g), u, g) == JoinGroup(db, u, g)
  {
  }

  lemma JoinEventIdempotent(db: Db, u: UserId, e: EventId)
    ensures JoinEvent(JoinEvent(db, u, e), u, e) == JoinEvent(db, u, e)
  {
  }

  lemma LeaveGroupUndoesJoin(db: Db, u: UserId, g: GroupId)
    requires (u, g) !in db.groupMembers
    ensures LeaveGroup(JoinGroup(db, u, g), u, g) == db
  {
  }

  /** Send checks no reverse request and accept checks no reverse-orientation
      friendship: crossed requests, both accepted, leave two friendship rows. */
  lemma CrossedRequestsGiveTwoRows(db: Db, a: UserId, b: UserId)
    requires Valid(db) && a != b
    requires SendCheck(db, a, b) == Sent && !HasRequest(db.requests, b, a, Pending)
    ensures var n := db.nextRequestId;
      var d := Accept(Accept(Send(Send(db, a, b), b, a), n), n + 1);
      (a, b) in d.friendships && (b, a) in d.friendships
  {
  }

  /** Decline checks no status: declining an accepted request keeps the
      friendship while the row says declined, and unfriend then leaves the
      declined row in place. */
  lemma DeclineAfterAccept(db: Db, a: UserId, b: UserId)
    requires Valid(db)
    requires SendCheck(db, a, b) == Sent
    ensures var n := db.nextRequestId;
      var d := Decline(Accept(Send(db, a, b), n), b, n);
      && AreFriends(d.friendships, a, b)
      && d.requests[n] == FriendRequest(a, b, Declined)
      && Unfriend(d, a, b).requests[n] == FriendRequest(a, b, Declined)
  {
  }

  /** Send checks no declined row: a declined request and a new pending one
      for the same ordered pair can coexist. */
  lemma ResendAfterDecline(db: Db, a: UserId, b: UserId)
    requires Valid(db)
    requires SendCheck(db, a, b) == Sent
    ensures var n := db.nextRequestId;
      var d := Send(Decline(Send(db, a, b), b, n), a, b);
      d.requests[n] == FriendRequest(a, b, Declined) && d.requests[n + 1] == FriendRequest(a, b, Pending)
  {
  }

  /** Nothing stops a request to oneself, so accepting it yields a self-friendship. */
  lemma SelfFriendship(db: Db, a: UserId)
    requires Valid(db)
    requires SendCheck(db, a, a) == Sent
    ensures (a, a) in Accept(Send(db, a, a), db.nextRequestId).friendships
  {
  }

  /** The admin deletes skip the owner check of the users' own deletes: an
      admin removes a post, an event or a rating the admin does not own, where
      the owner's route by the same actor changes nothing. */
  lemma AdminDeletesIgnoreOwner(db: Db, actor: UserId, post: PostId, event: EventId, rater: UserId, ratee: UserId)
    requires IsAdmin(db, actor)
    requires post in db.posts && db.posts[post] != actor
    requires event in db.events && db.events[event] != actor
    requires (rater, ratee) in db.ratings && rater != actor
    ensures post !in AdminDeletePost(db, actor, post).posts && DeletePost(db, actor, post) == db
    ensures event !in AdminDeleteEvent(db, actor, event).events && DeleteEvent(db, actor, event) == db
    ensures (rater, ratee) !in AdminDeleteRating(db, actor, rater, ratee).ratings
    ensures (rater, ratee) in DeleteRating(db, actor, ratee).ratings
  {
  }
}
