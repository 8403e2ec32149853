// The rules of the social-graph routes of cityconnect.py, one function per
// route, each taking the store before the route's statements run and giving
// the store after them (a route's statements are applied as one step). The
// session user of a route is the explicit `actor` parameter.

module Rules {
  import opened Tables

  // ---------------------------------------------------------------------------
  // Accounts and profiles
  // ---------------------------------------------------------------------------

  datatype SignUpOutcome = SignedUp | SignUpRejected

  /** Whether signup's INSERT INTO users commits: `id` is the value the userid
      sequence hands out, and `storeFails` an error the INSERT raises (a taken
      username or email), which the route catches without committing. */
  function SignUpCheck(db: Db, id: UserId, storeFails: bool): (o: SignUpOutcome)
    ensures o == SignedUp <==> id !in db.users && !storeFails
  {
    if storeFails || id in db.users then SignUpRejected else SignedUp
  }

  /** signup (POST): one new users row with the chosen city and neighbourhood,
      neither admin nor restricted; nothing else changes. */
  function SignUp(db: Db, id: UserId, city: Option<string>, postal: Option<string>, storeFails: bool): (d: Db)
    requires Valid(db)
    ensures Valid(d)
    ensures SignUpCheck(db, id, storeFails) != SignedUp ==> d == db
    ensures SignUpCheck(db, id, storeFails) == SignedUp ==>
      && d.users.Keys == db.users.Keys + {id}
      && d.users[id] == Account(city, postal, false, false)
      && (forall u :: u in db.users ==> d.users[u] == db.users[u])
      && d == db.(users := d.users)
  {
    if SignUpCheck(db, id, storeFails) == SignedUp then
      db.(users := db.users[id := Account(city, postal, false, false)])
    else db
  }

  datatype ProfileOutcome = Unauthorized | NoUserRow | Updated

  /** The guards of edit_profile: only the session user's own profile, and a
      missing users row makes the route fail on reading it. */
  function ProfileCheck(db: Db, actor: UserId, user: UserId): (o: ProfileOutcome)
    ensures o == Updated <==> actor == user && user in db.users
    ensures o == Unauthorized <==> actor != user
  {
    if actor != user then Unauthorized
    else if user !in db.users then NoUserRow
    else Updated
  }

  /** The user's interest rows after edit_profile: the old rows of other users
      and one row per selected interest. */
  function ReplaceInterests(rows: set<(UserId, InterestId)>, user: UserId, selected: set<InterestId>): (r: set<(UserId, InterestId)>)
    ensures forall p :: p in r <==> (p in rows && p.0 != user) || (p.0 == user && p.1 in selected)
  {
    var added := set i | i in selected :: (user, i);
    assert forall p: (UserId, InterestId) :: p.0 == user && p.1 in selected ==> p in added by {
      forall p: (UserId, InterestId) | p.0 == user && p.1 in selected ensures p in added {
        var i := p.1;
        assert (user, i) in added && p == (user, i);
      }
    }
    (set p | p in rows && p.0 != user) + added
  }

  /** edit_profile (POST): sets the city and neighbourhood of the user's row
      and replaces the user's interest rows by the selected ones. */
  function EditProfile(db: Db, actor: UserId, user: UserId, city: string, postal: string, selected: set<InterestId>): (d: Db)
    requires Valid(db)
    ensures Valid(d)
    ensures ProfileCheck(db, actor, user) != Updated ==> d == db
    ensures ProfileCheck(db, actor, user) == Updated ==>
      && d.users.Keys == db.users.Keys
      && d.users[user] == db.users[user].(city := Some(city), postal := Some(postal))
      && (forall u :: u in db.users && u != user ==> d.users[u] == db.users[u])
      && (forall i :: (user, i) in d.userInterests <==> i in selected)
      && (forall p: (UserId, InterestId) :: p.0 != user ==> (p in d.userInterests <==> p in db.userInterests))
      && d == db.(users := d.users, userInterests := d.userInterests)
  {
    if ProfileCheck(db, actor, user) == Updated then
      db.(users := db.users[user := db.users[user].(city := Some(city), postal := Some(postal))],
          userInterests := ReplaceInterests(db.userInterests, user, selected))
    else db
  }

  // ---------------------------------------------------------------------------
  // Friend requests
  // ---------------------------------------------------------------------------

  datatype SendOutcome = AlreadyPending | AlreadyFriends | UnknownUser | Sent

  /** The two checks of send_friend_request, in the order the route makes them,
      then the INSERT, which the store refuses when either id has no users row
      (both columns refer to users); the refused INSERT is never committed. */
  function SendCheck(db: Db, sender: UserId, receiver: UserId): (o: SendOutcome)
    ensures o == Sent <==>
      && !HasRequest(db.requests, sender, receiver, Pending) && !AreFriends(db.friendships, sender, receiver)
      && sender in db.users && receiver in db.users
    ensures o == AlreadyPending <==> HasRequest(db.requests, sender, receiver, Pending)
    ensures o == AlreadyFriends <==>
      !HasRequest(db.requests, sender, receiver, Pending) && AreFriends(db.friendships, sender, receiver)
    ensures o == UnknownUser <==>
      && !HasRequest(db.requests, sender, receiver, Pending) && !AreFriends(db.friendships, sender, receiver)
      && (sender !in db.users || receiver !in db.users)
  {
    if HasRequest(db.requests, sender, receiver, Pending) then AlreadyPending
    else if AreFriends(db.friendships, sender, receiver) then AlreadyFriends
    else if sender !in db.users || receiver !in db.users then UnknownUser
    else Sent
  }

  /** send_friend_request: a no-op when a pending sender->receiver row or a
      friendship in either orientation exists, or when either user is missing;
      otherwise one new pending row. */
  function Send(db: Db, sender: UserId, receiver: UserId): (d: Db)
    requires Valid(db)
    ensures Valid(d)
    ensures SendCheck(db, sender, receiver) != Sent ==> d == db
    ensures SendCheck(db, sender, receiver) == Sent ==>
      && db.nextRequestId !in db.requests
      && d.requests.Keys == db.requests.Keys + {db.nextRequestId}
      && d.requests[db.nextRequestId] == FriendRequest(sender, receiver, Pending)
      && (forall id :: id in db.requests ==> d.requests[id] == db.requests[id])
      && d == db.(requests := d.requests, nextRequestId := d.nextRequestId)
  {
    if SendCheck(db, sender, receiver) != Sent then db
    else
      db.(requests := db.requests[db.nextRequestId := FriendRequest(sender, receiver, Pending)],
          nextRequestId := db.nextRequestId + 1)
  }

  /** cancel_friend_request: deletes exactly the pending actor->receiver rows. */
  function Cancel(db: Db, actor: UserId, receiver: UserId): (d: Db)
    requires Valid(db)
    ensures Valid(d)
    ensures forall id :: id in d.requests <==>
      id in db.requests && db.requests[id] != FriendRequest(actor, receiver, Pending)
    ensures forall id :: id in d.requests ==> d.requests[id] == db.requests[id]
    ensures !HasRequest(d.requests, actor, receiver, Pending)
    ensures d == db.(requests := d.requests)
  {
    db.(requests := map id | id in db.requests && db.requests[id] != FriendRequest(actor, receiver, Pending)
                          :: db.requests[id])
  }

  /** accept_friend_request: acts only on a pending row; it marks the row
      accepted and adds the friendship row (sender, receiver). It takes no
      actor: the route never compares the session user with the row. */
  function Accept(db: Db, id: RequestId): (d: Db)
    requires Valid(db)
    ensures Valid(d)
    ensures !(id in db.requests && db.requests[id].status == Pending) ==> d == db
    ensures id in db.requests && db.requests[id].status == Pending ==>
      var q := db.requests[id];
      && d.requests.Keys == db.requests.Keys
      && d.requests[id] == FriendRequest(q.sender, q.receiver, Accepted)
      && (forall j :: j in db.requests && j != id ==> d.requests[j] == db.requests[j])
      && d.friendships == db.friendships + {(q.sender, q.receiver)}
      && d == db.(requests := d.requests, friendships := d.friendships)
  {
    if id in db.requests && db.requests[id].status == Pending then
      var q := db.requests[id];
      db.(requests := db.requests[id := q.(status := Accepted)],
          friendships := db.friendships + {(q.sender, q.receiver)})
    else db
  }

  /** decline_friend_request: marks the row declined when the actor is its
      receiver, whatever its status was. */
  function Decline(db: Db, actor: UserId, id: RequestId): (d: Db)
    requires Valid(db)
    ensures Valid(d)
    ensures !(id in db.requests && db.requests[id].receiver == actor) ==> d == db
    ensures id in db.requests && db.requests[id].receiver == actor ==>
      && d.requests.Keys == db.requests.Keys
      && d.requests[id] == db.requests[id].(status := Declined)
      && (forall j :: j in db.requests && j != id ==> d.requests[j] == db.requests[j])
      && d == db.(requests := d.requests)
  {
    if id in db.requests && db.requests[id].receiver == actor then
      db.(requests := db.requests[id := db.requests[id].(status := Declined)])
    else db
  }

  /** remove_friend: deletes the friendship rows of the pair in both
      orientations and the accepted request rows in both directions. */
  function Unfriend(db: Db, actor: UserId, friend: UserId): (d: Db)
    requires Valid(db)
    ensures Valid(d)
    ensures !AreFriends(d.friendships, actor, friend)
    ensures !HasRequest(d.requests, actor, friend, Accepted) && !HasRequest(d.requests, friend, actor, Accepted)
    ensures forall p :: p in d.friendships <==> p in db.friendships && p != (actor, friend) && p != (friend, actor)
    ensures forall id :: id in d.requests <==>
      id in db.requests && !(Connects(db.requests[id].sender, db.requests[id].receiver, actor, friend) && db.requests[id].status == Accepted)
    ensures forall id :: id in d.requests ==> d.requests[id] == db.requests[id]
    ensures d == db.(friendships := d.friendships, requests := d.requests)
  {
    db.(friendships := db.friendships - {(actor, friend), (friend, actor)},
        requests := map id | id in db.requests &&
                      !(Connects(db.requests[id].sender, db.requests[id].receiver, actor, friend) && db.requests[id].status == Accepted)
                    :: db.requests[id])
  }

  // ---------------------------------------------------------------------------
  // Ratings
  // ---------------------------------------------------------------------------

  datatype RateOutcome = NotFriends | Submitted

  function RateCheck(db: Db, rater: UserId, ratee: UserId): (o: RateOutcome)
    ensures o == Submitted <==> RatingAllowed(db, rater, ratee)
  {
    if RatingAllowed(db, rater, ratee) then Submitted else NotFriends
  }

  /** rate_user: an upsert on (rater, ratee), gated by the relationship test. */
  function Rate(db: Db, rater: UserId, ratee: UserId, score: int, comment: Option<string>): (d: Db)
    ensures !RatingAllowed(db, rater, ratee) ==> d == db
    ensures RatingAllowed(db, rater, ratee) ==>
      && d.ratings.Keys == db.ratings.Keys + {(rater, ratee)}
      && d.ratings[(rater, ratee)] == Rating(score, comment)
      && (forall k :: k in db.ratings && k != (rater, ratee) ==> d.ratings[k] == db.ratings[k])
    ensures d == db.(ratings := d.ratings)
  {
    if RatingAllowed(db, rater, ratee) then
      db.(ratings := db.ratings[(rater, ratee) := Rating(score, comment)])
    else db
  }

  /** delete_rating: only the actor's own rating of ratee can go. */
  function DeleteRating(db: Db, rater: UserId, ratee: UserId): (d: Db)
    ensures (rater, ratee) !in d.ratings
    ensures d.ratings.Keys == db.ratings.Keys - {(rater, ratee)}
    ensures forall k :: k in d.ratings ==> d.ratings[k] == db.ratings[k]
    ensures d == db.(ratings := d.ratings)
  {
    db.(ratings := db.ratings - {(rater, ratee)})
  }

  // ---------------------------------------------------------------------------
  // Group and event memberships (INSERT ... ON CONFLICT DO NOTHING / DELETE)
  // ---------------------------------------------------------------------------

  function JoinGroup(db: Db, user: UserId, group: GroupId): (d: Db)
    ensures (user, group) in d.groupMembers
    ensures d.groupMembers - {(user, group)} == db.groupMembers - {(user, group)}
    ensures d == db.(groupMembers := d.groupMembers)
  {
    db.(groupMembers := db.groupMembers + {(user, group)})
  }

  function LeaveGroup(db: Db, user: UserId, group: GroupId): (d: Db)
    ensures (user, group) !in d.groupMembers
    ensures d.groupMembers + {(user, group)} == db.groupMembers + {(user, group)}
    ensures d == db.(groupMembers := d.groupMembers)
  {
    db.(groupMembers := db.groupMembers - {(user, group)})
  }

  function JoinEvent(db: Db, user: UserId, event: EventId): (d: Db)
    ensures (user, event) in d.eventParticipants
    ensures d.eventParticipants - {(user, event)} == db.eventParticipants - {(user, event)}
    ensures d == db.(eventParticipants := d.eventParticipants)
  {
    db.(eventParticipants := db.eventParticipants + {(user, event)})
  }

  function LeaveEvent(db: Db, user: UserId, event: EventId): (d: Db)
    ensures (user, event) !in d.eventParticipants
    ensures d.eventParticipants + {(user, event)} == db.eventParticipants + {(user, event)}
    ensures d == db.(eventParticipants := d.eventParticipants)
  {
    db.(eventParticipants := db.eventParticipants - {(user, event)})
  }

  // ---------------------------------------------------------------------------
  // Owner-only deletes
  // ---------------------------------------------------------------------------

  /** delete_post: DELETE ... WHERE post_id = id AND userid = actor. */
  function DeletePost(db: Db, actor: UserId, post: PostId): (d: Db)
    ensures post in db.posts && db.posts[post] == actor ==> d.posts.Keys == db.posts.Keys - {post}
    ensures !(post in db.posts && db.posts[post] == actor) ==> d == db
    ensures forall p :: p in d.posts ==> p in db.posts && d.posts[p] == db.posts[p]
    ensures d == db.(posts := d.posts)
  {
    if post in db.posts && db.posts[post] == actor then db.(posts := db.posts - {post}) else db
  }

  /** delete_comment: DELETE ... WHERE comment_id = id AND userid = actor. */
  function DeleteComment(db: Db, actor: UserId, comment: CommentId): (d: Db)
    ensures comment in db.comments && db.comments[comment] == actor ==>
      d.comments.Keys == db.comments.Keys - {comment}
    ensures !(comment in db.comments && db.comments[comment] == actor) ==> d == db
    ensures forall c :: c in d.comments ==> c in db.comments && d.comments[c] == db.comments[c]
    ensures d == db.(comments := d.comments)
  {
    if comment in db.comments && db.comments[comment] == actor then db.(comments := db.comments - {comment})
    else db
  }

  /** delete_event's check: the event exists and the actor created it. */
  predicate MayDeleteEvent(db: Db, actor: UserId, event: EventId)
  {
    event in db.events && db.events[event] == actor
  }

  /** delete_event: refused (state unchanged) unless the actor is the creator. */
  function DeleteEvent(db: Db, actor: UserId, event: EventId): (d: Db)
    ensures MayDeleteEvent(db, actor, event) ==> d.events.Keys == db.events.Keys - {event}
    ensures !MayDeleteEvent(db, actor, event) ==> d == db
    ensures forall e :: e in d.events ==> e in db.events && d.events[e] == db.events[e]
    ensures d == db.(events := d.events)
  {
    if MayDeleteEvent(db, actor, event) then db.(events := db.events - {event}) else db
  }

  // ---------------------------------------------------------------------------
  // Admin user management
  // ---------------------------------------------------------------------------

  datatype AdminOutcome = NotAdmin | OwnAccount | NoSuchUser | TargetIsAdmin | RolledBack | Done

  /** is_admin(): the session user has a row whose is_admin flag is set. */
  predicate IsAdmin(db: Db, actor: UserId)
  {
    actor in db.users && db.users[actor].isAdmin
  }

  /** The guards of the flag-setting admin routes; `selfGuarded` is whether the
      route refuses to act on the admin's own account. */
  function FlagCheck(db: Db, actor: UserId, target: UserId, selfGuarded: bool): (o: AdminOutcome)
    ensures o == Done <==> IsAdmin(db, actor) && !(selfGuarded && actor == target)
    ensures o == OwnAccount <==> IsAdmin(db, actor) && selfGuarded && actor == target
  {
    if !IsAdmin(db, actor) then NotAdmin
    else if selfGuarded && actor == target then OwnAccount
    else Done
  }

  /** UPDATE users SET ... WHERE userid = target: changes that row, if any. */
  function UpdateUser(db: Db, target: UserId, f: Account -> Account): (d: Db)
    ensures d.users.Keys == db.users.Keys
    ensures target in db.users ==> d.users[target] == f(db.users[target])
    ensures forall u :: u in db.users && u != target ==> d.users[u] == db.users[u]
    ensures d == db.(users := d.users)
  {
    if target in db.users then db.(users := db.users[target := f(db.users[target])]) else db
  }

  /** make_user_admin (self-guarded). */
  function MakeAdmin(db: Db, actor: UserId, target: UserId): (d: Db)
    ensures FlagCheck(db, actor, target, true) != Done ==> d == db
    ensures FlagCheck(db, actor, target, true) == Done ==>
      d == UpdateUser(db, target, (a: Account) => a.(isAdmin := true))
    ensures target in d.users && d.users[target].isAdmin ==> target in db.users
  {
    if FlagCheck(db, actor, target, true) == Done then UpdateUser(db, target, (a: Account) => a.(isAdmin := true)) else db
  }

  /** revoke_user_admin (self-guarded; another admin's rights can be revoked). */
  function RevokeAdmin(db: Db, actor: UserId, target: UserId): (d: Db)
    ensures FlagCheck(db, actor, target, true) != Done ==> d == db
    ensures FlagCheck(db, actor, target, true) == Done ==>
      d == UpdateUser(db, target, (a: Account) => a.(isAdmin := false))
    ensures IsAdmin(db, actor) ==> IsAdmin(d, actor)
  {
    if FlagCheck(db, actor, target, true) == Done then UpdateUser(db, target, (a: Account) => a.(isAdmin := false)) else db
  }

  /** restrict_user (self-guarded). */
  function Restrict(db: Db, actor: UserId, target: UserId): (d: Db)
    ensures FlagCheck(db, actor, target, true) != Done ==> d == db
    ensures FlagCheck(db, actor, target, true) == Done ==>
      d == UpdateUser(db, target, (a: Account) => a.(isRestricted := true))
    ensures actor in d.users && d.users[actor].isRestricted ==> db.users[actor].isRestricted
  {
    if FlagCheck(db, actor, target, true) == Done then UpdateUser(db, target, (a: Account) => a.(isRestricted := true)) else db
  }

  /** unrestrict_user: this route has no self-guard. */
  function Unrestrict(db: Db, actor: UserId, target: UserId): (d: Db)
    ensures FlagCheck(db, actor, target, false) != Done ==> d == db
    ensures FlagCheck(db, actor, target, false) == Done ==>
      d == UpdateUser(db, target, (a: Account) => a.(isRestricted := false))
    ensures IsAdmin(db, actor) && target in db.users ==> !d.users[target].isRestricted
  {
    if FlagCheck(db, actor, target, false) == Done then UpdateUser(db, target, (a: Account) => a.(isRestricted := false)) else db
  }

  /** admin_delete_post: an admin deletes the post whoever wrote it; anyone
      else is redirected and nothing changes. */
  function AdminDeletePost(db: Db, actor: UserId, post: PostId): (d: Db)
    ensures IsAdmin(db, actor) ==> d.posts.Keys == db.posts.Keys - {post}
    ensures !IsAdmin(db, actor) ==> d == db
    ensures forall p :: p in d.posts ==> p in db.posts && d.posts[p] == db.posts[p]
    ensures d == db.(posts := d.posts)
  {
    if IsAdmin(db, actor) then db.(posts := db.posts - {post}) else db
  }

  /** admin_delete_event: an admin deletes the event whoever created it. */
  function AdminDeleteEvent(db: Db, actor: UserId, event: EventId): (d: Db)
    ensures IsAdmin(db, actor) ==> d.events.Keys == db.events.Keys - {event}
    ensures !IsAdmin(db, actor) ==> d == db
    ensures forall e :: e in d.events ==> e in db.events && d.events[e] == db.events[e]
    ensures d == db.(events := d.events)
  {
    if IsAdmin(db, actor) then db.(events := db.events - {event}) else db
  }

  /** admin_delete_rating: an admin deletes any (rater, ratee) rating. */
  function AdminDeleteRating(db: Db, actor: UserId, rater: UserId, ratee: UserId): (d: Db)
    ensures IsAdmin(db, actor) ==> d.ratings.Keys == db.ratings.Keys - {(rater, ratee)}
    ensures !IsAdmin(db, actor) ==> d == db
    ensures forall k :: k in d.ratings ==> k in db.ratings && d.ratings[k] == db.ratings[k]
    ensures d == db.(ratings := d.ratings)
  {
    if IsAdmin(db, actor) then db.(ratings := db.ratings - {(rater, ratee)}) else db
  }

  /** The guards of admin_delete_user, in the order the route makes them;
      `storeFails` stands for an exception raised by one of the cascade's
      DELETE statements, which the route rolls back. */
  function DeleteUserCheck(db: Db, actor: UserId, target: UserId, storeFails: bool): (o: AdminOutcome)
    ensures o == Done <==>
      IsAdmin(db, actor) && actor != target && target in db.users && !db.users[target].isAdmin && !storeFails
    ensures o == Done ==> !IsAdmin(db, target)
  {
    if !IsAdmin(db, actor) then NotAdmin
    else if actor == target then OwnAccount
    else if target !in db.users then NoSuchUser
    else if db.users[target].isAdmin then TargetIsAdmin
    else if storeFails then RolledBack
    else Done
  }

  // The DELETE statements of the cascade, one per shape of table.

  /** DELETE FROM t WHERE userid = u, for a table of (userid, other id) rows. */
  function WithoutFirst(rows: set<(UserId, int)>, u: UserId): set<(UserId, int)>
  {
    set p | p in rows && p.0 != u
  }

  /** DELETE FROM friendship WHERE user1_id = u OR user2_id = u. */
  function WithoutEither(rows: set<(UserId, UserId)>, u: UserId): set<(UserId, UserId)>
  {
    set p | p in rows && p.0 != u && p.1 != u
  }

  /** DELETE FROM user_rating WHERE rater_id = u OR ratee_id = u. */
  function WithoutRatingsOf(rows: map<(UserId, UserId), Rating>, u: UserId): map<(UserId, UserId), Rating>
  {
    map k | k in rows && k.0 != u && k.1 != u :: rows[k]
  }

  /** DELETE FROM friendrequest WHERE sender_id = u OR receiver_id = u. */
  function WithoutRequestsOf(rows: map<RequestId, FriendRequest>, u: UserId): map<RequestId, FriendRequest>
  {
    map id | id in rows && rows[id].sender != u && rows[id].receiver != u :: rows[id]
  }

  /** DELETE FROM message WHERE sender_id = u OR receiver_id = u. */
  function WithoutMessagesOf(rows: map<MessageId, Message>, u: UserId): map<MessageId, Message>
  {
    map m | m in rows && rows[m].sender != u && rows[m].receiver != u :: rows[m]
  }

  /** DELETE FROM t WHERE userid = u (or creator_id = u), for a table keyed by its own id. */
  function WithoutOwnedBy(rows: map<int, UserId>, u: UserId): map<int, UserId>
  {
    map k | k in rows && rows[k] != u :: rows[k]
  }

  /** The cascade of admin_delete_user: every row naming the user goes, in
      every table the route deletes from; nothing else goes. */
  function Purge(db: Db, u: UserId): (d: Db)
    requires Valid(db)
    ensures Valid(d)
  {
    Db(
      users := db.users - {u},
      userInterests := WithoutFirst(db.userInterests, u),
      friendships := WithoutEither(db.friendships, u),
      requests := WithoutRequestsOf(db.requests, u),
      nextRequestId := db.nextRequestId,
      ratings := WithoutRatingsOf(db.ratings, u),
      groupMembers := WithoutFirst(db.groupMembers, u),
      eventParticipants := WithoutFirst(db.eventParticipants, u),
      posts := WithoutOwnedBy(db.posts, u),
      comments := WithoutOwnedBy(db.comments, u),
      events := WithoutOwnedBy(db.events, u),
      messages := WithoutMessagesOf(db.messages, u))
  }

  /** What the cascade keeps: exactly the rows that do not name the user. */
  lemma PurgeKeeps(db: Db, u: UserId)
    requires Valid(db)
    ensures var d := Purge(db, u);
      && d.users.Keys == db.users.Keys - {u}
      && (forall p :: p in d.userInterests <==> p in db.userInterests && p.0 != u)
      && (forall p :: p in d.friendships <==> p in db.friendships && p.0 != u && p.1 != u)
      && (forall id :: id in d.requests <==> id in db.requests && db.requests[id].sender != u && db.requests[id].receiver != u)
      && (forall k :: k in d.ratings <==> k in db.ratings && k.0 != u && k.1 != u)
      && (forall p :: p in d.groupMembers <==> p in db.groupMembers && p.0 != u)
      && (forall p :: p in d.eventParticipants <==> p in db.eventParticipants && p.0 != u)
      && (forall p :: p in d.posts <==> p in db.posts && db.posts[p] != u)
      && (forall c :: c in d.comments <==> c in db.comments && db.comments[c] != u)
      && (forall e :: e in d.events <==> e in db.events && db.events[e] != u)
      && (forall m :: m in d.messages <==> m in db.messages && db.messages[m].sender != u && db.messages[m].receiver != u)
      && d.nextRequestId == db.nextRequestId
      && (forall k :: k in d.users ==> d.users[k] == db.users[k])
      && (forall id :: id in d.requests ==> d.requests[id] == db.requests[id])
      && (forall k :: k in d.ratings ==> d.ratings[k] == db.ratings[k])
      && (forall p :: p in d.posts ==> d.posts[p] == db.posts[p])
      && (forall c :: c in d.comments ==> d.comments[c] == db.comments[c])
      && (forall e :: e in d.events ==> d.events[e] == db.events[e])
      && (forall m :: m in d.messages ==> d.messages[m] == db.messages[m])
  {
  }

  /** admin_delete_user. */
  function DeleteUser(db: Db, actor: UserId, target: UserId, storeFails: bool): (d: Db)
    requires Valid(db)
    ensures Valid(d)
    ensures DeleteUserCheck(db, actor, target, storeFails) != Done ==> d == db
    ensures DeleteUserCheck(db, actor, target, storeFails) == Done ==> d == Purge(db, target)
    ensures forall u :: u in db.users && db.users[u].isAdmin ==> u in d.users && d.users[u] == db.users[u]
  {
    if DeleteUserCheck(db, actor, target, storeFails) == Done then Purge(db, target) else db
  }
}
