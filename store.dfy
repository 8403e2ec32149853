// The store that the routes of cityconnect.py change in place: one field per
// table. Each mutating route is one method whose statements act as one
// transaction; its contract ties the new tables to the rule in module Rules.

module Store {
  import opened Tables
  import opened Rules

  class SocialStore {
    var users: map<UserId, Account>
    var userInterests: set<(UserId, InterestId)>
    var friendships: set<(UserId, UserId)>
    var requests: map<RequestId, FriendRequest>
    var nextRequestId: RequestId
    var ratings: map<(UserId, UserId), Rating>
    var groupMembers: set<(UserId, GroupId)>
    var eventParticipants: set<(UserId, EventId)>
    var posts: map<PostId, UserId>
    var comments: map<CommentId, UserId>
    var events: map<EventId, UserId>
    var messages: map<MessageId, Message>

    /** The tables as one value. */
    ghost function State(): Db
      reads this
    {
      Db(users, userInterests, friendships, requests, nextRequestId, ratings,
         groupMembers, eventParticipants, posts, comments, events, messages)
    }

    ghost predicate Valid()
      reads this
    {
      Tables.Valid(State())
    }

    constructor ()
      ensures Valid()
      ensures State() == Empty()
    {
      users, userInterests, friendships := map[], {}, {};
      requests, nextRequestId, ratings := map[], 0, map[];
      groupMembers, eventParticipants := {}, {};
      posts, comments, events, messages := map[], map[], map[], map[];
    }

    /** A store opened on tables that already hold rows, such as the admin
        accounts that no route creates. */
    constructor FromTables(db: Db)
      requires Tables.Valid(db)
      ensures Valid()
      ensures State() == db
    {
      users, userInterests, friendships := db.users, db.userInterests, db.friendships;
      requests, nextRequestId, ratings := db.requests, db.nextRequestId, db.ratings;
      groupMembers, eventParticipants := db.groupMembers, db.eventParticipants;
      posts, comments, events, messages := db.posts, db.comments, db.events, db.messages;
    }

    /** signup (POST); `id` is the value of the userid sequence. */
    method SignUpUser(id: UserId, city: Option<string>, postal: Option<string>, storeFails: bool)
      returns (outcome: SignUpOutcome)
      requires Valid()
      modifies this
      ensures Valid()
      ensures outcome == SignUpCheck(old(State()), id, storeFails)
      ensures State() == SignUp(old(State()), id, city, postal, storeFails)
    {
      if storeFails || id in users {
        // the except branch: nothing is committed
        return SignUpRejected;
      }
      users := users[id := Account(city, postal, false, false)];
      outcome := SignedUp;
    }

    /** edit_profile (POST): the UPDATE of the location, the DELETE of the
        user's interest rows, then one INSERT per selected interest. */
    method EditOwnProfile(actor: UserId, user: UserId, city: string, postal: string, selected: seq<InterestId>)
      returns (outcome: ProfileOutcome)
      requires Valid()
      modifies this
      ensures Valid()
      ensures outcome == ProfileCheck(old(State()), actor, user)
      ensures State() == EditProfile(old(State()), actor, user, city, postal, set i | i in selected)
    {
      if actor != user {
        return Unauthorized;
      }
      if user !in users {
        return NoUserRow;
      }
      users := users[user := users[user].(city := Some(city), postal := Some(postal))];
      var rows := set p | p in userInterests && p.0 != user;
      ghost var kept := rows;
      var k := 0;
      while k < |selected|
        invariant 0 <= k <= |selected|
        invariant forall p :: p in rows <==> p in kept || (p.0 == user && p.1 in selected[..k])
      {
        rows := rows + {(user, selected[k])};
        k := k + 1;
        assert selected[..k] == selected[..k - 1] + [selected[k - 1]];
      }
      assert selected[..k] == selected;
      assert rows == ReplaceInterests(old(userInterests), user, set i | i in selected);
      userInterests := rows;
      outcome := Updated;
    }

    method SendFriendRequest(actor: UserId, receiver: UserId) returns (outcome: SendOutcome)
      requires Valid()
      modifies this
      ensures Valid()
      ensures outcome == SendCheck(old(State()), actor, receiver)
      ensures State() == Send(old(State()), actor, receiver)
    {
      if exists id :: id in requests && requests[id] == FriendRequest(actor, receiver, Pending) {
        return AlreadyPending;
      }
      if (actor, receiver) in friendships || (receiver, actor) in friendships {
        return AlreadyFriends;
      }
      if actor !in users || receiver !in users {
        // the INSERT breaks the foreign key on users and is not committed
        return UnknownUser;
      }
      requests := requests[nextRequestId := FriendRequest(actor, receiver, Pending)];
      nextRequestId := nextRequestId + 1;
      outcome := Sent;
    }

    method CancelFriendRequest(actor: UserId, receiver: UserId)
      requires Valid()
      modifies this
      ensures Valid()
      ensures State() == Cancel(old(State()), actor, receiver)
    {
      requests := map id | id in requests && requests[id] != FriendRequest(actor, receiver, Pending) :: requests[id];
    }

    /** The session user is not consulted: any logged-in user may accept. */
    method AcceptFriendRequest(actor: UserId, id: RequestId)
      requires Valid()
      modifies this
      ensures Valid()
      ensures State() == Accept(old(State()), id)
    {
      if id in requests && requests[id].status == Pending {
        var q := requests[id];
        requests := requests[id := q.(status := Accepted)];
        friendships := friendships + {(q.sender, q.receiver)};
      }
    }

    method DeclineFriendRequest(actor: UserId, id: RequestId)
      requires Valid()
      modifies this
      ensures Valid()
      ensures State() == Decline(old(State()), actor, id)
    {
      if id in requests && requests[id].receiver == actor {
        requests := requests[id := requests[id].(status := Declined)];
      }
    }

    method RemoveFriend(actor: UserId, friend: UserId)
      requires Valid()
      modifies this
      ensures Valid()
      ensures State() == Unfriend(old(State()), actor, friend)
    {
      friendships := friendships - {(actor, friend), (friend, actor)};
      requests := map id | id in requests &&
                    !(Connects(requests[id].sender, requests[id].receiver, actor, friend) && requests[id].status == Accepted)
                  :: requests[id];
    }

    method RateUser(actor: UserId, ratee: UserId, score: int, comment: Option<string>) returns (outcome: RateOutcome)
      requires Valid()
      modifies this
      ensures Valid()
      ensures outcome == RateCheck(old(State()), actor, ratee)
      ensures State() == Rate(old(State()), actor, ratee, score, comment)
    {
      var related := (actor, ratee) in friendships || (ratee, actor) in friendships ||
        exists id :: id in requests && requests[id].status == Accepted && Connects(requests[id].sender, requests[id].receiver, actor, ratee);
      assert related == RatingAllowed(State(), actor, ratee) by {
        if exists id :: id in requests && requests[id].status == Accepted && Connects(requests[id].sender, requests[id].receiver, actor, ratee) {
          var id :| id in requests && requests[id].status == Accepted && Connects(requests[id].sender, requests[id].receiver, actor, ratee);
          assert requests[id] == FriendRequest(actor, ratee, Accepted) || requests[id] == FriendRequest(ratee, actor, Accepted);
        }
      }
      if !related {
        return NotFriends;
      }
      ratings := ratings[(actor, ratee) := Rating(score, comment)];
      outcome := Submitted;
    }

    method DeleteOwnRating(actor: UserId, ratee: UserId)
      requires Valid()
      modifies this
      ensures Valid()
      ensures State() == DeleteRating(old(State()), actor, ratee)
    {
      ratings := ratings - {(actor, ratee)};
    }

    method JoinGroupAs(actor: UserId, group: GroupId)
      requires Valid()
      modifies this
      ensures Valid()
      ensures State() == JoinGroup(old(State()), actor, group)
    {
      groupMembers := groupMembers + {(actor, group)};
    }

    method LeaveGroupAs(actor: UserId, group: GroupId)
      requires Valid()
      modifies this
      ensures Valid()
      ensures State() == LeaveGroup(old(State()), actor, group)
    {
      groupMembers := groupMembers - {(actor, group)};
    }

    method JoinEventAs(actor: UserId, event: EventId)
      requires Valid()
      modifies this
      ensures Valid()
      ensures State() == JoinEvent(old(State()), actor, event)
    {
      eventParticipants := eventParticipants + {(actor, event)};
    }

    method LeaveEventAs(actor: UserId, event: EventId)
      requires Valid()
      modifies this
      ensures Valid()
      ensures State() == LeaveEvent(old(State()), actor, event)
    {
      eventParticipants := eventParticipants - {(actor, event)};
    }

    method DeleteOwnPost(actor: UserId, post: PostId)
      requires Valid()
      modifies this
      ensures Valid()
      ensures State() == DeletePost(old(State()), actor, post)
    {
      if post in posts && posts[post] == actor {
        posts := posts - {post};
      }
    }

    method DeleteOwnComment(actor: UserId, comment: CommentId)
      requires Valid()
      modifies this
      ensures Valid()
      ensures State() == DeleteComment(old(State()), actor, comment)
    {
      if comment in comments && comments[comment] == actor {
        comments := comments - {comment};
      }
    }

    /** Returns false, changing nothing, when the route flashes "not allowed". */
    method DeleteOwnEvent(actor: UserId, event: EventId) returns (allowed: bool)
      requires Valid()
      modifies this
      ensures Valid()
      ensures allowed == MayDeleteEvent(old(State()), actor, event)
      ensures State() == DeleteEvent(old(State()), actor, event)
    {
      if event !in events || events[event] != actor {
        return false;
      }
      events := events - {event};
      allowed := true;
    }

    /** The guards shared by the four flag-setting admin routes. */
    method CheckFlagRoute(actor: UserId, target: UserId, selfGuarded: bool) returns (outcome: AdminOutcome)
      ensures outcome == FlagCheck(State(), actor, target, selfGuarded)
    {
      if actor !in users || !users[actor].isAdmin {
        return NotAdmin;
      }
      if selfGuarded && actor == target {
        return OwnAccount;
      }
      outcome := Done;
    }

    method MakeUserAdmin(actor: UserId, target: UserId) returns (outcome: AdminOutcome)
      requires Valid()
      modifies this
      ensures Valid()
      ensures outcome == FlagCheck(old(State()), actor, target, true)
      ensures State() == MakeAdmin(old(State()), actor, target)
    {
      outcome := CheckFlagRoute(actor, target, true);
      if outcome == Done && target in users {
        users := users[target := users[target].(isAdmin := true)];
      }
    }

    method RevokeUserAdmin(actor: UserId, target: UserId) returns (outcome: AdminOutcome)
      requires Valid()
      modifies this
      ensures Valid()
      ensures outcome == FlagCheck(old(State()), actor, target, true)
      ensures State() == RevokeAdmin(old(State()), actor, target)
    {
      outcome := CheckFlagRoute(actor, target, true);
      if outcome == Done && target in users {
        users := users[target := users[target].(isAdmin := false)];
      }
    }

    method RestrictUser(actor: UserId, target: UserId) returns (outcome: AdminOutcome)
      requires Valid()
      modifies this
      ensures Valid()
      ensures outcome == FlagCheck(old(State()), actor, target, true)
      ensures State() == Restrict(old(State()), actor, target)
    {
      outcome := CheckFlagRoute(actor, target, true);
      if outcome == Done && target in users {
        users := users[target := users[target].(isRestricted := true)];
      }
    }

    method UnrestrictUser(actor: UserId, target: UserId) returns (outcome: AdminOutcome)
      requires Valid()
      modifies this
      ensures Valid()
      ensures outcome == FlagCheck(old(State()), actor, target, false)
      ensures State() == Unrestrict(old(State()), actor, target)
    {
      outcome := CheckFlagRoute(actor, target, false);
      if outcome == Done && target in users {
        users := users[target := users[target].(isRestricted := false)];
      }
    }

    /** admin_delete_post; returns whether the actor passed is_admin(). */
    method AdminDeletePostAs(actor: UserId, post: PostId) returns (admin: bool)
      requires Valid()
      modifies this
      ensures Valid()
      ensures admin == IsAdmin(old(State()), actor)
      ensures State() == AdminDeletePost(old(State()), actor, post)
    {
      admin := actor in users && users[actor].isAdmin;
      if admin {
        posts := posts - {post};
      }
    }

    /** admin_delete_event; returns whether the actor passed is_admin(). */
    method AdminDeleteEventAs(actor: UserId, event: EventId) returns (admin: bool)
      requires Valid()
      modifies this
      ensures Valid()
      ensures admin == IsAdmin(old(State()), actor)
      ensures State() == AdminDeleteEvent(old(State()), actor, event)
    {
      admin := actor in users && users[actor].isAdmin;
      if admin {
        events := events - {event};
      }
    }

    /** admin_delete_rating; returns whether the actor passed is_admin(). */
    method AdminDeleteRatingAs(actor: UserId, rater: UserId, ratee: UserId) returns (admin: bool)
      requires Valid()
      modifies this
      ensures Valid()
      ensures admin == IsAdmin(old(State()), actor)
      ensures State() == AdminDeleteRating(old(State()), actor, rater, ratee)
    {
      admin := actor in users && users[actor].isAdmin;
      if admin {
        ratings := ratings - {(rater, ratee)};
      }
    }

    /** admin_delete_user: the guards, then the cascade of DELETE statements;
        `storeFails` is an exception in the cascade, after which the route
        rolls the transaction back. */
    method AdminDeleteUser(actor: UserId, target: UserId, storeFails: bool) returns (outcome: AdminOutcome)
      requires Valid()
      modifies this
      ensures Valid()
      ensures outcome == DeleteUserCheck(old(State()), actor, target, storeFails)
      ensures State() == DeleteUser(old(State()), actor, target, storeFails)
    {
      if actor !in users || !users[actor].isAdmin {
        return NotAdmin;
      }
      if actor == target {
        return OwnAccount;
      }
      if target !in users {
        return NoSuchUser;
      }
      if users[target].isAdmin {
        return TargetIsAdmin;
      }
      if storeFails {
        return RolledBack;
      }
      Cascade(target);
      outcome := Done;
    }

    /** The DELETE statements of admin_delete_user: every row that names the
        target goes, in every table the route clears. */
    method Cascade(target: UserId)
      requires Valid()
      modifies this
      ensures State() == Purge(old(State()), target)
    {
      var d := Purge(Db(users, userInterests, friendships, requests, nextRequestId, ratings,
                        groupMembers, eventParticipants, posts, comments, events, messages), target);
      users, userInterests, friendships, requests := d.users, d.userInterests, d.friendships, d.requests;
      ratings, groupMembers, eventParticipants := d.ratings, d.groupMembers, d.eventParticipants;
      posts, comments, events, messages := d.posts, d.comments, d.events, d.messages;
    }
  }
}
