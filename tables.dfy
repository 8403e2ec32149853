// The relational store of CityConnect as a value: one field per table that the
// social-graph routes read or write. Row identities that the store generates
// (request ids) come from a counter, as a SERIAL column does.

module Tables {

  type UserId = int
  type RequestId = int
  type InterestId = int
  type GroupId = int
  type EventId = int
  type PostId = int
  type CommentId = int
  type MessageId = int

  datatype Option<T> = None | Some(value: T)

  /** The `status` column of `friendrequest`. */
  datatype Status = Pending | Accepted | Declined

  /** One row of `friendrequest`, keyed by its `request_id` in `Db.requests`. */
  datatype FriendRequest = FriendRequest(sender: UserId, receiver: UserId, status: Status)

  /** One row of `user_rating`, keyed by (rater, ratee) in `Db.ratings`. */
  datatype Rating = Rating(score: int, comment: Option<string>)

  /** The columns of `users` that the modelled routes read or write. */
  datatype Account = Account(city: Option<string>, postal: Option<string>, isAdmin: bool, isRestricted: bool)

  /** One row of `message` (its content is irrelevant to the rules). */
  datatype Message = Message(sender: UserId, receiver: UserId)

  datatype Db = Db(
    users: map<UserId, Account>,
    userInterests: set<(UserId, InterestId)>,
    friendships: set<(UserId, UserId)>,        // (user1_id, user2_id)
    requests: map<RequestId, FriendRequest>,
    nextRequestId: RequestId,                   // the next value of the request id sequence
    ratings: map<(UserId, UserId), Rating>,     // (rater_id, ratee_id)
    groupMembers: set<(UserId, GroupId)>,       // user_group
    eventParticipants: set<(UserId, EventId)>,  // event_participation
    posts: map<PostId, UserId>,                 // grouppost: post_id -> author
    comments: map<CommentId, UserId>,           // groupcomment: comment_id -> author
    events: map<EventId, UserId>,               // event: event_id -> creator
    messages: map<MessageId, Message>)

  /** Friendship rows are ordered pairs; every query checks both orientations. */
  predicate AreFriends(friendships: set<(UserId, UserId)>, a: UserId, b: UserId)
  {
    (a, b) in friendships || (b, a) in friendships
  }

  /** A row from `sender` to `receiver` links a and b, in either direction. */
  predicate Connects(sender: UserId, receiver: UserId, a: UserId, b: UserId)
  {
    (sender == a && receiver == b) || (sender == b && receiver == a)
  }

  predicate HasRequest(requests: map<RequestId, FriendRequest>, s: UserId, r: UserId, st: Status)
  {
    exists id :: id in requests && requests[id] == FriendRequest(s, r, st)
  }

  /** The relationship test that gates rating: a friendship in either
      orientation, or an accepted request in either direction. */
  predicate RatingAllowed(db: Db, rater: UserId, ratee: UserId)
  {
    || AreFriends(db.friendships, rater, ratee)
    || HasRequest(db.requests, rater, ratee, Accepted)
    || HasRequest(db.requests, ratee, rater, Accepted)
  }

  /** Every request id was drawn from the sequence, so the next one is fresh. */
  predicate IdsBelowNext(db: Db)
  {
    forall id :: id in db.requests ==> id < db.nextRequestId
  }

  /** No two pending rows for the same ordered pair: send refuses a second one. */
  predicate PendingUnique(requests: map<RequestId, FriendRequest>)
  {
    forall i, j ::
      (i in requests && j in requests && requests[i].status == Pending && requests[i] == requests[j]) ==> i == j
  }

  predicate Valid(db: Db)
  {
    IdsBelowNext(db) && PendingUnique(db.requests)
  }

  function Empty(): (db: Db)
    ensures Valid(db)
    ensures db.requests == map[] && db.friendships == {} && db.ratings == map[]
  {
    Db(map[], {}, {}, map[], 0, map[], {}, {}, map[], map[], map[], map[])
  }

  /** True when some row of some table names user `u`. */
  ghost predicate Mentions(db: Db, u: UserId)
  {
    || u in db.users
    || (exists i :: (u, i) in db.userInterests)
    || (exists v :: AreFriends(db.friendships, u, v))
    || (exists id :: id in db.requests && (db.requests[id].sender == u || db.requests[id].receiver == u))
    || (exists k :: k in db.ratings && (k.0 == u || k.1 == u))
    || (exists g :: (u, g) in db.groupMembers)
    || (exists e :: (u, e) in db.eventParticipants)
    || (exists p :: p in db.posts && db.posts[p] == u)
    || (exists c :: c in db.comments && db.comments[c] == u)
    || (exists e :: e in db.events && db.events[e] == u)
    || (exists m :: m in db.messages && (db.messages[m].sender == u || db.messages[m].receiver == u))
  }
}
