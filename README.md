# CityConnect social graph, modelled in Dafny

CityConnect is a Flask web application in which neighbours find each other by
shared interests, send and answer friend requests, rate friends, join groups
and events, and are managed by administrators. Its rules live in the SQL that
each route of `cityconnect.py` runs. This project models that core:

- **Tables** (`tables.dfy`): the store as a value `Db`, one field per table the
  rules touch. Friendships are ordered pairs. Requests are a map from request
  id to (sender, receiver, status), with ids drawn from a counter. Ratings are
  a map from (rater, ratee) to (score, comment). Users carry an optional city
  and postal code and the admin and restricted flags. There are membership
  sets for groups and events, and ownership maps for posts, comments, events
  and messages. The invariant `Valid` says that every request id is below the
  next id and that no two pending rows repeat the same ordered pair.
- **Rules** (`rules.dfy`): one pure transition per mutating route of the
  social-graph core: signup and profile editing, friend requests and
  friendships, ratings, group and event membership, the owners' deletes of
  posts, comments and events, and the admin routes on users, posts, events
  and ratings. Each takes
  the tables before the route's statements and gives the tables after them;
  the session user is the parameter `actor`.
- **Store** (`store.dfy`): the class `SocialStore`, one field per table. Each
  mutating route of the social-graph core is a method that updates the fields in place. Its contract
  ties the new tables to the rule in `Rules` and keeps `Valid`.
- **Properties** (`properties.dfy`): facts that relate several routes, and the
  quirks of the routes as written.
- **Matching** (`collation.dfy`, `sorting.dfy`, `matching.dfy`,
  `match_route.dfy`, `match_properties.dfy`): the `similar_interests` route.
  Its queries are functions over a `Snapshot` of the tables in store row
  order: the candidate filter, the shared-interest count, ranking by
  (shared count descending, name ascending), LIMIT/OFFSET paging and the
  ceiling page count. Its three loops are methods proved equal to folds. They
  build `interest_map`, `matches` and `request_status`. `FindMatches` is the
  whole route as one function, and `SimilarInterests` is the route as a
  method proved equal to it.
- **Snapshots** (`snapshots.dfy`): how a snapshot the matching route reads
  relates to the tables the mutating routes write, and what profile editing,
  unfriending, accepting and the cascade change in who is offered as a match.

Quirks of the code that the model keeps and states:

- `accept_friend_request` never compares the session user with the request's
  receiver.
- `decline_friend_request` never checks that the request is pending.
- `send_friend_request` checks neither a reverse request nor a declined one.
- Accepting inserts the friendship row without looking for the
  reverse-orientation row.
- `unrestrict_user` has no self-guard, unlike the other three flag routes.
- A page number below 1 makes the page query's OFFSET negative, which the
  store rejects. An explicit `?page=0` or a negative page reaches the query;
  only a missing or non-numeric page becomes 1.
- `send_friend_request` does not look up the receiver: a request to a user
  without a row fails only at the INSERT, on the foreign key to `users`, and
  nothing is committed (`Rules.SendCheck` gives `UnknownUser`).
- The refusal branch of `delete_event` (cityconnect.py:1305) builds a URL for
  an endpoint `group_detail` that does not exist (the group page's endpoint
  is `group`, cityconnect.py:1089-1090), so after flashing the refusal the
  route raises instead of redirecting. The tables are unchanged either way,
  which is what `Rules.DeleteEvent` states.

## Model

| member | source | states |
|---|---|---|
| Rules.SignUpCheck | cityconnect.py:121-132 | signup commits exactly when the id the sequence hands out is free and the INSERT raises no error; otherwise the except branch rolls back |
| Rules.SignUp | cityconnect.py:112-132 | a committed signup adds exactly one users row, with the chosen city and neighbourhood and neither flag set, and changes no other row or table; a rejected one changes nothing |
| Store.SocialStore.SignUpUser | cityconnect.py:99-132 | the route updates the tables as `Rules.SignUp` says and reports `SignUpCheck` |
| Rules.ProfileCheck | cityconnect.py:240-254 | the profile is updated exactly when the session user edits their own profile and has a users row; editing another profile is refused |
| Rules.ReplaceInterests | cityconnect.py:278-282 | after the DELETE and the INSERT loop the user's interest rows are exactly the selected ones, and other users' rows are unchanged |
| Rules.EditProfile | cityconnect.py:268-284 | an update sets the user's city and neighbourhood, makes the user's interests exactly the selected ones, and changes no other row or table; a refusal changes nothing |
| Store.SocialStore.EditOwnProfile | cityconnect.py:240-286 | the UPDATE, the DELETE and the INSERT loop (its invariant: the rows are the kept ones plus the interests inserted so far) leave the tables as `Rules.EditProfile` says, and the outcome is `ProfileCheck` |
| Rules.SendCheck | cityconnect.py:625-648 | each outcome is characterised exactly: a pending sender-to-receiver row gives the silent redirect; otherwise a friendship in either orientation gives "already friends"; otherwise a missing users row makes the INSERT fail on its foreign keys; otherwise the request goes ahead |
| Rules.Send | cityconnect.py:625-648 | refused: nothing changes; otherwise exactly one new pending (sender, receiver) row under a fresh id, every other row and table unchanged, invariant kept |
| Store.SocialStore.SendFriendRequest | cityconnect.py:614-655 | the route updates the tables as `Rules.Send` says and reports the check's outcome |
| Rules.Cancel | cityconnect.py:669-672 | removes exactly the pending actor-to-receiver rows and keeps every other row unchanged |
| Store.SocialStore.CancelFriendRequest | cityconnect.py:658-678 | the route updates the tables as `Rules.Cancel` says |
| Rules.Accept | cityconnect.py:734-750 | a missing or non-pending id changes nothing; a pending row becomes accepted and (sender, receiver) is added to the friendships; no other row changes |
| Store.SocialStore.AcceptFriendRequest | cityconnect.py:725-755 | the route updates the tables as `Rules.Accept` says, whoever the actor is |
| Rules.Decline | cityconnect.py:768-771 | the row with that id whose receiver is the actor becomes declined, whatever its status; no other row changes |
| Store.SocialStore.DeclineFriendRequest | cityconnect.py:759-779 | the route updates the tables as `Rules.Decline` says |
| Rules.Unfriend | cityconnect.py:845-857 | afterwards no friendship row links the pair in either orientation and no accepted request links them in either direction; pending and declined rows stay |
| Store.SocialStore.RemoveFriend | cityconnect.py:834-864 | the route updates the tables as `Rules.Unfriend` says |
| Rules.RateCheck | cityconnect.py:391-407 | rating is allowed exactly when a friendship exists in either orientation or an accepted request exists in either direction |
| Tables.RatingAllowed | cityconnect.py:391-399 | the relationship test of the rating route, as the UNION of a friendship in either orientation and an accepted request in either direction; what it allows is stated by `Rules.RateCheck`, `Properties.SendThenAccept` and `Properties.UnfriendEndsRating` |
| Rules.Rate | cityconnect.py:391-415 | if not allowed, nothing changes; otherwise the (rater, ratee) entry holds exactly the new score and comment and every other rating is unchanged |
| Store.SocialStore.RateUser | cityconnect.py:379-420 | the route updates the ratings as `Rules.Rate` says and reports whether it was allowed |
| Rules.DeleteRating | cityconnect.py:436-439 | removes only the actor's rating of the ratee |
| Store.SocialStore.DeleteOwnRating | cityconnect.py:425-447 | the route updates the ratings as `Rules.DeleteRating` says |
| Rules.JoinGroup | cityconnect.py:1012-1016 | afterwards the membership is present, and no other membership changes |
| Store.SocialStore.JoinGroupAs | cityconnect.py:1003-1022 | the route updates the memberships as `Rules.JoinGroup` says |
| Rules.LeaveGroup | cityconnect.py:1037 | afterwards the membership is absent, and no other membership changes |
| Store.SocialStore.LeaveGroupAs | cityconnect.py:1026-1043 | the route updates the memberships as `Rules.LeaveGroup` says |
| Rules.JoinEvent | cityconnect.py:1326-1330 | afterwards the participation is present, and no other participation changes |
| Store.SocialStore.JoinEventAs | cityconnect.py:1318-1336 | the route updates the participations as `Rules.JoinEvent` says |
| Rules.LeaveEvent | cityconnect.py:1348-1350 | afterwards the participation is absent, and no other participation changes |
| Store.SocialStore.LeaveEventAs | cityconnect.py:1340-1356 | the route updates the participations as `Rules.LeaveEvent` says |
| Rules.DeletePost | cityconnect.py:1205 | the post goes only if the actor wrote it; no other post changes |
| Store.SocialStore.DeleteOwnPost | cityconnect.py:1197-1211 | the route updates the posts as `Rules.DeletePost` says |
| Rules.DeleteComment | cityconnect.py:1246 | the comment goes only if the actor wrote it; no other comment changes |
| Store.SocialStore.DeleteOwnComment | cityconnect.py:1238-1252 | the route updates the comments as `Rules.DeleteComment` says |
| Rules.DeleteEvent | cityconnect.py:1301-1308 | the event goes only if it exists and the actor created it; otherwise nothing changes |
| Rules.MayDeleteEvent | cityconnect.py:1301-1303 | the creator test of delete_event: the event exists and the actor created it; what it gates is stated by `Rules.DeleteEvent` |
| Store.SocialStore.DeleteOwnEvent | cityconnect.py:1293-1314 | the route updates the events as `Rules.DeleteEvent` says and reports whether it was refused |
| Rules.FlagCheck | cityconnect.py:1363-1378 | a flag route acts exactly when the actor is an admin and, for a self-guarded route, not acting on their own account |
| Rules.IsAdmin | cityconnect.py:1363-1378 | is_admin(): the session user has a row whose admin flag is set; a missing row is not an admin; what it gates is stated by `Rules.FlagCheck` and `Rules.DeleteUserCheck` |
| Store.SocialStore.CheckFlagRoute | cityconnect.py:1430-1438 | the guards give the outcome `Rules.FlagCheck` gives |
| Rules.UpdateUser | cityconnect.py:1444 | an UPDATE of one user row changes that row if it exists and no other |
| Rules.MakeAdmin | cityconnect.py:1429-1444 | a refused route changes nothing; otherwise the target row, if any, gets the admin flag; only an existing row can end up an admin |
| Store.SocialStore.MakeUserAdmin | cityconnect.py:1429-1450 | the route updates the users as `Rules.MakeAdmin` says |
| Rules.RevokeAdmin | cityconnect.py:1454-1469 | a refused route changes nothing; otherwise the target loses the admin flag; an admin never revokes their own rights |
| Store.SocialStore.RevokeUserAdmin | cityconnect.py:1454-1475 | the route updates the users as `Rules.RevokeAdmin` says |
| Rules.Restrict | cityconnect.py:1479-1494 | a refused route changes nothing; otherwise the target is restricted; an admin never restricts their own account |
| Store.SocialStore.RestrictUser | cityconnect.py:1479-1500 | the route updates the users as `Rules.Restrict` says |
| Rules.Unrestrict | cityconnect.py:1504-1515 | any admin may lift any restriction, their own included; an existing target ends unrestricted |
| Store.SocialStore.UnrestrictUser | cityconnect.py:1504-1521 | the route updates the users as `Rules.Unrestrict` says |
| Rules.AdminDeletePost | cityconnect.py:1785-1802 | an admin deletes the post whoever wrote it, and no other post changes; anyone else changes nothing |
| Store.SocialStore.AdminDeletePostAs | cityconnect.py:1785-1802 | the route updates the tables as `Rules.AdminDeletePost` says and reports whether the actor is an admin |
| Rules.AdminDeleteEvent | cityconnect.py:1843-1860 | an admin deletes the event whoever created it, and no other event changes; anyone else changes nothing |
| Store.SocialStore.AdminDeleteEventAs | cityconnect.py:1843-1860 | the route updates the tables as `Rules.AdminDeleteEvent` says and reports whether the actor is an admin |
| Rules.AdminDeleteRating | cityconnect.py:1900-1916 | an admin deletes any (rater, ratee) rating, and no other rating changes; anyone else changes nothing |
| Store.SocialStore.AdminDeleteRatingAs | cityconnect.py:1900-1916 | the route updates the tables as `Rules.AdminDeleteRating` says and reports whether the actor is an admin |
| Rules.DeleteUserCheck | cityconnect.py:1526-1577 | the cascade runs exactly when the actor is an admin, the target is another existing user who is not an admin, and no DELETE fails |
| Rules.Purge | cityconnect.py:1557-1571 | the eleven DELETE statements of the cascade as one step; the invariant is kept, and what each table keeps is stated by `Rules.PurgeKeeps` |
| Rules.PurgeKeeps | cityconnect.py:1557-1571 | after the cascade each table holds exactly its rows that do not name the user, and every row that stays keeps its values |
| Rules.DeleteUser | cityconnect.py:1525-1583 | a refused or rolled-back route changes nothing, a successful one is the cascade; no admin's row is ever touched; invariant kept |
| Store.SocialStore.AdminDeleteUser | cityconnect.py:1525-1583 | the route updates the tables as `Rules.DeleteUser` says and reports which guard stopped it |
| Store.SocialStore.Cascade | cityconnect.py:1557-1571 | the DELETE statements leave the tables `Rules.Purge` describes |
| Properties.PurgeForgets | cityconnect.py:1557-1571 | after the cascade no row of any table names the deleted user |
| Properties.SendThenAccept | cityconnect.py:625-750 | send then accept makes the pair friends, opens rating in both directions and turns a repeated send into a no-op |
| Properties.UnfriendThenSend | cityconnect.py:625-857 | after unfriend a new request is refused only when a pending request had survived or one of the two users has no row |
| Properties.SignUpThenSend | cityconnect.py:121-648 | two users who have just signed up, with no request or friendship between them, can send a request, which is stored as pending |
| Properties.SendNamesUsers | cityconnect.py:625-648 | a request to or from a user without a row is not stored, so send keeps both ends of every request row naming an existing user |
| Properties.UnfriendEndsRating | cityconnect.py:391-407 | after unfriend neither user may rate the other |
| Properties.RatingOverwrites | cityconnect.py:410-415 | rating twice leaves one entry for the pair, holding the second score and comment |
| Properties.JoinGroupIdempotent | cityconnect.py:1012-1016 | joining a group twice is the same as joining once |
| Properties.JoinEventIdempotent | cityconnect.py:1326-1330 | joining an event twice is the same as joining once |
| Properties.LeaveGroupUndoesJoin | cityconnect.py:1012-1037 | leaving undoes a join made by a non-member |
| Properties.CrossedRequestsGiveTwoRows | cityconnect.py:625-750 | crossed requests, both accepted, leave friendship rows in both orientations |
| Properties.DeclineAfterAccept | cityconnect.py:768-857 | declining an accepted request keeps the friendship, marks the row declined, and unfriend leaves that row in place |
| Properties.ResendAfterDecline | cityconnect.py:625-648 | a declined row and a new pending row for the same ordered pair can coexist |
| Properties.SelfFriendship | cityconnect.py:625-750 | a request to oneself can be sent and accepted, giving a self-friendship |
| Properties.AdminDeletesIgnoreOwner | cityconnect.py:1785-1916 | an admin removes a post, an event or a rating the admin does not own, where the owner's delete by the same actor changes nothing |
| Collation.LexLeqMeansByIndex | cityconnect.py:541 | the recursive name order is the prefix-or-first-difference lexicographic order |
| Collation.LexLeqReflexive | cityconnect.py:541 | every name sorts no later than itself |
| Collation.LexLeqTotal | cityconnect.py:541 | any two names are comparable |
| Collation.LexLeqAntisymmetric | cityconnect.py:541 | names that sort no later than each other are equal |
| Collation.LexLeqTransitive | cityconnect.py:541 | the name order is transitive |
| Sorting.Insert | cityconnect.py:541 | insertion adds exactly one element and keeps the others |
| Sorting.SortBy | cityconnect.py:541 | ORDER BY returns a permutation of its rows |
| Sorting.InsertSorted | cityconnect.py:541 | inserting into a sorted sequence keeps it sorted |
| Sorting.SortBySorted | cityconnect.py:541 | ORDER BY returns its rows sorted by the order |
| Matching.FindUser | cityconnect.py:477-480 | the user row is found exactly when one with that id exists, and it has that id |
| Matching.SharedCount | cityconnect.py:527-539 | the count is positive exactly when the user has a row for one of the requester's interests |
| Matching.SharedCountIsCommonTags | cityconnect.py:527-539 | with one row per (user, interest), the count is the number of interests the two users share |
| Matching.ParseScope | cityconnect.py:463-465 | only `city` and `neighborhood` are scopes; anything else is the redirect stated by `MatchProperties.RouteOutcomes` |
| Matching.MyInterests | cityconnect.py:483-484 | interest_ids, the requester's interests; its emptiness decides the NoInterests outcome of `MatchProperties.RouteOutcomes`, and `MatchProperties.SharedInterestsExact` uses it |
| Matching.IsCandidate | cityconnect.py:504-539 | the WHERE clause shared by the count and page queries; stated by `Matching.Candidates` and `MatchProperties.MatchesAreCandidates` |
| Matching.Candidates | cityconnect.py:504-519 | a row is a candidate exactly when it is another user, at the requester's location for the scope, sharing an interest, and not a friend in either orientation |
| Matching.NoLocationNoCandidates | cityconnect.py:494-500 | a requester without a location for the scope has no candidates |
| Matching.RankLeqIsTotalPreorder | cityconnect.py:541 | the ranking by shared count descending, then name ascending, is a total preorder |
| Matching.Ranked | cityconnect.py:541 | the ranked candidates are sorted by the ranking and are a permutation of the candidates |
| Matching.Window | cityconnect.py:469-471 | LIMIT/OFFSET returns at most `limit` rows, exactly the rows starting at the offset |
| Matching.PageCount | cityconnect.py:521 | total_pages as integer division; stated by `Matching.PageCountIsCeiling` |
| Matching.PageCountIsCeiling | cityconnect.py:521 | total_pages is the least number of 10-row pages holding every candidate, and 0 for none |
| Matching.PagesCover | cityconnect.py:469-471 | ranked row k is shown on page k div 10 + 1 at position k mod 10, within the page count |
| Matching.PagesBeyondAreEmpty | cityconnect.py:469-544 | a page past the page count is empty |
| Matching.SharedNameRows | cityconnect.py:553-561 | the interests query returns exactly the (user, name) pairs of page users' interests that the requester also has |
| Matching.NameLeqIsTotalPreorder | cityconnect.py:559 | the order by interest name is a total preorder |
| Matching.InterestRows | cityconnect.py:553-562 | the interest rows are sorted by name and are a permutation of the query's rows |
| Matching.NamesOf | cityconnect.py:564-566 | a user's names are exactly the names of the user's rows |
| Matching.NamesOfAppend | cityconnect.py:564-566 | the names of a concatenation are the concatenated names |
| Matching.InterestMap | cityconnect.py:564-566 | the setdefault/append fold over the interest rows; stated by `Matching.InterestMapIsNamesOf` |
| Matching.InterestMapIsNamesOf | cityconnect.py:564-566 | the fold gives each user exactly the names of that user's rows in row order, and has a key only for users with rows |
| Matching.StatusMapLastWins | cityconnect.py:590-596 | each key is the other party of some row and holds the status of the last row with that party |
| Matching.StatusMap | cityconnect.py:590-596 | the assignment fold over the status rows; stated by `Matching.StatusMapLastWins` and `Matching.StatusKeysArePageUsers` |
| Matching.RequestRowsFor | cityconnect.py:579-588 | the status query returns exactly the rows between the requester and a page user |
| Matching.StatusKeysArePageUsers | cityconnect.py:579-596 | every key of the status map is a page user linked to the requester by a request row |
| Matching.Entries | cityconnect.py:568-576 | each entry is the page user at that position with its shared-interest list, or the empty list |
| Matching.FindMatches | cityconnect.py:458-604 | the whole route after the login check; stated by `MatchRoute.SimilarInterests` and the `MatchProperties` lemmas |
| MatchRoute.BuildInterestMap | cityconnect.py:564-566 | the setdefault/append loop computes the interest-map fold |
| MatchRoute.BuildRequestStatus | cityconnect.py:590-596 | the status loop computes the status-map fold |
| MatchRoute.AssembleMatches | cityconnect.py:568-576 | the append loop computes the entries for the page |
| MatchRoute.SimilarInterests | cityconnect.py:458-604 | the route returns exactly what `FindMatches` describes |
| MatchProperties.RouteOutcomes | cityconnect.py:462-489 | an invalid scope, a missing user row, no interests and a page below 1 each give their own error, in that order; otherwise a page is shown |
| MatchProperties.MatchesAreCandidates | cityconnect.py:504-544 | every user shown is another user, no friend, at the requester's location, sharing an interest, and shown with its shared count |
| MatchProperties.PageIsRankedAndBounded | cityconnect.py:529-544 | a page holds at most 10 users, ordered by shared count descending, then name ascending |
| MatchProperties.WindowKeepsOrder | cityconnect.py:541-542 | a window of a sorted sequence is sorted |
| MatchProperties.EveryCandidateIsShown | cityconnect.py:502-544 | every candidate is shown on some page between 1 and total_pages |
| MatchProperties.MissingLocationMatchesNobody | cityconnect.py:494-544 | a requester without a location for the scope sees no matches, no pages and no statuses |
| MatchProperties.NamesOfSorted | cityconnect.py:559-566 | names taken from name-sorted rows are sorted |
| MatchProperties.SharedInterestsExact | cityconnect.py:553-574 | a shown user's shared interests are exactly the names of that user's interests the requester also has, in name order |
| MatchProperties.RequestStatusOnlyForShown | cityconnect.py:579-596 | request_status has keys only for shown users, each holding the status of a request between that user and the requester |
| MatchProperties.RequestStatusCoversShown | cityconnect.py:579-596 | every shown user with a request to or from the requester has a status |
| Snapshots.UnfriendReopensMatch | cityconnect.py:845-857 | once a pair is unfriended, the friendship no longer excludes either from the other's matches: a candidate exactly when sharing a location and an interest |
| Snapshots.AcceptEndsMatch | cityconnect.py:734-750 | after a request is accepted, neither party is offered to the other as a match |
| Snapshots.PurgedUserIsNeverMatched | cityconnect.py:1557-1571 | after the cascade no user, interest or request row the route reads names the deleted user |
| Snapshots.EditProfileSetsMatching | cityconnect.py:274-282 | after the requester edits the profile, the matching route starts from exactly the selected interests and the location that was set |

## Left out

- Flask routing, sessions, `flash`, redirects and templates: the session user is the `actor` parameter, and each redirect is an outcome value.
- Connections, cursors, commit and rollback: each route's statements are one atomic step. In `admin_delete_user` the `except` branch is the `storeFails` parameter, because the foreign keys that could make a DELETE fail are not visible in the file.
- The login check at the head of every route: a logged-out request changes nothing.
- Form and query parsing (`int(request.form['rating'])`, the `page` form field of the admin routes, and `request.args.get('page', 1, type=int)` of `similar_interests`, which turns a missing or non-numeric page into 1): the parsed values are parameters.
- The average rating (`AVG` and `round`): decimal arithmetic.
- Timestamps, message text, post and comment text, and event details: no rule reads them.
- The GET branches of `signup` and `edit_profile`, which only read the city, neighbourhood and interest lists for the form; signup's username, email, gender and password columns, which no modelled rule reads.
- The read-only listings (`friends`, `manage_friend_requests`, `groups`, and the admin listings `admin_users`, `admin_interests`, `admin_groups`, `admin_posts`, `admin_events`, `admin_ratings`) and login: they apply no rule beyond the paging arithmetic already modelled.
- Mutating routes outside the social-graph core, which act on tables or columns the model does not hold (message text, group names and descriptions, group interests, post and comment content, event details, the interest catalogue): `chat` (cityconnect.py:901), `create_group` (cityconnect.py:1066-1074, including the creator's own `user_group` row), `create_post` (cityconnect.py:1185), `add_comment` (cityconnect.py:1226), `create_event` (cityconnect.py:1277), `add_interest`, `edit_interest` and `delete_interest` (cityconnect.py:1633, 1658, 1680), and `admin_delete_group` (cityconnect.py:1737). The `posts`, `comments`, `events` and `messages` tables and a creator's group membership therefore change only through the modelled deletes and joins, or are given when a store is opened on existing tables (`Store.SocialStore.FromTables`).
- Collation: names sort by code-point lexicographic order; the store's configured collation may differ.
- Rows the ranking ties: the store may return them in any order. `Sorting.SortBy` fixes one order, so no claim is made about the order of tied rows. `MatchProperties.EveryCandidateIsShown` assumes that separate page requests see tied rows in one and the same order, which LIMIT/OFFSET queries do not promise; it is exact when no two candidates tie on both shared count and username.
- Foreign keys other than the two of `friendrequest`: the file shows that they exist (the cascade deletes children before parents to avoid foreign key errors) but not which columns they cover. `Rules.JoinGroup`, `Rules.JoinEvent` and `Rules.Rate` carry out an insert naming a user, group or event without a row, and `Rules.DeletePost`, `Rules.DeleteEvent`, `Rules.AdminDeletePost`, `Rules.AdminDeleteEvent` a delete of a row that others still refer to, where the store would raise and commit nothing. `Rules.Accept` does not look for the request's users either; `Properties.SendNamesUsers` shows that send only ever stores request rows whose two users have a row.
- Schema constraints, which the file does not show: the `status` column of `friendrequest` is taken to default to 'pending' (the INSERT sets only the two user ids, and accept and decline look for pending rows), and `is_admin` and `is_restricted` of `users` to default to false (signup does not set them). No route creates the first admin; `Store.SocialStore.FromTables` opens a store on tables that already hold one. `Store.SocialStore.EditOwnProfile` takes the selected interests as given; a repeated or unknown interest id, which the store may refuse, is not modelled. Tables are sets or maps, so a repeated identical row is not distinguished. `Matching.SharedCountIsCommonTags` assumes one row per (user, interest). User ids in a `Snapshot` are taken as the key they are, so the count of distinct candidate ids is the number of candidate rows.
- `Matching.Snapshot`: the route reads the store's rows in store order as an input, so the model does not fix which of two equally ranked rows the store returns first.
- `Store.SocialStore.Cascade`: computes the purged tables once and assigns every field, rather than deleting table by table; the end state is the same.
