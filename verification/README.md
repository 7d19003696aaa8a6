# phoebe-server access rules, tiered views and nearest-group search, in Dafny

This project models the decision logic of the phoebe-server backend, a roommate and household
matching service. It covers five pieces:

- **Group and house access** (`GroupAccess`, `HouseAccess`). A requester's tier toward a group is
  decided by the first rule that matches. A member of the group gets the highest tier. Otherwise
  the stored relationship row for exactly (requester, group) gives the tier. With no such row, the
  caller's default applies. The module also has the "at least level L" gate, the group-ownership
  test and the house-ownership test. House ownership goes through the requester's group.
- **Tiered user views** (`UserViews`). The LEVEL3 view is built first, and fields are stripped
  one tier at a time. The four field sets are strictly nested, and every view is tagged with its
  tier. `user_view_from_db` picks the tier for the viewer.
- **The user endpoints** (`UsersApi`). `get_user` checks that the requester has a group and that
  the *target* user stands at LEVEL1 or higher toward it. `accept_group` is a small state machine
  on one relationship row. It is modelled both as a transition function on a snapshot and as a
  method that updates a `Tables` object in place.
- **Nearest-group search** (`Search`). The generator is a loop that yields the groups that pass
  the `has_house` filter and lie within the radius. `heapq.nsmallest` is modelled as a bounded
  sorted buffer. It is proved equal to "stable sort by distance, then take the first `limit`".
- **The hex colour check** (`Colors`).

`Models` holds the records of `db/models.py`. `Database.Snapshot` is one consistent read of the
tables. Every query of the core becomes a lookup in a snapshot.

## Model

| member | source | states |
|---|---|---|
| `Models.AccessLevelTotalOrder` | db/models.py:14-23 | the tiers are totally ordered by integer value: PUBLIC < LEVEL1 < LEVEL2 < LEVEL3 = HIGHEST; equal values mean the same tier |
| `Models.LevelOf` | db/models.py:14-23 | the enum has a member exactly for the values 0..3, and that member's value is the input |
| `Models.LevelOfValue` | db/models.py:14-23 | converting a tier to its value and back gives the same tier |
| `Models.NewRelationship` | db/models.py:49-50 | a relationship row created with only a level has `open_dms` false |
| `Models.ParseChatContent` | db/models.py:115-140 | stored chat content is accepted exactly when `type` is text with a `markdown` field, or sticker/image with an `asset_hash` field; the result has the stored `type` |
| `Models.ChatContentRoundTrip` | db/models.py:158-161 | storing chat content as `type` plus fields and validating it back gives the same content |
| `Models.ChatContentTypeDiscriminates` | db/models.py:158-161 | the `type` discriminator alone decides the variant |
| `Database.GroupOf` | db/models.py:63-64 | a user's group is present exactly when the user row exists with a non-null `group_id` |
| `GroupAccess.OwnsGroup` | viewlevels/group.py:8-20 | the requester owns a group exactly when the `group_id` of the requester's user row is that group (the intended pair match) |
| `GroupAccess.OwnsAtMostOneGroup` | db/models.py:63-64 | a user owns at most one group, since membership is a single nullable column |
| `GroupAccess.AssertOwnsGroup` | viewlevels/group.py:8-36 | passes exactly when the requester's `group_id` is the group; otherwise fails with 403 "You do not own this group" |
| `GroupAccess.GroupLevel` | viewlevels/group.py:39-65 | member ⇒ HIGHEST whatever row exists; non-member without a row for exactly (me, group) ⇒ the default (PUBLIC when omitted); non-member with that row ⇒ the row's stored level |
| `GroupAccess.MemberIgnoresStoredRow` | viewlevels/group.py:51-52 | storing any row for (member, group), even one at a lower level, leaves the member at HIGHEST |
| `GroupAccess.OtherRowsIgnored` | viewlevels/group.py:54-63 | a row for any other (user, group) pair does not change the tier: the lookup is keyed on the exact pair |
| `GroupAccess.AssertGroupLevel` | viewlevels/group.py:68-85 | fails with 403 exactly when the resolved tier (default PUBLIC) is below the required level, and passes otherwise |
| `GroupAccess.AssertGroupLevelDownwardClosed` | viewlevels/group.py:80-85 | passing the gate at level L means passing it at every L' ≤ L |
| `GroupAccess.MemberPassesEveryGate` | viewlevels/group.py:49-52 | a member passes every level gate for their own group |
| `GroupAccess.GroupLevelsAsWritten` | viewlevels/group.py:54-63 | the query as written can return only a non-empty set of results, and for a requester with any group that set is exactly {HIGHEST} |
| `GroupAccess.OwnsGroupAsWrittenIgnoresGroup` | viewlevels/group.py:17-19 | as written, a member of group 2 "owns" group 3 and gets HIGHEST toward it; the intended rule says PUBLIC |
| `GroupAccess.GroupLevelAsWrittenUsesOtherGroupsRow` | viewlevels/group.py:54-63 | as written, a LEVEL2 row toward group 2 is returned for group 3; the intended rule falls back to PUBLIC |
| `HouseAccess.GroupHouseId` | viewlevels/house.py:12-18 | a house id is found only through a group the requester owns, and it is that group's `house_id` |
| `HouseAccess.OwnsHouse` | viewlevels/house.py:7-24 | owns_house holds exactly when some group the requester belongs to has `house_id` equal to the house; there is no direct user-to-house link |
| `HouseAccess.NoGroupNoHouse` | viewlevels/house.py:19-21 | a requester with no group, or whose group has no house, owns no house |
| `HouseAccess.AssertOwnsHouse` | viewlevels/house.py:27-33 | passes exactly when the requester's group links to the house; otherwise fails with 403 "You do not own this house" |
| `UserViews.FieldSetsStrictlyNested` | viewlevels/user.py:9-30 | for tiers lo < hi, the field set of lo is a strict subset of the field set of hi |
| `UserViews.HighestShowsEverything` | viewlevels/user.py:29-30 | the LEVEL3 view shows every view field |
| `UserViews.PhotoHashesOf` | viewlevels/user.py:67 | `photo_hashes` lists the photos' hashes with the same count and in the same order |
| `UserViews.BuildUserView` | viewlevels/user.py:55-88 | the view is tagged with the requested tier and has exactly that tier's fields: PUBLIC is id, color, avatar_hash, nickname, pronouns; LEVEL1 adds bio, preferred_name, photo_hashes, genders; LEVEL2 adds sexual_orientations, group; LEVEL3 adds emergency_contacts |
| `UserViews.BuildUserViewValue` | viewlevels/user.py:63-68 | each field of a view holds its value from the inputs: the user row, the group, or the photos' hashes |
| `UserViews.BuildUserViewValues` | viewlevels/user.py:61-86 | the same, for all fields of a view at once |
| `UserViews.LowerViewsAgreeWithHighest` | viewlevels/user.py:61-86 | every field of a lower-tier view is in the LEVEL3 view from the same inputs and has the same value there |
| `UserViews.PhotosOf` | viewlevels/user.py:98-100 | a photo is among the fetched rows exactly when it is a row of the table that belongs to the target user, and there are no more of them than rows in the table |
| `UserViews.PhotosOfAppend` | viewlevels/user.py:98-100 | a photo row appended to the table is appended to the user's photos exactly when it is that user's, so the fetched rows keep the table's order and multiplicity |
| `UserViews.ViewLevel` | viewlevels/user.py:102-106 | yourself ⇒ HIGHEST; another user with no group ⇒ PUBLIC; otherwise the viewer's group_level toward that user's group |
| `UserViews.GroupOfUser` | viewlevels/user.py:97 | a `group_id` of None or 0 gives no group (truthiness); otherwise the group row with that id, or NoResultFound when it is missing |
| `UserViews.UserViewFromDb` | viewlevels/user.py:91-108 | a missing user row, or a missing row for a truthy `group_id`, is NoResultFound; an existing user whose group resolves always yields a view; on success the view's tier is the one ViewLevel picks, viewing yourself gives HIGHEST, and every field holds its value from the user, the group and the user's own photos |
| `UserViews.UserViewFromDbOnValidTables` | viewlevels/user.py:91-108 | on tables whose rows sit under their own primary keys, an existing user with a resolvable group is shown with that user's id, and another viewer sees them at group_level toward the group their row names |
| `Search.Filtered` | api/search.py:42-56 | every yielded pair's group is in the table, passes the `has_house` filter and lies within the radius (inclusive); its distance is the one compared, in the radius's unit |
| `Search.FilteredComplete` | api/search.py:46-56 | every group that passes both tests is yielded, with its distance |
| `Search.GenerateGroupDistances` | api/search.py:42-56 | the streaming loop yields exactly the filtered pairs, in table order |
| `Search.InsertPermutes` | api/search.py:39 | inserting into the sorted buffer adds the element and loses nothing |
| `Search.InsertSorted` | api/search.py:39 | inserting keeps the buffer sorted by distance |
| `Search.SortByDistanceSorted` | api/search.py:39 | the sort's result is ordered by non-decreasing distance |
| `Search.SortByDistancePermutes` | api/search.py:39 | the sort's result is a permutation of its input |
| `Search.SortByDistanceStable` | api/search.py:39 | the sort is stable: for every distance, the elements at that distance keep their input order |
| `Search.Take` | api/search.py:39 | `[:n]` gives a prefix of length min(n, len), and gives the empty list for n ≤ 0, as nsmallest does |
| `Search.TakeInsert` | api/search.py:39 | after an insertion, the first k elements depend only on the first k elements before it, which is why a buffer of size k is enough |
| `Search.InsertAtEnd` | api/search.py:39 | an element no nearer than the buffer's farthest element goes at the end of the buffer |
| `Search.BufferStepKeepsNearest` | api/search.py:39 | one step of the bounded buffer keeps exactly the nearest n of the elements seen so far |
| `Search.NSmallestBounded` | api/search.py:39 | the bounded-buffer selection returns exactly `sorted(xs, key=distance)[:n]` |
| `Search.SearchNearestGroups` | api/search.py:34-39 | the search returns the first `limit` yielded pairs after a stable sort by distance |
| `Search.NSmallestProperties` | api/search.py:39 | the selection returns at most n elements, and none when n ≤ 0 or the input is empty. It returns everything when n ≥ len, is ordered by distance and is a sub-multiset of the input. Every element left out is at least as far as every element returned |
| `Search.SearchNearestGroupsProperties` | api/search.py:34-56 | the search returns at most `limit` results, and none when `limit` ≤ 0 or there are no groups. Results are ordered by distance, and each one passes `has_house`, is within the radius and carries its own distance in the radius's unit. A qualifying group left out is at least as far as every returned one |
| `UsersApi.GetUser` | api/users.py:13-32 | a missing requester is NoResultFound; a requester with no group gets 403; a target below LEVEL1 toward the requester's group gets 403. Success happens exactly when the requester has a group, the target stands at LEVEL1 or higher toward it, and the view can be built; the result is then the target's view |
| `UsersApi.GroupMateAlwaysVisible` | api/users.py:28-29 | a member of the requester's own group passes the interest gate without any row |
| `UsersApi.AcceptKey` | api/users.py:44-53 | the row looked up is the other user's row toward the requester's own group, and it is found exactly when that row exists |
| `UsersApi.AcceptResult` | api/users.py:36-66 | the checks run in order: no row gives 404, a level below LEVEL1 gives 403, DMs already open give 400. Success happens exactly when the level is at least LEVEL1 and DMs are closed; the row then has `open_dms` set and the same level |
| `UsersApi.AfterAccept` | api/users.py:64-66 | on success the accepted row becomes the old row with `open_dms` set and the same level; on failure the tables are unchanged. Accept never changes a user, group or photo, keeps the set of relationship keys, and leaves every other row unchanged |
| `UsersApi.AcceptTwiceFails` | api/users.py:61-62 | a second accept on the same row fails with 400 |
| `UsersApi.AcceptKeepsDmsOnlyAfterInterest` | api/users.py:58-65 | if every row with open DMs has level ≥ LEVEL1, that still holds after accept_group |
| `UsersApi.AcceptAsWrittenFindsOtherGroupsRow` | api/users.py:44-53 | as written, the query finds the other user's row toward a different group; the intended lookup answers 404 |
| `UsersApi.Tables.AcceptGroup` | api/users.py:36-66 | the in-place update: the outcome is the one AcceptResult gives, and the new tables are AfterAccept of the old ones |
| `Colors.LoweredHexDigit` | utils/colors.py:8 | a character lower-cases into `0-9a-f` exactly when it is a hex digit of either case |
| `Colors.AllHexDigitsLowered` | utils/colors.py:8 | the `all(...)` over the lower-cased rest holds exactly when every character is a hex digit of either case |
| `Colors.IsValidColor` | utils/colors.py:1-9 | a colour is valid exactly when it has length 7, starts with `#` and is followed by six hex digits of either case |
| `Colors.AssertValidColor` | utils/colors.py:12-17 | raises ValueError("Invalid color") exactly when the colour is not valid, and passes otherwise |
| `Colors.UpperCaseAccepted` | utils/colors.py:8 | upper-case A–F is accepted |
| `Colors.NonHexRejected` | utils/colors.py:6-8 | a non-hex character after `#` is rejected |

## Findings

Three queries join their conditions with Python's `and` between SQLAlchemy comparisons. A `==`
comparison between a column and a value is falsy in Python, so `and` evaluates to its first
operand, and only the first condition reaches SQL. The rest of the model uses the corrected
definitions.

| source | as written | input that shows it | evidently intended | confidence | as-written member | corrected member |
|---|---|---|---|---|---|---|
| viewlevels/group.py:17-19 | filters on `User.id == me_id` only, so owns_group is true for a member of any group, and group_level then returns HIGHEST | user 1 in group 2 asks about group 3 | true only for members of group 3 | not executed; depends on SQLAlchemy's truthiness of `==` clauses | `GroupAccess.OwnsGroupAsWrittenIgnoresGroup` | `GroupAccess.AssertOwnsGroup` |
| viewlevels/group.py:57-58 | filters on `user_id == me_id` only, so `.first()` returns the requester's row toward any group | user 1 with no group and a LEVEL2 row toward group 2 asks about group 3: LEVEL2 | the default PUBLIC, since no row exists for (1, 3) | not executed; depends on SQLAlchemy's truthiness of `==` clauses | `GroupAccess.GroupLevelAsWrittenUsesOtherGroupsRow` | `GroupAccess.OtherRowsIgnored` |
| api/users.py:48-50 | filters on `GroupRelationship.user_id == user_id` only, so the row found may be toward a group other than the requester's | requester 1 in group 2; user 5 has only a LEVEL1 row toward group 3: that row is accepted | 404, since user 5 has no row toward group 2 | not executed; depends on SQLAlchemy's truthiness of `==` clauses | `UsersApi.AcceptAsWrittenFindsOtherGroupsRow` | `UsersApi.AcceptKey` |

## Left out

- The great-circle distance (api/search.py:50-54) is floating-point work done by the `haversine`
  library. It is the parameter `distanceFrom(group, unit)`, so the search point's latitude and
  longitude only feed it. Distances and the radius are `real`, not floats.
- `Database.Snapshot` does not force a row's key to equal its id. `Database.Valid` states that
  rule, and `UserViews.UserViewFromDbOnValidTables` requires it; the other members do not need it.
- Database access is not modelled. Asynchronous sessions, `commit` and `refresh` become lookups
  in one `Snapshot`. The table order of the search and of the photo query is the order of a `seq`.
- `UsersApi.Tables.AcceptGroup` writes the row straight into the table. In the source it is added
  to the session and never committed (api/users.py:66). The source's `relationship.user_id =
  user_id` (api/users.py:64) rewrites the key with the value it already has and is omitted.
- `UsersApi.GetUser` builds the view for the target's id. At api/users.py:32 the source passes
  the User row where `user_view_from_db` expects an id.
- The as-written members state what the unordered `.first()` can return. The queries generate
  SQL, and that SQL is not modelled.
- `Models.HIGHEST` is LEVEL3. db/models.py:14-23 declares no `HIGHEST` member, so viewlevels/group.py:52 and
  viewlevels/user.py:104 would raise AttributeError as given; the model reads it as the top tier.
- `Models.AccessLevel` has exactly four values, so a tier outside 0..3 cannot reach the view
  builder. `Models.LevelOf` models the enum's conversion from an integer.
- `Colors.ToLower` lower-cases only ASCII letters. Python's `str.lower` maps no other character to
  one of `0-9a-f`, so the verdict of the check is the same.
- db/models.py as given lacks several fields that the core reads: `avatar_hash`, `genders`,
  `emergency_contacts` and the photo rows (viewlevels/user.py), and `has_house`, `lat` and `lon`
  on groups (api/search.py). `Models.User` and `Models.Group` carry the fields the core uses.
  `EmergencyContact` is a placeholder record. `nickname` is a string, as the view classes
  declare it. Sessions, passwords, houses' coordinates and assets are not part of this model.
- Pydantic's run-time validation of the view classes is not modelled beyond dropping undeclared
  fields.
- Create, read, update and delete handlers (api.py, api/groups.py, api/houses.py, api/me.py) are
  not part of this model. Neither are login, registration and password changes (they rely on the
  unseen sessions module), asset hashing and upload, the chat endpoints (stubs answering 501) and
  message broadcast. insert_mock.py, view_levels.py, user_views.py, db/geospatial.py, main.py and
  api/__init__.py are not part of it either.
- There is no open-channel gate (a check on `open_dms` before chatting), because the chat
  endpoints that would use it are not implemented in the source.
