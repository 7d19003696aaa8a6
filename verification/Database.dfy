/** A consistent read of the tables the core consults. Every query of the core is a lookup in one
    snapshot; the asynchronous session is not modelled. */
module Database {
  import opened Wrappers
  import opened Models

  datatype Snapshot = Snapshot(
    users: map<UserId, User>,
    groups: map<GroupId, Group>,
    /** group_relationship rows keyed by their composite primary key (user_id, group_id). */
    relationships: map<(UserId, GroupId), GroupRelationship>,
    /** user-photo rows in the order the database returns them. */
    photos: seq<UserPhoto>)

  /** The tables as the database keeps them: every row is stored under its own primary key. */
  ghost predicate Valid(s: Snapshot) {
    && (forall k :: k in s.users ==> s.users[k].id == k)
    && (forall k :: k in s.groups ==> s.groups[k].id == k)
  }

  /** The group_id column of a user's row, or None when the user has no row or no group. */
  function GroupOf(s: Snapshot, userId: UserId): (r: Option<GroupId>)
    ensures r.Some? <==> userId in s.users && s.users[userId].groupId.Some?
    ensures r.Some? ==> s.users[userId].groupId == r
  {
    if userId in s.users then s.users[userId].groupId else None
  }
}
