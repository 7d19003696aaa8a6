/** The user endpoints of api/users.py: the gate in front of viewing another user, and the
    accept transition on a relationship row. */
module UsersApi {
  import opened Wrappers
  import opened Errors
  import opened Models
  import opened Database
  import GroupAccess
  import UserViews

  /** get_user: the requester must have a group, and the TARGET user must stand at LEVEL1 or
      higher toward the requester's group (the target has expressed interest); then the target
      is shown through user_view_from_db. Missing user rows are NoResultFound (`.one()`). */
  function GetUser(s: Snapshot, meId: UserId, userId: UserId): (r: Result<UserViews.UserView, Error>)
    ensures meId !in s.users ==> r == Failure(NoResultFound)
    ensures meId in s.users && s.users[meId].groupId.None? ==> r == Failure(HttpError(403, "You do not have a group"))
    ensures meId in s.users && s.users[meId].groupId.Some? &&
            GroupAccess.GroupLevel(s, userId, s.users[meId].groupId.value).Below(LEVEL1) ==>
              r.Failure? && r.error.HttpError? && r.error.status == 403
    ensures r.Success? <==>
      && meId in s.users && s.users[meId].groupId.Some?
      && LEVEL1.AtMost(GroupAccess.GroupLevel(s, userId, s.users[meId].groupId.value))
      && UserViews.UserViewFromDb(s, meId, userId).Success?
    ensures r.Success? ==> r == UserViews.UserViewFromDb(s, meId, userId)
  {
    if meId !in s.users then Failure(NoResultFound)
    else
      var me := s.users[meId];
      if me.groupId.None? then Failure(HttpError(403, "You do not have a group"))
      else
        // Ensure that the user has expressed interest in the requester's group.
        var gate := GroupAccess.AssertGroupLevel(s, userId, me.groupId.value, LEVEL1);
        if gate.Fail? then Failure(gate.error)
        else if userId !in s.users then Failure(NoResultFound)
        else UserViews.UserViewFromDb(s, meId, userId)
  }

  /** A member of the requester's group passes the interest gate without any relationship row. */
  lemma GroupMateAlwaysVisible(s: Snapshot, meId: UserId, userId: UserId)
    requires meId in s.users && s.users[meId].groupId.Some?
    requires GroupAccess.OwnsGroup(s, userId, s.users[meId].groupId.value)
    ensures GetUser(s, meId, userId) == UserViews.UserViewFromDb(s, meId, userId)
  {
  }

  /** The row accept_group works on: the one of the other user toward the requester's group.
      The source joins its three conditions with Python's `and`, and its `.join(User)` pairs the
      row with its own user, so a literal conjunction would need user_id == me_id; this reads
      `User` as the requester's row, which is what the handler evidently intends. */
  function AcceptKey(s: Snapshot, meId: UserId, userId: UserId): (r: Option<(UserId, GroupId)>)
    ensures r.Some? <==> GroupOf(s, meId).Some? && (userId, GroupOf(s, meId).value) in s.relationships
    ensures r.Some? ==> r.value.0 == userId && GroupAccess.OwnsGroup(s, meId, r.value.1)
  {
    var myGroup := GroupOf(s, meId);
    if myGroup.Some? && (userId, myGroup.value) in s.relationships then Some((userId, myGroup.value)) else None
  }

  /** accept_group: the checks in order, not found (404), level below LEVEL1 (403), DMs already
      open (400); on success the row with open_dms set, its level and key untouched. */
  function AcceptResult(s: Snapshot, meId: UserId, userId: UserId): (r: Result<GroupRelationship, Error>)
    ensures AcceptKey(s, meId, userId).None? ==> r == Failure(HttpError(404, "Cannot find group to accept"))
    ensures AcceptKey(s, meId, userId).Some? ==>
      var row := s.relationships[AcceptKey(s, meId, userId).value];
      && (row.level.Below(LEVEL1) ==> r == Failure(HttpError(403, "Forbidden to access DMs")))
      && (!row.level.Below(LEVEL1) && row.openDms ==> r == Failure(HttpError(400, "Already accepted this group!")))
      && (r.Success? <==> !row.level.Below(LEVEL1) && !row.openDms)
      && (r.Success? ==> r.value.openDms && r.value.level == row.level)
  {
    var key := AcceptKey(s, meId, userId);
    if key.None? then Failure(HttpError(404, "Cannot find group to accept"))
    else
      var relationship := s.relationships[key.value];
      if relationship.level.Below(LEVEL1) then Failure(HttpError(403, "Forbidden to access DMs"))
      else if relationship.openDms then Failure(HttpError(400, "Already accepted this group!"))
      else Success(relationship.(openDms := true))
  }

  /** The tables after accept_group: on success the one row is replaced, otherwise nothing changes. */
  function AfterAccept(s: Snapshot, meId: UserId, userId: UserId): (t: Snapshot)
    ensures t.users == s.users && t.groups == s.groups && t.photos == s.photos
    ensures t.relationships.Keys == s.relationships.Keys
    ensures forall k :: k in s.relationships && Some(k) != AcceptKey(s, meId, userId) ==>
      t.relationships[k] == s.relationships[k]
    ensures AcceptResult(s, meId, userId).Success? ==>
      t.relationships[AcceptKey(s, meId, userId).value] == AcceptResult(s, meId, userId).value
    ensures AcceptResult(s, meId, userId).Failure? ==> t == s
  {
    var result := AcceptResult(s, meId, userId);
    if result.Success? then
      s.(relationships := s.relationships[AcceptKey(s, meId, userId).value := result.value])
    else s
  }

  /** Accepting the same user twice: the second attempt finds the DMs open and fails with 400. */
  lemma AcceptTwiceFails(s: Snapshot, meId: UserId, userId: UserId)
    requires AcceptResult(s, meId, userId).Success?
    ensures AcceptResult(AfterAccept(s, meId, userId), meId, userId) == Failure(HttpError(400, "Already accepted this group!"))
  {
  }

  /** DMs are open only on rows that show interest (level LEVEL1 or higher). */
  ghost predicate DmsOnlyAfterInterest(s: Snapshot) {
    forall k :: k in s.relationships && s.relationships[k].openDms ==> LEVEL1.AtMost(s.relationships[k].level)
  }

  /** accept_group keeps that invariant, whatever the outcome. */
  lemma AcceptKeepsDmsOnlyAfterInterest(s: Snapshot, meId: UserId, userId: UserId)
    requires DmsOnlyAfterInterest(s)
    ensures DmsOnlyAfterInterest(AfterAccept(s, meId, userId))
  {
  }

  /** The rows accept_group's query can return as the source builds it: of its three conditions
      joined with Python's `and` only `GroupRelationship.user_id == user_id` reaches SQL, and the
      join matches the row's user_id to a user row, so `.first()` may return any row of the other
      user, toward any group. */
  function AcceptKeysAsWritten(s: Snapshot, userId: UserId): set<(UserId, GroupId)> {
    set k | k in s.relationships && k.0 == userId && k.0 in s.users
  }

  /** The requester in group 2, the other user interested only in group 3: as written the query
      finds that row and accept_group opens DMs with group 3 on group 2's behalf; the intended
      lookup finds nothing and answers 404. */
  lemma AcceptAsWrittenFindsOtherGroupsRow()
    ensures var s := Snapshot(map[1 := User(1, "", "", "", "", [], [], [], None, [], Some(2)),
                                  5 := User(5, "", "", "", "", [], [], [], None, [], None)],
                              map[], map[(5, 3) := GroupRelationship(LEVEL1, false)], []);
      AcceptKeysAsWritten(s, 5) == {(5, 3)} &&
      AcceptResult(s, 1, 5) == Failure(HttpError(404, "Cannot find group to accept"))
  {
  }

  /** The tables, updated in place by the handlers. */
  class Tables {
    var users: map<UserId, User>
    var groups: map<GroupId, Group>
    var relationships: map<(UserId, GroupId), GroupRelationship>
    var photos: seq<UserPhoto>

    function Snapshot(): Snapshot
      reads this
    {
      Database.Snapshot(users, groups, relationships, photos)
    }

    constructor (s: Snapshot)
      ensures Snapshot() == s
    {
      users, groups, relationships, photos := s.users, s.groups, s.relationships, s.photos;
    }

    /** accept_group: look up the row of the other user toward the requester's group, check it,
        and set its open_dms flag in place. */
    method AcceptGroup(meId: UserId, userId: UserId) returns (outcome: Outcome<Error>)
      modifies this
      ensures outcome.Pass? <==> AcceptResult(old(Snapshot()), meId, userId).Success?
      ensures outcome.Fail? ==> outcome.error == AcceptResult(old(Snapshot()), meId, userId).error
      ensures Snapshot() == AfterAccept(old(Snapshot()), meId, userId)
    {
      var myGroup := if meId in users then users[meId].groupId else None;
      if myGroup.None? || (userId, myGroup.value) !in relationships {
        return Fail(HttpError(404, "Cannot find group to accept"));
      }
      var key := (userId, myGroup.value);
      var relationship := relationships[key];
      if relationship.level.Below(LEVEL1) {
        return Fail(HttpError(403, "Forbidden to access DMs"));
      }
      if relationship.openDms {
        return Fail(HttpError(400, "Already accepted this group!"));
      }
      relationship := relationship.(openDms := true);
      relationships := relationships[key := relationship];
      outcome := Pass;
    }
  }
}
