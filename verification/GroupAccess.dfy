/** The group access rules of viewlevels/group.py. */
module GroupAccess {
  import opened Wrappers
  import opened Errors
  import opened Models
  import opened Database

  /** owns_group: the requester's group_id is the given group. The source joins the two
      conditions with Python's `and`, which hands SQL only the first one; this is the intended
      predicate, matching both the user id and the group id (OwnsGroupAsWritten is the other). */
  function OwnsGroup(s: Snapshot, meId: UserId, groupId: GroupId): (b: bool)
    ensures b <==> GroupOf(s, meId) == Some(groupId)
  {
    meId in s.users && s.users[meId].groupId == Some(groupId)
  }

  /** A user owns at most one group, since membership is one nullable column. */
  lemma OwnsAtMostOneGroup(s: Snapshot, meId: UserId, g1: GroupId, g2: GroupId)
    requires OwnsGroup(s, meId, g1) && OwnsGroup(s, meId, g2)
    ensures g1 == g2
  {
  }

  /** assert_owns_group: 403 exactly when the requester does not own the group. */
  function AssertOwnsGroup(s: Snapshot, meId: UserId, groupId: GroupId): (r: Outcome<Error>)
    ensures r.Pass? <==> meId in s.users && s.users[meId].groupId == Some(groupId)
    ensures r.Fail? ==> r.error == HttpError(403, "You do not own this group")
  {
    if !OwnsGroup(s, meId, groupId) then Fail(HttpError(403, "You do not own this group")) else Pass
  }

  /** group_level: the requester's tier toward a group, first match wins. A member gets HIGHEST
      whatever row is stored; otherwise the row for exactly (meId, groupId) decides (the source's
      `and` again; this matches both keys); with no such row the caller's default applies. */
  function GroupLevel(s: Snapshot, meId: UserId, groupId: GroupId, default: AccessLevel := PUBLIC): (r: AccessLevel)
    ensures OwnsGroup(s, meId, groupId) ==> r == HIGHEST
    ensures !OwnsGroup(s, meId, groupId) && (meId, groupId) !in s.relationships ==> r == default
    ensures !OwnsGroup(s, meId, groupId) && (meId, groupId) in s.relationships ==>
      r == s.relationships[(meId, groupId)].level
  {
    if OwnsGroup(s, meId, groupId) then HIGHEST
    else if (meId, groupId) !in s.relationships then default
    else s.relationships[(meId, groupId)].level
  }

  /** Membership dominates: whatever row is stored for the pair, a member keeps HIGHEST. */
  lemma MemberIgnoresStoredRow(s: Snapshot, meId: UserId, groupId: GroupId, row: GroupRelationship, default: AccessLevel)
    requires OwnsGroup(s, meId, groupId)
    ensures GroupLevel(s.(relationships := s.relationships[(meId, groupId) := row]), meId, groupId, default) == HIGHEST
  {
  }

  /** The lookup is keyed on the exact pair: a row of the requester toward another group, or of
      another user toward this group, leaves the tier unchanged. */
  lemma OtherRowsIgnored(s: Snapshot, meId: UserId, groupId: GroupId, key: (UserId, GroupId), row: GroupRelationship, default: AccessLevel)
    requires key != (meId, groupId)
    ensures GroupLevel(s.(relationships := s.relationships[key := row]), meId, groupId, default)
         == GroupLevel(s, meId, groupId, default)
  {
  }

  /** assert_group_level: 403 exactly when the tier (default PUBLIC) is below the required one. */
  function AssertGroupLevel(s: Snapshot, meId: UserId, groupId: GroupId, level: AccessLevel): (r: Outcome<Error>)
    ensures r.Fail? <==> GroupLevel(s, meId, groupId).Value() < level.Value()
    ensures r.Fail? ==> r.error.HttpError? && r.error.status == 403
  {
    var actualLevel := GroupLevel(s, meId, groupId);
    if actualLevel.Below(level) then
      Fail(HttpError(403, "You do not have the required access level for this group"))
    else
      Pass
  }

  /** Passing the gate at a level means passing it at every lower level. */
  lemma AssertGroupLevelDownwardClosed(s: Snapshot, meId: UserId, groupId: GroupId, level: AccessLevel, lower: AccessLevel)
    requires AssertGroupLevel(s, meId, groupId, level).Pass?
    requires lower.AtMost(level)
    ensures AssertGroupLevel(s, meId, groupId, lower).Pass?
  {
  }

  /** A member passes every level gate for their own group. */
  lemma MemberPassesEveryGate(s: Snapshot, meId: UserId, groupId: GroupId, level: AccessLevel)
    requires OwnsGroup(s, meId, groupId)
    ensures AssertGroupLevel(s, meId, groupId, level).Pass?
  {
  }

  // ---- The queries as written -------------------------------------------------------------

  /** owns_group as the source builds it: `User.id == me_id and User.group_id == group_id` hands
      SQL the first comparison only, so the query returns the requester's group_id whatever
      group was asked about, and the test is "the requester has some group". */
  predicate OwnsGroupAsWritten(s: Snapshot, meId: UserId, groupId: GroupId)
  {
    meId in s.users && s.users[meId].groupId.Some?
  }

  /** group_level as the source builds it: membership is OwnsGroupAsWritten, and the relationship
      query keeps only `user_id == me_id`, so `.first()` returns some row of the requester toward
      any group. The set holds every result the unordered query can give. */
  function GroupLevelsAsWritten(s: Snapshot, meId: UserId, groupId: GroupId, default: AccessLevel := PUBLIC): (r: set<AccessLevel>)
    ensures r != {}
    ensures OwnsGroupAsWritten(s, meId, groupId) ==> r == {HIGHEST}
  {
    if OwnsGroupAsWritten(s, meId, groupId) then {HIGHEST}
    else
      var mine := set k | k in s.relationships && k.0 == meId :: s.relationships[k].level;
      if mine == {} then {default} else mine
  }

  /** A member of group 2 asking about group 3: as written the requester "owns" group 3 and gets
      HIGHEST toward it; the intended rule says neither. */
  lemma OwnsGroupAsWrittenIgnoresGroup()
    ensures var s := Snapshot(map[1 := User(1, "", "", "", "", [], [], [], None, [], Some(2))], map[], map[], []);
      OwnsGroupAsWritten(s, 1, 3) && !OwnsGroup(s, 1, 3) &&
      GroupLevelsAsWritten(s, 1, 3) == {HIGHEST} && GroupLevel(s, 1, 3) == PUBLIC
  {
  }

  /** A user with no group and one LEVEL2 row toward group 2, asking about group 3: as written the
      row for group 2 is returned; the intended rule falls back to the default PUBLIC. */
  lemma GroupLevelAsWrittenUsesOtherGroupsRow()
    ensures var s := Snapshot(map[1 := User(1, "", "", "", "", [], [], [], None, [], None)], map[],
                              map[(1, 2) := GroupRelationship(LEVEL2, false)], []);
      GroupLevelsAsWritten(s, 1, 3) == {LEVEL2} && GroupLevel(s, 1, 3) == PUBLIC
  {
    var s := Snapshot(map[1 := User(1, "", "", "", "", [], [], [], None, [], None)], map[],
                      map[(1, 2) := GroupRelationship(LEVEL2, false)], []);
    assert (1, 2) in s.relationships;
    var mine := set k | k in s.relationships && k.0 == 1 :: s.relationships[k].level;
    assert LEVEL2 in mine;
    assert mine == {LEVEL2};
  }
}
