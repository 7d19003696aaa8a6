/** The house ownership rules of viewlevels/house.py. */
module HouseAccess {
  import opened Wrappers
  import opened Errors
  import opened Models
  import opened Database
  import GroupAccess

  /** The house_id of the requester's group: the query joins the group to its member row of the
      requester. None when the requester has no group, the group row is missing, or the group
      has no house. (The join supplies `User.group_id == Group.id`, so the `and` in this query
      loses nothing.) */
  function GroupHouseId(s: Snapshot, meId: UserId): (r: Option<HouseId>)
    ensures r.Some? ==> exists g :: GroupAccess.OwnsGroup(s, meId, g) && g in s.groups && s.groups[g].houseId == r
  {
    if meId in s.users && s.users[meId].groupId.Some? && s.users[meId].groupId.value in s.groups then
      var g := s.users[meId].groupId.value;
      assert GroupAccess.OwnsGroup(s, meId, g);
      s.groups[g].houseId
    else
      None
  }

  /** owns_house: the requester's group links to exactly this house. House ownership is derived
      only through the requester's group: it holds exactly when the requester owns some group
      whose house_id is the house. */
  function OwnsHouse(s: Snapshot, meId: UserId, houseId: HouseId): (b: bool)
    ensures b <==>
      exists g :: GroupAccess.OwnsGroup(s, meId, g) && g in s.groups && s.groups[g].houseId == Some(houseId)
  {
    var groupHouseId := GroupHouseId(s, meId);
    if groupHouseId.None? then false else groupHouseId.value == houseId
  }

  /** A requester with no group, or whose group has no house, owns no house. */
  lemma NoGroupNoHouse(s: Snapshot, meId: UserId, houseId: HouseId)
    requires meId !in s.users || s.users[meId].groupId.None? ||
      (s.users[meId].groupId.value in s.groups && s.groups[s.users[meId].groupId.value].houseId.None?)
    ensures !OwnsHouse(s, meId, houseId)
  {
  }

  /** assert_owns_house: 403 exactly when owns_house is false. */
  function AssertOwnsHouse(s: Snapshot, meId: UserId, houseId: HouseId): (r: Outcome<Error>)
    ensures r.Pass? <==> GroupHouseId(s, meId) == Some(houseId)
    ensures r.Fail? ==> r.error == HttpError(403, "You do not own this house")
  {
    if !OwnsHouse(s, meId, houseId) then Fail(HttpError(403, "You do not own this house")) else Pass
  }
}
