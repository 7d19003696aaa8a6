/** The records of db/models.py that the access rules, the views and the search read. */
module Models {
  import opened Wrappers

  type UserId = int
  type GroupId = int
  type HouseId = int

  /** The access tiers, ordered by their integer value. */
  datatype AccessLevel = PUBLIC | LEVEL1 | LEVEL2 | LEVEL3 {

    function Value(): (n: nat)
      ensures n <= 3
    {
      match this
      case PUBLIC => 0
      case LEVEL1 => 1
      case LEVEL2 => 2
      case LEVEL3 => 3
    }

    /** Python's `self < other` on the int enum. */
    predicate Below(other: AccessLevel) {
      Value() < other.Value()
    }

    /** Python's `self <= other` on the int enum. */
    predicate AtMost(other: AccessLevel) {
      Value() <= other.Value()
    }
  }

  /** The enum in db/models.py has no HIGHEST member; the code that uses it means the top tier. */
  const HIGHEST := LEVEL3

  /** The tier with the given integer value, if there is one (the enum's constructor). */
  function LevelOf(n: int): (r: Option<AccessLevel>)
    ensures r.Some? <==> 0 <= n <= 3
    ensures r.Some? ==> r.value.Value() == n
  {
    if n == 0 then Some(PUBLIC)
    else if n == 1 then Some(LEVEL1)
    else if n == 2 then Some(LEVEL2)
    else if n == 3 then Some(LEVEL3)
    else None
  }

  lemma LevelOfValue(l: AccessLevel)
    ensures LevelOf(l.Value()) == Some(l)
  {
  }

  /** The integer values order the tiers strictly: PUBLIC < LEVEL1 < LEVEL2 < LEVEL3, and two
      tiers with the same value are the same tier. */
  lemma AccessLevelTotalOrder(a: AccessLevel, b: AccessLevel)
    ensures a.Value() == b.Value() ==> a == b
    ensures a.Below(b) || a == b || b.Below(a)
    ensures a.AtMost(b) <==> !b.Below(a)
    ensures PUBLIC.Below(LEVEL1) && LEVEL1.Below(LEVEL2) && LEVEL2.Below(LEVEL3)
    ensures a.AtMost(HIGHEST) && PUBLIC.AtMost(a)
  {
  }

  /** A row of the group_relationship table, which is keyed by the pair (user_id, group_id): the
      standing of a user outside a group toward that group. The key lives in the map that holds
      the rows (see Database.Snapshot), so there is at most one row per pair. */
  datatype GroupRelationship = GroupRelationship(level: AccessLevel, openDms: bool)

  /** A row created with only its level given: open_dms defaults to false. */
  function NewRelationship(level: AccessLevel): (r: GroupRelationship)
    ensures r.level == level && !r.openDms
  {
    GroupRelationship(level, false)
  }

  /** An emergency contact; its columns are not part of this model. */
  datatype EmergencyContact = EmergencyContact(details: string)

  /** A row of the user table. A user belongs to at most one group: group_id is a single nullable
      column. */
  datatype User = User(
    id: UserId,
    bio: string,
    color: string,
    preferredName: string,
    nickname: string,
    pronouns: seq<string>,
    sexualOrientations: seq<string>,
    genders: seq<string>,
    avatarHash: Option<string>,
    emergencyContacts: seq<EmergencyContact>,
    groupId: Option<GroupId>)

  /** A row of the group table. A group references at most one house through a nullable house_id. */
  datatype Group = Group(id: GroupId, name: string, bio: string, houseId: Option<HouseId>, hasHouse: bool)

  /** A row of the user-photo table: one photo of a user, by asset hash. */
  datatype UserPhoto = UserPhoto(userId: UserId, hash: string)

  /** The content of a chat message: exactly one of three shapes, told apart by `type`. */
  datatype ChatContent =
    | ChatContentText(markdown: string)
    | ChatContentSticker(assetHash: string)
    | ChatContentImage(assetHash: string)
  {
    /** The discriminator stored in the `type` field. */
    function Type(): string {
      match this
      case ChatContentText(_) => "text"
      case ChatContentSticker(_) => "sticker"
      case ChatContentImage(_) => "image"
    }

    /** The JSON object stored for this content, without its `type` field. */
    function Fields(): map<string, string> {
      match this
      case ChatContentText(m) => map["markdown" := m]
      case ChatContentSticker(h) => map["asset_hash" := h]
      case ChatContentImage(h) => map["asset_hash" := h]
    }
  }

  /** Validation of a stored JSON object into the discriminated union: `type` picks the shape, and
      the field that shape needs must be present (other keys are ignored, as pydantic does). */
  function ParseChatContent(kind: string, fields: map<string, string>): (r: Option<ChatContent>)
    ensures r.Some? ==> r.value.Type() == kind
    ensures r.Some? <==>
      (kind == "text" && "markdown" in fields) ||
      ((kind == "sticker" || kind == "image") && "asset_hash" in fields)
  {
    if kind == "text" && "markdown" in fields then Some(ChatContentText(fields["markdown"]))
    else if kind == "sticker" && "asset_hash" in fields then Some(ChatContentSticker(fields["asset_hash"]))
    else if kind == "image" && "asset_hash" in fields then Some(ChatContentImage(fields["asset_hash"]))
    else None
  }

  /** Storing chat content and reading it back gives the same content. */
  lemma ChatContentRoundTrip(c: ChatContent)
    ensures ParseChatContent(c.Type(), c.Fields()) == Some(c)
  {
  }

  /** The discriminator alone decides the shape: two contents with the same `type` are the same
      variant. */
  lemma ChatContentTypeDiscriminates(a: ChatContent, b: ChatContent)
    requires a.Type() == b.Type()
    ensures a.ChatContentText? <==> b.ChatContentText?
    ensures a.ChatContentSticker? <==> b.ChatContentSticker?
    ensures a.ChatContentImage? <==> b.ChatContentImage?
  {
  }
}
