/** The tiered user views of viewlevels/user.py: four nested field sets, a view builder that starts
    from the most privileged view and strips fields tier by tier, and the choice of tier when one
    user looks at another. */
module UserViews {
  import opened Wrappers
  import opened Errors
  import opened Models
  import opened Database
  import GroupAccess

  /** The discriminated union UserView: one variant per tier, each holding the fields of its data
      class (PublicUserData, Level1UserData, Level2UserData, Level3UserData). */
  datatype UserView =
    | PublicUser(id: UserId, color: string, avatarHash: Option<string>, nickname: string, pronouns: seq<string>)
    | Level1User(id: UserId, color: string, avatarHash: Option<string>, nickname: string, pronouns: seq<string>,
                 bio: string, preferredName: string, photoHashes: seq<string>, genders: seq<string>)
    | Level2User(id: UserId, color: string, avatarHash: Option<string>, nickname: string, pronouns: seq<string>,
                 bio: string, preferredName: string, photoHashes: seq<string>, genders: seq<string>,
                 sexualOrientations: seq<string>, group: Option<Group>)
    | Level3User(id: UserId, color: string, avatarHash: Option<string>, nickname: string, pronouns: seq<string>,
                 bio: string, preferredName: string, photoHashes: seq<string>, genders: seq<string>,
                 sexualOrientations: seq<string>, group: Option<Group>,
                 emergencyContacts: seq<EmergencyContact>)
  {
    /** The access_level tag of the variant. */
    function Tier(): AccessLevel {
      match this
      case PublicUser(_, _, _, _, _) => PUBLIC
      case Level1User(_, _, _, _, _, _, _, _, _) => LEVEL1
      case Level2User(_, _, _, _, _, _, _, _, _, _, _) => LEVEL2
      case Level3User(_, _, _, _, _, _, _, _, _, _, _, _) => LEVEL3
    }
  }

  /** The names of the view fields. */
  datatype Field =
    | Id | Color | AvatarHash | Nickname | Pronouns
    | Bio | PreferredName | PhotoHashes | Genders
    | SexualOrientations | GroupField
    | EmergencyContacts

  /** A field's value, whatever its type. */
  datatype FieldValue =
    | IntValue(i: int)
    | Text(s: string)
    | OptionalText(o: Option<string>)
    | Texts(ss: seq<string>)
    | OptionalGroup(g: Option<Group>)
    | Contacts(cs: seq<EmergencyContact>)

  /** The fields each data class declares, its parent's included. */
  function Fields(v: UserView): set<Field> {
    match v
    case PublicUser(_, _, _, _, _) =>
      {Id, Color, AvatarHash, Nickname, Pronouns}
    case Level1User(_, _, _, _, _, _, _, _, _) =>
      {Id, Color, AvatarHash, Nickname, Pronouns, Bio, PreferredName, PhotoHashes, Genders}
    case Level2User(_, _, _, _, _, _, _, _, _, _, _) =>
      {Id, Color, AvatarHash, Nickname, Pronouns, Bio, PreferredName, PhotoHashes, Genders,
       SexualOrientations, GroupField}
    case Level3User(_, _, _, _, _, _, _, _, _, _, _, _) =>
      {Id, Color, AvatarHash, Nickname, Pronouns, Bio, PreferredName, PhotoHashes, Genders,
       SexualOrientations, GroupField, EmergencyContacts}
  }

  /** The value a view holds for one of its fields. */
  function ValueOf(v: UserView, f: Field): FieldValue
    requires f in Fields(v)
  {
    match f
    case Id => IntValue(v.id)
    case Color => Text(v.color)
    case AvatarHash => OptionalText(v.avatarHash)
    case Nickname => Text(v.nickname)
    case Pronouns => Texts(v.pronouns)
    case Bio => Text(v.bio)
    case PreferredName => Text(v.preferredName)
    case PhotoHashes => Texts(v.photoHashes)
    case Genders => Texts(v.genders)
    case SexualOrientations => Texts(v.sexualOrientations)
    case GroupField => OptionalGroup(v.group)
    case EmergencyContacts => Contacts(v.emergencyContacts)
  }

  /** The fields each tier adds to the one below it. */
  const PublicFields: set<Field> := {Id, Color, AvatarHash, Nickname, Pronouns}
  const Level1Adds: set<Field> := {Bio, PreferredName, PhotoHashes, Genders}
  const Level2Adds: set<Field> := {SexualOrientations, GroupField}
  const Level3Adds: set<Field> := {EmergencyContacts}

  /** The field set of a tier, built up from the tiers below it. */
  function FieldsAt(level: AccessLevel): set<Field> {
    match level
    case PUBLIC => PublicFields
    case LEVEL1 => PublicFields + Level1Adds
    case LEVEL2 => PublicFields + Level1Adds + Level2Adds
    case LEVEL3 => PublicFields + Level1Adds + Level2Adds + Level3Adds
  }

  /** The field sets are strictly nested: a higher tier always shows strictly more. */
  lemma FieldSetsStrictlyNested(lo: AccessLevel, hi: AccessLevel)
    requires lo.Below(hi)
    ensures FieldsAt(lo) < FieldsAt(hi)
  {
  }

  /** The LEVEL3 view shows every field there is. */
  lemma HighestShowsEverything(f: Field)
    ensures f in FieldsAt(HIGHEST)
  {
  }

  /** The hashes of the photos, in their order (the list comprehension). */
  function PhotoHashesOf(photos: seq<UserPhoto>): (r: seq<string>)
    ensures |r| == |photos|
    ensures forall i :: 0 <= i < |r| ==> r[i] == photos[i].hash
  {
    if photos == [] then [] else [photos[0].hash] + PhotoHashesOf(photos[1..])
  }

  /** The most privileged view of a user, built from the user's row, the group and the photos. */
  function FullView(user: User, group: Option<Group>, photos: seq<UserPhoto>): UserView {
    Level3User(user.id, user.color, user.avatarHash, user.nickname, user.pronouns,
               user.bio, user.preferredName, PhotoHashesOf(photos), user.genders,
               user.sexualOrientations, group, user.emergencyContacts)
  }

  /** One tier down: re-validating the dump of a view (without its tag) as the next lower class,
      which drops the fields that class does not declare. */
  function Demote(v: UserView): UserView {
    match v
    case Level3User(id, color, avatar, nick, pronouns, bio, name, hashes, genders, orientations, group, _) =>
      Level2User(id, color, avatar, nick, pronouns, bio, name, hashes, genders, orientations, group)
    case Level2User(id, color, avatar, nick, pronouns, bio, name, hashes, genders, _, _) =>
      Level1User(id, color, avatar, nick, pronouns, bio, name, hashes, genders)
    case Level1User(id, color, avatar, nick, pronouns, _, _, _, _) =>
      PublicUser(id, color, avatar, nick, pronouns)
    case PublicUser(_, _, _, _, _) => v
  }

  /** Where each field of a view comes from in the inputs. */
  function SourceValue(user: User, group: Option<Group>, photos: seq<UserPhoto>, f: Field): FieldValue {
    match f
    case Id => IntValue(user.id)
    case Color => Text(user.color)
    case AvatarHash => OptionalText(user.avatarHash)
    case Nickname => Text(user.nickname)
    case Pronouns => Texts(user.pronouns)
    case Bio => Text(user.bio)
    case PreferredName => Text(user.preferredName)
    case PhotoHashes => Texts(PhotoHashesOf(photos))
    case Genders => Texts(user.genders)
    case SexualOrientations => Texts(user.sexualOrientations)
    case GroupField => OptionalGroup(group)
    case EmergencyContacts => Contacts(user.emergencyContacts)
  }

  /** user_view: start from the LEVEL3 view and step down once for each `level <= ...` test that
      holds. The result is tagged with the requested tier and shows exactly that tier's fields,
      each with its value from the inputs. */
  function BuildUserView(level: AccessLevel, user: User, group: Option<Group>, photos: seq<UserPhoto>): (r: UserView)
    ensures r.Tier() == level
    ensures Fields(r) == FieldsAt(level)
  {
    var view3 := FullView(user, group, photos);
    var view2 := if level.AtMost(LEVEL2) then Demote(view3) else view3;
    var view1 := if level.AtMost(LEVEL1) then Demote(view2) else view2;
    var view0 := if level.AtMost(PUBLIC) then Demote(view1) else view1;
    view0
  }

  /** Every field of a view holds its value from the inputs: the user row, the group and the
      photos. */
  lemma BuildUserViewValue(level: AccessLevel, user: User, group: Option<Group>, photos: seq<UserPhoto>, f: Field)
    requires f in Fields(BuildUserView(level, user, group, photos))
    ensures ValueOf(BuildUserView(level, user, group, photos), f) == SourceValue(user, group, photos, f)
  {
  }

  lemma BuildUserViewValues(level: AccessLevel, user: User, group: Option<Group>, photos: seq<UserPhoto>)
    ensures forall f :: f in Fields(BuildUserView(level, user, group, photos)) ==>
      ValueOf(BuildUserView(level, user, group, photos), f) == SourceValue(user, group, photos, f)
  {
    forall f | f in Fields(BuildUserView(level, user, group, photos)) {
      BuildUserViewValue(level, user, group, photos, f);
    }
  }

  /** Lower tiers only leave fields out: every field of a lower view is in the LEVEL3 view built
      from the same inputs, with the same value. */
  lemma LowerViewsAgreeWithHighest(level: AccessLevel, user: User, group: Option<Group>, photos: seq<UserPhoto>, f: Field)
    requires f in Fields(BuildUserView(level, user, group, photos))
    ensures f in Fields(BuildUserView(HIGHEST, user, group, photos))
    ensures ValueOf(BuildUserView(level, user, group, photos), f) == ValueOf(BuildUserView(HIGHEST, user, group, photos), f)
  {
  }

  /** The photo rows of one user, in the order the table returns them (the query
      `UserPhotos.user_id == user_id`). */
  function PhotosOf(photos: seq<UserPhoto>, userId: UserId): (r: seq<UserPhoto>)
    ensures |r| <= |photos|
    ensures forall p :: p in r <==> p in photos && p.userId == userId
  {
    if photos == [] then []
    else if photos[0].userId == userId then [photos[0]] + PhotosOf(photos[1..], userId)
    else PhotosOf(photos[1..], userId)
  }

  /** Appending a photo row to the table appends it to the user's photos exactly when it is that
      user's: the rows are kept, in table order and with their multiplicity. */
  lemma {:induction false} PhotosOfAppend(photos: seq<UserPhoto>, q: UserPhoto, userId: UserId)
    ensures PhotosOf(photos + [q], userId) == PhotosOf(photos, userId) + (if q.userId == userId then [q] else [])
  {
    if photos != [] {
      assert (photos + [q])[1..] == photos[1..] + [q];
      PhotosOfAppend(photos[1..], q, userId);
    } else {
      assert [] + [q] == [q];
    }
  }

  /** The tier chosen in user_view_from_db: yourself gets HIGHEST; another user is seen at PUBLIC
      when that user has no group (a group_id of 0 counts as none, by truthiness) and otherwise at
      the viewer's group_level toward that user's group. */
  function ViewLevel(s: Snapshot, meId: UserId, userId: UserId, userGroup: Option<Group>): (r: AccessLevel)
    ensures meId == userId ==> r == HIGHEST
    ensures meId != userId && userGroup.None? ==> r == PUBLIC
    ensures meId != userId && userGroup.Some? ==> r == GroupAccess.GroupLevel(s, meId, userGroup.value.id)
  {
    var level := PUBLIC;
    if meId == userId then HIGHEST
    else if userGroup.Some? then GroupAccess.GroupLevel(s, meId, userGroup.value.id)
    else level
  }

  /** The group fetched for a user: none when group_id is None or 0; the row with that primary
      key otherwise, and NoResultFound when no such row exists. */
  function GroupOfUser(s: Snapshot, user: User): (r: Result<Option<Group>, Error>)
    ensures user.groupId.None? || user.groupId.value == 0 ==> r == Success(None)
    ensures user.groupId.Some? && user.groupId.value != 0 ==>
      if user.groupId.value in s.groups then r == Success(Some(s.groups[user.groupId.value]))
      else r == Failure(NoResultFound)
  {
    if user.groupId.Some? && user.groupId.value != 0 then
      if user.groupId.value in s.groups then Success(Some(s.groups[user.groupId.value]))
      else Failure(NoResultFound)
    else Success(None)
  }

  /** user_view_from_db: fetch the user, the user's group and photos, choose the tier and build
      the view. A missing user or group row is NoResultFound. */
  function UserViewFromDb(s: Snapshot, meId: UserId, userId: UserId): (r: Result<UserView, Error>)
    ensures userId !in s.users ==> r == Failure(NoResultFound)
    ensures r.Success? ==> userId in s.users && GroupOfUser(s, s.users[userId]).Success?
    ensures r.Success? ==>
      var user := s.users[userId];
      var group := GroupOfUser(s, user).value;
      && r.value.Tier() == ViewLevel(s, meId, userId, group)
      && forall f :: f in Fields(r.value) ==>
           ValueOf(r.value, f) == SourceValue(user, group, PhotosOf(s.photos, userId), f)
    ensures meId == userId && r.Success? ==> r.value.Tier() == HIGHEST
    ensures userId in s.users && GroupOfUser(s, s.users[userId]).Success? ==> r.Success?
    ensures userId in s.users && GroupOfUser(s, s.users[userId]).Failure? ==> r == Failure(NoResultFound)
  {
    if userId !in s.users then Failure(NoResultFound)
    else
      var user := s.users[userId];
      var groupResult := GroupOfUser(s, user);
      if groupResult.Failure? then Failure(groupResult.error)
      else
        var group := groupResult.value;
        var photos := PhotosOf(s.photos, userId);
        var level := ViewLevel(s, meId, userId, group);
        BuildUserViewValues(level, user, group, photos);
        Success(BuildUserView(level, user, group, photos))
  }

  /** On tables whose rows sit under their own keys, user_view_from_db for an existing user with
      a resolvable group succeeds, shows that user's id, and sees another user through
      group_level toward the group the user's row names. */
  lemma UserViewFromDbOnValidTables(s: Snapshot, meId: UserId, userId: UserId)
    requires Valid(s)
    requires userId in s.users && GroupOfUser(s, s.users[userId]).Success?
    ensures UserViewFromDb(s, meId, userId).Success?
    ensures Id in Fields(UserViewFromDb(s, meId, userId).value)
    ensures ValueOf(UserViewFromDb(s, meId, userId).value, Id) == IntValue(userId)
    ensures meId != userId && s.users[userId].groupId.Some? && s.users[userId].groupId.value != 0 ==>
      UserViewFromDb(s, meId, userId).value.Tier() == GroupAccess.GroupLevel(s, meId, s.users[userId].groupId.value)
  {
  }
}
