/** The user profile and the avatar catalogue. */
module Profiles {
  import opened Options

  /** `userProfile`: a display name, an avatar id, a goal and an email address. */
  datatype Profile = Profile(name: string, avatar: string, goal: string, email: string)

  /** The profile used when none is stored or the stored one cannot be read. */
  const DefaultProfile: Profile := Profile("CA Student", "avatar1", "Pass CA exams with distinction", "")

  /** The four fields the profile form edits. */
  datatype Field = Name | Avatar | Goal | Email

  function Get(p: Profile, f: Field): string {
    match f
    case Name => p.name
    case Avatar => p.avatar
    case Goal => p.goal
    case Email => p.email
  }

  /** A profile is nothing more than its four fields. */
  lemma ProfileExtensional(p: Profile, q: Profile)
    requires forall f :: Get(p, f) == Get(q, f)
    ensures p == q
  {
    assert Get(p, Name) == Get(q, Name) && Get(p, Avatar) == Get(q, Avatar);
    assert Get(p, Goal) == Get(q, Goal) && Get(p, Email) == Get(q, Email);
  }

  /** `updateProfile(field, value)`, `{ ...prev, [field]: value }`: the field gets the new
      value and every other field keeps its old one. */
  function UpdateProfile(p: Profile, f: Field, value: string): (r: Profile)
    ensures Get(r, f) == value
    ensures forall g :: g != f ==> Get(r, g) == Get(p, g)
  {
    match f
    case Name => p.(name := value)
    case Avatar => p.(avatar := value)
    case Goal => p.(goal := value)
    case Email => p.(email := value)
  }

  /** A second update of the same field overrides the first. */
  lemma UpdateOverwrites(p: Profile, f: Field, a: string, b: string)
    ensures UpdateProfile(UpdateProfile(p, f, a), f, b) == UpdateProfile(p, f, b)
  {
    ProfileExtensional(UpdateProfile(UpdateProfile(p, f, a), f, b), UpdateProfile(p, f, b));
  }

  /** Writing a field's own value back changes nothing. */
  lemma UpdateWithOwnValue(p: Profile, f: Field)
    ensures UpdateProfile(p, f, Get(p, f)) == p
  {
    ProfileExtensional(UpdateProfile(p, f, Get(p, f)), p);
  }

  /** Updates of different fields can be made in either order. */
  lemma UpdatesCommute(p: Profile, f: Field, a: string, g: Field, b: string)
    requires f != g
    ensures UpdateProfile(UpdateProfile(p, f, a), g, b) == UpdateProfile(UpdateProfile(p, g, b), f, a)
  {
    ProfileExtensional(UpdateProfile(UpdateProfile(p, f, a), g, b),
                       UpdateProfile(UpdateProfile(p, g, b), f, a));
  }

  /** The profile the component starts with: the stored one, or the default when loading
      failed. */
  function LoadProfile(stored: Option<Profile>): (r: Profile)
    ensures stored.Some? ==> r == stored.value
    ensures stored.None? ==> r == DefaultProfile
  {
    stored.GetOr(DefaultProfile)
  }

  /** One entry of `AVATAR_OPTIONS`: an id, the emoji shown, and its label (`caption`, since `label` is a Dafny keyword). */
  datatype AvatarOption = AvatarOption(id: string, src: string, caption: string)

  const AVATAR_OPTIONS: seq<AvatarOption> := [
    AvatarOption("avatar1", "\U{1F468}\U{200D}\U{1F393}", "Student"),
    AvatarOption("avatar2", "\U{1F469}\U{200D}\U{1F393}", "Student 2"),
    AvatarOption("avatar3", "\U{1F468}\U{200D}\U{1F4BC}", "Professional"),
    AvatarOption("avatar4", "\U{1F469}\U{200D}\U{1F4BC}", "Professional 2"),
    AvatarOption("avatar5", "\U{1F9D1}\U{200D}\U{1F4BB}", "Coder"),
    AvatarOption("avatar6", "\U{1F468}\U{200D}\U{1F3EB}", "Teacher"),
    AvatarOption("avatar7", "\U{1F469}\U{200D}\U{1F3EB}", "Teacher 2"),
    AvatarOption("avatar8", "\U{1F9D9}\U{200D}\U{2642}\U{FE0F}", "Wizard")
  ]

  /** `options.find(a => a.id === id)`, as the index of the first entry with that id. */
  function FindAvatar(options: seq<AvatarOption>, id: string): (r: Option<nat>)
    ensures r.Some? ==> r.value < |options| && options[r.value].id == id
    ensures r.Some? ==> forall j :: 0 <= j < r.value ==> options[j].id != id
    ensures r.None? <==> forall j :: 0 <= j < |options| ==> options[j].id != id
  {
    if options == [] then None
    else if options[0].id == id then Some(0)
    else
      match FindAvatar(options[1..], id)
      case None => None
      case Some(k) => Some(k + 1)
  }

  /** The catalogue has eight entries, `avatar1` to `avatar8`, no two with the same id. */
  lemma AvatarIdsDistinct()
    ensures |AVATAR_OPTIONS| == 8
    ensures AVATAR_OPTIONS[0].id == "avatar1" && AVATAR_OPTIONS[7].id == "avatar8"
    ensures forall i, j :: 0 <= i < j < |AVATAR_OPTIONS| ==> AVATAR_OPTIONS[i].id != AVATAR_OPTIONS[j].id
  {
    var ids := ["avatar1", "avatar2", "avatar3", "avatar4", "avatar5", "avatar6", "avatar7", "avatar8"];
    assert forall i :: 0 <= i < 8 ==> AVATAR_OPTIONS[i].id == ids[i];
    assert forall i :: 0 <= i < 8 ==> |ids[i]| == 7 && ids[i][..6] == "avatar" && ids[i][6] == "12345678"[i];
  }

  /** `getAvatarSrc(avatarId)`: the emoji of the entry with that id, or the first entry's
      emoji when no entry has it. */
  function GetAvatarSrc(avatarId: string): (src: string)
    ensures forall i :: 0 <= i < |AVATAR_OPTIONS| && AVATAR_OPTIONS[i].id == avatarId ==>
              src == AVATAR_OPTIONS[i].src
    ensures (forall i :: 0 <= i < |AVATAR_OPTIONS| ==> AVATAR_OPTIONS[i].id != avatarId) ==>
              src == AVATAR_OPTIONS[0].src
    ensures exists i :: 0 <= i < |AVATAR_OPTIONS| && src == AVATAR_OPTIONS[i].src
  {
    AvatarIdsDistinct();
    match FindAvatar(AVATAR_OPTIONS, avatarId)
    case Some(k) => AVATAR_OPTIONS[k].src
    case None => AVATAR_OPTIONS[0].src
  }

  /** The default profile shows the Student avatar. */
  lemma DefaultAvatarIsStudent()
    ensures GetAvatarSrc(DefaultProfile.avatar) == "\U{1F468}\U{200D}\U{1F393}"
  {
    assert AVATAR_OPTIONS[0].id == DefaultProfile.avatar;
  }
}
