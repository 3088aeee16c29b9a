/** The profile page: the avatar's fallback initials, which values it shows,
    and the name editor, whose Save button sends a rename through the profile
    hook. `profile` is the loaded row (absent while missing), `user` the
    session's user. */
module ProfilePage {
  import opened JsValues
  import opened JsStrings
  import opened AuthService
  import AuthContext
  import UserMenu
  import ProfileData

  /** `profile?.full_name?.split(" ")…toUpperCase()`, with `undefined` (no
      profile, or no name) written as "" since both are falsy. */
  function FullNameInitials(profile: Option<ProfileRecord>): string
  {
    if profile.Some? && profile.value.fullName.Defined? then UserMenu.Initials(profile.value.fullName.value)
    else ""
  }

  /** The avatar fallback: the full name's initials, else the upper-cased first
      character of the session user's name, else "U". Never empty. */
  function AvatarInitials(profile: Option<ProfileRecord>, user: Option<AuthContext.User>): (r: string)
    ensures r != ""
    ensures FullNameInitials(profile) != "" ==> r == FullNameInitials(profile)
    ensures FullNameInitials(profile) == "" && user.Some? && user.value.name != "" ==>
      |r| == 1 && r[0] == UpperChar(user.value.name[0])
    ensures FullNameInitials(profile) == "" && !(user.Some? && user.value.name != "") ==> r == "U"
  {
    var fromProfile := FullNameInitials(profile);
    if fromProfile != "" then fromProfile
    else if user.Some? && user.value.name != "" then Upper([user.value.name[0]])
    else "U"
  }

  /** A stored full name of single-space-separated words yields one initial per word. */
  lemma InitialsFromFullName(profile: Option<ProfileRecord>, user: Option<AuthContext.User>, words: seq<string>)
    requires profile.Some? && profile.value.fullName == Defined(Join(words, " "))
    requires |words| >= 1
    requires forall k :: 0 <= k < |words| ==> words[k] != "" && ' ' !in words[k]
    ensures |AvatarInitials(profile, user)| == |words|
    ensures forall k :: 0 <= k < |words| ==> AvatarInitials(profile, user)[k] == UpperChar(words[k][0])
  {
    UserMenu.InitialsOfWords(words);
  }

  /** With no stored profile, a user signed in through the mock login shows the
      first letter of the name the login made up. */
  lemma MockLoginInitials(u: Option<AuthContext.User>, email: string, password: string, role: AuthContext.Role)
    ensures AvatarInitials(None, AuthContext.Apply(u, AuthContext.Login(email, password, role))) ==
      (if role == AuthContext.SalonOwner then "S" else "J")
  {
    var user := AuthContext.Apply(u, AuthContext.Login(email, password, role));
    assert user.value.name == (if role == AuthContext.SalonOwner then "Salon Owner" else "John Doe");
  }

  /** `profile?.full_name || user?.name`; None when neither yields a value. */
  function DisplayName(profile: Option<ProfileRecord>, user: Option<AuthContext.User>): (r: Option<string>)
    ensures profile.Some? && TruthyString(profile.value.fullName) ==> r == Some(profile.value.fullName.value)
    ensures !(profile.Some? && TruthyString(profile.value.fullName)) ==>
      (r.Some? <==> user.Some?) && (user.Some? ==> r.value == user.value.name)
  {
    if profile.Some? && TruthyString(profile.value.fullName) then Some(profile.value.fullName.value)
    else if user.Some? then Some(user.value.name)
    else None
  }

  /** `profile?.email || user?.email` */
  function DisplayEmail(profile: Option<ProfileRecord>, user: Option<AuthContext.User>): (r: Option<string>)
    ensures profile.Some? && TruthyString(profile.value.email) ==> r == Some(profile.value.email.value)
    ensures !(profile.Some? && TruthyString(profile.value.email)) ==>
      (r.Some? <==> user.Some?) && (user.Some? ==> r.value == user.value.email)
  {
    if profile.Some? && TruthyString(profile.value.email) then Some(profile.value.email.value)
    else if user.Some? then Some(user.value.email)
    else None
  }

  /** `profile?.phone_number && …`: the phone row, only for a non-empty number. */
  function ShownPhone(profile: Option<ProfileRecord>): (r: Option<string>)
    ensures r.Some? <==> profile.Some? && TruthyString(profile.value.phoneNumber)
    ensures r.Some? ==> r.value != "" && r.value == profile.value.phoneNumber.value
  {
    if profile.Some? && TruthyString(profile.value.phoneNumber) then Some(profile.value.phoneNumber.value)
    else None
  }

  /** `profile?.avatar_url || user?.avatar` */
  function AvatarSource(profile: Option<ProfileRecord>, user: Option<AuthContext.User>): (r: Option<string>)
    ensures profile.Some? && TruthyString(profile.value.avatarUrl) ==> r == Some(profile.value.avatarUrl.value)
    ensures !(profile.Some? && TruthyString(profile.value.avatarUrl)) ==>
      r == (if user.Some? then user.value.avatar else None)
  {
    if profile.Some? && TruthyString(profile.value.avatarUrl) then Some(profile.value.avatarUrl.value)
    else if user.Some? then user.value.avatar
    else None
  }

  /** After a rename to a non-empty name, the page shows that name for the row. */
  lemma DisplayNameAfterRename(rows: map<string, ProfileRecord>, id: string, name: string,
                               user: Option<AuthContext.User>)
    requires id in rows && name != ""
    ensures DisplayName(Some(ProfileData.WithFullName(rows, Some(id), name)[id]), user) == Some(name)
  {
    ProfileData.WithFullNameOnlyName(rows, Some(id), name);
  }

  /** After an avatar upload, the page shows the new address, if non-empty. */
  lemma AvatarAfterUpload(rows: map<string, ProfileRecord>, id: string, url: string,
                          user: Option<AuthContext.User>)
    requires id in rows && url != ""
    ensures AvatarSource(Some(ProfileData.WithAvatarUrl(rows, Some(id), url)[id]), user) == Some(url)
  {
    ProfileData.WithAvatarUrlOnlyAvatar(rows, Some(id), url);
  }

  /** The name editor: whether it is open, and the text typed into it. */
  class NameEditor {
    var isEditing: bool
    var newName: string

    constructor ()
      ensures !isEditing && newName == ""
    {
      isEditing, newName := false, "";
    }

    /** The Edit button. */
    method Edit()
      modifies this
      ensures isEditing && newName == old(newName)
    {
      isEditing := true;
    }

    /** The Cancel button. */
    method Cancel()
      modifies this
      ensures !isEditing && newName == old(newName)
    {
      isEditing := false;
    }

    /** Typing into the name input. */
    method Type(text: string)
      modifies this
      ensures newName == text && isEditing == old(isEditing)
    {
      newName := text;
    }

    /** `handleNameUpdate`: send the trimmed name only when it is non-empty;
        the editor closes only when the rename succeeds. */
    method HandleNameUpdate(store: ProfileData.ProfileStore, userId: Option<string>, updateError: Option<string>)
      returns (sent: bool)
      modifies this, store
      ensures sent <==> Trim(old(newName)) != ""
      ensures newName == old(newName) && store.objects == old(store.objects)
      ensures !sent ==> store.rows == old(store.rows) && isEditing == old(isEditing)
      ensures sent && updateError.Some? ==> store.rows == old(store.rows) && isEditing == old(isEditing)
      ensures sent && updateError.None? ==>
        store.rows == ProfileData.WithFullName(old(store.rows), userId, Trim(newName)) && !isEditing
      ensures isEditing != old(isEditing) ==> sent && updateError.None?
    {
      var name := Trim(newName);
      if name == "" {
        return false;
      }
      var r := store.UpdateName(userId, name, updateError);
      if r.Ok? {
        isEditing := false;
      }
      return true;
    }
  }
}
