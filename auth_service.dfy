/** `mapProfileToUser`: the record transform from a stored profile row to the
    in-memory user shape, with `||` defaults. The row is typed `any` in the
    source, so every property may be missing or null. */
module AuthService {
  import opened JsValues

  /** A row of the `profiles` table. */
  datatype ProfileRecord = ProfileRecord(
    id: Nullable<string>,
    fullName: Nullable<string>,
    email: Nullable<string>,
    role: Nullable<string>,
    avatarUrl: Nullable<string>,
    phoneNumber: Nullable<string>)

  /** The user shape the mapper builds. Its role is any string: nothing in the
      mapper narrows it to `'user' | 'salon_owner'`. */
  datatype MappedUser = MappedUser(
    id: Nullable<string>,
    name: string,
    email: string,
    role: string,
    avatar: Nullable<string>)

  function MapProfileToUser(profile: ProfileRecord, email: string): (u: MappedUser)
    ensures u.id == profile.id
    ensures u.name != "" <==> TruthyString(profile.fullName)
    ensures u.name != "" ==> u.name == profile.fullName.value
    ensures u.email == email
    ensures u.role != ""
    ensures u.role == "user" <== !TruthyString(profile.role)
    ensures TruthyString(profile.role) ==> u.role == profile.role.value
    ensures u.avatar == profile.avatarUrl
  {
    MappedUser(profile.id, OrString(profile.fullName, ""), email,
               OrString(profile.role, "user"), profile.avatarUrl)
  }

  /** The e-mail stored in the profile never reaches the user; the argument does. */
  lemma ProfileEmailIgnored(profile: ProfileRecord, stored: Nullable<string>, email: string)
    ensures MapProfileToUser(profile.(email := stored), email) == MapProfileToUser(profile, email)
  {
  }

  /** The mapped role stays within the declared `'user' | 'salon_owner'` only when
      the stored role does (or is missing): any other stored role passes through. */
  lemma MappedRoleDeclared(profile: ProfileRecord, email: string)
    ensures MapProfileToUser(profile, email).role in {"user", "salon_owner"} <==>
      (!TruthyString(profile.role) || profile.role.value in {"user", "salon_owner"})
  {
  }
}
