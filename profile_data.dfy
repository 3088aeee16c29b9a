/** The profile hook's two mutations: renaming the signed-in user's profile
    row, and uploading an avatar image and then pointing the row at it. The
    backend is a map of profile rows and a set of stored object paths; each
    backend call's failure is an input. */
module ProfileData {
  import opened JsValues
  import opened JsStrings
  import opened AuthService

  // ------------------------------------------------------------ file paths

  /** `file.name.split('.').pop()`: the text after the last '.', or the whole
      name when it has none. */
  function FileExtension(name: string): (r: string)
    ensures '.' !in r
    ensures |r| <= |name| && r == name[|name| - |r|..]
    ensures '.' in name ==> |r| < |name| && name[|name| - |r| - 1] == '.'
    ensures '.' !in name ==> r == name
  {
    var pieces := Split(name, '.');
    SplitLast(name, '.');
    pieces[|pieces| - 1]
  }

  /** The extension of `base.ext` is `ext` whenever `ext` has no '.'. */
  lemma ExtensionOfDottedName(base: string, ext: string)
    requires '.' !in ext
    ensures FileExtension(base + "." + ext) == ext
  {
    var name := base + "." + ext;
    var r := FileExtension(name);
    assert name[|base|] == '.';
    if |r| > |ext| {
      assert false;
    } else if |r| < |ext| {
      assert false;
    }
    assert r == name[|name| - |ext|..] == ext;
  }

  /** `${user?.id}`: a missing id is written as "undefined". */
  function IdText(userId: Option<string>): string
  {
    if userId.Some? then userId.value else "undefined"
  }

  /** `${user?.id}/${crypto.randomUUID()}.${fileExt}`: a folder per user, a
      fresh name, the original extension. */
  function AvatarPath(userId: Option<string>, uuid: string, ext: string): (r: string)
    ensures IdText(userId) + "/" <= r
    ensures |r| > |ext| && r[|r| - |ext| - 1..] == "." + ext
  {
    var r := IdText(userId) + "/" + uuid + "." + ext;
    assert r[|r| - |ext| - 1..] == "." + ext;
    r
  }

  /** The folder of the path is the user's id, when the id has no '/'. */
  lemma AvatarPathFolder(userId: Option<string>, uuid: string, ext: string)
    requires '/' !in IdText(userId)
    ensures Split(AvatarPath(userId, uuid, ext), '/')[0] == IdText(userId)
  {
    var id := IdText(userId);
    var rest := uuid + "." + ext;
    assert AvatarPath(userId, uuid, ext) == id + ['/'] + rest;
    SplitAtSeparator(id, rest, '/');
  }

  /** The stored object keeps the uploaded file's extension. */
  lemma AvatarPathExtension(userId: Option<string>, uuid: string, fileName: string)
    ensures FileExtension(AvatarPath(userId, uuid, FileExtension(fileName))) == FileExtension(fileName)
  {
    var ext := FileExtension(fileName);
    var base := IdText(userId) + "/" + uuid;
    assert AvatarPath(userId, uuid, ext) == base + "." + ext;
    ExtensionOfDottedName(base, ext);
  }

  // ------------------------------------------------------------ backend state

  /** `update({ full_name }).eq('id', user?.id)`: the matching row, if any,
      gets the new name; no row matches a missing id. */
  function WithFullName(rows: map<string, ProfileRecord>, userId: Option<string>, name: string): map<string, ProfileRecord>
  {
    if userId.Some? && userId.value in rows then rows[userId.value := rows[userId.value].(fullName := Defined(name))]
    else rows
  }

  /** `update({ avatar_url }).eq('id', user?.id)` */
  function WithAvatarUrl(rows: map<string, ProfileRecord>, userId: Option<string>, url: string): map<string, ProfileRecord>
  {
    if userId.Some? && userId.value in rows then rows[userId.value := rows[userId.value].(avatarUrl := Defined(url))]
    else rows
  }

  /** A rename touches only the signed-in user's row and, in it, only the name. */
  lemma WithFullNameOnlyName(rows: map<string, ProfileRecord>, userId: Option<string>, name: string)
    ensures WithFullName(rows, userId, name).Keys == rows.Keys
    ensures forall key :: key in rows && Some(key) != userId ==> WithFullName(rows, userId, name)[key] == rows[key]
    ensures forall key :: key in rows && Some(key) == userId ==>
      WithFullName(rows, userId, name)[key] == rows[key].(fullName := Defined(name))
    ensures userId.Some? && userId.value in rows ==>
      WithFullName(rows, userId, name)[userId.value].fullName == Defined(name)
  {
  }

  /** Setting the avatar touches only the signed-in user's row and, in it, only
      the avatar address. */
  lemma WithAvatarUrlOnlyAvatar(rows: map<string, ProfileRecord>, userId: Option<string>, url: string)
    ensures WithAvatarUrl(rows, userId, url).Keys == rows.Keys
    ensures forall key :: key in rows && Some(key) != userId ==> WithAvatarUrl(rows, userId, url)[key] == rows[key]
    ensures forall key :: key in rows && Some(key) == userId ==>
      WithAvatarUrl(rows, userId, url)[key] == rows[key].(avatarUrl := Defined(url))
  {
  }

  /** The `profiles` table and the `avatars` storage bucket. */
  class ProfileStore {
    var rows: map<string, ProfileRecord>
    var objects: set<string>

    constructor (rows0: map<string, ProfileRecord>)
      ensures rows == rows0 && objects == {}
    {
      rows, objects := rows0, {};
    }

    /** `updateProfileMutation`'s `mutationFn`: the update either fails with
        the backend's error and changes nothing, or renames the row. */
    method UpdateName(userId: Option<string>, fullName: string, updateError: Option<string>)
      returns (r: Result<()>)
      modifies this
      ensures updateError.Some? ==> r == Err(updateError.value) && rows == old(rows)
      ensures updateError.None? ==> r == Ok(()) && rows == WithFullName(old(rows), userId, fullName)
      ensures objects == old(objects)
    {
      if updateError.Some? {
        return Err(updateError.value);
      }
      rows := WithFullName(rows, userId, fullName);
      return Ok(());
    }

    /** `uploadAvatarMutation`'s `mutationFn`: upload to the per-user path;
        on failure stop before the row is touched. Otherwise take the public
        address of the stored object and write it into the row; that write
        may fail in turn, leaving the uploaded object in place. */
    method UploadAvatar(userId: Option<string>, fileName: string, uuid: string,
                        publicUrl: string -> string,
                        uploadError: Option<string>, updateError: Option<string>)
      returns (r: Result<string>)
      modifies this
      ensures uploadError.Some? ==>
        r == Err(uploadError.value) && rows == old(rows) && objects == old(objects)
      ensures uploadError.None? ==>
        objects == old(objects) + {AvatarPath(userId, uuid, FileExtension(fileName))}
      ensures uploadError.None? && updateError.Some? ==>
        r == Err(updateError.value) && rows == old(rows)
      ensures uploadError.None? && updateError.None? ==>
        var url := publicUrl(AvatarPath(userId, uuid, FileExtension(fileName)));
        r == Ok(url) && rows == WithAvatarUrl(old(rows), userId, url)
      ensures rows != old(rows) ==> uploadError.None? && updateError.None?
    {
      var ext := FileExtension(fileName);
      var path := AvatarPath(userId, uuid, ext);
      if uploadError.Some? {
        return Err(uploadError.value);
      }
      objects := objects + {path};
      var url := publicUrl(path);
      if updateError.Some? {
        return Err(updateError.value);
      }
      rows := WithAvatarUrl(rows, userId, url);
      return Ok(url);
    }
  }
}
