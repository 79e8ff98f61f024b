/** The profile panel (src/components/dashboard/ProfileSection.tsx): the user's profile
    row, the full-name edit buffer, the avatar upload and the path it is stored under.
    Each asynchronous handler is one atomic step whose remote calls are replaced by the
    outcomes it receives. */
module Profiles {
  import opened Common
  import opened Text

  /** A row of the `profiles` table. */
  datatype Profile = Profile(id: string, fullName: Option<string>, avatarUrl: Option<string>)

  /** An error reported by the query layer: its code and its message. */
  datatype DbError = DbError(code: string, message: string)

  /** The `{ data, error }` answer to the single-row profile query. */
  datatype SelectResponse = SelectResponse(data: Option<Profile>, error: Option<DbError>)

  /** The row inserted when the user has no profile yet. */
  datatype ProfileInsert = ProfileInsert(id: string, fullName: string)

  /** The code the query layer reports when a single-row query matched no row. */
  const NoRowsCode := "PGRST116"

  const NoFileMessage := "You must select an image to upload."

  const AnonymousName := "Anonymous User"

  /** The profile query failed for a reason other than "no row". */
  predicate SelectFails(resp: SelectResponse) {
    resp.error.Some? && resp.error.value.code != NoRowsCode
  }

  /** `profile.full_name || ''`: what the name field shows for a committed profile. */
  function DraftOf(p: Profile): string {
    OrEmpty(p.fullName)
  }

  /** `profile?.full_name || ''`, as the Cancel button reads it. */
  function CommittedName(profile: Option<Profile>): (r: string)
    ensures r == "" <==> profile.None? || profile.value.fullName in {None, Some("")}
    ensures r != "" ==> profile.value.fullName == Some(r)
  {
    match profile
    case None => ""
    case Some(p) => DraftOf(p)
  }

  /** `prev ? { ...prev, full_name: name } : null`. */
  function WithFullName(prev: Option<Profile>, name: string): (r: Option<Profile>)
    ensures r.None? <==> prev.None?
    ensures r.Some? ==> r.value.fullName == Some(name) && DraftOf(r.value) == name
    ensures r.Some? ==> r.value.id == prev.value.id && r.value.avatarUrl == prev.value.avatarUrl
  {
    match prev
    case None => None
    case Some(p) => Some(p.(fullName := Some(name)))
  }

  /** `prev ? { ...prev, avatar_url: url } : null`. */
  function WithAvatar(prev: Option<Profile>, url: string): (r: Option<Profile>)
    ensures r.None? <==> prev.None?
    ensures r.Some? ==> r.value.avatarUrl == Some(url)
    ensures r.Some? ==> r.value.id == prev.value.id && r.value.fullName == prev.value.fullName
  {
    match prev
    case None => None
    case Some(p) => Some(p.(avatarUrl := Some(url)))
  }

  /** The heading `profile?.full_name || 'Anonymous User'`: never empty; it is the name the
      field shows for the committed profile, or the fallback when that is empty. */
  function DisplayName(profile: Option<Profile>): (r: string)
    ensures r != ""
    ensures r == (if CommittedName(profile) == "" then AnonymousName else CommittedName(profile))
  {
    match profile
    case None => AnonymousName
    case Some(p) =>
      match p.fullName
      case None => AnonymousName
      case Some(name) => if name == "" then AnonymousName else name
  }

  /** `file.name.split('.').pop()`: the text after the last dot, or the whole name when
      there is no dot. It holds no dot and ends the name, right after a dot if any. */
  function FileExt(name: string): (ext: string)
    ensures '.' !in ext
    ensures |ext| <= |name| && name[|name| - |ext|..] == ext
    ensures '.' !in name ==> ext == name
    ensures '.' in name ==> |ext| < |name| && name[|name| - |ext| - 1] == '.'
  {
    var parts := Split(name, '.');
    var ext := Last(parts);
    assert '.' !in ext;
    if |parts| >= 2 then
      var front := Join(parts[..|parts| - 1], '.');
      assert name == front + ['.'] + ext by {
        JoinSplit(name, '.');
        JoinLast(parts, '.');
      }
      assert name[|name| - |ext|..] == ext;
      ext
    else
      assert parts == [name] by { JoinSplit(name, '.'); }
      ext
  }

  /** `${user.id}/avatar.${fileExt}`: the storage path of the user's avatar, inside the
      user's folder, under the name `avatar.` followed by a dot-free extension. */
  function AvatarPath(userId: string, fileName: string): (p: string)
    ensures |p| >= |userId| + 8 && p[..|userId| + 1] == userId + "/"
    ensures p[|userId| + 1..|userId| + 8] == "avatar." && '.' !in p[|userId| + 8..]
  {
    var ext := FileExt(fileName);
    var p := userId + "/avatar." + ext;
    assert |"/avatar."| == 8;
    assert p[..|userId| + 1] == userId + "/";
    assert p[|userId| + 1..|userId| + 8] == "avatar.";
    assert p[|userId| + 8..] == ext;
    p
  }

  /** The avatar lands in the user's own folder, and the stored path has the extension of
      the uploaded file, whatever dots the user id holds. */
  lemma AvatarPathShape(userId: string, fileName: string)
    ensures AvatarPath(userId, fileName)[..|userId| + 1] == userId + "/"
    ensures FileExt(AvatarPath(userId, fileName)) == FileExt(fileName)
  {
    var ext := FileExt(fileName);
    var front := userId + "/avatar";
    assert AvatarPath(userId, fileName) == front + ['.'] + ext;
    SplitAround(front, ext, '.');
    assert Split(ext, '.') == [ext];
  }

  class ProfileSection {
    const userId: string
    /** `user.user_metadata.full_name`, as the sign-up form stored it. */
    const metadataName: Option<string>
    var profile: Option<Profile>
    var loading: bool
    var editing: bool
    /** The full-name edit buffer bound to the name input. */
    var fullName: string
    var uploading: bool
    var error: string

    /** Outside edit mode the name field shows the committed name of a loaded profile. */
    predicate DraftInSync()
      reads this
    {
      !editing && profile.Some? ==> fullName == DraftOf(profile.value)
    }

    /** The initial state of the component's `useState` hooks for a signed-in user. */
    constructor (userId: string, metadataName: Option<string>)
      ensures this.userId == userId && this.metadataName == metadataName
      ensures profile == None && loading && !editing && fullName == "" && !uploading && error == ""
      ensures DraftInSync()
    {
      this.userId, this.metadataName := userId, metadataName;
      profile, loading, editing, fullName, uploading, error := None, true, false, "", false, "";
    }

    /** `fetchProfile`. A failed query (other than "no row") records its message. A found
        row is adopted with its name in the field. Otherwise a row with the user's id and
        sign-up name (or '') is inserted and, if that succeeds, adopted the same way; if it
        fails its message is recorded. Loading ends in every case. */
    method FetchProfile(select: SelectResponse, insert: Result<Profile>) returns (sent: Option<ProfileInsert>)
      modifies this`profile, this`fullName, this`loading, this`error
      ensures !loading
      ensures old(DraftInSync()) ==> DraftInSync()
      ensures SelectFails(select) ==>
                && sent == None && profile == old(profile) && fullName == old(fullName)
                && error == select.error.value.message
      ensures !SelectFails(select) && select.data.Some? ==>
                && sent == None && profile == select.data
                && fullName == DraftOf(select.data.value) && error == old(error)
      ensures !SelectFails(select) && select.data.None? ==>
                sent == Some(ProfileInsert(userId, OrEmpty(metadataName)))
      ensures !SelectFails(select) && select.data.None? && insert.Ok? ==>
                profile == Some(insert.value) && fullName == DraftOf(insert.value) && error == old(error)
      ensures !SelectFails(select) && select.data.None? && insert.Err? ==>
                profile == old(profile) && fullName == old(fullName) && error == insert.msg
    {
      sent := None;
      if SelectFails(select) {
        error := select.error.value.message;
      } else if select.data.Some? {
        profile := select.data;
        fullName := DraftOf(select.data.value);
      } else {
        sent := Some(ProfileInsert(userId, OrEmpty(metadataName)));
        match insert {
          case Ok(row) =>
            profile := Some(row);
            fullName := DraftOf(row);
          case Err(msg) =>
            error := msg;
        }
      }
      loading := false;
    }

    /** `updateProfile`: sends the buffer as the new full name. On success the loaded
        profile (if any) takes it, nothing else of the profile changes, and edit mode ends;
        on failure profile, edit mode and buffer stay and the message is recorded. Loading
        is set for the call and cleared after it. */
    method UpdateProfile(outcome: Status) returns (sentName: string)
      modifies this`profile, this`editing, this`loading, this`error
      ensures sentName == fullName
      ensures !loading
      ensures old(DraftInSync()) ==> DraftInSync()
      ensures outcome.Success? ==>
                profile == WithFullName(old(profile), fullName) && !editing && error == old(error)
      ensures outcome.Failure? ==>
                profile == old(profile) && editing == old(editing) && error == outcome.msg
    {
      loading := true;
      sentName := fullName;
      match outcome {
        case Success =>
          profile := WithFullName(profile, fullName);
          editing := false;
        case Failure(msg) =>
          error := msg;
      }
      loading := false;
    }

    /** `uploadAvatar`. With no file it fails before uploading anything. Otherwise the
        first file goes to the avatar path; if the upload succeeds, that path's public URL
        is written to the profile row, and if that succeeds too the loaded profile takes
        the URL as its only change. Every failure leaves the profile and records the
        message; `uploading` is false afterwards. */
    method UploadAvatar(files: seq<string>, upload: Status, publicUrl: string -> string, update: Status)
      returns (path: Option<string>, url: Option<string>)
      modifies this`profile, this`uploading, this`error
      ensures !uploading
      ensures old(DraftInSync()) ==> DraftInSync()
      ensures files == [] ==> path == None && url == None && profile == old(profile) && error == NoFileMessage
      ensures files != [] ==> path == Some(AvatarPath(userId, files[0]))
      ensures files != [] ==> (url.Some? <==> upload.Success?)
      ensures url.Some? ==> url.value == publicUrl(path.value)
      ensures files != [] && upload.Failure? ==> profile == old(profile) && error == upload.msg
      ensures url.Some? && update.Failure? ==> profile == old(profile) && error == update.msg
      ensures url.Some? && update.Success? ==>
                profile == WithAvatar(old(profile), url.value) && error == old(error)
    {
      uploading := true;
      path, url := None, None;
      if files == [] {
        error := NoFileMessage;
      } else {
        path := Some(AvatarPath(userId, files[0]));
        match upload {
          case Failure(msg) =>
            error := msg;
          case Success =>
            url := Some(publicUrl(path.value));
            match update {
              case Failure(msg) =>
                error := msg;
              case Success =>
                profile := WithAvatar(profile, url.value);
            }
        }
      }
      uploading := false;
    }

    /** The Edit button: only enters edit mode; the buffer already holds the name. */
    method BeginEdit()
      modifies this`editing
      ensures editing
    {
      editing := true;
    }

    /** The Cancel button: leaves edit mode and puts the committed name back in the field. */
    method CancelEdit()
      modifies this`editing, this`fullName
      ensures !editing && fullName == CommittedName(profile)
      ensures DraftInSync()
    {
      editing := false;
      fullName := CommittedName(profile);
    }

    /** Typing in the name field, which is enabled only in edit mode. */
    method SetFullName(name: string)
      requires editing
      modifies this`fullName
      ensures fullName == name
      ensures DraftInSync()
    {
      fullName := name;
    }
  }

  /** Signing in with no profile row: the query answers "no row", a profile with the
      sign-up name is created, and after an edit that is cancelled the heading still
      shows the sign-up name. The heading is the sign-up name only because the store's
      reply to the insert, chosen here, is the inserted row itself. */
  method FirstVisitScenario(userId: string, signUpName: string, typed: string)
    returns (sent: Option<ProfileInsert>, heading: string)
    requires signUpName != ""
    ensures sent == Some(ProfileInsert(userId, signUpName))
    ensures heading == signUpName
  {
    var section := new ProfileSection(userId, Some(signUpName));
    var noRow := SelectResponse(None, Some(DbError(NoRowsCode, "no rows")));
    sent := section.FetchProfile(noRow, Ok(Profile(userId, Some(signUpName), None)));
    section.BeginEdit();
    section.SetFullName(typed);
    section.CancelEdit();
    heading := DisplayName(section.profile);
  }
}
