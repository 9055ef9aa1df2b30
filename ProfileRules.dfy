/** The decisions and derived strings of the profile-edit screen, as pure
    functions: the date-of-birth shape check, the save decision, the username,
    file extension, storage path and content type of an upload, and the draft
    seeded from a loaded profile row. */
module ProfileRules {
  import opened Wrappers
  import opened JsString

  // ---------------------------------------------------------------------------
  // JavaScript truthiness of an optional string
  // ---------------------------------------------------------------------------

  /** A string value that is neither missing nor empty, i.e. truthy. */
  predicate Truthy(o: Option<string>) {
    o.Some? && o.value != ""
  }

  /** `o || d` for a value that is a string, `undefined` or `null`. */
  function OrDefault(o: Option<string>, d: string): (r: string)
    ensures Truthy(o) ==> r == o.value
    ensures !Truthy(o) ==> r == d
  {
    if Truthy(o) then o.value else d
  }

  // ---------------------------------------------------------------------------
  // Constants
  // ---------------------------------------------------------------------------

  const Bucket := "profile_pics"
  const ImageDefaultExtension := "jpeg"
  const ImageDefaultContentType := "image/jpeg"
  const FileDefaultExtension := "gif"
  const FileDefaultContentType := "image/gif"
  const DefaultUsername := "user"

  const MissingFieldsMessage := "Please fill all fields"
  const InvalidDateMessage := "Please enter a valid date in the format YYYY-MM-DD"
  const NotAuthenticatedMessage := "User not authenticated"
  const SavedMessage := "Profile updated successfully"

  // ---------------------------------------------------------------------------
  // Date of birth: the anchored pattern ^\d{4}-\d{2}-\d{2}$
  // ---------------------------------------------------------------------------

  /** One position of an anchored regular expression without repetition:
      `\d` (an ASCII digit) or a literal character. */
  datatype CharClass = Digit | Literal(c: char)

  predicate ClassMatches(k: CharClass, c: char) {
    match k
    case Digit => IsDigit(c)
    case Literal(l) => c == l
  }

  /** `^p$` matches `s`: one character per position, each in its class. */
  predicate MatchesWhole(s: string, p: seq<CharClass>) {
    |s| == |p| && forall i :: 0 <= i < |s| ==> ClassMatches(p[i], s[i])
  }

  /** `\d{4}-\d{2}-\d{2}` with each repetition written out. */
  const DatePattern: seq<CharClass> :=
    [Digit, Digit, Digit, Digit, Literal('-'), Digit, Digit, Literal('-'), Digit, Digit]

  /** The save-time date check. There is no range check on month or day. */
  predicate IsDateShaped(s: string) {
    MatchesWhole(s, DatePattern)
  }

  /** A date-shaped string is four digits, '-', two digits, '-', two digits. */
  lemma DateShapedParts(s: string)
    requires IsDateShaped(s)
    ensures |s| == 10
    ensures s == s[..4] + "-" + s[5..7] + "-" + s[8..]
    ensures AllDigits(s[..4]) && AllDigits(s[5..7]) && AllDigits(s[8..])
  {
  }

  /** Every four digits, '-', two digits, '-', two digits passes the check. */
  lemma DateFromParts(y: string, m: string, d: string)
    requires |y| == 4 && |m| == 2 && |d| == 2
    requires AllDigits(y) && AllDigits(m) && AllDigits(d)
    ensures IsDateShaped(y + "-" + m + "-" + d)
  {
  }

  /** The check looks at shape only: an impossible month and day pass,
      unpadded or unseparated dates fail. */
  lemma DateShapeExamples()
    ensures IsDateShaped("2020-99-99")
    ensures IsDateShaped("1990-05-01")
    ensures !IsDateShaped("2020-1-1")
    ensures !IsDateShaped("20200101")
    ensures !IsDateShaped("")
  {
  }

  // ---------------------------------------------------------------------------
  // Derived strings
  // ---------------------------------------------------------------------------

  /** `user.email?.split("@")[0] || "user"`. */
  function Username(email: Option<string>): (r: string)
    ensures r != ""
    ensures email.None? ==> r == DefaultUsername
  {
    var local := if email.Some? then Some(Split(email.value, '@')[0]) else None;
    OrDefault(local, DefaultUsername)
  }

  /** The username is the text before the first '@' of the email, or "user"
      when that text is empty. */
  lemma UsernameIsLocalPart(e: string)
    ensures e == "" || e[0] == '@' ==> Username(Some(e)) == DefaultUsername
    ensures e != "" && e[0] != '@' ==>
      var r := Username(Some(e));
      r <= e && '@' !in r && (r == e || e[|r|] == '@')
  {
    SplitFirstIsPrefix(e, '@');
  }

  /** For an address `local@domain` with a non-empty local part, the username
      is the local part, whatever the domain holds. */
  lemma UsernameOfAddress(local: string, domain: string)
    requires local != "" && '@' !in local
    ensures Username(Some(local + "@" + domain)) == local
  {
    SplitAtSeparator(local, '@', domain);
    SplitWithoutSeparator(local, '@');
  }

  /** `name.split(".").pop()?.toLowerCase() || dflt`. */
  function FileExtension(name: string, dflt: string): (r: string)
    ensures dflt != "" ==> r != ""
  {
    var ext := ToLower(Last(Split(name, '.')));
    if ext == "" then dflt else ext
  }

  /** The extension is the lower-cased text after the last '.', or all of the
      lower-cased name when it has no '.'; the default is used exactly when that
      text is empty. */
  lemma FileExtensionIsLastSegment(name: string, dflt: string)
    ensures name == "" || name[|name| - 1] == '.' ==> FileExtension(name, dflt) == dflt
    ensures name != "" && name[|name| - 1] != '.' ==>
      var r := FileExtension(name, dflt);
      1 <= |r| <= |name| && r == ToLower(name[|name| - |r|..]) && '.' !in r &&
      (|r| == |name| || name[|name| - |r| - 1] == '.')
  {
    var last := Last(Split(name, '.'));
    SplitLastIsSuffix(name, '.');
    ToLowerKeepsNonLetters(last, '.');
  }

  /** A name ending in `.ext` has extension `ext`, lower-cased. */
  lemma FileExtensionOfDotted(stem: string, ext: string, dflt: string)
    requires ext != "" && '.' !in ext
    ensures FileExtension(stem + "." + ext, dflt) == ToLower(ext)
  {
    SplitAtSeparator(stem, '.', ext);
    SplitWithoutSeparator(ext, '.');
  }

  /** `${Date.now()}.${fileExt}`. */
  function StoragePath(now: nat, ext: string): string {
    Decimal(now) + "." + ext
  }

  /** A storage path splits back into the timestamp, which reads back as the
      number it was made from, and the extension. */
  lemma StoragePathParts(now: nat, ext: string)
    requires '.' !in ext
    ensures Split(StoragePath(now, ext), '.') == [Decimal(now), ext]
    ensures DecimalValue(Split(StoragePath(now, ext), '.')[0]) == now
  {
    DecimalHasNoDot(now);
    SplitAtSeparator(Decimal(now), '.', ext);
    SplitWithoutSeparator(Decimal(now), '.');
    SplitWithoutSeparator(ext, '.');
    DecimalRoundTrip(now);
  }

  /** Deriving the extension again from the storage path gives the same
      extension: the stored object keeps the type its name promised. */
  lemma StoragePathKeepsExtension(now: nat, name: string, dflt: string, dflt2: string)
    requires dflt != "" && '.' !in dflt && ToLower(dflt) == dflt
    ensures FileExtension(StoragePath(now, FileExtension(name, dflt)), dflt2) == FileExtension(name, dflt)
  {
    var ext := FileExtension(name, dflt);
    var last := Last(Split(name, '.'));
    ToLowerKeepsNonLetters(last, '.');
    ToLowerIdempotent(last);
    FileExtensionOfDotted(Decimal(now), ext, dflt2);
  }

  /** A picked image whose URI ends in ".png", such as "file:///a.png", is
      stored at `<millis>.png`. */
  lemma PngUriPath(now: nat, stem: string)
    ensures StoragePath(now, FileExtension(stem + ".png", ImageDefaultExtension)) == Decimal(now) + ".png"
  {
    assert stem + ".png" == stem + "." + "png";
    FileExtensionOfDotted(stem, "png", ImageDefaultExtension);
    assert ToLower("png") == "png";
  }

  /** `mimeType || dflt`: the source's MIME type when it is given and not empty. */
  function ContentType(mime: Option<string>, dflt: string): (r: string)
    ensures dflt != "" ==> r != ""
    ensures Truthy(mime) ==> r == mime.value
    ensures !Truthy(mime) ==> r == dflt
  {
    OrDefault(mime, dflt)
  }

  /** The one call to object storage an upload makes: the bucket, the path
      and the content type of the payload. */
  datatype UploadRequest = UploadRequest(bucket: string, path: string, contentType: string)

  /** The request built from a source name (a URI or a file name) and MIME type. */
  function RequestFor(name: string, mime: Option<string>, defaultExt: string,
                      defaultType: string, now: nat): (req: UploadRequest)
    requires defaultExt != "" && '.' !in defaultExt
    ensures req.bucket == Bucket
    ensures req.contentType == ContentType(mime, defaultType)
    ensures Split(req.path, '.') == [Decimal(now), FileExtension(name, defaultExt)]
  {
    var ext := FileExtension(name, defaultExt);
    ToLowerKeepsNonLetters(Last(Split(name, '.')), '.');
    StoragePathParts(now, ext);
    UploadRequest(Bucket, StoragePath(now, ext), ContentType(mime, defaultType))
  }

  // ---------------------------------------------------------------------------
  // Saving the draft
  // ---------------------------------------------------------------------------

  /** The editor's local, unsaved copy of the profile. */
  datatype Draft = Draft(fullname: string, dateOfBirth: string, profilePic: Option<string>)

  /** The authenticated user as the auth service reports it. */
  datatype User = User(id: string, email: Option<string>)

  /** The row written to the `users` table, keyed by `id`. */
  datatype ProfileRow = ProfileRow(id: string, username: string, email: Option<string>,
                                   fullname: string, profilePic: Option<string>,
                                   dateOfBirth: string)

  /** How a save attempt ends. */
  datatype SaveResult =
    | MissingFields
    | InvalidDate
    | NotAuthenticated
    | UpsertFailed(row: ProfileRow, message: string)
    | Saved(row: ProfileRow)

  /** The client-side checks a draft must pass before anything is sent. */
  predicate DraftIsValid(d: Draft) {
    d.fullname != "" && d.dateOfBirth != "" && IsDateShaped(d.dateOfBirth)
  }

  /** `handleSave`: check the fields are filled, then the date shape, then
      that a user is signed in; then upsert the row, whose error (if any) is
      `upsertError`. */
  function Save(d: Draft, user: Option<User>, upsertError: Option<string>): (r: SaveResult)
    ensures r.MissingFields? <==> d.fullname == "" || d.dateOfBirth == ""
    ensures r.InvalidDate? <==> d.fullname != "" && d.dateOfBirth != "" && !IsDateShaped(d.dateOfBirth)
    ensures r.NotAuthenticated? <==> DraftIsValid(d) && user.None?
    ensures r.Saved? <==> DraftIsValid(d) && user.Some? && upsertError.None?
    ensures r.UpsertFailed? ==> upsertError == Some(r.message)
    ensures (r.Saved? || r.UpsertFailed?) ==>
      user.Some? &&
      r.row.id == user.value.id && r.row.email == user.value.email &&
      r.row.username == Username(user.value.email) &&
      r.row.fullname == d.fullname && r.row.dateOfBirth == d.dateOfBirth &&
      r.row.profilePic == d.profilePic
  {
    if d.fullname == "" || d.dateOfBirth == "" then MissingFields
    else if !IsDateShaped(d.dateOfBirth) then InvalidDate
    else if user.None? then NotAuthenticated
    else
      var u := user.value;
      var row := ProfileRow(u.id, Username(u.email), u.email, d.fullname, d.profilePic, d.dateOfBirth);
      if upsertError.Some? then UpsertFailed(row, upsertError.value) else Saved(row)
  }

  /** Whether the attempt got as far as asking the auth service for the user,
      read off how it ended. This is true by the shape of `SaveResult`; that an
      invalid draft never consults the backend is shown by the outcome not
      depending on the backend's answers (`InvalidDraftTouchesNoBackend`) and by
      the `askedAuth` result of `ProfileEditor.HandleSave`. */
  predicate LooksUpUser(r: SaveResult) {
    !(r.MissingFields? || r.InvalidDate?)
  }

  /** The row the attempt upserted, if it got that far. */
  function Upserted(r: SaveResult): Option<ProfileRow> {
    if r.Saved? || r.UpsertFailed? then Some(r.row) else None
  }

  /** The alert shown at the end of the attempt: title and message. */
  function AlertOf(r: SaveResult): (string, string) {
    match r
    case MissingFields => ("Error", MissingFieldsMessage)
    case InvalidDate => ("Error", InvalidDateMessage)
    case NotAuthenticated => ("Error", NotAuthenticatedMessage)
    case UpsertFailed(_, m) => ("Error", m)
    case Saved(_) => ("Success", SavedMessage)
  }

  /** Whether the attempt navigates to the home route `/`. */
  predicate NavigatesHome(r: SaveResult) {
    r.Saved?
  }

  /** A draft that fails validation neither looks up the user nor writes, and
      its outcome does not depend on what the backend would have answered. */
  lemma InvalidDraftTouchesNoBackend(d: Draft, u1: Option<User>, e1: Option<string>,
                                     u2: Option<User>, e2: Option<string>)
    requires !DraftIsValid(d)
    ensures !LooksUpUser(Save(d, u1, e1)) && Upserted(Save(d, u1, e1)).None?
    ensures Save(d, u1, e1) == Save(d, u2, e2)
    ensures AlertOf(Save(d, u1, e1)).1 in {MissingFieldsMessage, InvalidDateMessage}
  {
  }

  /** Without a signed-in user nothing is written and the screen stays put. */
  lemma NoUserNoWrite(d: Draft, e: Option<string>)
    requires DraftIsValid(d)
    ensures Upserted(Save(d, None, e)).None? && !NavigatesHome(Save(d, None, e))
    ensures AlertOf(Save(d, None, e)) == ("Error", NotAuthenticatedMessage)
  {
  }

  /** Navigation home happens exactly when a valid draft was upserted without
      error, and then the written row is the draft under the user's id. */
  lemma NavigatesHomeIffWritten(d: Draft, user: Option<User>, e: Option<string>)
    ensures NavigatesHome(Save(d, user, e)) <==> Upserted(Save(d, user, e)).Some? && e.None?
  {
  }

  /** The example of a successful save: Jane Doe, born 1990-05-01, signed in as
      u1 with email jane@x.com, is written with username "jane". */
  lemma JaneSaveExample(pic: Option<string>)
    ensures Save(Draft("Jane Doe", "1990-05-01", pic), Some(User("u1", Some("jane@x.com"))), None)
         == Saved(ProfileRow("u1", "jane", Some("jane@x.com"), "Jane Doe", pic, "1990-05-01"))
  {
  }

  // ---------------------------------------------------------------------------
  // Seeding the draft from a loaded row
  // ---------------------------------------------------------------------------

  /** A row of the `users` table as loaded: every column except `id` may be null. */
  datatype StoredRow = StoredRow(id: string, username: Option<string>, email: Option<string>,
                                 fullname: Option<string>, profilePic: Option<string>,
                                 dateOfBirth: Option<string>)

  /** `fullname || ""`, `date_of_birth || ""`, `profile_pic || null`. */
  function SeedDraft(row: StoredRow): (d: Draft)
    ensures Truthy(row.fullname) ==> d.fullname == row.fullname.value
    ensures !Truthy(row.fullname) ==> d.fullname == ""
    ensures Truthy(row.dateOfBirth) ==> d.dateOfBirth == row.dateOfBirth.value
    ensures !Truthy(row.dateOfBirth) ==> d.dateOfBirth == ""
    ensures Truthy(row.profilePic) ==> d.profilePic == row.profilePic
    ensures !Truthy(row.profilePic) ==> d.profilePic.None?
  {
    Draft(OrDefault(row.fullname, ""), OrDefault(row.dateOfBirth, ""),
          if Truthy(row.profilePic) then row.profilePic else None)
  }

  /** A seeded draft never holds an empty picture URL. */
  lemma SeededPictureIsNeverEmpty(row: StoredRow)
    ensures SeedDraft(row).profilePic != Some("")
  {
  }

  /** Loading a complete row and saving it unchanged writes the same name,
      date and picture back, under the signed-in user's id and email. */
  lemma LoadThenSaveWritesBack(row: StoredRow, u: User)
    requires Truthy(row.fullname) && Truthy(row.dateOfBirth)
    requires IsDateShaped(row.dateOfBirth.value)
    requires row.profilePic != Some("")
    ensures Save(SeedDraft(row), Some(u), None) ==
      Saved(ProfileRow(u.id, Username(u.email), u.email, row.fullname.value,
                       row.profilePic, row.dateOfBirth.value))
  {
  }

  /** Loading a row with a missing name or date and saving without edits is
      refused before any write. */
  lemma LoadIncompleteThenSaveRefused(row: StoredRow, user: Option<User>, e: Option<string>)
    requires !Truthy(row.fullname) || !Truthy(row.dateOfBirth)
    ensures Save(SeedDraft(row), user, e) == MissingFields
  {
  }
}
