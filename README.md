# Profile editor: save validation, upload handlers and derived strings

This project models the logic in the profile-edit screen of a mobile client
(`app/edit-profile.tsx`). The screen does the following:

- It loads the signed-in user's row from the `users` table and seeds a local
  draft (full name, date of birth, picture URL) from it.
- It lets the user replace the profile picture through three handlers. These
  are the mobile image library, the mobile document picker and the web file
  input. Each handler stores the file in the `profile_pics` bucket at
  `<millis>.<ext>` and keeps the object's public URL as the new picture.
- It saves the draft after an ordered validation: both fields filled, then
  the date shaped `YYYY-MM-DD`, then a signed-in user. It then upserts the row
  and navigates home only if the upsert reports no error.

The model has four modules:

- `Wrappers` holds `Option`, standing in for a value that may be
  `undefined` or `null`.
- `JsString` models the JavaScript built-ins the screen uses:
  - `split` with a one-character separator, with its inverse `Join` and
    round trips in both directions;
  - `pop` on the segments;
  - `toLowerCase` on ASCII letters;
  - the decimal rendering of `Date.now()` in a template literal, with its
    round trip.
- `ProfileRules` holds the pure decisions:
  - JavaScript truthiness (`x || d`);
  - the date-shape check, written as the anchored pattern
    `^\d{4}-\d{2}-\d{2}$` with one character class per position;
  - username, file extension, storage path, content type and upload request;
  - the save decision `Save`, a function from the draft, the auth service's
    answer and the upsert's error to a `SaveResult`;
  - draft seeding from a loaded row.
- `ProfileScreen` holds the class `ProfileEditor`. Its fields are the
  component's state: `fullname`, `dateOfBirth`, `profilePic`, `uploading` and
  `userData`. Its methods are `fetchUserData`, the two text-field setters,
  `handleSave` and the three upload handlers.
  - A ghost field `uploadingLog` records every write to `uploading`. Each
    handler's contract states that it wrote `true` and then `false`, on every
    exit.
  - The network, pickers and clock are parameters: the picker result (an
    answer or a rejection), whether
    fetching the bytes failed, the storage response, the public-URL function
    and the timestamp.
  - Each handler returns the upload request it made, if any, and how it ended
    (`Cancelled`, `Failed(message)` or `Succeeded(url)`).

Consequences of the code as written that the model makes explicit:

- The date check is shape only. `"2020-99-99"` passes; `"2020-1-1"`,
  `"20200101"` and `""` fail (`DateShapeExamples`).
- The username falls back to `"user"` when the email is missing and also
  when the text before the first `@` is empty, as for `"@x.com"`.
- The extension is the text after the last `.` anywhere in the URI or name,
  not only in its final path component. For example, a URI `file:///d.x/img`
  has extension `x/img` (`FileExtensionIsLastSegment`, `FileExtensionOfDotted`).
- A loaded `profile_pic` of `""` becomes `null` in the draft (`SeedDraft`).

Details of the handlers that the model keeps:

- The document picker treats an empty asset list as the error
  "No file selected." (app/edit-profile.tsx:134-136). The image picker treats
  it as a cancel (app/edit-profile.tsx:74).
- Both pickers run inside the handler's `try`, so a picker that rejects ends
  in the `catch` with its message and then in the `finally`
  (app/edit-profile.tsx:66-71, 109-115, 124-126, 168-174). The picker result
  types carry that rejection as `ImagePickerFailed` and `DocumentPickerFailed`.
- The username default also applies to an empty local part such as `@x.com`,
  not only to a missing email (app/edit-profile.tsx:236).

## Model

| member | source | states |
|---|---|---|
| `JsString.Split` | app/edit-profile.tsx:90 | `split(".")` yields at least one segment and no segment contains the separator |
| `JsString.JoinSplit` | app/edit-profile.tsx:90 | joining the segments of a split with the separator gives back the original string |
| `JsString.SplitJoin` | app/edit-profile.tsx:149 | splitting separator-free segments joined by the separator gives back the segments |
| `JsString.SplitWithoutSeparator` | app/edit-profile.tsx:183 | a string without the separator splits into exactly itself |
| `JsString.SplitAtSeparator` | app/edit-profile.tsx:236 | the segments of `a + sep + b` are those of `a` followed by those of `b` |
| `JsString.SplitFirstIsPrefix` | app/edit-profile.tsx:236 | `split(c)[0]` is the prefix before the first `c`: it has no `c` and is followed by `c` or is the whole string |
| `JsString.SplitLastIsSuffix` | app/edit-profile.tsx:90 | `split(c).pop()` is the suffix after the last `c`: it has no `c` and is preceded by `c` or is the whole string |
| `JsString.ToLower` | app/edit-profile.tsx:90 | `toLowerCase` keeps the length and maps every character through ASCII lower-casing |
| `JsString.ToLowerResult` | app/edit-profile.tsx:149 | the lower-cased string has no upper-case ASCII letter and changes only upper-case letters |
| `JsString.ToLowerIdempotent` | app/edit-profile.tsx:183 | lower-casing twice equals lower-casing once |
| `JsString.ToLowerKeepsNonLetters` | app/edit-profile.tsx:90 | lower-casing neither adds nor removes a non-letter such as `.` |
| `JsString.Decimal` | app/edit-profile.tsx:91 | the timestamp's decimal text is non-empty, all ASCII digits, with no leading zero |
| `JsString.DecimalRoundTrip` | app/edit-profile.tsx:91 | reading the decimal text of the timestamp back gives the timestamp |
| `JsString.DecimalHasNoDot` | app/edit-profile.tsx:150 | the timestamp text never contains `.` |
| `ProfileRules.OrDefault` | app/edit-profile.tsx:96 | JavaScript's logical or of an optional string and a default is the string when present and non-empty, else the default |
| `ProfileRules.DateShapedParts` | app/edit-profile.tsx:219-220 | a string passing the date check has length 10 and is four digits, `-`, two digits, `-`, two digits |
| `ProfileRules.DateFromParts` | app/edit-profile.tsx:219-220 | every four digits, `-`, two digits, `-`, two digits passes the date check (converse of the above) |
| `ProfileRules.DateShapeExamples` | app/edit-profile.tsx:219-226 | `2020-99-99` and `1990-05-01` pass; `2020-1-1`, `20200101` and the empty string fail |
| `ProfileRules.Username` | app/edit-profile.tsx:236 | the username is never empty and is `"user"` when the email is absent |
| `ProfileRules.UsernameIsLocalPart` | app/edit-profile.tsx:236 | the username is the email's text before the first `@`, or `"user"` when that text is empty |
| `ProfileRules.UsernameOfAddress` | app/edit-profile.tsx:236 | for `local@domain` with non-empty `@`-free `local`, the username is `local` |
| `ProfileRules.FileExtension` | app/edit-profile.tsx:90 | the extension is never empty when the default is not |
| `ProfileRules.FileExtensionIsLastSegment` | app/edit-profile.tsx:183 | the extension is the lower-cased `.`-free suffix after the last `.` (or the whole name), and the default exactly when the name is empty or ends in `.` |
| `ProfileRules.FileExtensionOfDotted` | app/edit-profile.tsx:149 | a name `stem.ext` with non-empty `.`-free `ext` has extension `ext` lower-cased |
| `ProfileRules.StoragePathParts` | app/edit-profile.tsx:91 | the storage path splits at `.` into exactly the timestamp text and the extension, and the first part reads back as the timestamp |
| `ProfileRules.StoragePathKeepsExtension` | app/edit-profile.tsx:150 | the extension derived again from the storage path equals the extension it was built from |
| `ProfileRules.PngUriPath` | app/edit-profile.tsx:90-91 | an image URI ending in `.png` is stored at `<millis>.png` |
| `ProfileRules.ContentType` | app/edit-profile.tsx:155 | the content type is the source MIME type when it is present and non-empty, and the default otherwise |
| `ProfileRules.RequestFor` | app/edit-profile.tsx:93-97 | the upload targets bucket `profile_pics`, the path splits into the timestamp and the derived extension, and the content type is the source MIME type when present and non-empty, else the default |
| `ProfileRules.Save` | app/edit-profile.tsx:212-257 | the checks run in order (fields filled, date shape, signed-in user), each failure exactly characterised; success exactly when all pass and the upsert has no error; the row is the draft under the user's id, email and derived username |
| `ProfileRules.InvalidDraftTouchesNoBackend` | app/edit-profile.tsx:213-226 | a draft failing validation looks up no user and writes nothing, its outcome does not depend on the backend, and its alert is a validation message |
| `ProfileRules.NoUserNoWrite` | app/edit-profile.tsx:232-235 | with no signed-in user nothing is written, there is no navigation, and the alert is "User not authenticated" |
| `ProfileRules.NavigatesHomeIffWritten` | app/edit-profile.tsx:250-256 | navigation home happens exactly when a row was upserted and the upsert returned no error |
| `ProfileRules.JaneSaveExample` | app/edit-profile.tsx:236-248 | the draft Jane Doe / 1990-05-01 for user u1 with email jane@x.com writes username `jane` and the draft's picture |
| `ProfileRules.SeedDraft` | app/edit-profile.tsx:51-53 | missing or empty name and date seed as `""`; a missing or empty picture seeds as null; present values are kept |
| `ProfileRules.SeededPictureIsNeverEmpty` | app/edit-profile.tsx:53 | a seeded draft never holds an empty picture URL |
| `ProfileRules.LoadThenSaveWritesBack` | app/edit-profile.tsx:36-53 | loading a complete row and saving without edits writes the same name, date and picture back |
| `ProfileRules.LoadIncompleteThenSaveRefused` | app/edit-profile.tsx:51-52 | loading a row without name or date and saving without edits ends with "Please fill all fields" |
| `ProfileScreen.ProfileEditor.constructor` | app/edit-profile.tsx:19-23 | the screen starts with empty fields, no picture, not uploading and nothing loaded |
| `ProfileScreen.ProfileEditor.FetchUserData` | app/edit-profile.tsx:31-58 | without a user nothing changes; a lookup error gives its message and changes nothing; otherwise the row is kept and the draft is seeded from it |
| `ProfileScreen.ProfileEditor.SetFullname` | app/edit-profile.tsx:394 | the full-name field takes the typed value |
| `ProfileScreen.ProfileEditor.SetDateOfBirth` | app/edit-profile.tsx:429 | the date field takes the typed value |
| `ProfileScreen.ProfileEditor.HandleSave` | app/edit-profile.tsx:212-257 | the step-by-step handler with early returns ends exactly as the save decision `Save` on the current draft, and asks the auth service for the user exactly when the draft passes validation |
| `ProfileScreen.ProfileEditor.SetUploading` | app/edit-profile.tsx:63 | `uploading` takes the value, and the write is recorded |
| `ProfileScreen.ProfileEditor.FinishUpload` | app/edit-profile.tsx:99-108 | a stored upload sets the picture to the public URL of the stored path; a rejection fails with its message and keeps the picture |
| `ProfileScreen.ProfileEditor.UploadProfilePicMobileImg` | app/edit-profile.tsx:61-116 | `uploading` goes true then false on every exit; a rejected picker fails with its message and no upload; a cancel or empty asset list ends silently with no upload; a missing URI or failed fetch fails with no upload; otherwise the request is built from the URI and MIME type with defaults `jpeg` and `image/jpeg`; the picture changes only on success, to the public URL |
| `ProfileScreen.ProfileEditor.UploadProfilePicMobileGif` | app/edit-profile.tsx:119-175 | `uploading` goes true then false on every exit; a rejected picker fails with its message and no upload; only a cancel ends silently; an empty asset list fails with "No file selected."; a missing URI or failed fetch fails with no upload; otherwise the request is built from the file name and MIME type with defaults `gif` and `image/gif`; the picture changes only on success |
| `ProfileScreen.ProfileEditor.UploadProfilePicWeb` | app/edit-profile.tsx:178-209 | `uploading` goes true then false; the request is always made from the file's name and type with defaults `gif` and `image/gif`; the picture changes only on success, to the public URL |
| `ProfileScreen.LoadUploadSave` | app/edit-profile.tsx:31-257 | load a complete row, upload on the web, save: the save succeeds and writes the loaded name and date with the new public URL, or the loaded picture if storage rejected the file |

## Left out

- The session provider (`providers/AuthProvider.tsx`) is context and subscription wiring over the external auth service, and is not part of this model. The same goes for the colour table (`constants/Colors.ts`).
- The unauthenticated redirect to `/login`, the loading view and the JSX layout are rendering only. `Alert.alert` and `router.replace("/")` are modelled as values (`AlertOf`, `NavigatesHome`, `Exit`, the `FetchUserData` alert), not as effects.
- The backend and device calls are external I/O. Their answers are parameters: `auth.getUser`, the `users` select and upsert, storage `upload` and `getPublicUrl`, `fetch(...).arrayBuffer()`, and the two pickers. The uploaded bytes are not modelled, so an `UploadRequest` holds the bucket, path and content type only.
- `Date.now()` is the `now` parameter.
- Two overlapping handler calls can race on `uploading` and `profilePic`. That is asynchronous interleaving. Each method here runs to completion, so the model does not capture it.
- `JsString.ToLower` models `toLowerCase` on ASCII letters only. Non-ASCII case mapping is not modelled.
- The `instanceof Error` filter before an error alert only decides whether the alert is shown. Every `Failed` exit is reported with its message, and state is unaffected either way.
- A successful upload followed by a failed or abandoned save leaves the stored object orphaned. Storage contents are not modelled.
- `ProfileScreen.ProfileEditor.FetchUserData` does not model a missing row with no error. With `.single()` that case arrives as an error, so the response is either a row or an error message.
- The `console.log` calls on a cancelled picker (app/edit-profile.tsx:75, 130) only write to the debug console. A cancel is modelled as the `Cancelled` exit with no state change.
