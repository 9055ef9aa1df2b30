/** The profile-edit screen's state and its event handlers. What the backend,
    the pickers and the clock answer is passed in; what the screen asks of the
    backend and how it ends is returned. */
module ProfileScreen {
  import opened Wrappers
  import opened ProfileRules

  /** What the profile lookup answered: the row, or an error message. */
  datatype RowResponse = RowFound(row: StoredRow) | RowError(message: string)

  /** One asset chosen in the image library. */
  datatype ImageAsset = ImageAsset(uri: Option<string>, mimeType: Option<string>)

  /** The image library picker's answer, or the message it was rejected with. */
  datatype ImagePickerResult =
    | ImagePicked(canceled: bool, assets: Option<seq<ImageAsset>>)
    | ImagePickerFailed(message: string)

  /** One file chosen in the document picker. */
  datatype DocumentAsset = DocumentAsset(uri: Option<string>, name: string, mimeType: Option<string>)

  /** The document picker's answer, or the message it was rejected with. */
  datatype DocumentPickerResult =
    | DocumentPicked(canceled: bool, assets: Option<seq<DocumentAsset>>)
    | DocumentPickerFailed(message: string)

  /** A file chosen through the web page's file input; `mimeType` is "" when
      the browser does not know it. */
  datatype WebFile = WebFile(name: string, mimeType: string)

  /** Whether reading the picked file's bytes from its URI succeeded. */
  datatype FetchResult = Fetched | FetchFailed(message: string)

  /** Object storage's answer to an upload: the stored path, or a rejection. */
  datatype UploadResponse = Stored(path: string) | Rejected(message: string)

  /** How an upload handler ends: silently, with an error alert, or with a new
      picture URL. */
  datatype Exit = Cancelled | Failed(message: string) | Succeeded(url: string)

  const NoImageUriMessage := "No image URI found."
  const NoFileSelectedMessage := "No file selected."
  const NoFileUriMessage := "No file URI found."

  /** The image picker answered with at least one asset. */
  predicate ImagePickSelected(pick: ImagePickerResult) {
    pick.ImagePicked? && !pick.canceled && pick.assets.Some? && |pick.assets.value| > 0
  }

  /** The image picker answered, but was cancelled or returned no asset: the
      handler ends silently. */
  predicate ImagePickCancelled(pick: ImagePickerResult) {
    pick.ImagePicked? && !ImagePickSelected(pick)
  }

  /** The document picker answered with at least one file. It ends silently
      only when cancelled; an empty answer is an error. */
  predicate DocumentPickSelected(pick: DocumentPickerResult) {
    pick.DocumentPicked? && !pick.canceled && pick.assets.Some? && |pick.assets.value| > 0
  }

  class ProfileEditor {
    var fullname: string
    var dateOfBirth: string
    var profilePic: Option<string>
    var uploading: bool
    /** The loaded row; while it is absent the screen shows "Loading...". */
    var userData: Option<StoredRow>
    /** Every value written to `uploading`, oldest first. */
    ghost var uploadingLog: seq<bool>

    /** The draft as `handleSave` sees it. */
    function CurrentDraft(): Draft
      reads this
    {
      ProfileRules.Draft(fullname, dateOfBirth, profilePic)
    }

    constructor ()
      ensures fullname == "" && dateOfBirth == "" && profilePic == None
      ensures !uploading && userData == None && uploadingLog == []
    {
      fullname, dateOfBirth, profilePic := "", "", None;
      uploading, userData := false, None;
      uploadingLog := [];
    }

    /** `fetchUserData`: with a signed-in user, load that user's row and seed
        the draft from it; a lookup error is reported and changes nothing. */
    method FetchUserData(user: Option<User>, response: RowResponse) returns (alert: Option<string>)
      modifies this`userData, this`fullname, this`dateOfBirth, this`profilePic
      ensures user.None? ==> alert.None? && unchanged(this)
      ensures user.Some? && response.RowError? ==> alert == Some(response.message) && unchanged(this)
      ensures user.Some? && response.RowFound? ==>
        alert.None? && userData == Some(response.row) && CurrentDraft() == SeedDraft(response.row)
    {
      alert := None;
      if user.Some? {
        if response.RowError? {
          alert := Some(response.message);
          return;
        }
        var data := response.row;
        userData := Some(data);
        fullname := OrDefault(data.fullname, "");
        dateOfBirth := OrDefault(data.dateOfBirth, "");
        profilePic := if Truthy(data.profilePic) then data.profilePic else None;
      }
    }

    /** The full-name text field's change handler. */
    method SetFullname(value: string)
      modifies this`fullname
      ensures fullname == value
    {
      fullname := value;
    }

    /** The date-of-birth text field's change handler. */
    method SetDateOfBirth(value: string)
      modifies this`dateOfBirth
      ensures dateOfBirth == value
    {
      dateOfBirth := value;
    }

    /** `handleSave`, step by step: the auth service's answer is `user`, the
        upsert's error (if any) is `upsertError`. `askedAuth` tells whether the
        handler got as far as asking the auth service for the user. The screen
        state is only read. */
    method HandleSave(user: Option<User>, upsertError: Option<string>)
      returns (r: SaveResult, askedAuth: bool)
      ensures r == Save(CurrentDraft(), user, upsertError)
      ensures askedAuth <==> DraftIsValid(CurrentDraft())
    {
      askedAuth := false;
      if fullname == "" || dateOfBirth == "" {
        return MissingFields, askedAuth;
      }
      if !IsDateShaped(dateOfBirth) {
        return InvalidDate, askedAuth;
      }
      askedAuth := true;
      if user.None? {
        return NotAuthenticated, askedAuth;
      }
      var u := user.value;
      var username := Username(u.email);
      var row := ProfileRow(u.id, username, u.email, fullname, profilePic, dateOfBirth);
      if upsertError.Some? {
        return UpsertFailed(row, upsertError.value), askedAuth;
      }
      r := Saved(row);
    }

    method SetUploading(value: bool)
      modifies this`uploading, this`uploadingLog
      ensures uploading == value && uploadingLog == old(uploadingLog) + [value]
    {
      uploading := value;
      uploadingLog := uploadingLog + [value];
    }

    /** The shared tail of every handler: on a stored upload, show the object's
        public URL; on a rejection, keep the picture. */
    method FinishUpload(response: UploadResponse, publicUrl: string -> string) returns (exit: Exit)
      modifies this`profilePic
      ensures response.Stored? ==> exit == Succeeded(publicUrl(response.path)) && profilePic == Some(exit.url)
      ensures response.Rejected? ==> exit == Failed(response.message) && profilePic == old(profilePic)
    {
      if response.Rejected? {
        return Failed(response.message);
      }
      exit := Succeeded(publicUrl(response.path));
      profilePic := Some(exit.url);
    }

    /** `uploadProfilePicMobileImg`: pick a square image, read its bytes, store
        them at `<now>.<ext>`, show the public URL. `sent` is the upload request
        made, if any. */
    method UploadProfilePicMobileImg(pick: ImagePickerResult, fetch: FetchResult, now: nat,
                                     response: UploadResponse, publicUrl: string -> string)
      returns (sent: Option<UploadRequest>, exit: Exit)
      modifies this`uploading, this`uploadingLog, this`profilePic
      ensures !uploading && uploadingLog == old(uploadingLog) + [true, false]
      ensures pick.ImagePickerFailed? ==> exit == Failed(pick.message) && sent.None?
      ensures exit.Cancelled? <==> ImagePickCancelled(pick)
      ensures exit.Cancelled? ==> sent.None?
      ensures ImagePickSelected(pick) && !Truthy(pick.assets.value[0].uri) ==>
        exit == Failed(NoImageUriMessage) && sent.None?
      ensures ImagePickSelected(pick) && Truthy(pick.assets.value[0].uri) && fetch.FetchFailed? ==>
        exit == Failed(fetch.message) && sent.None?
      ensures ImagePickSelected(pick) && Truthy(pick.assets.value[0].uri) && fetch.Fetched? ==>
        var image := pick.assets.value[0];
        sent == Some(RequestFor(image.uri.value, image.mimeType, ImageDefaultExtension,
                                ImageDefaultContentType, now)) &&
        exit == (if response.Stored? then Succeeded(publicUrl(response.path)) else Failed(response.message))
      ensures exit.Succeeded? ==> profilePic == Some(exit.url)
      ensures !exit.Succeeded? ==> profilePic == old(profilePic)
    {
      sent := None;
      SetUploading(true);
      if pick.ImagePickerFailed? {
        exit := Failed(pick.message);
      } else if ImagePickCancelled(pick) {
        exit := Cancelled;
      } else {
        var image := pick.assets.value[0];
        if !Truthy(image.uri) {
          exit := Failed(NoImageUriMessage);
        } else if fetch.FetchFailed? {
          exit := Failed(fetch.message);
        } else {
          var request := RequestFor(image.uri.value, image.mimeType, ImageDefaultExtension,
                                    ImageDefaultContentType, now);
          sent := Some(request);
          exit := FinishUpload(response, publicUrl);
        }
      }
      SetUploading(false);
    }

    /** `uploadProfilePicMobileGif`: pick any image file, read its bytes, store
        them at `<now>.<ext>` (extension from the file name), show the public URL. */
    method UploadProfilePicMobileGif(pick: DocumentPickerResult, fetch: FetchResult, now: nat,
                                     response: UploadResponse, publicUrl: string -> string)
      returns (sent: Option<UploadRequest>, exit: Exit)
      modifies this`uploading, this`uploadingLog, this`profilePic
      ensures !uploading && uploadingLog == old(uploadingLog) + [true, false]
      ensures pick.DocumentPickerFailed? ==> exit == Failed(pick.message) && sent.None?
      ensures exit.Cancelled? <==> pick.DocumentPicked? && pick.canceled
      ensures exit.Cancelled? ==> sent.None?
      ensures pick.DocumentPicked? && !pick.canceled && !DocumentPickSelected(pick) ==>
        exit == Failed(NoFileSelectedMessage) && sent.None?
      ensures DocumentPickSelected(pick) && !Truthy(pick.assets.value[0].uri) ==>
        exit == Failed(NoFileUriMessage) && sent.None?
      ensures DocumentPickSelected(pick) && Truthy(pick.assets.value[0].uri) && fetch.FetchFailed? ==>
        exit == Failed(fetch.message) && sent.None?
      ensures DocumentPickSelected(pick) && Truthy(pick.assets.value[0].uri) && fetch.Fetched? ==>
        var file := pick.assets.value[0];
        sent == Some(RequestFor(file.name, file.mimeType, FileDefaultExtension,
                                FileDefaultContentType, now)) &&
        exit == (if response.Stored? then Succeeded(publicUrl(response.path)) else Failed(response.message))
      ensures exit.Succeeded? ==> profilePic == Some(exit.url)
      ensures !exit.Succeeded? ==> profilePic == old(profilePic)
    {
      sent := None;
      SetUploading(true);
      if pick.DocumentPickerFailed? {
        exit := Failed(pick.message);
      } else if pick.canceled {
        exit := Cancelled;
      } else if pick.assets.None? || |pick.assets.value| == 0 {
        exit := Failed(NoFileSelectedMessage);
      } else {
        var file := pick.assets.value[0];
        if !Truthy(file.uri) {
          exit := Failed(NoFileUriMessage);
        } else if fetch.FetchFailed? {
          exit := Failed(fetch.message);
        } else {
          var request := RequestFor(file.name, file.mimeType, FileDefaultExtension,
                                    FileDefaultContentType, now);
          sent := Some(request);
          exit := FinishUpload(response, publicUrl);
        }
      }
      SetUploading(false);
    }

    /** `uploadProfilePicWeb`: store the chosen file at `<now>.<ext>` and show
        the public URL. There is no cancel path and no fetch. */
    method UploadProfilePicWeb(file: WebFile, now: nat, response: UploadResponse,
                               publicUrl: string -> string)
      returns (sent: Option<UploadRequest>, exit: Exit)
      modifies this`uploading, this`uploadingLog, this`profilePic
      ensures !uploading && uploadingLog == old(uploadingLog) + [true, false]
      ensures sent == Some(RequestFor(file.name, Some(file.mimeType), FileDefaultExtension,
                                      FileDefaultContentType, now))
      ensures exit == (if response.Stored? then Succeeded(publicUrl(response.path)) else Failed(response.message))
      ensures exit.Succeeded? ==> profilePic == Some(exit.url)
      ensures !exit.Succeeded? ==> profilePic == old(profilePic)
    {
      SetUploading(true);
      var request := RequestFor(file.name, Some(file.mimeType), FileDefaultExtension,
                                FileDefaultContentType, now);
      sent := Some(request);
      exit := FinishUpload(response, publicUrl);
      SetUploading(false);
    }
  }

  /** The screen's lifecycle on the web: load a complete row, upload a new
      picture, save. The row written carries the loaded name and date and,
      when storage accepted the file, its public URL; otherwise the loaded
      picture. */
  method LoadUploadSave(user: User, row: StoredRow, file: WebFile, now: nat,
                        response: UploadResponse, publicUrl: string -> string)
    returns (r: SaveResult)
    requires Truthy(row.fullname) && Truthy(row.dateOfBirth) && IsDateShaped(row.dateOfBirth.value)
    ensures r.Saved?
    ensures r.row == ProfileRow(user.id, Username(user.email), user.email, row.fullname.value,
                                if response.Stored? then Some(publicUrl(response.path))
                                else SeedDraft(row).profilePic,
                                row.dateOfBirth.value)
  {
    var editor := new ProfileEditor();
    var alert := editor.FetchUserData(Some(user), RowFound(row));
    var sent, exit := editor.UploadProfilePicWeb(file, now, response, publicUrl);
    var askedAuth;
    r, askedAuth := editor.HandleSave(Some(user), None);
  }
}
