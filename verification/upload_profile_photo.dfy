/*******************************************************************************
 *  src/components/UploadProfilePhoto.jsx: choose a picture, crop it, and
 *  upload the cropped and compressed result as the member's profile photo.
 *  Images are opaque: decoding, cropping, compressing and object URLs are
 *  not modelled, and the outcome of each of them is a parameter.
 *******************************************************************************/

module UploadProfilePhoto {
  import opened Js
  import opened Effects

  /** A picture file, known by its name. */
  datatype Image = Image(name: string)

  /** The crop rectangle reported by the cropper, in pixels. */
  datatype Area = Area(x: int, y: int, width: int, height: int)

  datatype State = State(
    file: Option<Image>,
    preview: Option<Image>,
    isLoading: bool,
    processedFile: Option<Image>,
    croppedArea: Option<Area>,
    isCropping: bool)

  const Initial: State := State(None, None, false, None, None, false)

  const NO_FILE_WARNING: string := "Nejdříve vyber soubor."
  const NO_CROP_WARNING: string := "Nejdříve potvrď ořez."
  const CROP_FAILED: string := "Nepodařilo se zpracovat obrázek."
  const UPLOADED: string := "Fotka úspěšně nahrána!"
  const UPLOAD_FAILED_PREFIX: string := "Nahrání fotky se nezdařilo: "

  /** The `TypeError` message of the V8 engine for reading `warning` off a
      `null` response body. */
  const NULL_BODY_MESSAGE: string := "Cannot read properties of null (reading 'warning')"

  /** `handleFileChange(event)`: `selected` is the first chosen file, if any.
      Any earlier crop result is dropped; cropping starts exactly when a file
      was chosen, which is then previewed. */
  function FileChange(s: State, selected: Option<Image>): (t: State)
    ensures t.file == selected && t.preview == selected
    ensures t.processedFile.None?
    ensures t.isCropping <==> selected.Some?
    ensures t.isLoading == s.isLoading && t.croppedArea == s.croppedArea
  {
    s.(file := selected, processedFile := None, isCropping := selected.Some?, preview := selected)
  }

  /** The cropper's `onCropComplete`. */
  function CropComplete(s: State, area: Area): (t: State)
    ensures t == s.(croppedArea := Some(area))
  {
    s.(croppedArea := Some(area))
  }

  datatype Step = Step(state: State, effects: seq<Effect>)

  /** `handleCropConfirm()`; `result` is the compressed crop, or `None` when
      processing the image fails. Without a crop area nothing happens. */
  function CropConfirm(s: State, result: Option<Image>): (r: Step)
    ensures s.croppedArea.None? ==> r == Step(s, [])
    ensures s.croppedArea.Some? && result.Some? ==>
              r == Step(s.(processedFile := result, preview := result, isCropping := false), [])
    ensures s.croppedArea.Some? && result.None? ==> r == Step(s, [Toast(Error, CROP_FAILED)])
  {
    if s.croppedArea.None? then Step(s, [])
    else
      match result
      case Some(c) => Step(s.(processedFile := Some(c), preview := Some(c), isCropping := false), [])
      case None => Step(s, [Toast(Error, CROP_FAILED)])
  }

  /** How the upload POST ended: a response body, or a rejection with the
      server's `error` text (if any) and the error's message. */
  datatype UploadOutcome = Answered(data: Json) | Rejected(serverError: Option<string>, message: string)

  function UploadRequest(userId: Id, processed: Image): Request {
    PostRequest("/users/" + IdText(userId) + "/uploadProfilePicture",
                JObj(map["profilePicture" := JStr(processed.name)]), map[])
  }

  /** What a toast shows for a warning value. */
  function WarningText(v: Json): string {
    match v
    case JStr(t) => t
    case JNum(n) => IntToString(n)
    case _ => ""
  }

  /** The effects after the POST; `hasOnSuccess` says whether the parent
      passed `onSuccess`. Any answered request counts as success, even one
      carrying a warning. */
  function AfterUpload(outcome: UploadOutcome, hasOnSuccess: bool): seq<Effect> {
    var notify := if hasOnSuccess then [Callback(JNull)] else [];
    match outcome
    case Answered(data) =>
      if data == JNull then [Toast(Error, UPLOAD_FAILED_PREFIX + NULL_BODY_MESSAGE)]
      else
        var warning := OrNull(Field(data, "warning"));
        (if Truthy(warning) then [Toast(Warning, WarningText(warning))] else [Toast(Success, UPLOADED)]) + notify
    case Rejected(serverError, message) =>
      [Toast(Error, UPLOAD_FAILED_PREFIX + (if StrTruthy(serverError) then serverError.value else message))]
  }

  /** `handleUpload()` for member `userId`. Without a file: a warning and
      nothing else. Without a confirmed crop: a warning, no request, and
      `isLoading` left on. Otherwise the POST, and `isLoading` off again. */
  function Upload(s: State, userId: Id, outcome: UploadOutcome, hasOnSuccess: bool): (r: Step)
    ensures s.file.None? ==> r == Step(s, [Toast(Warning, NO_FILE_WARNING)])
    ensures s.file.Some? && s.processedFile.None? ==>
              r == Step(s.(isLoading := true), [Toast(Warning, NO_CROP_WARNING)])
    ensures s.file.Some? && s.processedFile.Some? ==>
              && r.state == s.(isLoading := false)
              && r.effects == [Send(UploadRequest(userId, s.processedFile.value))] + AfterUpload(outcome, hasOnSuccess)
  {
    if s.file.None? then Step(s, [Toast(Warning, NO_FILE_WARNING)])
    else if s.processedFile.None? then Step(s.(isLoading := true), [Toast(Warning, NO_CROP_WARNING)])
    else Step(s.(isLoading := false),
              [Send(UploadRequest(userId, s.processedFile.value))] + AfterUpload(outcome, hasOnSuccess))
  }

  /** `onSuccess` is called exactly once when the request was answered with
      a body and the parent passed it, whether or not the body carried a
      warning; never after a rejection. */
  lemma OnSuccessRule(s: State, userId: Id, outcome: UploadOutcome, hasOnSuccess: bool)
    requires s.file.Some? && s.processedFile.Some?
    ensures var effects := Upload(s, userId, outcome, hasOnSuccess).effects;
            |Callbacks(effects)| == (if hasOnSuccess && outcome.Answered? && outcome.data != JNull then 1 else 0)
  {
    var effects := Upload(s, userId, outcome, hasOnSuccess).effects;
    var rest := AfterUpload(outcome, hasOnSuccess);
    CallbacksOfConcat([effects[0]], rest);
    LogOfOne(effects[0]);
    if outcome.Answered? && outcome.data != JNull {
      var warning := OrNull(Field(outcome.data, "warning"));
      var toast := if Truthy(warning) then Toast(Warning, WarningText(warning)) else Toast(Success, UPLOADED);
      var notify: seq<Effect> := if hasOnSuccess then [Callback(JNull)] else [];
      assert rest == [toast] + notify;
      CallbacksOfConcat([toast], notify);
      LogOfOne(toast);
      if hasOnSuccess {
        LogOfOne(Callback(JNull));
      }
    } else {
      LogOfOne(rest[0]);
      assert rest == [rest[0]];
    }
  }

  // ---------------------------------------------------------------------------
  // The stuck upload button
  // ---------------------------------------------------------------------------

  /** What the user can do on the component. The Upload button is disabled
      while `isLoading` is on, so clicking it then does nothing. */
  datatype Action =
    | ChooseFile(selected: Option<Image>)
    | MoveCrop(area: Area)
    | ConfirmCrop(result: Option<Image>)
    | ClickUpload(userId: Id, outcome: UploadOutcome, hasOnSuccess: bool)

  function Apply(s: State, a: Action): (t: State)
    ensures s.isLoading ==> t.isLoading
    ensures !a.ClickUpload? ==> t.isLoading == s.isLoading
    ensures a.ClickUpload? && s.isLoading ==> t == s
    ensures a.ClickUpload? && !s.isLoading ==> (t.isLoading <==> s.file.Some? && s.processedFile.None?)
  {
    match a
    case ChooseFile(f) => FileChange(s, f)
    case MoveCrop(area) => CropComplete(s, area)
    case ConfirmCrop(result) => CropConfirm(s, result).state
    case ClickUpload(userId, outcome, hasOnSuccess) =>
      if s.isLoading then s else Upload(s, userId, outcome, hasOnSuccess).state
  }

  /** The actions one after the other. Only an Upload click turns
      `isLoading` on or off, and nothing turns it off once it is on. */
  function Run(s: State, actions: seq<Action>): (t: State)
    ensures s.isLoading ==> t.isLoading
    ensures (forall i :: 0 <= i < |actions| ==> !actions[i].ClickUpload?) ==> t.isLoading == s.isLoading
    decreases |actions|
  {
    if actions == [] then s else Run(Apply(s, actions[0]), actions[1..])
  }

  /** Uploading a chosen file before confirming its crop leaves `isLoading`
      on with no request in flight. */
  lemma UploadBeforeCropSticks(s: State, userId: Id, outcome: UploadOutcome, hasOnSuccess: bool)
    requires s.file.Some? && s.processedFile.None?
    ensures Upload(s, userId, outcome, hasOnSuccess).state.isLoading
    ensures Requests(Upload(s, userId, outcome, hasOnSuccess).effects) == []
  {
    LogOfOne(Toast(Warning, NO_CROP_WARNING));
  }

  /** Once `isLoading` is on outside an upload, nothing the user does turns
      it off again: the Upload button stays disabled for good. */
  lemma {:induction false} LoadingStaysOn(s: State, actions: seq<Action>)
    requires s.isLoading
    ensures Run(s, actions).isLoading
    decreases |actions|
  {
    if actions != [] {
      assert Apply(s, actions[0]).isLoading;
      LoadingStaysOn(Apply(s, actions[0]), actions[1..]);
    }
  }

  /** From the initial state: choose a file, upload without cropping, and
      whatever follows the component can never upload again. */
  lemma StuckAfterEarlyUpload(img: Image, userId: Id, outcome: UploadOutcome, hasOnSuccess: bool,
                              later: seq<Action>)
    ensures var s := Apply(Apply(Initial, ChooseFile(Some(img))), ClickUpload(userId, outcome, hasOnSuccess));
            && s.isLoading
            && Run(s, later).isLoading
  {
    var s := Apply(Apply(Initial, ChooseFile(Some(img))), ClickUpload(userId, outcome, hasOnSuccess));
    LoadingStaysOn(s, later);
  }
}
