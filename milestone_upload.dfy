/** The milestone upload button: choosing a file sends it to the validation
    endpoint, the response is classified as a pass or an error, and the
    result dialog can be closed once the upload has finished. */
module MilestoneUpload {
  import opened Options
  import opened JsNumbers
  import opened JsValues

  /** A chosen file; only its identity matters here. */
  datatype File = File(name: string)

  /** The fields of a parsed JSON body that the handler reads. */
  datatype Payload = Payload(message: JsValue, error: JsValue, isValid: JsValue)

  /** A response body: parsed, or not JSON (then `response.json()` rejects
      with a `SyntaxError` carrying `errorMessage`). */
  datatype Body = Parsed(payload: Payload) | Unparseable(errorMessage: string)

  /** What the awaited `fetch` gave: a response, or a rejection carrying the
      message of an `Error`, or `None` when something else was thrown. */
  datatype FetchResult =
    | Responded(ok: bool, status: nat, statusText: string, body: Body)
    | Rejected(errorMessage: Option<string>)

  /** How an upload ended. */
  datatype Outcome = Passed | Failed(message: string)

  const NotPassedText := "The file did not pass the validation. Please check the file and try again."
  const InvalidResponseText := "Invalid validation response. Please try again."
  const UnknownErrorText := "Error uploading file. Please try again."

  /** `response.json().catch(() => ({}))`: an unparseable body reads as the
      empty object, whose fields are all `undefined`. */
  function ErrorData(body: Body): Payload
  {
    match body
    case Parsed(p) => p
    case Unparseable(_) => Payload(JUndefined, JUndefined, JUndefined)
  }

  /** The message of a non-ok response. */
  function HttpErrorText(status: nat, statusText: string): string
  {
    "Error uploading file: " + NatToDecimal(status) + " " + statusText
  }

  /** `is_valid === false || is_valid === 'false'`. */
  predicate ExplicitlyInvalid(v: JsValue)
  {
    v == JBool(false) || v == JStr("false")
  }

  /** `is_valid === true || is_valid === 'true'`. */
  predicate ExplicitlyValid(v: JsValue)
  {
    v == JBool(true) || v == JStr("true")
  }

  /** The `try` block of `handleUpload` and its `catch`: what the upload
      reports for a given result of `fetch`. It passes exactly when the
      response is ok, its body parses and `is_valid` is `true` or `'true'`;
      any other value of `is_valid`, including `'TRUE'`, `1` or a missing
      field, is an error. */
  function Classify(result: FetchResult): (r: Outcome)
    ensures r.Passed? <==>
            result.Responded? && result.ok && result.body.Parsed? &&
            (result.body.payload.isValid == JBool(true) || result.body.payload.isValid == JStr("true"))
  {
    match result
    case Rejected(m) => Failed(if m.Some? then m.value else UnknownErrorText)
    case Responded(ok, status, statusText, body) =>
      if !ok then
        var errorData := ErrorData(body);
        Failed(FirstTruthy(errorData.message, errorData.error, HttpErrorText(status, statusText)))
      else match body
        case Unparseable(m) => Failed(m)
        case Parsed(data) =>
          if ExplicitlyInvalid(data.isValid) then Failed(FirstTruthy(data.message, data.error, NotPassedText))
          else if ExplicitlyValid(data.isValid) then Passed
          else Failed(FirstTruthy(data.message, data.error, InvalidResponseText))
  }

  /** A failed response shows the body's `message`, else its `error`, else
      the status line; the same precedence holds for a rejected file. */
  lemma ErrorPrecedence(status: nat, statusText: string, body: Body, ok: bool)
    requires body.Parsed? && (!ok || !ExplicitlyValid(body.payload.isValid))
    ensures Classify(Responded(ok, status, statusText, body)).Failed?
    ensures Truthy(body.payload.message) ==>
              Classify(Responded(ok, status, statusText, body)).message == ToStr(body.payload.message)
    ensures !Truthy(body.payload.message) && Truthy(body.payload.error) ==>
              Classify(Responded(ok, status, statusText, body)).message == ToStr(body.payload.error)
  {
  }

  /** A failed response without a usable message shows its status line,
      and that line starts with the upload prefix. */
  lemma StatusLineFallback(status: nat, statusText: string, body: Body)
    requires !Truthy(ErrorData(body).message) && !Truthy(ErrorData(body).error)
    ensures Classify(Responded(false, status, statusText, body)) == Failed(HttpErrorText(status, statusText))
    ensures |HttpErrorText(status, statusText)| > |"Error uploading file: "|
  {
  }

  /** An ok response that explicitly fails validation without a message
      shows the fixed text, as does one with an unexpected `is_valid`. */
  lemma FallbackTexts(message: JsValue, error: JsValue, isValid: JsValue)
    requires !Truthy(message) && !Truthy(error) && !ExplicitlyValid(isValid)
    ensures Classify(Responded(true, 200, "OK", Parsed(Payload(message, error, isValid)))) ==
            Failed(if ExplicitlyInvalid(isValid) then NotPassedText else InvalidResponseText)
  {
  }

  /** The button's state: the five `useState` variables. */
  class UploadButton {
    var isUploading: bool
    var uploadedFile: Option<File>
    var uploadError: Option<string>
    var uploadSuccess: bool
    var isModalOpen: bool

    /** A pass and an error are never shown together, and during an upload
        neither is shown. */
    predicate Valid()
      reads this
    {
      !(uploadSuccess && uploadError.Some?) &&
      (isUploading ==> uploadError == None && !uploadSuccess)
    }

    constructor()
      ensures Valid()
      ensures !isUploading && uploadedFile == None && uploadError == None && !uploadSuccess && !isModalOpen
    {
      isUploading := false;
      uploadedFile := None;
      uploadError := None;
      uploadSuccess := false;
      isModalOpen := false;
    }

    /** `disabled={isUploading || uploadSuccess}`. */
    predicate ButtonDisabled()
      reads this
    {
      isUploading || uploadSuccess
    }

    /** `handleFileSelect`, with the first half of `handleUpload`: with a
        file chosen, it is recorded, the dialog opens and the upload starts
        (the file is returned as sent); with none, nothing changes. */
    method HandleFileSelect(files: Option<seq<File>>) returns (sent: Option<File>)
      modifies this
      ensures files.Some? && |files.value| > 0 ==>
                sent == Some(files.value[0]) && uploadedFile == sent &&
                uploadError == None && !uploadSuccess && isModalOpen && isUploading && Valid()
      ensures !(files.Some? && |files.value| > 0) ==>
                sent == None && isUploading == old(isUploading) && uploadedFile == old(uploadedFile) &&
                uploadError == old(uploadError) && uploadSuccess == old(uploadSuccess) &&
                isModalOpen == old(isModalOpen)
      ensures old(Valid()) ==> Valid()
    {
      sent := None;
      if files.Some? && |files.value| > 0 {
        var file := files.value[0];
        uploadedFile := Some(file);
        uploadError := None;
        uploadSuccess := false;
        isModalOpen := true;
        // handleUpload(file), up to the awaited fetch
        isUploading := true;
        uploadError := None;
        uploadSuccess := false;
        sent := Some(file);
      }
    }

    /** The rest of `handleUpload`, once `fetch` has settled: a pass is
        recorded, or the error is shown and the file dropped; the upload
        ends either way. */
    method UploadSettled(result: FetchResult)
      requires Valid() && isUploading
      modifies this
      ensures Valid() && !isUploading
      ensures Classify(result).Passed? ==>
                uploadSuccess && uploadError == None && uploadedFile == old(uploadedFile)
      ensures Classify(result).Failed? ==>
                !uploadSuccess && uploadError == Some(Classify(result).message) && uploadedFile == None
      ensures isModalOpen == old(isModalOpen)
    {
      var outcome := Classify(result);
      match outcome {
        case Passed =>
          uploadSuccess := true;
        case Failed(message) =>
          uploadError := Some(message);
          uploadedFile := None;
      }
      isUploading := false;
    }

    /** The test `uploadSuccess || uploadError`: an error whose message is
        the empty string is falsy. */
    predicate Finished()
      reads this
    {
      uploadSuccess || (uploadError.Some? && uploadError.value != "")
    }

    /** `handleCloseModal`: ignored during an upload; otherwise the dialog
        closes and, after a pass or an error with a message, the button is
        reset. */
    method HandleCloseModal()
      modifies this
      ensures old(isUploading) ==>
                isModalOpen == old(isModalOpen) && uploadedFile == old(uploadedFile) &&
                uploadError == old(uploadError) && uploadSuccess == old(uploadSuccess)
      ensures !old(isUploading) ==> !isModalOpen
      ensures !old(isUploading) && old(Finished()) ==>
                uploadedFile == None && uploadError == None && !uploadSuccess
      ensures !old(isUploading) && !old(Finished()) ==>
                uploadedFile == old(uploadedFile) && uploadError == old(uploadError) && !uploadSuccess
      ensures isUploading == old(isUploading)
      ensures old(Valid()) ==> Valid()
    {
      if !isUploading {
        isModalOpen := false;
        if uploadSuccess || (uploadError.Some? && uploadError.value != "") {
          uploadedFile := None;
          uploadError := None;
          uploadSuccess := false;
        }
      }
    }
  }

  /** A whole upload from a ready button: after a pass the button stays
      disabled (a milestone is validated once), after an error it is
      enabled again and the file is gone. */
  method UploadOnce(button: UploadButton, file: File, result: FetchResult)
    requires button.Valid() && !button.isUploading
    modifies button
    ensures button.Valid() && button.isModalOpen
    ensures button.ButtonDisabled() <==> Classify(result).Passed?
    ensures Classify(result).Failed? ==> button.uploadedFile == None
  {
    var sent := button.HandleFileSelect(Some([file]));
    button.UploadSettled(result);
  }
}
