/** The decision skeleton of the `POST /upload` handler: which response a request
    gets, which file it stores, and how the stored file's URL is formed. The random
    token, `secure_filename`, the file write and the captioning model are inputs. */
module UploadHandler {
  import opened FoodCategory

  /** Directory the handler stores uploads in, relative to the server's working directory. */
  const UploadFolder: string := "static/uploads"

  /** URL prefix under which stored uploads are served. */
  const UploadUrlPrefix: string := "/static/uploads/"

  /** Length of `uuid4().hex`: 32 lower-case hexadecimal digits. */
  const TokenLength: nat := 32

  datatype Option<T> = None | Some(value: T)

  /** The `image` field of the multipart form; the handler only looks at its file name. */
  datatype FileField = FileField(filename: string)

  /** What opening the stored image and running the captioning model gave:
      a caption, or an exception raised on the way. */
  datatype Captioning = Captioned(text: string) | Failed

  /** An HTTP status with a JSON object of string fields. */
  datatype Response = Response(status: int, body: map<string, string>)

  /** How a request ends: with a response (and the path of the file it stored, if any),
      or with the exception `image.save` raised, which leaves the handler uncaught. */
  datatype Outcome =
    | Reply(response: Response, stored: Option<string>)
    | SaveRaised(path: string)

  predicate IsHexToken(token: string) {
    |token| == TokenLength && forall i :: 0 <= i < |token| ==> token[i] in "0123456789abcdef"
  }

  /** `f"{uuid}_{filename}"`: the name the upload is stored under. */
  function UniqueName(token: string, filename: string): string {
    token + "_" + filename
  }

  /** `os.path.join(UPLOAD_FOLDER, unique_filename)`. */
  function StoragePath(unique: string): string {
    UploadFolder + "/" + unique
  }

  function ErrorResponse(status: int, message: string): (r: Response)
    ensures r.status == status && r.body.Keys == {"error"} && r.body["error"] == message
  {
    Response(status, map["error" := message])
  }

  /** The request carries an `image` field with a non-empty file name. */
  predicate HasSelectedFile(image: Option<FileField>) {
    image.Some? && image.value.filename != ""
  }

  /** The handler. `image` is the form's `image` field if present, `token` the random
      hex token, `secureFilename` the sanitiser applied to the client's file name,
      `saveOk` whether writing the file succeeded and `captioning` what loading the
      stored image and captioning it gave. */
  function Upload(image: Option<FileField>, token: string, secureFilename: string -> string,
                  saveOk: bool, captioning: Captioning): (r: Outcome)
    // The checks run in order: field present, then file name non-empty.
    ensures image.None? ==>
      r == Reply(ErrorResponse(400, "No image file provided"), None)
    ensures image.Some? && image.value.filename == "" ==>
      r == Reply(ErrorResponse(400, "No selected file"), None)
    // A client error is reported exactly when there is no usable file, and then
    // nothing is written.
    ensures (r.Reply? && r.response.status == 400) <==> !HasSelectedFile(image)
    // With a usable file, the file is written before anything else can fail.
    ensures HasSelectedFile(image) ==>
      var path := StoragePath(UniqueName(token, secureFilename(image.value.filename)));
      (r.SaveRaised? <==> !saveOk) && (r.SaveRaised? ==> r.path == path)
      && (r.Reply? ==> r.stored == Some(path))
    // Any failure while captioning is a generic 500 with only the error field.
    ensures (r.Reply? && r.response.status == 500) <==>
      HasSelectedFile(image) && saveOk && captioning.Failed?
    ensures r.Reply? && r.response.status == 500 ==>
      r.response == ErrorResponse(500, "Failed to process image")
    // Success carries the stored file's URL, the caption verbatim and its category.
    ensures (r.Reply? && r.response.status == 200) <==>
      HasSelectedFile(image) && saveOk && captioning.Captioned?
    ensures r.Reply? && r.response.status == 200 ==>
      r.response.body.Keys == {"image_url", "caption", "category"}
      && r.response.body["image_url"]
         == UploadUrlPrefix + UniqueName(token, secureFilename(image.value.filename))
      && r.response.body["caption"] == captioning.text
      && r.response.body["category"] == CategorizeFood(captioning.text)
  {
    if image.None? then
      Reply(ErrorResponse(400, "No image file provided"), None)
    else if image.value.filename == "" then
      Reply(ErrorResponse(400, "No selected file"), None)
    else
      var unique := UniqueName(token, secureFilename(image.value.filename));
      var path := StoragePath(unique);
      if !saveOk then
        SaveRaised(path)
      else
        match captioning
        case Failed =>
          Reply(ErrorResponse(500, "Failed to process image"), Some(path))
        case Captioned(caption) =>
          Reply(Response(200, map[
            "image_url" := UploadUrlPrefix + unique,
            "caption" := caption,
            "category" := CategorizeFood(caption)]), Some(path))
  }

  /** Every reply the handler itself builds has status 200, 400 or 500, and every
      such error reply has exactly one field, `error`. */
  lemma ResponsesAreWellFormed(image: Option<FileField>, token: string,
                               secureFilename: string -> string, saveOk: bool,
                               captioning: Captioning)
    ensures var r := Upload(image, token, secureFilename, saveOk, captioning);
      r.Reply? ==>
        r.response.status in {200, 400, 500}
        && (r.response.status != 200 ==> r.response.body.Keys == {"error"})
  {
  }

  /** The URL returned on success is the path of the file the request stored,
      served from the server root. */
  lemma ImageUrlServesStoredFile(image: Option<FileField>, token: string,
                                 secureFilename: string -> string, captioning: Captioning)
    requires HasSelectedFile(image) && captioning.Captioned?
    ensures var r := Upload(image, token, secureFilename, true, captioning);
      r.Reply? && r.stored.Some? && r.response.body["image_url"] == "/" + r.stored.value
  {
  }

  /** Two uploads with different random tokens are stored under different paths,
      whatever their file names, so one upload never overwrites another. */
  lemma DistinctTokensNeverCollide(image1: Option<FileField>, image2: Option<FileField>,
                                   token1: string, token2: string,
                                   secureFilename: string -> string,
                                   captioning1: Captioning, captioning2: Captioning)
    requires IsHexToken(token1) && IsHexToken(token2) && token1 != token2
    requires HasSelectedFile(image1) && HasSelectedFile(image2)
    ensures var r1 := Upload(image1, token1, secureFilename, true, captioning1);
      var r2 := Upload(image2, token2, secureFilename, true, captioning2);
      r1.Reply? && r2.Reply? && r1.stored.Some? && r2.stored.Some?
      && r1.stored.value != r2.stored.value
  {
    var p1 := StoragePath(UniqueName(token1, secureFilename(image1.value.filename)));
    var p2 := StoragePath(UniqueName(token2, secureFilename(image2.value.filename)));
    var i :| 0 <= i < TokenLength && token1[i] != token2[i];
    var at := |UploadFolder| + 1 + i;
    assert p1[at] == token1[i];
    assert p2[at] == token2[i];
  }
}
