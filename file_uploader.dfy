/**
 * The file upload session (frontend/src/components/FileUploader.jsx): validate a chosen
 * file (size, PDF header, HEIC conversion), let images go through the correction worker
 * or the manual corrector, collect pages, and finally upload them all in order.
 *
 * Browser services are parameters: the object URL the browser would create, the HEIC
 * converter, the loaded image's size, the compression, the upload request and the clock.
 */
module FileUploader {
  import opened Base
  import opened Js
  import opened Media

  datatype Mode = Select | Auto | PreviewProcessed | Manual | UploadingAll

  const MaxFileSize: nat := 10 * 1024 * 1024
  const TooLargeMessage: string := "❌ Die Datei ist zu groß (max. 10 MB erlaubt)."
  const BadPdfMessage: string := "❌ Die PDF-Datei ist beschädigt oder kein gültiges PDF."
  const HeicFailedPrefix: string :=
    "Das Bild konnte nicht verarbeitet werden. Bitte HEIC-Fotos vorher manuell in JPG umwandeln, falls Sie nicht direkt über ein iPhone hochladen. Sonst bitte in den iPhone-Einstellungen unter\n\"Kamera\" > \"Formate\" die Option \"Maximale Kompatibilität\" aktivieren.\nFehler: "
  const AutoFailedPrefix: string := "Auto-Detect fehlgeschlagen: "
  const EmptyCollectionMessage: string := "Mindestens eine Seite muss hinzugefügt werden."
  const UploadFailedMessage: string := "Upload fehlgeschlagen"
  const UploadErrorPrefix: string := "Kompression/Upload fehlgeschlagen: "

  /** `%PDF-` as bytes. */
  const PdfMagic: seq<byte> := [0x25, 0x50, 0x44, 0x46, 0x2D]

  /** The name of a file; a blob without one has the empty name. */
  function NameOf(f: Blob): string
  {
    if f.fileName.Some? then f.fileName.value else ""
  }

  /** A file is taken for a PDF by its type or by a `.pdf` name in any case. */
  predicate IsPdfFile(f: Blob)
  {
    f.mimeType == "application/pdf" || EndsWith(ToLower(NameOf(f)), ".pdf")
  }

  predicate IsHeicFile(f: Blob)
  {
    f.mimeType == "image/heic" || EndsWith(ToLower(NameOf(f)), ".heic")
  }

  /**
   * `checkPdfHeader`: the first five bytes, decoded as UTF-8, are `%PDF-`. Only those five
   * bytes decode to it (a shorter file decodes to fewer characters, and a byte-order mark
   * would leave too few bytes).
   */
  predicate PdfHeaderOk(bytes: seq<byte>)
  {
    |bytes| >= 5 && bytes[..5] == PdfMagic
  }

  /** A header check looks only at the first five bytes. */
  lemma PdfHeaderOnlyPrefix(bytes: seq<byte>, rest: seq<byte>)
    requires |bytes| >= 5
    ensures PdfHeaderOk(bytes + rest) <==> PdfHeaderOk(bytes)
  {
    assert (bytes + rest)[..5] == bytes[..5];
  }

  /** `name.replace(/\.heic$/i, '.jpg')`. */
  function ReplaceHeicSuffix(name: string): (r: string)
    ensures EndsWith(ToLower(name), ".heic") ==> r == name[..|name| - 5] + ".jpg"
    ensures !EndsWith(ToLower(name), ".heic") ==> r == name
  {
    if |name| >= 5 && ToLower(name[|name| - 5..]) == ".heic" then name[..|name| - 5] + ".jpg"
    else name
  }

  /** The renamed file ends in `.jpg` and keeps everything before the suffix. */
  lemma ReplaceHeicSuffixJpg(name: string)
    requires EndsWith(ToLower(name), ".heic")
    ensures var r := ReplaceHeicSuffix(name);
            EndsWith(r, ".jpg") && |r| == |name| - 1 && r[..|r| - 4] == name[..|name| - 5]
  {
  }

  /**
   * The file kept for the automatic correction: the (converted) image itself when it is
   * a named file, otherwise a JPEG file named after the chosen file with `.heic` replaced.
   */
  function AsFile(image: Blob, chosenName: string): (f: Blob)
    ensures image.fileName.Some? ==> f == image
    ensures image.fileName.None? ==>
              f.mimeType == "image/jpeg" && f.bytes == image.bytes && f.fileName == Some(ReplaceHeicSuffix(chosenName))
  {
    if image.fileName.Some? then image else Blob("image/jpeg", image.bytes, Some(ReplaceHeicSuffix(chosenName)))
  }

  /** The URLs `cleanupCurrent` revokes: each of the image's and the cropped page's that is set. */
  function SetURLs(imageURL: string, processedBlobURL: string): seq<string>
  {
    (if imageURL != "" then [imageURL] else []) + (if processedBlobURL != "" then [processedBlobURL] else [])
  }

  /** The upload endpoint's parsed reply: `res.ok`, `data.filePath`, `data.error` ("" when absent). */
  datatype UploadReply = UploadReply(ok: bool, filePath: string, error: string)

  /** `upload-${Date.now()}-${i}` with the given extension. */
  function UploadName(now: nat, i: nat, ext: string): string
  {
    "upload-" + NatToString(now) + "-" + NatToString(i) + ext
  }

  /**
   * What is sent for one page, and under which name: a page of type PDF as it is, under
   * its own name if it has one; any other page compressed to 2 MiB under a generated name.
   */
  function UploadForm(p: Photo, i: nat, now: nat, compress: Blob -> Result<Blob, string>)
    : Result<(Blob, string), string>
  {
    if p.blob.mimeType == "application/pdf" then
      Ok((p.blob, if NameOf(p.blob) != "" then NameOf(p.blob) else UploadName(now, i, ".pdf")))
    else
      match compress(p.blob)
      case Err(m) => Err(m)
      case Ok(c) =>
        var name := UploadName(now, i, ".jpg");
        Ok((Blob(c.mimeType, c.bytes, Some(name)), name))
  }

  /** One turn of the finalize loop: send the page and read the stored path from the reply. */
  function UploadPage(p: Photo, i: nat, now: nat, compress: Blob -> Result<Blob, string>,
                      post: (Blob, string) -> Result<UploadReply, string>): Result<string, string>
  {
    match UploadForm(p, i, now, compress)
    case Err(m) => Err(m)
    case Ok(form) =>
      match post(form.0, form.1)
      case Err(m) => Err(m)
      case Ok(reply) =>
        if !reply.ok || reply.filePath == "" then
          Err(if reply.error != "" then reply.error else UploadFailedMessage)
        else Ok(reply.filePath)
  }

  function FilePage(compress: Blob -> Result<Blob, string>, post: (Blob, string) -> Result<UploadReply, string>,
                    clock: nat -> nat): (Photo, nat) -> Result<string, string>
  {
    (p: Photo, i: nat) => UploadPage(p, i, clock(i), compress, post)
  }

  /**
   * Pages of type PDF are never compressed and keep their own name; every other page is
   * compressed (and fails with the compressor's message when that rejects).
   */
  lemma UploadFormSpec(p: Photo, i: nat, now: nat, compress: Blob -> Result<Blob, string>)
    ensures p.blob.mimeType == "application/pdf" && NameOf(p.blob) != "" ==>
              UploadForm(p, i, now, compress) == Ok((p.blob, NameOf(p.blob)))
    ensures p.blob.mimeType != "application/pdf" && compress(p.blob).Ok? ==>
              var f := UploadForm(p, i, now, compress);
              f.Ok? && f.value.0.bytes == compress(p.blob).value.bytes
              && f.value.0.mimeType == compress(p.blob).value.mimeType
              && f.value.1 == UploadName(now, i, ".jpg") && f.value.0.fileName == Some(f.value.1)
    ensures p.blob.mimeType != "application/pdf" && compress(p.blob).Err? ==>
              UploadForm(p, i, now, compress) == Err(compress(p.blob).error)
  {
  }

  /**
   * A file accepted as a PDF by its name alone (its type is something else) is not sent
   * as a PDF: at upload time it goes to the image compressor like any picture.
   */
  lemma NameOnlyPdfIsCompressed(p: Photo, i: nat, now: nat, compress: Blob -> Result<Blob, string>)
    requires IsPdfFile(p.blob) && p.blob.mimeType != "application/pdf"
    ensures compress(p.blob).Err? ==> UploadForm(p, i, now, compress) == Err(compress(p.blob).error)
    ensures compress(p.blob).Ok? ==>
              var c := compress(p.blob).value;
              UploadForm(p, i, now, compress)
                == Ok((Blob(c.mimeType, c.bytes, Some(UploadName(now, i, ".jpg"))), UploadName(now, i, ".jpg")))
  {
  }

  /**
   * The error message the session is left with after a finalize, as written: the `catch`
   * sets the failure's message, but the `finally` block's cleanup then clears it, so every
   * outcome leaves no message.
   */
  function ErrorAfterFinalize(result: Result<seq<string>, (nat, string)>): string
  {
    ""
  }

  /** The message is lost: a failed finalize leaves the same (empty) message as a successful one. */
  lemma FailureMessageLost(k: nat, m: string)
    ensures ErrorAfterFinalize(Err((k, m))) == ""
    ensures ErrorAfterFinalize(Err((k, m))) != UploadErrorPrefix + m
  {
  }

  /** The evidently intended message after a finalize: the failure's, prefixed, or none. */
  function ErrorAfterFinalizeIntended(result: Result<seq<string>, (nat, string)>): (e: string)
    ensures result.Err? ==> e == UploadErrorPrefix + result.error.1 && e != ""
    ensures result.Ok? ==> e == ""
  {
    if result.Err? then UploadErrorPrefix + result.error.1 else ""
  }

  /** With the intended message a failed finalize can be told from a successful one. */
  lemma IntendedMessageTellsFailure(a: Result<seq<string>, (nat, string)>, b: Result<seq<string>, (nat, string)>)
    requires a.Err? && b.Ok?
    ensures ErrorAfterFinalizeIntended(a) != ErrorAfterFinalizeIntended(b)
  {
  }

  /**
   * `handleChange` stops after clearing the error and setting at most a message: no file,
   * a file over 10 MiB, a PDF with a bad header, or a HEIC file the converter rejects.
   */
  predicate ChoiceRejected(files: seq<Blob>, convert: Blob -> Result<Blob, string>)
  {
    files == [] || files[0].Size() > MaxFileSize
    || (IsPdfFile(files[0]) && !PdfHeaderOk(files[0].bytes))
    || (!IsPdfFile(files[0]) && IsHeicFile(files[0]) && convert(files[0]).Err?)
  }

  /** The state of one upload session. */
  class FileSession {
    var mode: Mode
    var file: Option<Blob>
    var imageURL: string
    var processedBlobURL: string
    var processedBlob: Option<Blob>
    var initialCorners: Option<seq<Corner>>
    var photos: seq<Photo>
    var error: string
    var uploading: bool
    var hasProcessed: bool      // hasProcessedRef.current
    var revoked: seq<string>    // the object URLs revoked so far, in order

    /** The manual corrector is only shown with four corners; the preview always has its page. */
    predicate Valid()
      reads this
    {
      (mode == Manual ==> initialCorners.Some? && |initialCorners.value| == 4)
      && (mode == PreviewProcessed ==> processedBlob.Some? && processedBlobURL != "")
    }

    constructor ()
      ensures Valid()
      ensures mode == Select && file == None && imageURL == "" && processedBlobURL == ""
      ensures processedBlob == None && initialCorners == None && photos == [] && error == ""
      ensures !uploading && !hasProcessed && revoked == []
    {
      mode := Select;
      file := None;
      imageURL := "";
      processedBlobURL := "";
      processedBlob := None;
      initialCorners := None;
      photos := [];
      error := "";
      uploading := false;
      hasProcessed := false;
      revoked := [];
    }

    /** `cleanupCurrent`: revokes the set URLs and clears the page being worked on and the error. */
    method CleanupCurrent()
      modifies this
      ensures revoked == old(revoked) + SetURLs(old(imageURL), old(processedBlobURL))
      ensures file == None && imageURL == "" && processedBlobURL == "" && processedBlob == None
      ensures initialCorners == None && error == ""
      ensures mode == old(mode) && photos == old(photos) && uploading == old(uploading)
      ensures hasProcessed == old(hasProcessed)
      ensures mode != Manual && mode != PreviewProcessed ==> Valid()
    {
      revoked := revoked + SetURLs(imageURL, processedBlobURL);
      file := None;
      imageURL := "";
      processedBlobURL := "";
      processedBlob := None;
      initialCorners := None;
      error := "";
    }

    /**
     * `handleChange` for the chosen files (only the first is looked at). `url` is the object
     * URL the browser creates for the file (or for its converted image), and `convert`
     * the HEIC-to-JPEG conversion.
     */
    method HandleChange(files: seq<Blob>, url: string, convert: Blob -> Result<Blob, string>)
      requires Valid()
      modifies this
      ensures Valid()
      ensures uploading == old(uploading)
      ensures files == [] ==> error == ""
      ensures files != [] && files[0].Size() > MaxFileSize ==> error == TooLargeMessage
      ensures files != [] && files[0].Size() <= MaxFileSize && IsPdfFile(files[0]) && !PdfHeaderOk(files[0].bytes) ==>
                error == BadPdfMessage
      ensures files != [] && files[0].Size() <= MaxFileSize && !IsPdfFile(files[0]) && IsHeicFile(files[0])
              && convert(files[0]).Err? ==>
                error == HeicFailedPrefix + convert(files[0]).error
      // A rejected choice sets only the error.
      ensures ChoiceRejected(files, convert) ==>
                mode == old(mode) && photos == old(photos) && file == old(file) && imageURL == old(imageURL)
                && processedBlob == old(processedBlob) && processedBlobURL == old(processedBlobURL)
                && initialCorners == old(initialCorners) && hasProcessed == old(hasProcessed)
                && revoked == old(revoked)
      ensures files != [] && files[0].Size() <= MaxFileSize && IsPdfFile(files[0]) && PdfHeaderOk(files[0].bytes) ==>
                photos == old(photos) + [Photo(files[0], url)] && mode == Select && file == None
                && imageURL == "" && processedBlob == None && processedBlobURL == "" && initialCorners == None
                && error == "" && hasProcessed == old(hasProcessed)
                && revoked == old(revoked) + SetURLs(old(imageURL), old(processedBlobURL))
      ensures files != [] && files[0].Size() <= MaxFileSize && !IsPdfFile(files[0]) && !IsHeicFile(files[0]) ==>
                file == Some(AsFile(files[0], NameOf(files[0]))) && imageURL == url && mode == Auto && !hasProcessed && error == ""
      ensures files != [] && files[0].Size() <= MaxFileSize && !IsPdfFile(files[0]) && IsHeicFile(files[0])
              && convert(files[0]).Ok? ==>
                file == Some(AsFile(convert(files[0]).value, NameOf(files[0])))
                && imageURL == url && mode == Auto && !hasProcessed && error == ""
      // An image going to the automatic correction keeps the collection and the rest of the page state.
      ensures files != [] && files[0].Size() <= MaxFileSize && !IsPdfFile(files[0])
              && !(IsHeicFile(files[0]) && convert(files[0]).Err?) ==>
                photos == old(photos) && processedBlob == old(processedBlob)
                && processedBlobURL == old(processedBlobURL) && initialCorners == old(initialCorners)
                && revoked == old(revoked)
    {
      error := "";
      if |files| == 0 {
        return;
      }
      var f := files[0];
      if f.Size() > MaxFileSize {
        error := TooLargeMessage;
        return;
      }
      if IsPdfFile(f) {
        if !PdfHeaderOk(f.bytes) {
          error := BadPdfMessage;
          return;
        }
        photos := photos + [Photo(f, url)];
        CleanupCurrent();
        mode := Select;
        return;
      }
      var imageBlob := f;
      if IsHeicFile(f) {
        var converted := convert(f);
        if converted.Err? {
          error := HeicFailedPrefix + converted.error;
          return;
        }
        imageBlob := converted.value;
      }
      file := Some(AsFile(imageBlob, NameOf(f)));
      imageURL := url;
      mode := Auto;
      hasProcessed := false;
    }

    /** `handleAutoSuccess`: at most once per guard reset; keeps the cropped blob and shows it. */
    method HandleAutoSuccess(blob: Blob, url: string)
      requires Valid() && url != ""
      modifies this
      ensures Valid()
      ensures old(hasProcessed) ==> mode == old(mode) && processedBlob == old(processedBlob)
                                    && processedBlobURL == old(processedBlobURL)
      ensures !old(hasProcessed) ==> processedBlob == Some(blob) && processedBlobURL == url && mode == PreviewProcessed
      ensures hasProcessed && error == old(error) && photos == old(photos) && file == old(file)
      ensures imageURL == old(imageURL) && initialCorners == old(initialCorners) && revoked == old(revoked)
      ensures uploading == old(uploading)
    {
      if hasProcessed {
        return;
      }
      hasProcessed := true;
      processedBlobURL := url;
      processedBlob := Some(blob);
      mode := PreviewProcessed;
    }

    /**
     * `handleAutoError`: ignored once the guard is set; otherwise the message is shown and,
     * once the image has loaded, the corners are set 10% in and the manual corrector shown.
     * The guard is left as it is.
     */
    method HandleAutoError(message: string, loaded: Option<(real, real)>)
      requires Valid()
      modifies this
      ensures Valid()
      ensures old(hasProcessed) ==> mode == old(mode) && error == old(error) && initialCorners == old(initialCorners)
      ensures !old(hasProcessed) ==> error == AutoFailedPrefix + message
      ensures !old(hasProcessed) && loaded.Some? ==>
                mode == Manual && initialCorners == Some(InsetCorners(loaded.value.0, loaded.value.1))
      ensures !old(hasProcessed) && loaded.None? ==> mode == old(mode) && initialCorners == old(initialCorners)
      ensures hasProcessed == old(hasProcessed) && photos == old(photos) && file == old(file)
      ensures imageURL == old(imageURL) && processedBlob == old(processedBlob)
      ensures processedBlobURL == old(processedBlobURL) && revoked == old(revoked) && uploading == old(uploading)
    {
      if hasProcessed {
        return;
      }
      error := AutoFailedPrefix + message;
      if loaded.Some? {
        initialCorners := Some(InsetCorners(loaded.value.0, loaded.value.1));
        mode := Manual;
      }
    }

    /** `handleAddToPhotos`: without a cropped page nothing; otherwise it is appended last and the page cleaned up. */
    method HandleAddToPhotos()
      requires Valid()
      modifies this
      ensures Valid()
      ensures old(processedBlob).None? || old(processedBlobURL) == "" ==>
                mode == old(mode) && photos == old(photos) && processedBlob == old(processedBlob)
                && error == old(error) && revoked == old(revoked) && file == old(file)
                && imageURL == old(imageURL) && processedBlobURL == old(processedBlobURL)
                && initialCorners == old(initialCorners)
      ensures old(processedBlob).Some? && old(processedBlobURL) != "" ==>
                photos == old(photos) + [Photo(old(processedBlob).value, old(processedBlobURL))]
                && mode == Select && file == None && imageURL == "" && processedBlob == None
                && processedBlobURL == "" && initialCorners == None && error == ""
                && revoked == old(revoked) + SetURLs(old(imageURL), old(processedBlobURL))
      ensures hasProcessed == old(hasProcessed) && uploading == old(uploading)
    {
      if processedBlob.None? || processedBlobURL == "" {
        return;
      }
      photos := photos + [Photo(processedBlob.value, processedBlobURL)];
      CleanupCurrent();
      mode := Select;
    }

    /** `removePhotoAt`: an index outside the collection changes nothing. */
    method RemovePhotoAt(idx: int)
      requires Valid()
      modifies this
      ensures Valid()
      ensures 0 <= idx < |old(photos)| ==> photos == old(photos)[..idx] + old(photos)[idx + 1..]
      ensures 0 <= idx < |old(photos)| ==>
                revoked == old(revoked) + (if old(photos)[idx].url != "" then [old(photos)[idx].url] else [])
      ensures !(0 <= idx < |old(photos)|) ==> photos == old(photos) && revoked == old(revoked)
      ensures mode == old(mode) && file == old(file) && imageURL == old(imageURL) && error == old(error)
      ensures processedBlob == old(processedBlob) && processedBlobURL == old(processedBlobURL)
      ensures initialCorners == old(initialCorners) && hasProcessed == old(hasProcessed) && uploading == old(uploading)
    {
      if 0 <= idx < |photos| {
        if photos[idx].url != "" {
          revoked := revoked + [photos[idx].url];
        }
        photos := photos[..idx] + photos[idx + 1..];
      }
    }

    /**
     * `handleUploadAllAndProceed`, as written. With no page only the error is set.
     * Otherwise the pages are uploaded in order until one fails; when all succeed
     * `onSuccess` receives the paths in collection order. Either way the `finally` block
     * then clears the page being worked on (and with it the error) and the whole collection.
     */
    method HandleUploadAllAndProceed(compress: Blob -> Result<Blob, string>,
                                     post: (Blob, string) -> Result<UploadReply, string>,
                                     clock: nat -> nat)
      returns (onSuccess: Option<seq<string>>)
      requires Valid()
      modifies this
      ensures Valid()
      ensures old(photos) == [] ==> (onSuccess == None && error == EmptyCollectionMessage
                                     && mode == old(mode) && photos == old(photos) && revoked == old(revoked))
      ensures var res := Collect(Outcomes(old(photos), FilePage(compress, post, clock)));
              old(photos) != [] ==>
                photos == [] && !uploading && error == ErrorAfterFinalize(res)
                && file == None && imageURL == "" && processedBlob == None && processedBlobURL == ""
                && initialCorners == None
                && (res.Ok? ==> onSuccess == Some(res.value) && mode == UploadingAll
                                && revoked == old(revoked) + Urls(old(photos)) + SetURLs(old(imageURL), old(processedBlobURL)))
                && (res.Err? ==> onSuccess == None && mode == Select && res.error.0 <= |old(photos)|
                                 && revoked == old(revoked) + Urls(old(photos)[..res.error.0]) + SetURLs(old(imageURL), old(processedBlobURL)))
    {
      if |photos| == 0 {
        error := EmptyCollectionMessage;
        return None;
      }
      // The uploads see none of the session's fields, so the order of these steps is immaterial.
      var result, urls := UploadInOrder(photos, FilePage(compress, post, clock));
      mode := UploadingAll;
      uploading := true;
      error := "";
      revoked := revoked + urls;
      if result.Ok? {
        onSuccess := Some(result.value);
      } else {
        error := UploadErrorPrefix + result.error.1;
        mode := Select;
        onSuccess := None;
      }
      // finally
      uploading := false;
      CleanupCurrent();
      photos := [];
    }

    /** `handleRetake`: cleans up the page being worked on and returns to file selection. */
    method HandleRetake()
      requires Valid()
      modifies this
      ensures Valid()
      ensures mode == Select && file == None && imageURL == "" && processedBlob == None
      ensures processedBlobURL == "" && initialCorners == None && error == ""
      ensures revoked == old(revoked) + SetURLs(old(imageURL), old(processedBlobURL))
      ensures photos == old(photos) && hasProcessed == old(hasProcessed) && uploading == old(uploading)
    {
      CleanupCurrent();
      mode := Select;
    }

    /**
     * `handleSwitchToManual`: without an image URL nothing; otherwise, once the image has
     * loaded, the corners are set 10% in, the guard is reset and the manual corrector shown.
     */
    method HandleSwitchToManual(loaded: Option<(real, real)>)
      requires Valid()
      modifies this
      ensures Valid()
      ensures old(imageURL) != "" && loaded.Some? ==>
                initialCorners == Some(InsetCorners(loaded.value.0, loaded.value.1)) && !hasProcessed && mode == Manual
      ensures old(imageURL) == "" || loaded.None? ==>
                initialCorners == old(initialCorners) && hasProcessed == old(hasProcessed) && mode == old(mode)
      ensures error == old(error) && photos == old(photos) && file == old(file) && imageURL == old(imageURL)
      ensures processedBlob == old(processedBlob) && processedBlobURL == old(processedBlobURL)
      ensures revoked == old(revoked) && uploading == old(uploading)
    {
      if imageURL == "" {
        return;
      }
      if loaded.Some? {
        initialCorners := Some(InsetCorners(loaded.value.0, loaded.value.1));
        hasProcessed := false;
        mode := Manual;
      }
    }

    /** `handleManualConfirm`: guarded like the automatic success; keeps the cropped blob and shows it. */
    method HandleManualConfirm(blob: Blob, url: string)
      requires Valid() && url != ""
      modifies this
      ensures Valid()
      ensures old(hasProcessed) ==> mode == old(mode) && processedBlob == old(processedBlob)
                                    && processedBlobURL == old(processedBlobURL)
      ensures !old(hasProcessed) ==> processedBlob == Some(blob) && processedBlobURL == url && mode == PreviewProcessed
      ensures hasProcessed && error == old(error) && photos == old(photos) && file == old(file)
      ensures imageURL == old(imageURL) && initialCorners == old(initialCorners) && revoked == old(revoked)
      ensures uploading == old(uploading)
    {
      if hasProcessed {
        return;
      }
      hasProcessed := true;
      processedBlob := Some(blob);
      processedBlobURL := url;
      mode := PreviewProcessed;
    }
  }
}
