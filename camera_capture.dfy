/**
 * The camera capture session (frontend/src/components/CameraCapture.jsx): take a frame,
 * let the correction worker crop it (or correct it by hand), collect the cropped pages,
 * and finally compress and upload every page in order.
 *
 * Browser services are parameters: the object URL of a captured frame or blob is passed
 * in, the loaded image's size is passed in (or `None` when it never loads), and the
 * compression, the upload request and the clock are functions.
 */
module CameraCapture {
  import opened Base
  import opened Js
  import opened Media

  datatype Mode = Preview | Auto | PreviewProcessed | Manual | UploadingAll

  const NoFrameMessage: string := "Kein Kamerabild verfügbar."
  const EmptyCollectionMessage: string := "Mindestens eine Seite muss aufgenommen werden."
  const UploadFailedMessage: string := "Ein Upload schlug fehl."
  const UploadErrorPrefix: string := "Fehler beim Hochladen: "

  /** The parsed answer of the upload endpoint: `res.ok`, `data.filePath`, `data.error` ("" when absent). */
  datatype UploadReply = UploadReply(ok: bool, filePath: string, error: string)

  /** `scan-${Date.now()}-${i}.jpg`. */
  function ScanFileName(now: nat, i: nat): string
  {
    "scan-" + NatToString(now) + "-" + NatToString(i) + ".jpg"
  }

  /**
   * One turn of the finalize loop for page `i`: compress it to 2 MiB, post it as a file,
   * and read the stored path from the reply; a rejection, a failed reply or a reply without
   * a path ends in the message that is thrown.
   */
  function UploadPage(p: Photo, i: nat, now: nat,
                      compress: Blob -> Result<Blob, string>,
                      post: Blob -> Result<UploadReply, string>): Result<string, string>
  {
    match compress(p.blob)
    case Err(m) => Err(m)
    case Ok(c) =>
      match post(UploadedFile(c, now, i))
      case Err(m) => Err(m)
      case Ok(reply) =>
        if !reply.ok || reply.filePath == "" then
          Err(if reply.error != "" then reply.error else UploadFailedMessage)
        else Ok(reply.filePath)
  }

  /**
   * A page succeeds exactly when it compresses, its post is answered, and the answer is
   * `ok` with a path; the path is then what the page yields.
   */
  lemma UploadPageSpec(p: Photo, i: nat, now: nat,
                       compress: Blob -> Result<Blob, string>,
                       post: Blob -> Result<UploadReply, string>)
    ensures var r := UploadPage(p, i, now, compress, post);
            var c := compress(p.blob);
            (r.Ok? <==> c.Ok? && post(UploadedFile(c.value, now, i)).Ok?
                        && post(UploadedFile(c.value, now, i)).value.ok
                        && post(UploadedFile(c.value, now, i)).value.filePath != "")
            && (r.Ok? ==> r.value == post(UploadedFile(c.value, now, i)).value.filePath)
            && (c.Err? ==> r == Err(c.error))
  {
  }

  /** `new File([compressed], name, { type: compressed.type })`. */
  function UploadedFile(compressed: Blob, now: nat, i: nat): (f: Blob)
    ensures f.fileName == Some(ScanFileName(now, i)) && f.bytes == compressed.bytes
    ensures f.mimeType == compressed.mimeType
  {
    Blob(compressed.mimeType, compressed.bytes, Some(ScanFileName(now, i)))
  }

  /** The upload of page `p` at position `i`, at the time `clock(i)`. */
  function ScanPage(compress: Blob -> Result<Blob, string>, post: Blob -> Result<UploadReply, string>,
                    clock: nat -> nat): (Photo, nat) -> Result<string, string>
  {
    (p: Photo, i: nat) => UploadPage(p, i, clock(i), compress, post)
  }

  /** When every page uploads, the paths handed on are the pages' replies, in collection order. */
  lemma UploadedPathsInOrder(photos: seq<Photo>, compress: Blob -> Result<Blob, string>,
                             post: Blob -> Result<UploadReply, string>, clock: nat -> nat)
    requires Collect(Outcomes(photos, ScanPage(compress, post, clock))).Ok?
    ensures var paths := Collect(Outcomes(photos, ScanPage(compress, post, clock))).value;
            |paths| == |photos| &&
            forall i :: 0 <= i < |photos| ==>
              compress(photos[i].blob).Ok? &&
              post(UploadedFile(compress(photos[i].blob).value, clock(i), i)).Ok? &&
              paths[i] == post(UploadedFile(compress(photos[i].blob).value, clock(i), i)).value.filePath
  {
    var rs := Outcomes(photos, ScanPage(compress, post, clock));
    forall i | 0 <= i < |photos|
      ensures compress(photos[i].blob).Ok?
      ensures post(UploadedFile(compress(photos[i].blob).value, clock(i), i)).Ok?
      ensures Collect(rs).value[i] == post(UploadedFile(compress(photos[i].blob).value, clock(i), i)).value.filePath
    {
      assert rs[i].Ok?;
      UploadPageSpec(photos[i], i, clock(i), compress, post);
    }
  }

  /** The state of one capture session. */
  class CameraSession {
    var mode: Mode
    var imgSrc: string
    var processedBlob: Option<Blob>
    var processedBlobURL: string
    var initialCorners: Option<seq<Corner>>
    var photos: seq<Photo>
    var error: string
    var hasProcessed: bool      // hasProcessedRef.current
    var revoked: seq<string>    // the object URLs revoked so far, in order

    /**
     * The session's invariant: the manual corrector is only shown with four corners, and
     * the preview of a cropped page always has that page.
     */
    predicate Valid()
      reads this
    {
      (mode == Manual ==> initialCorners.Some? && |initialCorners.value| == 4)
      && (mode == PreviewProcessed ==> processedBlob.Some? && processedBlobURL != "")
    }

    constructor ()
      ensures Valid()
      ensures mode == Preview && imgSrc == "" && processedBlob == None && processedBlobURL == ""
      ensures initialCorners == None && photos == [] && error == "" && !hasProcessed && revoked == []
    {
      mode := Preview;
      imgSrc := "";
      processedBlob := None;
      processedBlobURL := "";
      initialCorners := None;
      photos := [];
      error := "";
      hasProcessed := false;
      revoked := [];
    }

    /**
     * `capture`: without a video frame (no video, or a width of 0) only the error is set;
     * otherwise the frame's object URL becomes the source and the session goes to `auto`
     * with the guard reset and the error cleared.
     */
    method Capture(videoWidth: nat, frameURL: string)
      requires Valid()
      modifies this
      ensures Valid()
      ensures videoWidth == 0 ==> error == NoFrameMessage && mode == old(mode) && imgSrc == old(imgSrc)
                                  && hasProcessed == old(hasProcessed)
      ensures videoWidth > 0 ==> imgSrc == frameURL && mode == Auto && !hasProcessed && error == ""
      ensures processedBlob == old(processedBlob) && processedBlobURL == old(processedBlobURL)
      ensures initialCorners == old(initialCorners) && photos == old(photos) && revoked == old(revoked)
    {
      if videoWidth == 0 {
        error := NoFrameMessage;
        return;
      }
      imgSrc := frameURL;
      mode := Auto;
      hasProcessed := false;
      error := "";
    }

    /**
     * `handleAutoSuccess`: consumed at most once per guard reset: with the guard set it
     * changes nothing; otherwise it sets the guard, keeps the cropped blob and shows it.
     */
    method HandleAutoSuccess(blob: Blob, url: string)
      requires Valid() && url != ""
      modifies this
      ensures Valid()
      ensures old(hasProcessed) ==> mode == old(mode) && processedBlob == old(processedBlob)
                                    && processedBlobURL == old(processedBlobURL) && error == old(error)
      ensures !old(hasProcessed) ==> processedBlob == Some(blob) && processedBlobURL == url
                                     && error == "" && mode == PreviewProcessed
      ensures hasProcessed
      ensures imgSrc == old(imgSrc) && initialCorners == old(initialCorners) && photos == old(photos)
      ensures revoked == old(revoked)
    {
      if hasProcessed {
        return;
      }
      hasProcessed := true;
      processedBlob := Some(blob);
      processedBlobURL := url;
      error := "";
      mode := PreviewProcessed;
    }

    /**
     * `startManualAfterAuto`: clears the error; once the source image has loaded (its size
     * is `loaded`), the corners are set 10% in from the edges, the guard is reset and the
     * manual corrector is shown.
     */
    method StartManualAfterAuto(loaded: Option<(real, real)>)
      requires Valid()
      modifies this
      ensures Valid()
      ensures error == ""
      ensures loaded.Some? ==> initialCorners == Some(InsetCorners(loaded.value.0, loaded.value.1))
                               && !hasProcessed && mode == Manual
      ensures loaded.None? ==> initialCorners == old(initialCorners) && hasProcessed == old(hasProcessed)
                               && mode == old(mode)
      ensures imgSrc == old(imgSrc) && processedBlob == old(processedBlob)
      ensures processedBlobURL == old(processedBlobURL) && photos == old(photos) && revoked == old(revoked)
    {
      error := "";
      if loaded.Some? {
        initialCorners := Some(InsetCorners(loaded.value.0, loaded.value.1));
        hasProcessed := false;
        mode := Manual;
      }
    }

    /**
     * The `onError` callback of the correction worker: ignored once the guard is set;
     * otherwise the manual corrector is started and the worker's message is shown.
     */
    method OnAutoError(message: string, loaded: Option<(real, real)>)
      requires Valid()
      modifies this
      ensures Valid()
      ensures old(hasProcessed) ==> mode == old(mode) && error == old(error) && hasProcessed
                                    && initialCorners == old(initialCorners)
      ensures !old(hasProcessed) ==> error == message && !hasProcessed
      ensures !old(hasProcessed) && loaded.Some? ==>
                mode == Manual && initialCorners == Some(InsetCorners(loaded.value.0, loaded.value.1))
      ensures !old(hasProcessed) && loaded.None? ==> mode == old(mode) && initialCorners == old(initialCorners)
      ensures imgSrc == old(imgSrc) && processedBlob == old(processedBlob)
      ensures processedBlobURL == old(processedBlobURL) && photos == old(photos) && revoked == old(revoked)
    {
      if !hasProcessed {
        StartManualAfterAuto(loaded);
        error := message;
      }
    }

    /**
     * The corrector's `onConfirm`: guarded like the automatic success; keeps the cropped
     * blob and shows it.
     */
    method ManualConfirm(blob: Blob, url: string)
      requires Valid() && url != ""
      modifies this
      ensures Valid()
      ensures old(hasProcessed) ==> mode == old(mode) && processedBlob == old(processedBlob)
                                    && processedBlobURL == old(processedBlobURL)
      ensures !old(hasProcessed) ==> processedBlob == Some(blob) && processedBlobURL == url
                                     && mode == PreviewProcessed
      ensures hasProcessed && error == old(error)
      ensures imgSrc == old(imgSrc) && initialCorners == old(initialCorners) && photos == old(photos)
      ensures revoked == old(revoked)
    {
      if hasProcessed {
        return;
      }
      hasProcessed := true;
      processedBlob := Some(blob);
      processedBlobURL := url;
      mode := PreviewProcessed;
    }

    /**
     * `handleAddToPhotos`: without a cropped page it changes nothing; otherwise the page is
     * appended last and the session returns to the camera with the transient state cleared.
     */
    method HandleAddToPhotos()
      requires Valid()
      modifies this
      ensures Valid()
      ensures old(processedBlob).None? || old(processedBlobURL) == "" ==>
                mode == old(mode) && photos == old(photos) && imgSrc == old(imgSrc)
                && processedBlob == old(processedBlob) && processedBlobURL == old(processedBlobURL)
                && initialCorners == old(initialCorners) && error == old(error)
      ensures old(processedBlob).Some? && old(processedBlobURL) != "" ==>
                photos == old(photos) + [Photo(old(processedBlob).value, old(processedBlobURL))]
                && mode == Preview && imgSrc == "" && processedBlob == None && processedBlobURL == ""
                && initialCorners == None && error == ""
      ensures hasProcessed == old(hasProcessed) && revoked == old(revoked)
    {
      if processedBlob.None? || processedBlobURL == "" {
        return;
      }
      photos := photos + [Photo(processedBlob.value, processedBlobURL)];
      imgSrc := "";
      processedBlob := None;
      processedBlobURL := "";
      initialCorners := None;
      error := "";
      mode := Preview;
    }

    /** `removePhotoAt`: revokes that page's URL and removes exactly that page, keeping the order of the rest. */
    method RemovePhotoAt(idx: nat)
      requires Valid() && idx < |photos|
      modifies this
      ensures Valid()
      ensures photos == old(photos)[..idx] + old(photos)[idx + 1..]
      ensures revoked == old(revoked) + [old(photos)[idx].url]
      ensures mode == old(mode) && imgSrc == old(imgSrc) && processedBlob == old(processedBlob)
      ensures processedBlobURL == old(processedBlobURL) && initialCorners == old(initialCorners)
      ensures error == old(error) && hasProcessed == old(hasProcessed)
    {
      revoked := revoked + [photos[idx].url];
      photos := photos[..idx] + photos[idx + 1..];
    }

    /** `handleRetakeOrManual`: revokes both object URLs and returns to the camera with the transient state cleared. */
    method HandleRetakeOrManual()
      requires Valid()
      modifies this
      ensures Valid()
      ensures revoked == old(revoked) + [old(imgSrc), old(processedBlobURL)]
      ensures mode == Preview && imgSrc == "" && processedBlob == None && processedBlobURL == ""
      ensures initialCorners == None && error == ""
      ensures photos == old(photos) && hasProcessed == old(hasProcessed)
    {
      revoked := revoked + [imgSrc, processedBlobURL];
      mode := Preview;
      imgSrc := "";
      processedBlob := None;
      processedBlobURL := "";
      initialCorners := None;
      error := "";
    }

    /**
     * `handleUploadAllAndProceed`. With no page only the error is set. Otherwise every page
     * is uploaded in order until one fails; each uploaded page's URL is revoked. When all
     * succeed, `onSuccess` receives the paths in collection order; on the first failure the
     * session returns to the camera with that failure's message and keeps its pages.
     */
    method HandleUploadAllAndProceed(compress: Blob -> Result<Blob, string>,
                                     post: Blob -> Result<UploadReply, string>,
                                     clock: nat -> nat)
      returns (onSuccess: Option<seq<string>>)
      requires Valid()
      modifies this
      ensures Valid()
      ensures old(photos) == [] ==> (onSuccess == None && error == EmptyCollectionMessage
                                     && mode == old(mode) && revoked == old(revoked))
      ensures var res := Collect(Outcomes(old(photos), ScanPage(compress, post, clock)));
              old(photos) != [] && res.Ok? ==>
                onSuccess == Some(res.value) && mode == UploadingAll && error == ""
                && revoked == old(revoked) + Urls(old(photos))
      ensures var res := Collect(Outcomes(old(photos), ScanPage(compress, post, clock)));
              old(photos) != [] && res.Err? ==>
                onSuccess == None && mode == Preview && error == UploadErrorPrefix + res.error.1
                && res.error.0 <= |old(photos)| && revoked == old(revoked) + Urls(old(photos)[..res.error.0])
      ensures photos == old(photos) && imgSrc == old(imgSrc) && processedBlob == old(processedBlob)
      ensures processedBlobURL == old(processedBlobURL) && initialCorners == old(initialCorners)
      ensures hasProcessed == old(hasProcessed)
    {
      if |photos| == 0 {
        error := EmptyCollectionMessage;
        return None;
      }
      mode := UploadingAll;
      error := "";
      var result, urls := UploadInOrder(photos, ScanPage(compress, post, clock));
      revoked := revoked + urls;
      if result.Ok? {
        onSuccess := Some(result.value);
      } else {
        error := UploadErrorPrefix + result.error.1;
        mode := Preview;
        onSuccess := None;
      }
    }
  }
}
