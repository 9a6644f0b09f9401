/**
 * The review page (frontend/src/pages/Review.jsx): loads the OCR text of every uploaded
 * page, then lets the user edit, undo, rotate and reload pages one at a time.
 *
 * The per-page state is six parallel arrays. The handlers replace them with copies changed
 * at one index, so they are functions from one `Pages` value to the next. The network is
 * a parameter: `online(i)` is `navigator.onLine` when page i is reached, `ocr(fp)` the
 * parsed reply of `/api/process` (or the message of the error thrown on the way).
 */
module Review {
  import opened Base
  import opened Js
  import opened Media

  const NoPagesMessage: string := "Keine Seiten übergeben."
  const PdfText: string := "(PDF - kein OCR)"
  const OfflineMessage: string := "Offline: Verbindung prüfen"
  /** The message of the `ReferenceError` that the reload handler's warning branch throws. */
  const UndeclaredIMessage: string := "i is not defined"
  /** The aspect ratio of an A4 page, used for PDF pages. */
  const A4Ratio: real := 0.707

  /** `isPdf`: the path ends in `.pdf`, in any case. */
  predicate IsPdf(fp: string)
  {
    EndsWith(ToLower(fp), ".pdf")
  }

  /** `text || ''` of a reply: its `text` when that is a non-empty string, else the empty text. */
  function TextOf(payload: Json): (t: string)
    ensures payload.JObj? && "text" in payload.fields && payload.fields["text"].JStr? ==> t == payload.fields["text"].s
    ensures !(payload.JObj? && "text" in payload.fields && payload.fields["text"].JStr?) ==> t == ""
  {
    if payload.JObj? && "text" in payload.fields && payload.fields["text"].JStr? then payload.fields["text"].s else ""
  }

  /** `payload.warning` is truthy. */
  predicate HasWarning(payload: Json)
  {
    payload.JObj? && "warning" in payload.fields && Truthy(payload.fields["warning"])
  }

  /** The text one turn of the load loop contributes, or the error that aborts the loop. */
  function PageText(fp: string, i: nat, online: nat -> bool, ocr: string -> Result<Json, string>): Result<string, string>
  {
    if IsPdf(fp) then Ok(PdfText)
    else if !online(i) then Err(OfflineMessage)
    else
      match ocr(fp)
      case Err(m) => Err(m)
      case Ok(payload) => Ok(TextOf(payload))
  }

  function LoadOutcomes(filePaths: seq<string>, online: nat -> bool, ocr: string -> Result<Json, string>)
    : (rs: seq<Result<string, string>>)
    ensures |rs| == |filePaths|
    ensures forall i :: 0 <= i < |filePaths| ==> rs[i] == PageText(filePaths[i], i, online, ocr)
  {
    seq(|filePaths|, i requires 0 <= i < |filePaths| => PageText(filePaths[i], i, online, ocr))
  }

  /** The paths sent for OCR when the loop runs over `fps`: every one that is not a PDF, in order. */
  function OcrRequests(fps: seq<string>): (r: seq<string>)
    ensures |r| <= |fps|
  {
    if fps == [] then []
    else OcrRequests(fps[..|fps| - 1]) + (if IsPdf(fps[|fps| - 1]) then [] else [fps[|fps| - 1]])
  }

  /** Exactly the paths that are not PDFs are sent for OCR. */
  lemma {:induction false} OcrRequestsNonPdf(fps: seq<string>)
    ensures forall p :: p in OcrRequests(fps) ==> p in fps && !IsPdf(p)
    ensures forall p :: p in fps && !IsPdf(p) ==> p in OcrRequests(fps)
  {
    if fps != [] {
      var init := fps[..|fps| - 1];
      OcrRequestsNonPdf(init);
      assert fps == init + [fps[|fps| - 1]];
    }
  }

  lemma OcrRequestsPrefix(fps: seq<string>, i: nat)
    requires i < |fps|
    ensures OcrRequests(fps[..i + 1]) == OcrRequests(fps[..i]) + (if IsPdf(fps[i]) then [] else [fps[i]])
  {
    assert fps[..i + 1][..i] == fps[..i];
  }

  /** A PDF page never fails and is never sent for OCR; its text is the fixed placeholder. */
  lemma PdfPagesSkipOcr(fp: string, i: nat, online: nat -> bool, ocr: string -> Result<Json, string>)
    requires IsPdf(fp)
    ensures PageText(fp, i, online, ocr) == Ok(PdfText)
    ensures OcrRequests([fp]) == []
  {
    assert [fp][..0] == [];
  }

  /** The cases of one turn of the load loop, spelled out for the method below. */
  lemma PageTextCases(fp: string, i: nat, online: nat -> bool, ocr: string -> Result<Json, string>)
    ensures IsPdf(fp) ==> PageText(fp, i, online, ocr) == Ok(PdfText)
    ensures !IsPdf(fp) && !online(i) ==> PageText(fp, i, online, ocr) == Err(OfflineMessage)
    ensures !IsPdf(fp) && online(i) && ocr(fp).Err? ==> PageText(fp, i, online, ocr) == Err(ocr(fp).error)
    ensures !IsPdf(fp) && online(i) && ocr(fp).Ok? ==> PageText(fp, i, online, ocr) == Ok(TextOf(ocr(fp).value))
  {
  }

  /** The six per-page arrays. */
  datatype Pages = Pages(ocrTexts: seq<string>, textHistories: seq<seq<string>>, rotations: seq<int>,
                         loadingPage: seq<bool>, errorPages: seq<string>, ratios: seq<real>)

  /** The state before (or without) a successful load. */
  const NoPages: Pages := Pages([], [], [], [], [], [])

  predicate IsRightAngle(r: int)
  {
    r == 0 || r == 90 || r == 180 || r == 270
  }

  /** What a loaded page keeps: one entry per page in every array, and right-angle rotations. */
  predicate WellFormed(p: Pages)
  {
    var n := |p.ocrTexts|;
    |p.textHistories| == n && |p.rotations| == n && |p.loadingPage| == n && |p.errorPages| == n && |p.ratios| == n
    && forall i :: 0 <= i < n ==> IsRightAngle(p.rotations[i])
  }

  /** The aspect ratio of a page: 0.707 for a PDF, the image's own (1 when it does not load). */
  function PageRatio(fp: string, imageRatio: string -> Option<real>): real
  {
    if IsPdf(fp) then A4Ratio
    else if imageRatio(fp).Some? then imageRatio(fp).value
    else 1.0
  }

  /** The state right after a successful load. */
  function Loaded(texts: seq<string>, filePaths: seq<string>, imageRatio: string -> Option<real>): (p: Pages)
    requires |texts| == |filePaths|
    ensures WellFormed(p) && p.ocrTexts == texts
    ensures forall i :: 0 <= i < |texts| ==>
              p.textHistories[i] == [] && p.rotations[i] == 0 && !p.loadingPage[i] && p.errorPages[i] == ""
              && p.ratios[i] == PageRatio(filePaths[i], imageRatio)
  {
    Pages(texts, seq(|texts|, _ => []), seq(|texts|, _ => 0), seq(|texts|, _ => false), seq(|texts|, _ => ""),
          seq(|filePaths|, i requires 0 <= i < |filePaths| => PageRatio(filePaths[i], imageRatio)))
  }

  /**
   * The loop of the load effect: reads the pages in order until one fails. Returns what
   * `Collect` makes of the pages' outcomes and the paths sent for OCR.
   */
  method LoadTexts(filePaths: seq<string>, online: nat -> bool, ocr: string -> Result<Json, string>)
    returns (res: Result<seq<string>, (nat, string)>, requested: seq<string>)
    ensures res == Collect(LoadOutcomes(filePaths, online, ocr))
    ensures res.Ok? ==> requested == OcrRequests(filePaths)
    ensures res.Err? ==> res.error.0 < |filePaths|
                         && requested == OcrRequests(filePaths[..res.error.0])
                                         + (if online(res.error.0) then [filePaths[res.error.0]] else [])
  {
    ghost var rs := LoadOutcomes(filePaths, online, ocr);
    var texts: seq<string> := [];
    requested := [];
    var i := 0;
    while i < |filePaths|
      invariant 0 <= i <= |filePaths|
      invariant |texts| == i && forall j :: 0 <= j < i ==> rs[j] == Ok(texts[j])
      invariant requested == OcrRequests(filePaths[..i])
    {
      var fp := filePaths[i];
      OcrRequestsPrefix(filePaths, i);
      PageTextCases(fp, i, online, ocr);
      if IsPdf(fp) {
        texts := texts + [PdfText];
      } else {
        if !online(i) {
          CollectFirstErr(rs, i, OfflineMessage);
          return Err((i, OfflineMessage)), requested;
        }
        requested := requested + [fp];
        var reply := ocr(fp);
        if reply.Err? {
          CollectFirstErr(rs, i, reply.error);
          return Err((i, reply.error)), requested;
        }
        texts := texts + [TextOf(reply.value)];
      }
      i := i + 1;
    }
    assert filePaths[..i] == filePaths;
    CollectAllOk(rs, texts);
    res := Ok(texts);
  }

  /**
   * The load effect. Without pages only the error is set. Otherwise the first failure's
   * message becomes the page error and nothing else is set; when all pages succeed the
   * arrays are filled. Returns the page error, the new per-page state and the paths sent
   * for OCR.
   */
  method Load(filePaths: seq<string>, online: nat -> bool, ocr: string -> Result<Json, string>,
              imageRatio: string -> Option<real>)
    returns (errorAll: string, pages: Pages, requested: seq<string>)
    ensures filePaths == [] ==> errorAll == NoPagesMessage && pages == NoPages && requested == []
    ensures var res := Collect(LoadOutcomes(filePaths, online, ocr));
            filePaths != [] ==>
              (res.Ok? ==> errorAll == "" && pages == Loaded(res.value, filePaths, imageRatio)
                           && requested == OcrRequests(filePaths))
              && (res.Err? ==> errorAll == res.error.1 && pages == NoPages
                               && requested == OcrRequests(filePaths[..res.error.0])
                                               + (if online(res.error.0) then [filePaths[res.error.0]] else []))
  {
    if |filePaths| == 0 {
      return NoPagesMessage, NoPages, [];
    }
    var res;
    res, requested := LoadTexts(filePaths, online, ocr);
    if res.Err? {
      return res.error.1, NoPages, requested;
    }
    errorAll := "";
    pages := Loaded(res.value, filePaths, imageRatio);
  }

  /** `s.map((x, i) => i === idx ? v : x)`: `s` with entry `idx` replaced, if there is one. */
  function ReplaceAt<T>(s: seq<T>, idx: int, v: T): (r: seq<T>)
    ensures |r| == |s|
    ensures forall i :: 0 <= i < |s| ==> r[i] == if i == idx then v else s[i]
  {
    seq(|s|, i requires 0 <= i < |s| => if i == idx then v else s[i])
  }

  /** `handleTextChange`: the previous text of page `idx` is pushed onto its history and replaced. */
  function TextChange(p: Pages, idx: int, value: string): (q: Pages)
    requires WellFormed(p)
    ensures WellFormed(q) && |q.ocrTexts| == |p.ocrTexts|
    ensures 0 <= idx < |p.ocrTexts| ==>
              q.ocrTexts[idx] == value && q.textHistories[idx] == p.textHistories[idx] + [p.ocrTexts[idx]]
    ensures forall i :: 0 <= i < |p.ocrTexts| && i != idx ==>
              q.ocrTexts[i] == p.ocrTexts[i] && q.textHistories[i] == p.textHistories[i]
    ensures q.rotations == p.rotations && q.loadingPage == p.loadingPage
    ensures q.errorPages == p.errorPages && q.ratios == p.ratios
  {
    var histories := if 0 <= idx < |p.ocrTexts| then ReplaceAt(p.textHistories, idx, p.textHistories[idx] + [p.ocrTexts[idx]])
                     else p.textHistories;
    p.(textHistories := histories, ocrTexts := ReplaceAt(p.ocrTexts, idx, value))
  }

  /** `handleUndo`: with history, the last entry becomes the text again and is popped; otherwise nothing. */
  function Undo(p: Pages, idx: int): (q: Pages)
    requires WellFormed(p)
    ensures WellFormed(q) && |q.ocrTexts| == |p.ocrTexts|
    ensures !(0 <= idx < |p.ocrTexts|) || p.textHistories[idx] == [] ==> q == p
    ensures 0 <= idx < |p.ocrTexts| && p.textHistories[idx] != [] ==>
              var h := p.textHistories[idx];
              q.ocrTexts[idx] == h[|h| - 1] && q.textHistories[idx] == h[..|h| - 1]
    ensures forall i :: 0 <= i < |p.ocrTexts| && i != idx ==>
              q.ocrTexts[i] == p.ocrTexts[i] && q.textHistories[i] == p.textHistories[i]
    ensures q.rotations == p.rotations && q.loadingPage == p.loadingPage
    ensures q.errorPages == p.errorPages && q.ratios == p.ratios
  {
    if !(0 <= idx < |p.ocrTexts|) || p.textHistories[idx] == [] then p
    else
      var h := p.textHistories[idx];
      p.(textHistories := ReplaceAt(p.textHistories, idx, h[..|h| - 1]),
         ocrTexts := ReplaceAt(p.ocrTexts, idx, h[|h| - 1]))
  }

  /** A change followed by an undo on the same page restores both its text and its history. */
  lemma ChangeThenUndo(p: Pages, idx: int, value: string)
    requires WellFormed(p) && 0 <= idx < |p.ocrTexts|
    ensures Undo(TextChange(p, idx, value), idx) == p
  {
    var q := TextChange(p, idx, value);
    var r := Undo(q, idx);
    assert (p.textHistories[idx] + [p.ocrTexts[idx]])[..|p.textHistories[idx]|] == p.textHistories[idx];
    assert r.ocrTexts == p.ocrTexts;
    assert r.textHistories == p.textHistories;
  }

  /** `rotateLeft`: a quarter turn counter-clockwise, kept within 0..359. */
  function RotateLeft(p: Pages, idx: int): (q: Pages)
    requires WellFormed(p)
    ensures WellFormed(q)
    ensures q == p.(rotations := q.rotations)
    ensures 0 <= idx < |p.rotations| ==> q.rotations[idx] == (p.rotations[idx] + 270) % 360
    ensures forall i :: 0 <= i < |p.rotations| && i != idx ==> q.rotations[i] == p.rotations[i]
  {
    p.(rotations := if 0 <= idx < |p.rotations| then ReplaceAt(p.rotations, idx, (p.rotations[idx] + 270) % 360)
                    else p.rotations)
  }

  /** `rotateRight`: a quarter turn clockwise, kept within 0..359. */
  function RotateRight(p: Pages, idx: int): (q: Pages)
    requires WellFormed(p)
    ensures WellFormed(q)
    ensures q == p.(rotations := q.rotations)
    ensures 0 <= idx < |p.rotations| ==> q.rotations[idx] == (p.rotations[idx] + 90) % 360
    ensures forall i :: 0 <= i < |p.rotations| && i != idx ==> q.rotations[i] == p.rotations[i]
  {
    p.(rotations := if 0 <= idx < |p.rotations| then ReplaceAt(p.rotations, idx, (p.rotations[idx] + 90) % 360)
                    else p.rotations)
  }

  /** Turning left and then right leaves the page as it was, and so does right then left. */
  lemma RotationsCancel(p: Pages, idx: int)
    requires WellFormed(p)
    ensures RotateRight(RotateLeft(p, idx), idx) == p
    ensures RotateLeft(RotateRight(p, idx), idx) == p
  {
    assert RotateRight(RotateLeft(p, idx), idx).rotations == p.rotations;
    assert RotateLeft(RotateRight(p, idx), idx).rotations == p.rotations;
  }

  /** Four quarter turns the same way are a full turn. */
  lemma FourTurnsIdentity(p: Pages, idx: int)
    requires WellFormed(p)
    ensures RotateRight(RotateRight(RotateRight(RotateRight(p, idx), idx), idx), idx) == p
  {
    var q := RotateRight(RotateRight(RotateRight(RotateRight(p, idx), idx), idx), idx);
    assert q.rotations == p.rotations;
  }

  /**
   * The aspect ratio a page is shown with: its ratio (1 when unset or zero), inverted when
   * the page stands on its side.
   */
  function Aspect(ratio: real, rotation: int): (a: real)
    requires IsRightAngle(rotation)
    ensures rotation % 180 == 0 <==> rotation == 0 || rotation == 180
    ensures rotation % 180 == 0 ==> a == (if ratio == 0.0 then 1.0 else ratio)
    ensures rotation % 180 != 0 ==> a * (if ratio == 0.0 then 1.0 else ratio) == 1.0
  {
    var r := if ratio == 0.0 then 1.0 else ratio;
    if rotation % 180 == 0 then r else 1.0 / r
  }

  /** A quarter turn swaps between the ratio and its inverse. */
  lemma QuarterTurnInvertsAspect(ratio: real, rotation: int)
    requires IsRightAngle(rotation) && ratio > 0.0
    ensures Aspect(ratio, (rotation + 90) % 360) * Aspect(ratio, rotation) == 1.0
  {
  }

  /** What the reload handler makes of a reply, as written: a warning ends in the `ReferenceError`. */
  function ReloadOutcome(reply: Result<Json, string>): Result<string, string>
  {
    match reply
    case Err(m) => Err(m)
    case Ok(payload) => if HasWarning(payload) then Err(UndeclaredIMessage) else Ok(TextOf(payload))
  }

  /** The evidently intended outcome: a warning is only logged, the reply's text is used. */
  function ReloadOutcomeIntended(reply: Result<Json, string>): (r: Result<string, string>)
    ensures reply.Ok? ==> r == Ok(TextOf(reply.value))
    ensures reply.Err? ==> r == Err(reply.error)
  {
    match reply
    case Err(m) => Err(m)
    case Ok(payload) => Ok(TextOf(payload))
  }

  /**
   * `handleReloadPage(idx)` with the reload's outcome: offline only the page's error is
   * set; otherwise the page's error is cleared and then set to a failure's message, or the
   * page's text is replaced and its history and rotation reset. Its loading flag ends false.
   */
  function ReloadPageWith(p: Pages, idx: int, online: bool, outcome: Result<string, string>): (q: Pages)
    requires WellFormed(p) && 0 <= idx < |p.ocrTexts|
    ensures WellFormed(q)
    ensures !online ==> q == p.(errorPages := ReplaceAt(p.errorPages, idx, OfflineMessage))
    ensures online && outcome.Err? ==>
              q == p.(errorPages := ReplaceAt(p.errorPages, idx, outcome.error),
                      loadingPage := ReplaceAt(p.loadingPage, idx, false))
    ensures online && outcome.Ok? ==>
              q.ocrTexts == ReplaceAt(p.ocrTexts, idx, outcome.value)
              && q.textHistories == ReplaceAt(p.textHistories, idx, [])
              && q.rotations == ReplaceAt(p.rotations, idx, 0)
              && q.errorPages == ReplaceAt(p.errorPages, idx, "")
              && q.loadingPage == ReplaceAt(p.loadingPage, idx, false) && q.ratios == p.ratios
  {
    if !online then p.(errorPages := ReplaceAt(p.errorPages, idx, OfflineMessage))
    else
      var cleared := ReplaceAt(p.errorPages, idx, "");
      var done := ReplaceAt(p.loadingPage, idx, false);
      match outcome
      case Err(m) => p.(errorPages := ReplaceAt(cleared, idx, m), loadingPage := done)
      case Ok(text) =>
        p.(ocrTexts := ReplaceAt(p.ocrTexts, idx, text), textHistories := ReplaceAt(p.textHistories, idx, []),
           rotations := ReplaceAt(p.rotations, idx, 0), errorPages := cleared, loadingPage := done)
  }

  /** `handleReloadPage`, as written. */
  function ReloadPage(p: Pages, idx: int, online: bool, reply: Result<Json, string>): Pages
    requires WellFormed(p) && 0 <= idx < |p.ocrTexts|
  {
    ReloadPageWith(p, idx, online, ReloadOutcome(reply))
  }

  /** `handleReloadPage` with the warning only logged. */
  function ReloadPageIntended(p: Pages, idx: int, online: bool, reply: Result<Json, string>): Pages
    requires WellFormed(p) && 0 <= idx < |p.ocrTexts|
  {
    ReloadPageWith(p, idx, online, ReloadOutcomeIntended(reply))
  }

  /** The reply `/api/process` gives for a page where OCR finds no text. */
  const EmptyTextReply: Json :=
    JObj(map["text" := JStr(""), "warning" := JStr("OCR hat zu keinem Ergebnis geführt")])

  /**
   * As written, reloading a page whose OCR now finds nothing keeps the old text, history
   * and rotation and sets the page's error to "i is not defined".
   */
  lemma ReloadWarningKeepsOldText(p: Pages, idx: int)
    requires WellFormed(p) && 0 <= idx < |p.ocrTexts|
    ensures var q := ReloadPage(p, idx, true, Ok(EmptyTextReply));
            q.ocrTexts == p.ocrTexts && q.textHistories == p.textHistories && q.rotations == p.rotations
            && q.errorPages[idx] == UndeclaredIMessage
  {
    assert HasWarning(EmptyTextReply);
    var q := ReloadPage(p, idx, true, Ok(EmptyTextReply));
    assert q.ocrTexts == p.ocrTexts;
  }

  /**
   * With the warning only logged, a reload that gets a reply always resets the page: the
   * reply's text, an empty history, no rotation and no error.
   */
  lemma ReloadIntendedResetsPage(p: Pages, idx: int, payload: Json)
    requires WellFormed(p) && 0 <= idx < |p.ocrTexts|
    ensures var q := ReloadPageIntended(p, idx, true, Ok(payload));
            q.ocrTexts[idx] == TextOf(payload) && q.textHistories[idx] == [] && q.rotations[idx] == 0
            && q.errorPages[idx] == ""
            && forall i :: 0 <= i < |p.ocrTexts| && i != idx ==>
                 q.ocrTexts[i] == p.ocrTexts[i] && q.textHistories[i] == p.textHistories[i]
                 && q.rotations[i] == p.rotations[i] && q.errorPages[i] == p.errorPages[i]
  {
  }
}
