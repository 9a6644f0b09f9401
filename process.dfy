/**
 * The OCR route (backend/routes/process.js): runs OCR on an uploaded file through a
 * constant-delay `retry` and always answers 200 with a text, adding a warning when there
 * is none.
 *
 * Tesseract is a parameter: `recognize(k)` is what its k-th run (from 0) gives, the text
 * found ("" standing for a missing one) or the message of its error.
 */
module Process {
  import opened Base
  import opened Js

  const DefaultRetries: int := 3
  const DefaultDelay: nat := 1000
  const NoFilePathMessage: string := "No file path provided."
  const EmptyTextWarning: string :=
    "OCR hat zu keinem Ergebnis geführt (möglicherweise unscharf oder fehlende Trainingsdaten)."
  const FailedWarningPrefix: string := "OCR vor Ort nicht ausführbar: "

  /** How `retry` settles: with a value, with a rethrown error, or with `undefined` when it never tries. */
  datatype Settled<T> = Returned(value: T) | Thrown(message: string) | Undefined

  /** How `retry` settles from try `i` (counting from 0) on. */
  function RetryFrom<T>(i: nat, retries: int, fn: nat -> Result<T, string>): Settled<T>
    decreases retries - i
  {
    if i >= retries then Undefined
    else
      match fn(i)
      case Ok(v) => Returned(v)
      case Err(m) => if i == retries - 1 then Thrown(m) else RetryFrom(i + 1, retries, fn)
  }

  /** How many times `retry` calls `fn` from try `i` on. */
  function CallsFrom<T>(i: nat, retries: int, fn: nat -> Result<T, string>): nat
    decreases retries - i
  {
    if i >= retries then 0
    else if fn(i).Ok? || i == retries - 1 then 1
    else 1 + CallsFrom(i + 1, retries, fn)
  }

  /**
   * From try `i`: no more calls than tries remain; every call but the last failed; a
   * value is the last call's and the first success; an error is the final try's.
   */
  lemma {:induction false} RetryFromSpec<T>(i: nat, retries: int, fn: nat -> Result<T, string>)
    ensures var n := CallsFrom(i, retries, fn);
            var o := RetryFrom(i, retries, fn);
            (i >= retries ==> n == 0 && o == Undefined)
            && (i < retries ==> 1 <= n <= retries - i)
            && (forall k :: i <= k < i + n - 1 ==> fn(k).Err?)
            && (o.Returned? ==> n >= 1 && fn(i + n - 1) == Ok(o.value))
            && (o.Thrown? ==> n >= 1 && i + n == retries && fn(retries - 1) == Err(o.message))
            && (o.Undefined? ==> i >= retries)
    decreases retries - i
  {
    if i < retries && fn(i).Err? && i != retries - 1 {
      RetryFromSpec(i + 1, retries, fn);
    }
  }

  /** One turn of the loop, spelled out for the method below. */
  lemma RetryStep<T>(i: nat, retries: int, fn: nat -> Result<T, string>)
    requires i < retries
    ensures fn(i).Ok? ==> RetryFrom(i, retries, fn) == Returned(fn(i).value) && CallsFrom(i, retries, fn) == 1
    ensures fn(i).Err? && i == retries - 1 ==>
              RetryFrom(i, retries, fn) == Thrown(fn(i).error) && CallsFrom(i, retries, fn) == 1
    ensures fn(i).Err? && i < retries - 1 ==>
              RetryFrom(i, retries, fn) == RetryFrom(i + 1, retries, fn)
              && CallsFrom(i, retries, fn) == 1 + CallsFrom(i + 1, retries, fn)
  {
  }

  /**
   * `retry(fn, retries, delay)`: returns how it settles, how often `fn` was called and
   * the waits, all `delay` long, between the calls.
   */
  method Retry<T>(fn: nat -> Result<T, string>, retries: int, delay: nat)
    returns (settled: Settled<T>, calls: nat, waits: seq<nat>)
    ensures settled == RetryFrom(0, retries, fn)
    ensures calls == CallsFrom(0, retries, fn)
    ensures calls <= if retries > 0 then retries else 0
    ensures |waits| == if calls > 0 then calls - 1 else 0
    ensures forall k :: 0 <= k < |waits| ==> waits[k] == delay
  {
    RetryFromSpec(0, retries, fn);
    calls := 0;
    waits := [];
    var i: nat := 0;
    while i < retries
      invariant calls == i && |waits| == i
      invariant i <= retries || (i == 0 && retries < 0)
      invariant RetryFrom(i, retries, fn) == RetryFrom(0, retries, fn)
      invariant calls + CallsFrom(i, retries, fn) == CallsFrom(0, retries, fn)
      invariant forall k :: 0 <= k < |waits| ==> waits[k] == delay
      decreases retries - i
    {
      var r := fn(i);
      calls := calls + 1;
      RetryStep(i, retries, fn);
      if r.Ok? {
        return Returned(r.value), calls, waits;
      }
      if i == retries - 1 {
        return Thrown(r.error), calls, waits;
      }
      waits := waits + [delay];
      i := i + 1;
    }
    settled := Undefined;
  }

  /** A success on the first try is returned at once. */
  lemma FirstSuccessReturned<T>(retries: int, fn: nat -> Result<T, string>)
    requires retries >= 1 && fn(0).Ok?
    ensures RetryFrom(0, retries, fn) == Returned(fn(0).value) && CallsFrom(0, retries, fn) == 1
  {
  }

  /**
   * `performOCR(filePath)` on try `k`: Tesseract's errors become the empty text. Only
   * resolving the path lies outside its `try`, and that fails only for a path that is not
   * a string (with the message `resolveError`).
   */
  function PerformOcr(filePath: Json, resolveError: string, recognize: nat -> Result<string, string>, k: nat)
    : (r: Result<string, string>)
    ensures filePath.JStr? ==> r.Ok?
    ensures filePath.JStr? && recognize(k).Err? ==> r == Ok("")
    ensures filePath.JStr? && recognize(k).Ok? ==> r == Ok(recognize(k).value)
    ensures !filePath.JStr? ==> r == Err(resolveError)
  {
    if !filePath.JStr? then Err(resolveError)
    else if recognize(k).Ok? then Ok(recognize(k).value) else Ok("")
  }

  function OcrTry(filePath: Json, resolveError: string, recognize: nat -> Result<string, string>)
    : nat -> Result<string, string>
  {
    (k: nat) => PerformOcr(filePath, resolveError, recognize, k)
  }

  /** For a path given as a string, OCR errors never reach `retry`: it runs OCR exactly once. */
  lemma OcrNeverRetried(path: string, resolveError: string, recognize: nat -> Result<string, string>)
    ensures var fn := OcrTry(JStr(path), resolveError, recognize);
            CallsFrom(0, DefaultRetries, fn) == 1
            && RetryFrom(0, DefaultRetries, fn) == Returned(if recognize(0).Ok? then recognize(0).value else "")
  {
    var fn := OcrTry(JStr(path), resolveError, recognize);
    assert fn(0).Ok?;
  }

  /** A JSON reply: its HTTP status and its body object. */
  datatype HttpReply = HttpReply(status: nat, body: map<string, Json>)

  /** The 200 reply for a text: the text alone, or the empty text with a warning. */
  function TextReply(text: string): (r: HttpReply)
    ensures r.status == 200 && "text" in r.body && r.body["text"] == JStr(text)
    ensures text == "" <==> "warning" in r.body
    ensures text == "" ==> r.body["warning"] == JStr(EmptyTextWarning)
  {
    if text == "" then HttpReply(200, map["text" := JStr(""), "warning" := JStr(EmptyTextWarning)])
    else HttpReply(200, map["text" := JStr(text)])
  }

  /**
   * `POST /api/process`: 400 without a file path; otherwise always 200, with the text
   * found, or the empty text and a warning saying why there is none. `waits` are the
   * delays `retry` sleeps between the tries.
   */
  method HandleProcess(filePath: Json, resolveError: string, recognize: nat -> Result<string, string>)
    returns (reply: HttpReply, ocrRuns: nat, waits: seq<nat>)
    ensures !Truthy(filePath) ==>
              reply == HttpReply(400, map["error" := JStr(NoFilePathMessage)]) && ocrRuns == 0 && waits == []
    ensures Truthy(filePath) ==> reply.status == 200 && "text" in reply.body
    ensures Truthy(filePath) && filePath.JStr? ==>
              ocrRuns == 1 && waits == [] && reply == TextReply(if recognize(0).Ok? then recognize(0).value else "")
    ensures Truthy(filePath) && !filePath.JStr? ==>
              ocrRuns == 3 && waits == [DefaultDelay, DefaultDelay]
              && reply == HttpReply(200, map["text" := JStr(""), "warning" := JStr(FailedWarningPrefix + resolveError)])
  {
    if !Truthy(filePath) {
      return HttpReply(400, map["error" := JStr(NoFilePathMessage)]), 0, [];
    }
    var settled, calls, ws := Retry(OcrTry(filePath, resolveError, recognize), DefaultRetries, DefaultDelay);
    ocrRuns, waits := calls, ws;
    RetryFromSpec(0, DefaultRetries, OcrTry(filePath, resolveError, recognize));
    if filePath.JStr? {
      OcrNeverRetried(filePath.s, resolveError, recognize);
    }
    match settled
    case Returned(text) =>
      reply := TextReply(text);
    case Thrown(m) =>
      reply := HttpReply(200, map["text" := JStr(""), "warning" := JStr(FailedWarningPrefix + m)]);
    case Undefined =>
      // `retry` with three tries always settles with a value or an error.
      assert false;
      reply := TextReply("");
  }
}
