/**
 * `compressImage` (frontend/src/utils/compressImage.js): draws the image on a canvas of
 * its own size and encodes it as JPEG, lowering the quality by a tenth until the result
 * fits `maxSize` or the quality has dropped below 0.1.
 *
 * Qualities are counted in tenths. Starting from 0.9 and subtracting 0.1 in double
 * precision gives values at or above 0.1 for tenths 9 down to 1 and about 1.4e-16 at the
 * tenth step, so "below 0.1" is exactly tenth 0. The encoder is a parameter: `encode(q)`
 * is the size of the JPEG at quality q/10, or `None` when the canvas yields no blob.
 */
module CompressImage {
  import opened Base

  const DefaultMaxSize: nat := 2 * 1024 * 1024
  /** The first quality tried, 0.9, in tenths. */
  const StartQuality: nat := 9
  const EncodeFailedMessage: string := "Kompression fehlgeschlagen"
  const LoadFailedMessage: string := "Bild konnte nicht geladen werden"

  /** The quality a number of tenths stands for. */
  function Quality(tenths: nat): real
  {
    tenths as real / 10.0
  }

  /** The loop stops at an encoding that fits, or at the last quality (below 0.1). */
  predicate Accept(size: nat, tenths: nat, maxSize: nat)
  {
    size <= maxSize || Quality(tenths) < 0.1
  }

  lemma AcceptOnlyAtFloor(size: nat, tenths: nat, maxSize: nat)
    ensures Accept(size, tenths, maxSize) <==> size <= maxSize || tenths == 0
  {
  }

  /** One encoding: its quality in tenths and its size. */
  datatype Encoding = Encoding(quality: nat, size: nat)

  /** The blob `compressImage` resolves with. */
  datatype Compressed = Compressed(mimeType: string, size: nat, quality: nat, width: nat, height: nat)

  /** `tryQuality(q / 10)`: what the recursion settles on from quality q downwards. */
  function TryQuality(q: nat, maxSize: nat, encode: nat -> Option<nat>): Result<Encoding, string>
    decreases q
  {
    match encode(q)
    case None => Err(EncodeFailedMessage)
    case Some(size) =>
      if size <= maxSize || q == 0 then Ok(Encoding(q, size)) else TryQuality(q - 1, maxSize, encode)
  }

  /** The qualities the recursion encodes at from q downwards: one tenth less each time. */
  function Attempts(q: nat, maxSize: nat, encode: nat -> Option<nat>): (qs: seq<nat>)
    ensures 1 <= |qs| <= q + 1 && qs[0] == q
    ensures forall i :: 0 <= i < |qs| ==> qs[i] == q - i
    decreases q
  {
    if encode(q).Some? && !(encode(q).value <= maxSize || q == 0) then [q] + Attempts(q - 1, maxSize, encode)
    else [q]
  }

  /**
   * The result is decided by the last quality tried: every earlier encoding succeeded but
   * was too large; the last one either failed (the promise rejects) or is accepted.
   */
  lemma {:induction false} AttemptsDecide(q: nat, maxSize: nat, encode: nat -> Option<nat>)
    ensures var qs := Attempts(q, maxSize, encode);
            var last := qs[|qs| - 1];
            (forall i :: 0 <= i < |qs| - 1 ==> encode(qs[i]).Some? && encode(qs[i]).value > maxSize)
            && (encode(last).None? ==> TryQuality(q, maxSize, encode) == Err(EncodeFailedMessage))
            && (encode(last).Some? ==>
                  Accept(encode(last).value, last, maxSize)
                  && TryQuality(q, maxSize, encode) == Ok(Encoding(last, encode(last).value)))
    decreases q
  {
    if encode(q).Some? && !(encode(q).value <= maxSize || q == 0) {
      AttemptsDecide(q - 1, maxSize, encode);
    }
  }

  /**
   * A resolved blob was encoded at one of the qualities tried, fits `maxSize` unless it
   * was made at the floor quality, and every higher quality tried gave a blob too large:
   * it is the best quality that fits.
   */
  lemma {:induction false} TryQualityResolved(q: nat, maxSize: nat, encode: nat -> Option<nat>)
    requires TryQuality(q, maxSize, encode).Ok?
    ensures var e := TryQuality(q, maxSize, encode).value;
            e.quality <= q && encode(e.quality) == Some(e.size) && Accept(e.size, e.quality, maxSize)
            && forall k :: e.quality < k <= q ==> encode(k).Some? && encode(k).value > maxSize
    decreases q
  {
    match encode(q)
    case None =>
    case Some(size) =>
      if !(size <= maxSize || q == 0) {
        TryQualityResolved(q - 1, maxSize, encode);
      }
  }

  /** A rejection means some quality gave no blob after every higher one gave one too large. */
  lemma {:induction false} TryQualityRejected(q: nat, maxSize: nat, encode: nat -> Option<nat>)
    requires TryQuality(q, maxSize, encode).Err?
    ensures TryQuality(q, maxSize, encode).error == EncodeFailedMessage
    ensures exists k: nat :: k <= q && encode(k).None?
                             && forall j: nat :: k < j <= q ==> encode(j).Some? && encode(j).value > maxSize
    decreases q
  {
    match encode(q)
    case None =>
      assert encode(q).None?;
    case Some(size) =>
      TryQualityRejected(q - 1, maxSize, encode);
      var k: nat :| k <= q - 1 && encode(k).None?
                    && forall j: nat :: k < j <= q - 1 ==> encode(j).Some? && encode(j).value > maxSize;
      assert forall j: nat :: k < j <= q ==> encode(j).Some? && encode(j).value > maxSize;
  }

  /** One step of the recursion, spelled out for the loop below. */
  lemma TryQualityStep(q: nat, maxSize: nat, encode: nat -> Option<nat>)
    ensures encode(q).None? ==>
              TryQuality(q, maxSize, encode) == Err(EncodeFailedMessage) && Attempts(q, maxSize, encode) == [q]
    ensures encode(q).Some? && (encode(q).value <= maxSize || q == 0) ==>
              TryQuality(q, maxSize, encode) == Ok(Encoding(q, encode(q).value)) && Attempts(q, maxSize, encode) == [q]
    ensures encode(q).Some? && !(encode(q).value <= maxSize || q == 0) ==>
              TryQuality(q, maxSize, encode) == TryQuality(q - 1, maxSize, encode)
              && Attempts(q, maxSize, encode) == [q] + Attempts(q - 1, maxSize, encode)
  {
  }

  /**
   * The `tryQuality` recursion as a loop from quality `start` downwards: each turn
   * encodes once, rejects on a missing blob, resolves on an accepted one, and otherwise
   * goes one tenth lower. Returns the outcome and the qualities encoded at.
   */
  method EncodeLoop(start: nat, maxSize: nat, encode: nat -> Option<nat>)
    returns (r: Result<Encoding, string>, tried: seq<nat>)
    ensures r == TryQuality(start, maxSize, encode)
    ensures tried == Attempts(start, maxSize, encode)
  {
    tried := [];
    var q: nat := start;
    while true
      invariant q <= start
      invariant TryQuality(q, maxSize, encode) == TryQuality(start, maxSize, encode)
      invariant Attempts(start, maxSize, encode) == tried + Attempts(q, maxSize, encode)
      decreases q
    {
      tried := tried + [q];
      var out := encode(q);
      TryQualityStep(q, maxSize, encode);
      if out.None? {
        return Err(EncodeFailedMessage), tried;
      }
      // Quality(q) < 0.1 exactly when q == 0 (AcceptOnlyAtFloor).
      if out.value <= maxSize || q == 0 {
        return Ok(Encoding(q, out.value)), tried;
      }
      q := q - 1;
    }
  }

  /**
   * `compressImage(blob, maxSize)`. `loaded` is whether the image loads, `width` and
   * `height` its size. Returns the outcome and the qualities (in tenths) encoded at:
   * first 0.9, then one tenth lower each time, at most ten encodes.
   */
  method Compress(width: nat, height: nat, maxSize: nat, loaded: bool, encode: nat -> Option<nat>)
    returns (r: Result<Compressed, string>, tried: seq<nat>)
    ensures !loaded ==> r == Err(LoadFailedMessage) && tried == []
    ensures loaded ==> 1 <= |tried| <= 10 && tried[0] == StartQuality
                       && (forall i :: 0 < i < |tried| ==> tried[i] + 1 == tried[i - 1])
    ensures loaded ==> tried == Attempts(StartQuality, maxSize, encode)
    ensures loaded ==> var t := TryQuality(StartQuality, maxSize, encode);
                       (t.Err? ==> r == Err(t.error))
                       && (t.Ok? ==> r == Ok(Compressed("image/jpeg", t.value.size, t.value.quality, width, height)))
  {
    if !loaded {
      return Err(LoadFailedMessage), [];
    }
    // The canvas takes the image's own size.
    var canvasWidth, canvasHeight := width, height;
    var e;
    e, tried := EncodeLoop(StartQuality, maxSize, encode);
    if e.Err? {
      return Err(e.error), tried;
    }
    r := Ok(Compressed("image/jpeg", e.value.size, e.value.quality, canvasWidth, canvasHeight));
  }
}
