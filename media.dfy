/** Binary payloads (Blob/File), collected pages, and the "first failure wins" collection of per-page results. */
module Media {
  import opened Base

  type byte = x: int | 0 <= x < 256

  /**
   * A browser `Blob`; a `File` is a blob with a name. The bytes stand for the content;
   * `size` is their number.
   */
  datatype Blob = Blob(mimeType: string, bytes: seq<byte>, fileName: Option<string>)
  {
    function Size(): nat { |bytes| }
  }

  /** A corner handle of the manual corrector, in image pixels. */
  datatype Corner = Corner(x: real, y: real)

  /**
   * The starting corners of the manual corrector for an image of `w` x `h`: each 10% in
   * from both edges, clockwise from the top left.
   */
  function InsetCorners(w: real, h: real): (cs: seq<Corner>)
    ensures |cs| == 4
    ensures cs[0].x == cs[3].x && cs[1].x == cs[2].x && cs[0].y == cs[1].y && cs[2].y == cs[3].y
    ensures w >= 0.0 && h >= 0.0 ==>
              forall i :: 0 <= i < 4 ==> 0.0 <= cs[i].x <= w && 0.0 <= cs[i].y <= h
    ensures cs[1].x - cs[0].x == 0.8 * w && cs[3].y - cs[0].y == 0.8 * h
  {
    [Corner(w * 0.1, h * 0.1), Corner(w * 0.9, h * 0.1), Corner(w * 0.9, h * 0.9), Corner(w * 0.1, h * 0.9)]
  }

  /** One page of a capture session's collection: the blob and its object URL. */
  datatype Photo = Photo(blob: Blob, url: string)

  /** The object URLs of a sequence of pages, in order. */
  function Urls(photos: seq<Photo>): (r: seq<string>)
    ensures |r| == |photos|
    ensures forall i :: 0 <= i < |photos| ==> r[i] == photos[i].url
  {
    if photos == [] then [] else [photos[0].url] + Urls(photos[1..])
  }

  lemma UrlsPrefix(photos: seq<Photo>, k: nat)
    requires k < |photos|
    ensures Urls(photos[..k + 1]) == Urls(photos[..k]) + [photos[k].url]
  {
    assert Urls(photos[..k + 1]) == Urls(photos[..k]) + [photos[k].url];
  }

  /**
   * Runs through per-page results in order and stops at the first failure: the successes
   * in order, or the index and message of the first failure.
   */
  function Collect<T>(rs: seq<Result<T, string>>): (r: Result<seq<T>, (nat, string)>)
    ensures r.Ok? <==> forall i :: 0 <= i < |rs| ==> rs[i].Ok?
    ensures r.Ok? ==> |r.value| == |rs| && forall i :: 0 <= i < |rs| ==> rs[i] == Ok(r.value[i])
    ensures r.Err? ==> r.error.0 < |rs| && rs[r.error.0] == Err(r.error.1)
                       && forall j :: 0 <= j < r.error.0 ==> rs[j].Ok?
  {
    if rs == [] then Ok([])
    else
      match rs[0]
      case Err(m) => Err((0, m))
      case Ok(p) =>
        match Collect(rs[1..])
        case Ok(ps) => Ok([p] + ps)
        case Err(e) => Err((e.0 + 1, e.1))
  }

  /** Results that all succeed collect to their values, in order. */
  lemma {:induction false} CollectAllOk<T>(rs: seq<Result<T, string>>, vs: seq<T>)
    requires |vs| == |rs| && forall j :: 0 <= j < |rs| ==> rs[j] == Ok(vs[j])
    ensures Collect(rs) == Ok(vs)
  {
    if rs != [] {
      CollectAllOk(rs[1..], vs[1..]);
      assert vs == [vs[0]] + vs[1..];
    }
  }

  /** Results whose first failure is at `k` collect to that failure. */
  lemma {:induction false} CollectFirstErr<T>(rs: seq<Result<T, string>>, k: nat, m: string)
    requires k < |rs| && rs[k] == Err(m) && forall j :: 0 <= j < k ==> rs[j].Ok?
    ensures Collect(rs) == Err((k, m))
  {
    if k > 0 {
      CollectFirstErr(rs[1..], k - 1, m);
    }
  }

  /** What uploading each page would give; `page(p, i)` uploads page `p` at position `i`. */
  function Outcomes(photos: seq<Photo>, page: (Photo, nat) -> Result<string, string>)
    : (rs: seq<Result<string, string>>)
    ensures |rs| == |photos|
    ensures forall i :: 0 <= i < |photos| ==> rs[i] == page(photos[i], i)
  {
    seq(|photos|, i requires 0 <= i < |photos| => page(photos[i], i))
  }

  /**
   * The finalize loop of both capture sessions: uploads the pages in order and stops at
   * the first failure, revoking the URL of every page once it is uploaded. It returns what
   * `Collect` makes of the pages' outcomes, and the URLs it revoked.
   */
  method UploadInOrder(photos: seq<Photo>, page: (Photo, nat) -> Result<string, string>)
    returns (result: Result<seq<string>, (nat, string)>, revokedURLs: seq<string>)
    ensures result == Collect(Outcomes(photos, page))
    ensures result.Ok? ==> revokedURLs == Urls(photos)
    ensures result.Err? ==> result.error.0 <= |photos| && revokedURLs == Urls(photos[..result.error.0])
  {
    ghost var rs := Outcomes(photos, page);
    var uploaded: seq<string> := [];
    revokedURLs := [];
    var i := 0;
    while i < |photos|
      invariant 0 <= i <= |photos|
      invariant |uploaded| == i && forall j :: 0 <= j < i ==> rs[j] == Ok(uploaded[j])
      invariant revokedURLs == Urls(photos[..i])
    {
      var r := page(photos[i], i);
      if r.Err? {
        CollectFirstErr(rs, i, r.error);
        return Err((i, r.error)), revokedURLs;
      }
      uploaded := uploaded + [r.value];
      UrlsPrefix(photos, i);
      revokedURLs := revokedURLs + [photos[i].url];
      i := i + 1;
    }
    assert photos[..i] == photos;
    CollectAllOk(rs, uploaded);
    result := Ok(uploaded);
  }
}
