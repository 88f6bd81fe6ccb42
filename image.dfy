/** processImage: re-encoding an uploaded image as WebP, lowering the quality in
    steps until it fits the size limit. The image library is an input: `format` is
    what reading the metadata reports (None when that throws) and `encode(q)` the
    WebP encoding at quality q (None when it throws). */
module Image {
  import opened Base

  type Bytes = seq<bv8>

  /** The default size limit, 500 KiB. */
  const DefaultMaxSize := 500 * 1024
  const StartQuality := 94
  const MinQuality := 70
  const Step := 4

  /** The outcome of the quality search: the last encoding and its quality, or a
      failure of the encoder. */
  datatype Outcome = Encoded(bytes: Bytes, quality: int) | Failed

  /** The search from quality `q` on: encode, and go on 4 lower while the output is
      too large and the next quality is not below 70. */
  function Search(q: int, maxSize: int, encode: int -> Option<Bytes>): (r: Outcome)
    requires q >= MinQuality
    ensures r.Encoded? ==> MinQuality <= r.quality <= q && (q - r.quality) % Step == 0
    ensures r.Encoded? ==> encode(r.quality) == Some(r.bytes)
    ensures r.Encoded? ==> |r.bytes| <= maxSize || r.quality - Step < MinQuality
    decreases q
  {
    match encode(q)
    case None => Failed
    case Some(out) =>
      if |out| > maxSize && q - Step >= MinQuality then Search(q - Step, maxSize, encode)
      else Encoded(out, q)
  }

  /** Every quality the search passes over on its way to its result gave an output
      that was too large: the search stops at the first one that fits. */
  lemma {:induction false} SearchStopsAtFirstFit(q: int, maxSize: int, encode: int -> Option<Bytes>, p: int)
    requires q >= MinQuality && Search(q, maxSize, encode).Encoded?
    requires Search(q, maxSize, encode).quality < p <= q && (q - p) % Step == 0
    ensures encode(p).Some? && |encode(p).value| > maxSize
    decreases q
  {
    var out := encode(q).value;
    if p < q {
      SearchStopsAtFirstFit(q - Step, maxSize, encode, p);
    }
  }

  /** The qualities the loop encodes at, in order: 94, 90, ... down to `q`. */
  function Qualities(q: int): (r: seq<int>)
    requires MinQuality <= q <= StartQuality && (StartQuality - q) % Step == 0
    ensures |r| == (StartQuality - q) / Step + 1
    ensures forall i :: 0 <= i < |r| ==> r[i] == StartQuality - Step * i
    decreases StartQuality - q
  {
    if q == StartQuality then [StartQuality] else Qualities(q + Step) + [q]
  }

  /** At most seven encodings happen, since the quality never drops below 70. */
  lemma {:induction false} AtMostSevenEncodes(q: int)
    requires MinQuality <= q <= StartQuality && (StartQuality - q) % Step == 0
    ensures |Qualities(q)| <= 7
  {
  }

  /** The buffer processImage returns, as the search determines it. */
  function Processed(buffer: Bytes, maxSize: int, format: Option<string>, encode: int -> Option<Bytes>): (r: Bytes)
    ensures format.None? ==> r == buffer
    ensures format == Some("webp") && |buffer| <= maxSize ==> r == buffer
    ensures Search(StartQuality, maxSize, encode).Failed? ==> r == buffer
  {
    if format.None? then buffer
    else if format == Some("webp") && |buffer| <= maxSize then buffer
    else match Search(StartQuality, maxSize, encode)
      case Encoded(out, _) => out
      case Failed => buffer
  }

  /** processImage. `tried` lists the qualities encoded at, in order. */
  method ProcessImage(buffer: Bytes, maxSize: int, format: Option<string>, encode: int -> Option<Bytes>)
    returns (out: Bytes, tried: seq<int>)
    ensures out == Processed(buffer, maxSize, format, encode)
    ensures format.None? || (format == Some("webp") && |buffer| <= maxSize) ==> tried == []
    ensures forall i :: 0 <= i < |tried| ==> tried[i] == StartQuality - Step * i && tried[i] >= MinQuality
    ensures |tried| <= 7
    ensures format.Some? && !(format == Some("webp") && |buffer| <= maxSize) && Search(StartQuality, maxSize, encode).Encoded?
      ==> tried != [] && tried[|tried| - 1] == Search(StartQuality, maxSize, encode).quality
  {
    tried := [];
    if format.None? {
      return buffer, tried;
    }
    if format == Some("webp") && |buffer| <= maxSize {
      return buffer, tried;
    }
    var quality := StartQuality;
    tried := [quality];
    var first := encode(quality);
    if first.None? {
      return buffer, tried;
    }
    out := first.value;
    while |out| > maxSize && quality - Step >= MinQuality
      invariant MinQuality <= quality <= StartQuality && (StartQuality - quality) % Step == 0
      invariant Search(quality, maxSize, encode) == Search(StartQuality, maxSize, encode)
      invariant encode(quality) == Some(out)
      invariant tried == Qualities(quality)
      decreases quality
    {
      quality := quality - Step;
      tried := tried + [quality];
      var next := encode(quality);
      if next.None? {
        return buffer, tried;
      }
      out := next.value;
    }
    AtMostSevenEncodes(quality);
  }
}
