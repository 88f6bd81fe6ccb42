/** Turning a public storage URL back into the (bucket, path) of the object it names,
    as deleteImageFromStorage does before asking the storage service to remove it.
    The removal itself is a request to an external service and its failure is only
    logged, so the model's result is the request, or none. */
module Storage {
  import opened Base
  import opened JsValue

  /** The part of a public URL that precedes `<bucket>/<path>`. */
  const PublicMarker := "/storage/v1/object/public/"

  /** A removal request for one object. */
  datatype Removal = Removal(bucket: string, path: string)

  // ---------------------------------------------------------------------------
  // Parsing
  // ---------------------------------------------------------------------------

  /** The first "/"-piece has no "/", and when there is a "/" the first piece and the
      rest joined back make the whole. */
  lemma {:induction false} SplitSlash(fullPath: string)
    ensures Lacks(Split(fullPath, "/")[0], '/')
    ensures Contains(fullPath, "/") ==>
      Split(fullPath, "/")[0] + "/" + Join(Split(fullPath, "/")[1..], "/") == fullPath
  {
    var segs := Split(fullPath, "/");
    SplitPiecesAvoidSeparator(fullPath, "/");
    forall i | 0 <= i < |segs[0]|
      ensures segs[0][i] != '/'
    {
      if segs[0][i] == '/' {
        assert segs[0][i..i + 1] == "/";
        assert OccursAt(segs[0], "/", i);
      }
    }
    if Contains(fullPath, "/") {
      SplitHead(fullPath, "/");
      JoinSplit(fullPath, "/");
      JoinCons(segs[0], segs[1..], "/");
      assert [segs[0]] + segs[1..] == segs;
    }
  }

  /** `<bucket>/<path>`: the first "/"-segment, and the other segments joined back. */
  function ObjectOf(fullPath: string): (r: Removal)
    ensures Lacks(r.bucket, '/')
    ensures Contains(fullPath, "/") ==> r.bucket + "/" + r.path == fullPath
  {
    SplitSlash(fullPath);
    var segs := Split(fullPath, "/");
    Removal(segs[0], Join(segs[1..], "/"))
  }

  /** The object a URL names when the public marker occurs in it: what follows the
      marker (up to a second marker, if any) read as `<bucket>/<path>`. */
  function ParsePublicUrl(s: string): (r: Option<Removal>)
    ensures !Contains(s, PublicMarker) ==> r.None?
  {
    var parts := Split(s, PublicMarker);
    if |parts| < 2 then None else Some(ObjectOf(parts[1]))
  }

  /** deleteImageFromStorage of the storage utilities: nothing for a falsy url (or one
      that is not a string, whose split throws and is caught); otherwise the URL
      up to its first "?" is parsed. */
  function StorageRemoval(url: Value): (r: Option<Removal>)
    ensures !Truthy(url) ==> r.None?
    ensures r.Some? ==> url.Str? && Contains(Split(url.s, "?")[0], PublicMarker)
    ensures r.Some? ==> Lacks(r.value.bucket, '/')
  {
    if !Truthy(url) || !url.Str? then None
    else ParsePublicUrl(Split(url.s, "?")[0])
  }

  /** The carousel's own copy of deleteImageFromStorage: the same parse, without
      removing a query string first. */
  function CarouselRemoval(url: Value): (r: Option<Removal>)
    ensures !Truthy(url) ==> r.None?
    ensures r.Some? ==> url.Str? && Contains(url.s, PublicMarker)
    ensures r.Some? ==> Lacks(r.value.bucket, '/')
  {
    if !Truthy(url) || !url.Str? then None
    else ParsePublicUrl(url.s)
  }

  // ---------------------------------------------------------------------------
  // Round trips with the public URL of an object
  // ---------------------------------------------------------------------------

  /** The public URL the storage service gives for an object. */
  function PublicUrl(host: string, bucket: string, path: string): string {
    host + PublicMarker + bucket + "/" + path
  }

  /** The public URL of an object parses back to that object, provided the marker
      first occurs right after the host, the bucket has no "/", and the marker does
      not occur again. */
  lemma {:induction false} ParsePublicUrlOf(host: string, bucket: string, path: string)
    requires IndexOf(host + PublicMarker, PublicMarker) == Some(|host|)
    requires Lacks(bucket, '/') && !Contains(bucket + "/" + path, PublicMarker)
    ensures ParsePublicUrl(PublicUrl(host, bucket, path)) == Some(Removal(bucket, path))
  {
    var full := bucket + "/" + path;
    assert PublicUrl(host, bucket, path) == host + PublicMarker + full;
    SplitAt(host, PublicMarker, full);
    NoSeparatorSplit(full, PublicMarker);
    LacksIndex(bucket, '/');
    SplitAt(bucket, "/", path);
    JoinSplit(path, "/");
    assert ([bucket] + Split(path, "/"))[1..] == Split(path, "/");
  }

  lemma {:induction false} MarkerLacksQuery()
    ensures Lacks(PublicMarker, '?')
  {
  }

  /** The storage utilities parse a non-empty URL without "?" the same with or
      without a query string after it. */
  lemma {:induction false} StorageIgnoresQuery(u: string, query: string)
    requires u != "" && Lacks(u, '?')
    ensures StorageRemoval(Str(u)) == ParsePublicUrl(u)
    ensures StorageRemoval(Str(u + "?" + query)) == ParsePublicUrl(u)
  {
    LacksSplit(u, '?');
    LacksIndex(u, '?');
    SplitAt(u, "?", query);
  }

  /** The public URL of an object with the path extended by a query string parses
      back to that object and path. */
  lemma {:induction false} ParseQueryUrl(host: string, bucket: string, path: string, query: string)
    requires IndexOf(host + PublicMarker, PublicMarker) == Some(|host|)
    requires Lacks(bucket, '/') && !Contains(bucket + "/" + path + "?" + query, PublicMarker)
    ensures ParsePublicUrl(PublicUrl(host, bucket, path) + "?" + query) == Some(Removal(bucket, path + "?" + query))
  {
    assert bucket + "/" + (path + "?" + query) == bucket + "/" + path + "?" + query;
    ParsePublicUrlOf(host, bucket, path + "?" + query);
    assert PublicUrl(host, bucket, path + "?" + query) == PublicUrl(host, bucket, path) + "?" + query;
  }

  /** The public URL of an object, and the same URL with the path extended by a
      query string, parse back to the object each names. */
  lemma {:induction false} ParseBothUrls(host: string, bucket: string, path: string, query: string)
    requires IndexOf(host + PublicMarker, PublicMarker) == Some(|host|)
    requires Lacks(bucket, '/') && !Contains(bucket + "/" + path + "?" + query, PublicMarker)
    ensures ParsePublicUrl(PublicUrl(host, bucket, path)) == Some(Removal(bucket, path))
    ensures ParsePublicUrl(PublicUrl(host, bucket, path) + "?" + query) == Some(Removal(bucket, path + "?" + query))
  {
    var full := bucket + "/" + path;
    assert bucket + "/" + path + "?" + query == full + ("?" + query);
    PrefixLacks(full, "?" + query, PublicMarker);
    ParsePublicUrlOf(host, bucket, path);
    ParseQueryUrl(host, bucket, path, query);
  }

  /** Both parsers give back the object of its public URL; with a query string
      appended, the storage utilities still do, while the carousel's copy takes the
      query into the path. */
  lemma {:induction false} RemovalOfPublicUrl(host: string, bucket: string, path: string, query: string)
    requires IndexOf(host + PublicMarker, PublicMarker) == Some(|host|)
    requires Lacks(bucket, '/') && !Contains(bucket + "/" + path + "?" + query, PublicMarker)
    requires Lacks(host, '?') && Lacks(bucket, '?') && Lacks(path, '?')
    ensures StorageRemoval(Str(PublicUrl(host, bucket, path))) == Some(Removal(bucket, path))
    ensures CarouselRemoval(Str(PublicUrl(host, bucket, path))) == Some(Removal(bucket, path))
    ensures StorageRemoval(Str(PublicUrl(host, bucket, path) + "?" + query)) == Some(Removal(bucket, path))
    ensures CarouselRemoval(Str(PublicUrl(host, bucket, path) + "?" + query)) == Some(Removal(bucket, path + "?" + query))
  {
    var u := PublicUrl(host, bucket, path);
    ParseBothUrls(host, bucket, path, query);
    assert Lacks(u, '?') by {
      MarkerLacksQuery();
      LacksConcat(host, PublicMarker, '?');
      LacksConcat(host + PublicMarker, bucket, '?');
      LacksConcat(host + PublicMarker + bucket, "/", '?');
      LacksConcat(host + PublicMarker + bucket + "/", path, '?');
    }
    StorageIgnoresQuery(u, query);
  }
}
