/** The home-page carousel: creating, updating and deleting slides. Images go to
    `carousel/<name>` in storage, with the extension taken from the file's MIME
    type; an update deletes a slide's old image only once its new one is stored.
    Storage, the clock and the random part of a name are inputs. */
module Carousel {
  import opened Base
  import opened JsValue
  import opened Storage

  /** One uploaded image: its MIME type, the `<time>` and `<random>` parts of its
      name, and whether storing it succeeded. */
  datatype ImageFile = ImageFile(mimetype: string, time: string, random: string, uploadOk: bool)

  /** `mimetype.split("/")[1]`, which interpolates as "undefined" when there is no "/". */
  function Extension(mimetype: string): (r: string)
    ensures Lacks(r, '/')
  {
    var parts := Split(mimetype, "/");
    SplitPiecesAvoidSeparator(mimetype, "/");
    if |parts| >= 2 then
      PieceLacksSlash(parts[1]);
      parts[1]
    else "undefined"
  }

  /** A piece without the text "/" has no '/' character. */
  lemma {:induction false} PieceLacksSlash(s: string)
    requires !Contains(s, "/")
    ensures Lacks(s, '/')
  {
    forall i | 0 <= i < |s|
      ensures s[i] != '/'
    {
      if s[i] == '/' {
        assert s[i..i + 1] == "/";
        assert OccursAt(s, "/", i);
      }
    }
  }

  /** The extension of a `<type>/<subtype>` MIME type is its subtype. */
  lemma {:induction false} ExtensionOfMimeType(kind: string, subtype: string)
    requires Lacks(kind, '/') && Lacks(subtype, '/')
    ensures Extension(kind + "/" + subtype) == subtype
  {
    LacksSplit(subtype, '/');
    SplitSlashCons(kind, subtype);
  }

  /** `carousel/<time>-<slot>-<random>.<ext>`, the slot being "pc" or "mobile". */
  function UploadPath(f: ImageFile, slot: string): string {
    "carousel" + "/" + (f.time + "-" + slot + "-" + f.random + "." + Extension(f.mimetype))
  }

  /** The upload lands directly in the carousel folder when the name has no "/". */
  lemma {:induction false} UploadPathSegments(f: ImageFile, slot: string)
    requires Lacks(f.time, '/') && Lacks(slot, '/') && Lacks(f.random, '/')
    ensures Split(UploadPath(f, slot), "/") == ["carousel", f.time + "-" + slot + "-" + f.random + "." + Extension(f.mimetype)]
  {
    var name := f.time + "-" + slot + "-" + f.random + "." + Extension(f.mimetype);
    LacksConcat(f.time, "-", '/');
    LacksConcat(f.time + "-", slot, '/');
    LacksConcat(f.time + "-" + slot, "-", '/');
    LacksConcat(f.time + "-" + slot + "-", f.random, '/');
    LacksConcat(f.time + "-" + slot + "-" + f.random, ".", '/');
    LacksConcat(f.time + "-" + slot + "-" + f.random + ".", Extension(f.mimetype), '/');
    LacksSplit(name, '/');
    assert Lacks("carousel", '/');
    SplitSlashCons("carousel", name);
  }

  // ---------------------------------------------------------------------------
  // createSlide
  // ---------------------------------------------------------------------------

  /** The URL a slide stores for an optional image: its public URL, or null. */
  function ImageColumn(f: Option<ImageFile>, slot: string, publicUrl: string -> string): Value {
    if f.Some? then Str(publicUrl(UploadPath(f.value, slot))) else Null
  }

  /** createSlide: 500 when storing either image fails or the insert fails; else
      the inserted row (201), its texts as given, each image's public URL or null,
      and sort_order 0 when the given one is falsy. */
  function CreateSlide(body: Value, pc: Option<ImageFile>, mobile: Option<ImageFile>,
                       publicUrl: string -> string, insertOk: bool): (r: Result<map<string, Value>, int>)
    ensures r.Err? ==> r == Err(500)
    ensures r.Ok? <==> (pc.Some? ==> pc.value.uploadOk) && (mobile.Some? ==> mobile.value.uploadOk) && insertOk
    ensures r.Ok? ==> r.value.Keys == {"href", "title", "subtitle", "button", "pcImage", "mobileImage", "sort_order"}
    ensures r.Ok? ==> (r.value["sort_order"] == Num(0) <==> (!Truthy(Get(body, "sort_order")) || Get(body, "sort_order") == Num(0)))
    ensures r.Ok? && Truthy(Get(body, "sort_order")) ==> r.value["sort_order"] == Get(body, "sort_order")
    ensures r.Ok? ==> (r.value["pcImage"] == Null <==> pc.None?) && (r.value["mobileImage"] == Null <==> mobile.None?)
    ensures r.Ok? ==> forall k :: k in ["href", "title", "subtitle", "button"] ==> r.value[k] == Get(body, k)
  {
    if pc.Some? && !pc.value.uploadOk then Err(500)
    else if mobile.Some? && !mobile.value.uploadOk then Err(500)
    else if !insertOk then Err(500)
    else
      Ok(map[
        "href" := Get(body, "href"),
        "title" := Get(body, "title"),
        "subtitle" := Get(body, "subtitle"),
        "button" := Get(body, "button"),
        "pcImage" := ImageColumn(pc, "pc", publicUrl),
        "mobileImage" := ImageColumn(mobile, "mobile", publicUrl),
        "sort_order" := Or(Get(body, "sort_order"), Num(0))])
  }

  // ---------------------------------------------------------------------------
  // updateSlide
  // ---------------------------------------------------------------------------

  /** The body fields an update may set, in the order the patch lists them. */
  const SlideFields: seq<string> := ["href", "title", "subtitle", "button", "sort_order"]

  /** The patch before cleaning: every field, undefined when the body lacks it. */
  function RawPatch(body: Value): (r: map<string, Value>)
    ensures r.Keys == {"href", "title", "subtitle", "button", "sort_order"}
  {
    map["href" := Get(body, "href"), "title" := Get(body, "title"), "subtitle" := Get(body, "subtitle"),
        "button" := Get(body, "button"), "sort_order" := Get(body, "sort_order")]
  }

  /** The patch without its undefined entries. */
  function Defined(patch: map<string, Value>): (r: map<string, Value>)
    ensures forall k :: k in r <==> k in patch && patch[k] != Undef
    ensures forall k :: k in r ==> r[k] == patch[k]
  {
    map k | k in patch && patch[k] != Undef :: patch[k]
  }

  /** The cleaning step: each listed key whose value is undefined is deleted. */
  method DeleteUndefined(patch: map<string, Value>, keys: seq<string>) returns (out: map<string, Value>)
    requires forall k :: k in patch ==> k in keys
    ensures out == Defined(patch)
  {
    out := patch;
    var i := 0;
    while i < |keys|
      invariant 0 <= i <= |keys|
      invariant forall k :: k in out <==> k in patch && (k in keys[..i] ==> patch[k] != Undef)
      invariant forall k :: k in out ==> out[k] == patch[k]
    {
      assert keys[..i + 1] == keys[..i] + [keys[i]];
      if keys[i] in out && out[keys[i]] == Undef {
        out := out - {keys[i]};
      }
      i := i + 1;
    }
    assert keys[..i] == keys;
  }

  /** What an update did: its status, the URLs it passed to the storage deletion,
      in order, and the update it made (empty when it made none). */
  datatype SlideUpdate = SlideUpdate(status: int, deleted: seq<Value>, patch: map<string, Value>)

  /** The image columns an update sets: each new image's public URL. */
  function ImagePatch(pc: Option<ImageFile>, mobile: Option<ImageFile>, publicUrl: string -> string): (r: map<string, Value>)
    ensures r.Keys <= {"pcImage", "mobileImage"}
  {
    var p := if pc.Some? then map["pcImage" := Str(publicUrl(UploadPath(pc.value, "pc")))] else map[];
    if mobile.Some? then p["mobileImage" := Str(publicUrl(UploadPath(mobile.value, "mobile")))] else p
  }

  /** The old image URLs an update passes to the storage deletion, desktop first. */
  function ReplacedImages(slide: Value, pc: Option<ImageFile>, mobile: Option<ImageFile>): seq<Value> {
    (if pc.Some? then [Get(slide, "pcImage")] else []) + (if mobile.Some? then [Get(slide, "mobileImage")] else [])
  }

  /** updateSlide: 404 without the slide; the body fields that are defined; then,
      for each new image in turn, 500 if storing it fails, else the old image of
      that slot is deleted and the slot set to the new public URL; last, the row
      update, whose failure answers 500. A failure of the mobile image comes after
      the desktop image's old file is deleted, and a failed row update after both
      old files are: the row then still names images that are gone. */
  method UpdateSlide(current: Option<Value>, body: Value, pc: Option<ImageFile>, mobile: Option<ImageFile>,
                     publicUrl: string -> string, updateOk: bool) returns (r: SlideUpdate)
    ensures current.None? ==> r == SlideUpdate(404, [], map[])
    ensures current.Some? && pc.Some? && !pc.value.uploadOk ==> r == SlideUpdate(500, [], map[])
    ensures current.Some? && (pc.Some? ==> pc.value.uploadOk) && mobile.Some? && !mobile.value.uploadOk ==>
      r == SlideUpdate(500, ReplacedImages(current.value, pc, None), map[])
    ensures current.Some? && (pc.Some? ==> pc.value.uploadOk) && (mobile.Some? ==> mobile.value.uploadOk) ==>
      r.deleted == ReplacedImages(current.value, pc, mobile)
    ensures current.Some? && (pc.Some? ==> pc.value.uploadOk) && (mobile.Some? ==> mobile.value.uploadOk) && !updateOk ==>
      r.status == 500 && r.patch == map[]
    ensures r.status == 200 <==>
      current.Some? && (pc.Some? ==> pc.value.uploadOk) && (mobile.Some? ==> mobile.value.uploadOk) && updateOk
    ensures r.status == 200 ==> r.patch == Defined(RawPatch(body)) + ImagePatch(pc, mobile, publicUrl)
  {
    if current.None? {
      return SlideUpdate(404, [], map[]);
    }
    var slide := current.value;
    var patch := DeleteUndefined(RawPatch(body), SlideFields);
    var images: map<string, Value> := map[];
    var deleted: seq<Value> := [];
    if pc.Some? {
      if !pc.value.uploadOk {
        return SlideUpdate(500, deleted, map[]);
      }
      deleted := deleted + [Get(slide, "pcImage")];
      images := map["pcImage" := Str(publicUrl(UploadPath(pc.value, "pc")))];
    }
    if mobile.Some? {
      if !mobile.value.uploadOk {
        return SlideUpdate(500, deleted, map[]);
      }
      deleted := deleted + [Get(slide, "mobileImage")];
      images := images["mobileImage" := Str(publicUrl(UploadPath(mobile.value, "mobile")))];
    }
    if !updateOk {
      return SlideUpdate(500, deleted, map[]);
    }
    r := SlideUpdate(200, deleted, patch + images);
  }

  /** The cleaned patch holds exactly the defined body fields, as given. */
  lemma {:induction false} CleanedFields(body: Value)
    ensures forall k :: k in SlideFields ==> (k in Defined(RawPatch(body)) <==> Get(body, k) != Undef)
    ensures forall k :: k in Defined(RawPatch(body)) ==> k in SlideFields && Defined(RawPatch(body))[k] == Get(body, k)
  {
    var raw := RawPatch(body);
    assert forall k :: k in raw ==> raw[k] == Get(body, k);
  }

  /** The image part holds a slot exactly when a new image came for it. */
  lemma {:induction false} ImageFields(pc: Option<ImageFile>, mobile: Option<ImageFile>, publicUrl: string -> string)
    ensures "pcImage" in ImagePatch(pc, mobile, publicUrl) <==> pc.Some?
    ensures "mobileImage" in ImagePatch(pc, mobile, publicUrl) <==> mobile.Some?
    ensures pc.Some? ==> ImagePatch(pc, mobile, publicUrl)["pcImage"] == Str(publicUrl(UploadPath(pc.value, "pc")))
    ensures mobile.Some? ==> ImagePatch(pc, mobile, publicUrl)["mobileImage"] == Str(publicUrl(UploadPath(mobile.value, "mobile")))
  {
  }

  /** The update holds exactly the defined body fields, as given, and the new
      image URLs. */
  lemma {:induction false} UpdatePatchFields(body: Value, pc: Option<ImageFile>, mobile: Option<ImageFile>, publicUrl: string -> string)
    ensures var p := Defined(RawPatch(body)) + ImagePatch(pc, mobile, publicUrl);
      && (forall k :: k in SlideFields ==> (k in p <==> Get(body, k) != Undef))
      && (forall k :: k in SlideFields && k in p ==> p[k] == Get(body, k))
      && ("pcImage" in p <==> pc.Some?) && ("mobileImage" in p <==> mobile.Some?)
  {
    CleanedFields(body);
    ImageFields(pc, mobile, publicUrl);
    assert "pcImage" !in SlideFields && "mobileImage" !in SlideFields;
  }

  /** deleteSlide: 404 without the slide; else both images are deleted, desktop
      first, and the row removal's outcome is the status. */
  function DeleteSlide(current: Option<Value>, deleteOk: bool): (r: (int, seq<Value>))
    ensures current.None? ==> r == (404, [])
    ensures current.Some? ==> r.1 == [Get(current.value, "pcImage"), Get(current.value, "mobileImage")]
    ensures current.Some? ==> (r.0 == 200 <==> deleteOk)
  {
    if current.None? then (404, [])
    else (if deleteOk then 200 else 500, [Get(current.value, "pcImage"), Get(current.value, "mobileImage")])
  }
}
