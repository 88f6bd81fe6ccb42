/** uploadTemplateImage: replacing one of a template's four images. The type names
    a slot, either the thumbnail_url column or a key of design_json; the old image
    of the slot, when there is one, is deleted from storage before the new one is
    uploaded under `templates/<id>/<type>/<name>.webp`, and only the slot is
    updated. Storage, the image encoder and the clock are inputs. */
module TemplateImages {
  import opened Base
  import opened JsValue
  import opened Storage

  /** Where a type's image URL is kept. */
  datatype Slot = Column(column: string) | JsonKey(key: string)

  /** The names of the members every JavaScript object inherits from
      Object.prototype. */
  const PrototypeMembers: set<string> := {
    "constructor", "hasOwnProperty", "isPrototypeOf", "propertyIsEnumerable",
    "toLocaleString", "toString", "valueOf", "__proto__",
    "__defineGetter__", "__defineSetter__", "__lookupGetter__", "__lookupSetter__"
  }

  /** The slot of a type, as MAP intends: exactly the four image types. */
  function SlotOf(t: Value): (r: Option<Slot>)
    ensures r.Some? <==> ToJsString(t) in {"thumbnail", "background", "invitation", "envelope"}
    ensures r == Some(Column("thumbnail_url")) <==> ToJsString(t) == "thumbnail"
    ensures r.Some? && r.value.JsonKey? ==> r.value.key in {"backgroundImageUrl", "invitationImageUrl", "envelopeImageUrl"}
  {
    var k := ToJsString(t);
    if k == "thumbnail" then Some(Column("thumbnail_url"))
    else if k == "background" then Some(JsonKey("backgroundImageUrl"))
    else if k == "invitation" then Some(JsonKey("invitationImageUrl"))
    else if k == "envelope" then Some(JsonKey("envelopeImageUrl"))
    else None
  }

  /** The slot as `MAP[type]` finds it: a name inherited from Object.prototype is a
      truthy member too, has no `column`, and so selects the design_json key
      `String(undefined)`. */
  function SlotAsWritten(t: Value): (r: Option<Slot>)
    ensures SlotOf(t).Some? ==> r == SlotOf(t)
    ensures SlotOf(t).None? && ToJsString(t) in PrototypeMembers ==> r == Some(JsonKey("undefined"))
  {
    if SlotOf(t).Some? then SlotOf(t)
    else if ToJsString(t) in PrototypeMembers then Some(JsonKey("undefined"))
    else None
  }

  /** The type "constructor" passes the check as written, and writes the image URL
      under design_json's "undefined" key; the intended check refuses it. */
  lemma {:induction false} ConstructorTypeAccepted()
    ensures SlotAsWritten(Str("constructor")) == Some(JsonKey("undefined"))
    ensures SlotOf(Str("constructor")).None?
  {
    assert ToJsString(Str("constructor")) == "constructor";
    assert "constructor" in PrototypeMembers;
  }

  /** safeJson: {} for a falsy value, an object or array as it is, otherwise the
      parse of its string form, or {} when that fails. */
  function SafeJson(v: Value, parseJson: string -> Option<Value>): (r: Value)
    ensures !Truthy(v) ==> r == Obj(map[])
    ensures Truthy(v) && (v.Obj? || v.Arr?) ==> r == v
    ensures Truthy(v) && v.Str? && parseJson(v.s).None? ==> r == Obj(map[])
    ensures Truthy(v) && v.Str? && parseJson(v.s).Some? ==> r == parseJson(v.s).value
  {
    if !Truthy(v) then Obj(map[])
    else if v.Obj? || v.Arr? then v
    else match parseJson(ToJsString(v))
      case Some(x) => x
      case None => Obj(map[])
  }

  /** `dj[key] = url`: an object gains or replaces the key; on an array the property
      is dropped by JSON.stringify, and on a primitive the assignment is ignored. */
  function SetKey(dj: Value, key: string, url: string): (r: Value)
    ensures dj.Obj? ==> r.Obj? && r.fields.Keys == dj.fields.Keys + {key} && r.fields[key] == Str(url)
    ensures dj.Obj? ==> forall k :: k in dj.fields && k != key ==> r.fields[k] == dj.fields[k]
    ensures !dj.Obj? ==> r == dj
  {
    if dj.Obj? then Obj(dj.fields[key := Str(url)]) else dj
  }

  /** The design the handler reads and rewrites: safeJson of the stored design_json. */
  function StoredDesign(tpl: Value, parseJson: string -> Option<Value>): Value {
    SafeJson(Get(tpl, "design_json"), parseJson)
  }

  /** The slot's current image URL; None when reading it throws (the parsed design
      is null). */
  function OldImageUrl(slot: Slot, tpl: Value, parseJson: string -> Option<Value>): (r: Option<Value>)
    ensures slot.Column? ==> r == Some(Get(tpl, slot.column))
    ensures slot.JsonKey? && !IsNullish(StoredDesign(tpl, parseJson)) ==> r == Some(Get(StoredDesign(tpl, parseJson), slot.key))
    ensures r.None? <==> slot.JsonKey? && IsNullish(StoredDesign(tpl, parseJson))
  {
    match slot
    case Column(c) => Some(Get(tpl, c))
    case JsonKey(k) =>
      var dj := StoredDesign(tpl, parseJson);
      if IsNullish(dj) then None else Some(Get(dj, k))
  }

  /** `templates/<id>/<type>/<name>.webp`, the name being `<stem>.webp`. */
  function UploadPath(id: string, typeText: string, stem: string): string {
    "templates" + "/" + (id + "/" + (typeText + "/" + (stem + ".webp")))
  }

  /** Four segments without "/" joined by "/" split back into those segments. */
  lemma {:induction false} SplitFourSegments(a: string, b: string, c: string, d: string)
    requires Lacks(a, '/') && Lacks(b, '/') && Lacks(c, '/') && Lacks(d, '/')
    ensures Split(a + "/" + (b + "/" + (c + "/" + d)), "/") == [a, b, c, d]
  {
    LacksSplit(d, '/');
    SplitSlashCons(c, d);
    SplitSlashCons(b, c + "/" + d);
    SplitSlashCons(a, b + "/" + (c + "/" + d));
  }

  /** The path's "/"-segments are the folder, the template id, the type and the file
      name, when none of them holds a "/". */
  lemma {:induction false} UploadPathSegments(id: string, typeText: string, stem: string)
    requires Lacks(id, '/') && Lacks(typeText, '/') && Lacks(stem, '/')
    ensures Split(UploadPath(id, typeText, stem), "/") == ["templates", id, typeText, stem + ".webp"]
  {
    LacksConcat(stem, ".webp", '/');
    assert Lacks("templates", '/');
    SplitFourSegments("templates", id, typeText, stem + ".webp");
  }

  /** What the handler did: its status, the old URL it passed to the storage
      deletion (if any), and the row update it made (empty when it made none). */
  datatype Upload = Upload(status: int, deleted: Option<Value>, patch: map<string, Value>)

  /** uploadTemplateImage. `file` tells whether a file came with the request, `tpl`
      is the template row, `stem` the `<time>-<random>` part of the name, `uploadOk`
      the storage upload's outcome and `publicUrl` the public URL of a stored path.
      A read that throws goes to the error handler, which answers 500. */
  method UploadTemplateImage(id: string, t: Value, file: bool, tpl: Option<Value>, stem: string, uploadOk: bool,
                             publicUrl: string -> string, parseJson: string -> Option<Value>, stringify: Value -> string)
    returns (r: Upload)
    ensures SlotOf(t).None? || !file ==> r == Upload(400, None, map[])
    ensures SlotOf(t).Some? && file && tpl.None? ==> r == Upload(404, None, map[])
    ensures r.deleted.Some? <==>
      (&& SlotOf(t).Some? && file && tpl.Some?
       && OldImageUrl(SlotOf(t).value, tpl.value, parseJson).Some?
       && Truthy(OldImageUrl(SlotOf(t).value, tpl.value, parseJson).value))
    ensures r.deleted.Some? ==> r.deleted == OldImageUrl(SlotOf(t).value, tpl.value, parseJson)
    ensures r.status == 200 <==>
      (&& SlotOf(t).Some? && file && tpl.Some?
       && OldImageUrl(SlotOf(t).value, tpl.value, parseJson).Some? && uploadOk)
    ensures r.status != 200 ==> r.patch == map[]
    ensures r.status == 200 && SlotOf(t).value.Column? ==>
      r.patch == map["thumbnail_url" := Str(publicUrl(UploadPath(id, ToJsString(t), stem)))]
    ensures r.status == 200 && SlotOf(t).value.JsonKey? ==>
      r.patch == map["design_json" := Str(stringify(SetKey(StoredDesign(tpl.value, parseJson), SlotOf(t).value.key,
                                                           publicUrl(UploadPath(id, ToJsString(t), stem)))))]
  {
    var slot := SlotOf(t);
    if slot.None? || !file {
      return Upload(400, None, map[]);
    }
    if tpl.None? {
      return Upload(404, None, map[]);
    }
    var row := tpl.value;
    var oldUrl := OldImageUrl(slot.value, row, parseJson);
    if oldUrl.None? {
      return Upload(500, None, map[]);
    }
    var deleted := None;
    if Truthy(oldUrl.value) {
      deleted := Some(oldUrl.value);
    }
    if !uploadOk {
      return Upload(500, deleted, map[]);
    }
    var url := publicUrl(UploadPath(id, ToJsString(t), stem));
    var patch: map<string, Value> := map[];
    match slot.value {
      case Column(c) =>
        patch := patch[c := Str(url)];
      case JsonKey(k) =>
        var dj := StoredDesign(row, parseJson);
        dj := SetKey(dj, k, url);
        patch := patch["design_json" := Str(stringify(dj))];
    }
    r := Upload(200, deleted, patch);
  }

  /** A "?" after text that holds no public marker adds none: the marker ends in "/". */
  lemma {:induction false} QueryMarkAddsNoMarker(x: string)
    requires !Contains(x, PublicMarker)
    ensures !Contains(x + "?" + "", PublicMarker)
  {
    var y := x + "?" + "";
    forall i | 0 <= i <= |y| - |PublicMarker|
      ensures !OccursAt(y, PublicMarker, i)
    {
      if i + |PublicMarker| <= |x| {
        assert y[i..i + |PublicMarker|] == x[i..i + |PublicMarker|];
        assert !OccursAt(x, PublicMarker, i);
      } else {
        assert y[i..i + |PublicMarker|][|PublicMarker| - 1] == '?';
      }
    }
  }

  /** The image stored now is the object a later replacement of the same slot
      deletes: its public URL, kept in the slot, parses back to the templates bucket
      and the upload path. */
  lemma {:induction false} ReplacementDeletesUpload(host: string, id: string, typeText: string, stem: string)
    requires IndexOf(host + PublicMarker, PublicMarker) == Some(|host|)
    requires !Contains("templates" + "/" + UploadPath(id, typeText, stem), PublicMarker)
    requires Lacks(host, '?') && Lacks(UploadPath(id, typeText, stem), '?')
    ensures StorageRemoval(Str(PublicUrl(host, "templates", UploadPath(id, typeText, stem))))
      == Some(Removal("templates", UploadPath(id, typeText, stem)))
  {
    assert Lacks("templates", '/') && Lacks("templates", '?');
    QueryMarkAddsNoMarker("templates" + "/" + UploadPath(id, typeText, stem));
    RemovalOfPublicUrl(host, "templates", UploadPath(id, typeText, stem), "");
  }
}
