/** The design-JSON handling of the templates controller: deepMerge, toBool,
    safeJsonParse and normalizeDesignJson, and the payloads createTemplate and
    patchTemplate write. JSON.parse, JSON.stringify and the UTF-8 byte length are
    parameters; so is the "slug already taken" lookup. */
module Templates {
  import opened Base
  import opened JsValue

  // ---------------------------------------------------------------------------
  // deepMerge
  // ---------------------------------------------------------------------------

  /** deepMerge(target, patch): when both are plain objects, the target's keys with
      each defined patch entry laid over them (merged again where both sides are
      plain objects); otherwise the patch itself (two arrays included). */
  function DeepMerge(target: Value, patch: Value): (r: Value)
    ensures !(IsPlainObject(target) && IsPlainObject(patch)) ==> r == patch
    ensures IsPlainObject(target) && IsPlainObject(patch) ==> r.Obj?
    decreases patch
  {
    if target.Arr? && patch.Arr? then patch
    else if !IsPlainObject(target) || !IsPlainObject(patch) then patch
    else
      Obj(map k | k in target.fields.Keys + patch.fields.Keys
                  && (k in target.fields || patch.fields[k] != Undef) ::
            if k in patch.fields && patch.fields[k] != Undef then
              if IsPlainObject(patch.fields[k]) && k in target.fields && IsPlainObject(target.fields[k])
              then DeepMerge(target.fields[k], patch.fields[k])
              else patch.fields[k]
            else target.fields[k])
  }

  /** What the merge of two plain objects holds, key by key: target keys the patch
      leaves out (or sets to undefined) are kept, a defined patch value replaces the
      target's unless both are plain objects, which are merged. */
  lemma {:induction false} MergeFields(target: Value, patch: Value)
    requires IsPlainObject(target) && IsPlainObject(patch)
    ensures var r := DeepMerge(target, patch);
      && (forall k :: k in r.fields <==> (k in target.fields || (k in patch.fields && patch.fields[k] != Undef)))
      && (forall k :: k in target.fields && (k !in patch.fields || patch.fields[k] == Undef) ==> r.fields[k] == target.fields[k])
      && (forall k :: k in patch.fields && patch.fields[k] != Undef && !(IsPlainObject(patch.fields[k]) && k in target.fields && IsPlainObject(target.fields[k]))
            ==> r.fields[k] == patch.fields[k])
      && (forall k :: k in patch.fields && IsPlainObject(patch.fields[k]) && k in target.fields && IsPlainObject(target.fields[k])
            ==> r.fields[k] == DeepMerge(target.fields[k], patch.fields[k]))
  {
  }

  /** Merging the same patch a second time changes nothing. */
  lemma {:induction false} DeepMergeIdempotent(target: Value, patch: Value)
    ensures DeepMerge(DeepMerge(target, patch), patch) == DeepMerge(target, patch)
    decreases patch
  {
    if IsPlainObject(target) && IsPlainObject(patch) {
      var once := DeepMerge(target, patch);
      var twice := DeepMerge(once, patch);
      MergeFields(target, patch);
      MergeFields(once, patch);
      assert twice.fields.Keys == once.fields.Keys;
      forall k | k in once.fields ensures twice.fields[k] == once.fields[k] {
        if k in patch.fields && patch.fields[k] != Undef {
          var pv := patch.fields[k];
          if IsPlainObject(pv) && k in target.fields && IsPlainObject(target.fields[k]) {
            DeepMergeIdempotent(target.fields[k], pv);
            assert once.fields[k] == DeepMerge(target.fields[k], pv);
            assert IsPlainObject(once.fields[k]);
            assert twice.fields[k] == DeepMerge(once.fields[k], pv);
          } else if IsPlainObject(pv) {
            // The patch object was copied in, so the second merge merges it into itself.
            assert once.fields[k] == pv;
            DeepMergeSelf(pv);
            assert twice.fields[k] == DeepMerge(pv, pv);
          } else {
            assert once.fields[k] == pv;
            assert twice.fields[k] == pv;
          }
        } else {
          assert twice.fields[k] == once.fields[k];
        }
      }
      assert twice.fields == once.fields;
    } else {
      // The result is the patch itself, merged into itself the second time.
      DeepMergeSelf(patch);
    }
  }

  /** A plain object merged into itself is itself (its undefined entries were never
      copied out of a patch, so none are dropped). */
  lemma {:induction false} DeepMergeSelf(v: Value)
    ensures DeepMerge(v, v) == v
    decreases v
  {
    if IsPlainObject(v) {
      MergeFields(v, v);
      var r := DeepMerge(v, v);
      forall k | k in v.fields && IsPlainObject(v.fields[k]) ensures r.fields[k] == v.fields[k] {
        DeepMergeSelf(v.fields[k]);
      }
      assert r.fields == v.fields;
    }
  }

  /** An empty patch leaves a plain object as it is. */
  lemma {:induction false} MergeEmptyPatch(target: Value)
    requires IsPlainObject(target)
    ensures DeepMerge(target, Obj(map[])) == target
  {
    MergeFields(target, Obj(map[]));
  }

  // ---------------------------------------------------------------------------
  // toBool, safeJsonParse, normalizeDesignJson
  // ---------------------------------------------------------------------------

  /** toBool: a boolean, "true"/"false" in any letter case, else undefined (None). */
  function ToBool(v: Value): (r: Option<bool>)
    ensures v.Bool? ==> r == Some(v.b)
    ensures r == Some(true) <==> v == Bool(true) || (v.Str? && ToLower(v.s) == "true")
    ensures r == Some(false) <==> v == Bool(false) || (v.Str? && ToLower(v.s) == "false")
  {
    if v.Bool? then Some(v.b)
    else if v.Str? && ToLower(v.s) == "true" then Some(true)
    else if v.Str? && ToLower(v.s) == "false" then Some(false)
    else None
  }

  /** "TRUE" and "False" are read as booleans too. */
  lemma {:induction false} ToBoolIgnoresCase()
    ensures ToBool(Str("TRUE")) == Some(true) && ToBool(Str("False")) == Some(false)
    ensures ToBool(Str("yes")) == None && ToBool(Num(1)) == None
  {
    assert ToLower("TRUE") == "true";
    assert ToLower("False") == "false";
    assert ToLower("yes") == "yes";
  }

  const ErrEmpty := "design_json is empty"
  const ErrInvalid := "design_json is not valid JSON"
  const ErrType := "design_json must be a JSON string or object"
  const ErrRoot := "design_json root must be object or array"
  const ErrSerialize := "design_json is not serializable"
  const ErrBackground := "backgroundImageUrl must be a string"

  /** safeJsonParse: text is trimmed and parsed (`parseJson` is JSON.parse, None when
      it throws); an object or array is taken as it is; anything else is refused. */
  function SafeJsonParse(v: Value, parseJson: string -> Option<Value>): (r: Result<Value, string>)
    ensures v.Str? && IsBlank(v.s) ==> r == Err(ErrEmpty)
    ensures v.Str? && !IsBlank(v.s) ==>
      r == (match parseJson(Trim(v.s)) case Some(x) => Ok(x) case None => Err(ErrInvalid))
    ensures v.Obj? || v.Arr? ==> r == Ok(v)
    ensures !(v.Str? || v.Obj? || v.Arr?) ==> r == Err(ErrType)
  {
    if v.Str? then
      var t := Trim(v.s);
      if t == "" then Err(ErrEmpty)
      else match parseJson(t)
        case Some(x) => Ok(x)
        case None => Err(ErrInvalid)
    else if v.Obj? || v.Arr? then Ok(v)
    else Err(ErrType)
  }

  const MaxDesignBytes := 1000000

  /** The accepted design: the value and its serialization. */
  datatype Design = Design(json: Value, text: string)

  /** normalizeDesignJson with the default limit of 1 000 000 bytes: the parsed
      value must be an object or array, serialize (`stringify`, None when it throws)
      to at most `maxBytes` UTF-8 bytes (`byteLength`), and, being an object, carry
      no backgroundImageUrl other than a string. */
  function NormalizeDesignJson(input: Value, maxBytes: int, parseJson: string -> Option<Value>,
                               stringify: Value -> Option<string>, byteLength: string -> nat): (r: Result<Design, string>)
    ensures SafeJsonParse(input, parseJson).Err? ==> r == Err(SafeJsonParse(input, parseJson).error)
    ensures r.Ok? <==>
      && SafeJsonParse(input, parseJson).Ok?
      && var val := SafeJsonParse(input, parseJson).value;
      && (val.Obj? || val.Arr?)
      && stringify(val).Some?
      && byteLength(stringify(val).value) <= maxBytes
      && !(val.Obj? && "backgroundImageUrl" in val.fields && !val.fields["backgroundImageUrl"].Str?)
    ensures r.Ok? ==> (r.value.json == SafeJsonParse(input, parseJson).value
      && Some(r.value.text) == stringify(r.value.json))
  {
    match SafeJsonParse(input, parseJson)
    case Err(e) => Err(e)
    case Ok(val) =>
      if !(val.Obj? || val.Arr?) then Err(ErrRoot)
      else
        match stringify(val)
        case None => Err(ErrSerialize)
        case Some(str) =>
          var bytes := byteLength(str);
          if bytes > maxBytes then Err("design_json too large (" + NatToString(bytes) + " bytes)")
          else if val.Obj? && "backgroundImageUrl" in val.fields && !val.fields["backgroundImageUrl"].Str? then Err(ErrBackground)
          else Ok(Design(val, str))
  }

  // ---------------------------------------------------------------------------
  // createTemplate and patchTemplate
  // ---------------------------------------------------------------------------

  /** The parsers the two handlers share. */
  datatype Json = Json(parse: string -> Option<Value>, stringify: Value -> Option<string>, byteLength: string -> nat)

  datatype TemplateRow = TemplateRow(name: string, slug: string, thumbnailUrl: string, isActive: bool, designJson: Option<string>, top: bool)

  predicate IsNonEmptyString(v: Value) {
    v.Str? && v.s != ""
  }

  /** name, slug and thumbnail_url are all non-empty strings. */
  predicate FieldsComplete(body: Value) {
    IsNonEmptyString(Get(body, "name")) && IsNonEmptyString(Get(body, "slug")) && IsNonEmptyString(Get(body, "thumbnail_url"))
  }

  /** A design_json the create handler accepts: none (null or undefined), or one
      normalizeDesignJson takes. */
  predicate DesignAccepted(dj: Value, json: Json) {
    IsNullish(dj) || NormalizeDesignJson(dj, MaxDesignBytes, json.parse, json.stringify, json.byteLength).Ok?
  }

  /** createTemplate: 401 without a user; 400 unless name, slug and thumbnail_url are
      non-empty strings, or when a given design_json is refused; 409 when the trimmed
      slug is taken; else the row, is_active defaulting to true and top to false. */
  function CreateTemplate(hasUser: bool, body: Value, json: Json, slugTaken: string -> bool): (r: Result<TemplateRow, int>)
    ensures !hasUser ==> r == Err(401)
    ensures r == Err(400) <==> hasUser && (!FieldsComplete(body) || !DesignAccepted(Get(body, "design_json"), json))
    ensures r == Err(409) <==> (hasUser && FieldsComplete(body) && DesignAccepted(Get(body, "design_json"), json)
      && slugTaken(Trim(Get(body, "slug").s)))
    ensures r.Ok? <==> (hasUser && FieldsComplete(body) && DesignAccepted(Get(body, "design_json"), json)
      && !slugTaken(Trim(Get(body, "slug").s)))
    ensures r.Ok? ==> (r.value.slug == Trim(Get(body, "slug").s) && r.value.name == Trim(Get(body, "name").s)
      && r.value.thumbnailUrl == Trim(Get(body, "thumbnail_url").s))
    ensures r.Ok? ==> r.value.isActive == (if Get(body, "is_active").Bool? then Get(body, "is_active").b else true)
    ensures r.Ok? ==> r.value.top == (Get(body, "top").Bool? && Get(body, "top").b)
    ensures r.Ok? ==> r.value.designJson == (if IsNullish(Get(body, "design_json")) then None
      else Some(NormalizeDesignJson(Get(body, "design_json"), MaxDesignBytes, json.parse, json.stringify, json.byteLength).value.text))
  {
    if !hasUser then Err(401)
    else
      var name := Get(body, "name");
      var slug := Get(body, "slug");
      var thumb := Get(body, "thumbnail_url");
      var isActive := Get(body, "is_active");
      var top := Get(body, "top");
      var dj := Get(body, "design_json");
      if !IsNonEmptyString(name) || !IsNonEmptyString(slug) || !IsNonEmptyString(thumb) then Err(400)
      else
        var design := if IsNullish(dj) then Ok(None)
          else match NormalizeDesignJson(dj, MaxDesignBytes, json.parse, json.stringify, json.byteLength)
            case Ok(d) => Ok(Some(d.text))
            case Err(_) => Err(400);
        if design.Err? then Err(400)
        else if slugTaken(Trim(slug.s)) then Err(409)
        else Ok(TemplateRow(Trim(name.s), Trim(slug.s), Trim(thumb.s),
                            if isActive.Bool? then isActive.b else true,
                            design.value,
                            if top.Bool? then top.b else false))
  }

  /** The stored design the patch is merged onto: `current.design_json || "{}"`
      parsed, or {} when that fails. */
  function MergeBase(current: Value, parseJson: string -> Option<Value>): (r: Value)
    ensures SafeJsonParse(Or(Get(current, "design_json"), Str("{}")), parseJson).Err? ==> r == Obj(map[])
    ensures SafeJsonParse(Or(Get(current, "design_json"), Str("{}")), parseJson).Ok? ==>
      r == SafeJsonParse(Or(Get(current, "design_json"), Str("{}")), parseJson).value
  {
    match SafeJsonParse(Or(Get(current, "design_json"), Str("{}")), parseJson)
    case Ok(v) => v
    case Err(_) => Obj(map[])
  }

  /** A design stored as an object or array is merged onto as it is. */
  lemma {:induction false} MergeBaseOfStored(current: Value, parseJson: string -> Option<Value>)
    requires Get(current, "design_json").Obj? || Get(current, "design_json").Arr?
    ensures MergeBase(current, parseJson) == Get(current, "design_json")
  {
    assert Truthy(Get(current, "design_json"));
  }

  /** A row without a stored design merges onto the parse of "{}". */
  lemma {:induction false} MergeBaseOfMissing(current: Value, parseJson: string -> Option<Value>)
    requires !Truthy(Get(current, "design_json"))
    ensures MergeBase(current, parseJson) == (match parseJson("{}") case Some(v) => v case None => Obj(map[]))
  {
    TrimNoSpace("{}");
  }

  /** The columns a template update may set; None leaves a column out. */
  datatype TemplatePatch = TemplatePatch(
    name: Option<string>, slug: Option<string>, thumbnailUrl: Option<string>,
    isActive: Option<bool>, top: Option<bool>, designJson: Option<string>)

  /** A text column of the update: the trimmed string when the body gives a string. */
  function TextColumn(v: Value): (r: Option<string>)
    ensures r.Some? <==> v.Str?
    ensures v.Str? ==> r.value == Trim(v.s)
  {
    if v.Str? then Some(Trim(v.s)) else None
  }

  /** A flag column of the update: the boolean when the body gives one. */
  function FlagColumn(v: Value): (r: Option<bool>)
    ensures r.Some? <==> v.Bool?
    ensures v.Bool? ==> r.value == v.b
  {
    if v.Bool? then Some(v.b) else None
  }

  /** The plain fields of the update, each set only when the body gives it with the
      right type: strings trimmed, booleans as they are. */
  method ScalarPatch(body: Value) returns (patch: TemplatePatch)
    ensures patch.name == TextColumn(Get(body, "name")) && patch.slug == TextColumn(Get(body, "slug"))
    ensures patch.thumbnailUrl == TextColumn(Get(body, "thumbnail_url"))
    ensures patch.isActive == FlagColumn(Get(body, "is_active")) && patch.top == FlagColumn(Get(body, "top"))
    ensures patch.designJson.None?
  {
    patch := TemplatePatch(None, None, None, None, None, None);
    var name := Get(body, "name");
    var slug := Get(body, "slug");
    var thumb := Get(body, "thumbnail_url");
    var isActive := Get(body, "is_active");
    var top := Get(body, "top");
    if name.Str? { patch := patch.(name := Some(Trim(name.s))); }
    if slug.Str? { patch := patch.(slug := Some(Trim(slug.s))); }
    if thumb.Str? { patch := patch.(thumbnailUrl := Some(Trim(thumb.s))); }
    if isActive.Bool? { patch := patch.(isActive := Some(isActive.b)); }
    if top.Bool? { patch := patch.(top := Some(top.b)); }
  }

  predicate IsEmptyPatch(p: TemplatePatch) {
    p == TemplatePatch(None, None, None, None, None, None)
  }

  /** design_json normalized, when the body gives it. */
  function Normalized(v: Value, json: Json): Result<Design, string> {
    NormalizeDesignJson(v, MaxDesignBytes, json.parse, json.stringify, json.byteLength)
  }

  /** design_json_patch merged onto MergeBase of the stored design, then normalized;
      Err when the patch itself does not parse. */
  function MergedDesign(current: Value, djPatch: Value, json: Json): Result<Design, string> {
    match SafeJsonParse(djPatch, json.parse)
    case Err(e) => Err(e)
    case Ok(pv) => Normalized(DeepMerge(MergeBase(current, json.parse), pv), json)
  }

  /** The design_json the patch writes, if any: design_json normalized, then
      replaced by the merge of design_json_patch onto the stored design (never onto
      the design_json of the same body); Err(400) when either is refused. */
  function DesignPatch(current: Value, body: Value, json: Json): (r: Result<Option<string>, int>)
    ensures r.Err? ==> r == Err(400)
    ensures r.Err? <==> ((Get(body, "design_json") != Undef && Normalized(Get(body, "design_json"), json).Err?)
      || (Get(body, "design_json_patch") != Undef && MergedDesign(current, Get(body, "design_json_patch"), json).Err?))
    ensures r.Ok? ==> (r.value.Some? <==> Get(body, "design_json") != Undef || Get(body, "design_json_patch") != Undef)
    ensures r.Ok? && Get(body, "design_json_patch") == Undef && Get(body, "design_json") != Undef ==>
      r.value == Some(Normalized(Get(body, "design_json"), json).value.text)
    ensures Get(body, "design_json_patch") != Undef && SafeJsonParse(Get(body, "design_json_patch"), json.parse).Err? ==> r == Err(400)
    ensures r.Ok? && Get(body, "design_json_patch") != Undef ==>
      var p := SafeJsonParse(Get(body, "design_json_patch"), json.parse);
      && p.Ok?
      && var merged := NormalizeDesignJson(DeepMerge(MergeBase(current, json.parse), p.value), MaxDesignBytes, json.parse, json.stringify, json.byteLength);
      && merged.Ok? && r.value == Some(merged.value.text)
  {
    var dj := Get(body, "design_json");
    var djPatch := Get(body, "design_json_patch");
    var first := if dj == Undef then Ok(None)
      else match NormalizeDesignJson(dj, MaxDesignBytes, json.parse, json.stringify, json.byteLength)
        case Ok(d) => Ok(Some(d.text))
        case Err(_) => Err(400);
    if first.Err? then Err(400)
    else if djPatch == Undef then first
    else
      match SafeJsonParse(djPatch, json.parse)
      case Err(_) => Err(400)
      case Ok(pv) =>
        match NormalizeDesignJson(DeepMerge(MergeBase(current, json.parse), pv), MaxDesignBytes, json.parse, json.stringify, json.byteLength)
        case Ok(d) => Ok(Some(d.text))
        case Err(_) => Err(400)
  }

  /** The body renames the template to a non-blank slug other than its own. */
  predicate NewSlug(body: Value, current: Value) {
    Get(body, "slug").Str? && Trim(Get(body, "slug").s) != "" && Str(Trim(Get(body, "slug").s)) != Get(current, "slug")
  }

  /** The body gives no column the update could set. */
  predicate NoFields(body: Value) {
    && !Get(body, "name").Str? && !Get(body, "slug").Str? && !Get(body, "thumbnail_url").Str?
    && !Get(body, "is_active").Bool? && !Get(body, "top").Bool?
    && Get(body, "design_json") == Undef && Get(body, "design_json_patch") == Undef
  }

  /** patchTemplate: 401, 404 without the current row, 409 when a new trimmed slug is
      taken, 400 for a refused design or an empty patch; else the update. */
  method PatchTemplate(hasUser: bool, current: Option<Value>, body: Value, json: Json, slugTaken: string -> bool)
    returns (r: Result<TemplatePatch, int>)
    ensures !hasUser ==> r == Err(401)
    ensures hasUser && current.None? ==> r == Err(404)
    ensures r == Err(409) <==> (hasUser && current.Some? && NewSlug(body, current.value) && slugTaken(Trim(Get(body, "slug").s)))
    ensures r == Err(400) <==> (hasUser && current.Some? && !(NewSlug(body, current.value) && slugTaken(Trim(Get(body, "slug").s)))
      && (DesignPatch(current.value, body, json).Err? || NoFields(body)))
    ensures r.Ok? <==> (hasUser && current.Some? && !(NewSlug(body, current.value) && slugTaken(Trim(Get(body, "slug").s)))
      && DesignPatch(current.value, body, json).Ok? && !NoFields(body))
    ensures r.Ok? ==> !IsEmptyPatch(r.value)
    ensures r.Ok? ==> (r.value.name == TextColumn(Get(body, "name")) && r.value.slug == TextColumn(Get(body, "slug"))
      && r.value.thumbnailUrl == TextColumn(Get(body, "thumbnail_url"))
      && r.value.isActive == FlagColumn(Get(body, "is_active")) && r.value.top == FlagColumn(Get(body, "top")))
    ensures r.Ok? ==> DesignPatch(current.value, body, json) == Ok(r.value.designJson)
  {
    if !hasUser {
      return Err(401);
    }
    if current.None? {
      return Err(404);
    }
    var cur := current.value;
    var slug := Get(body, "slug");
    if NewSlug(body, cur) {
      if slugTaken(Trim(slug.s)) {
        return Err(409);
      }
    }
    var patch := ScalarPatch(body);
    var design := DesignPatch(cur, body, json);
    if design.Err? {
      return Err(400);
    }
    patch := patch.(designJson := design.value);
    if IsEmptyPatch(patch) {
      return Err(400);
    }
    r := Ok(patch);
  }
}
