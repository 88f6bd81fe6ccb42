/** The category tree: the UUID check and parent_id normalization, and the refusal
    rules of creating, renaming/moving and deleting a category. Each handler is a
    decision over the current table; database errors (500) are not modelled. The
    rules together keep the tree's references intact, which the lemmas at the end
    state. */
module Categories {
  import opened Base
  import opened JsValue

  // ---------------------------------------------------------------------------
  // UUIDs (sections 4.1.1 and 4.1.3 of RFC 4122)
  // ---------------------------------------------------------------------------

  /** A hexadecimal digit, in either case (the check is case-insensitive). */
  predicate IsHex(c: char) {
    ('0' <= c <= '9') || ('a' <= c <= 'f') || ('A' <= c <= 'F')
  }

  predicate HexRun(s: string) {
    forall i :: 0 <= i < |s| ==> IsHex(s[i])
  }

  /** The version nibble: 1 to 5. */
  predicate IsVersion(c: char) {
    '1' <= c <= '5'
  }

  /** The variant nibble of RFC 4122 UUIDs: 8, 9, a or b. */
  predicate IsVariant(c: char) {
    c == '8' || c == '9' || c == 'a' || c == 'b' || c == 'A' || c == 'B'
  }

  predicate IsDashAt(i: int) {
    i == 8 || i == 13 || i == 18 || i == 23
  }

  /** The text of a UUID, position by position: 36 characters, dashes at 8, 13, 18
      and 23, hex digits elsewhere, the version at 14 and the variant at 19. */
  predicate UuidText(s: string) {
    && |s| == 36
    && (forall i :: 0 <= i < 36 && IsDashAt(i) ==> s[i] == '-')
    && (forall i :: 0 <= i < 36 && !IsDashAt(i) ==> IsHex(s[i]))
    && IsVersion(s[14])
    && IsVariant(s[19])
  }

  /** isUuid: a string matching the pattern. */
  predicate IsUuid(v: Value) {
    v.Str? && UuidText(v.s)
  }

  /** The five groups of the pattern, 8-4-4-4-12 hex digits, with the version first
      in the third group and the variant first in the fourth. */
  predicate UuidGroups(a: string, b: string, c: string, d: string, e: string) {
    && |a| == 8 && |b| == 4 && |c| == 4 && |d| == 4 && |e| == 12
    && HexRun(a) && HexRun(b) && HexRun(c) && HexRun(d) && HexRun(e)
    && IsVersion(c[0]) && IsVariant(d[0])
  }

  function Dashed(a: string, b: string, c: string, d: string, e: string): string {
    a + "-" + b + "-" + c + "-" + d + "-" + e
  }

  /** Any five groups of the right shape, joined with dashes, are a UUID. */
  lemma {:induction false} UuidOfGroups(a: string, b: string, c: string, d: string, e: string)
    requires UuidGroups(a, b, c, d, e)
    ensures UuidText(Dashed(a, b, c, d, e))
  {
    var s := Dashed(a, b, c, d, e);
    assert forall i :: 0 <= i < 8 ==> s[i] == a[i];
    assert forall i :: 9 <= i < 13 ==> s[i] == b[i - 9];
    assert forall i :: 14 <= i < 18 ==> s[i] == c[i - 14];
    assert forall i :: 19 <= i < 23 ==> s[i] == d[i - 19];
    assert forall i :: 24 <= i < 36 ==> s[i] == e[i - 24];
  }

  /** And every UUID is such a joining of its own groups. */
  lemma {:induction false} GroupsOfUuid(s: string)
    requires UuidText(s)
    ensures UuidGroups(s[..8], s[9..13], s[14..18], s[19..23], s[24..])
    ensures s == Dashed(s[..8], s[9..13], s[14..18], s[19..23], s[24..])
  {
    var t := Dashed(s[..8], s[9..13], s[14..18], s[19..23], s[24..]);
    assert forall i :: 0 <= i < 36 ==> t[i] == s[i];
  }

  /** The check ignores case. */
  lemma {:induction false} UuidIgnoresCase(s: string)
    ensures UuidText(ToLower(s)) <==> UuidText(s)
  {
  }

  /** A UUID has no whitespace at either end, so trimming leaves it alone. */
  lemma {:induction false} UuidTrimmed(s: string)
    requires UuidText(s)
    ensures !IsBlank(s) && Trim(s) == s
  {
    assert !IsJsSpace(s[8]);
    TrimNoSpace(s);
  }

  // ---------------------------------------------------------------------------
  // normalizeParentId
  // ---------------------------------------------------------------------------

  /** What normalizeParentId makes of a body's parent_id: leave the column alone
      (undefined), a root category (null), the "__INVALID__" marker, or a parent. */
  datatype ParentId = Keep | Root | Invalid | Parent(id: string)

  function NormalizeParentId(v: Value): (r: ParentId)
    ensures r == Keep <==> v == Undef
    ensures r == Root <==> (v == Null || (v.Str? && IsBlank(v.s)))
    ensures r.Parent? <==> IsUuid(v)
    ensures r.Parent? ==> v == Str(r.id)
    ensures r == Invalid <==> (!IsNullish(v) && !(v.Str? && IsBlank(v.s)) && !IsUuid(v))
  {
    if v == Undef then Keep
    else if v == Null then Root
    else if v.Str? && Trim(v.s) == "" then Root
    else if !IsUuid(v) then Invalid
    else
      UuidTrimmed(v.s);
      Parent(v.s)
  }

  /** The text the database gives a uuid: its lower-case form. The id columns are
      uuids, so `.eq("id", x)` finds a row whatever the letter case of `x`, and the
      table below is keyed by these canonical ids. */
  function Canon(s: string): string {
    ToLower(s)
  }

  /** The parent column a normalized parent_id stores: null unless a parent is named,
      whose id is stored in canonical form. */
  function ParentColumn(p: ParentId): (r: Option<string>)
    ensures r.Some? <==> p.Parent?
    ensures p.Parent? ==> r.value == Canon(p.id)
  {
    if p.Parent? then Some(Canon(p.id)) else None
  }

  // ---------------------------------------------------------------------------
  // The table and its integrity
  // ---------------------------------------------------------------------------

  datatype Category = Category(name: string, slug: string, parentId: Option<string>)

  /** The categories by canonical id. */
  type Table = map<string, Category>

  predicate SlugTaken(cats: Table, slug: string) {
    exists id :: id in cats && cats[id].slug == slug
  }

  predicate HasChildren(cats: Table, id: string) {
    exists c :: c in cats && cats[c].parentId == Some(id)
  }

  /** No two categories share a slug. */
  predicate SlugsUnique(cats: Table) {
    forall x, y :: x in cats && y in cats && x != y ==> cats[x].slug != cats[y].slug
  }

  /** Every parent reference names an existing category other than itself, and every
      template link names an existing category. */
  predicate Integral(cats: Table, links: seq<string>) {
    && (forall c :: c in cats && cats[c].parentId.Some? ==>
          cats[c].parentId.value in cats && cats[c].parentId.value != c)
    && (forall i :: 0 <= i < |links| ==> links[i] in cats)
  }

  /** A name or slug of the body: a non-empty string. */
  predicate IsGivenText(v: Value) {
    v.Str? && v.s != ""
  }

  // ---------------------------------------------------------------------------
  // createCategory
  // ---------------------------------------------------------------------------

  /** createCategory: 400 unless name and slug are non-empty strings or when
      parent_id normalizes to the marker, 409 when the trimmed slug is taken, 400
      when the named parent does not exist; else the row, trimmed, with parent_id
      null when none was named. */
  function CreateCategory(body: Value, cats: Table): (r: Result<Category, int>)
    ensures !IsGivenText(Get(body, "name")) || !IsGivenText(Get(body, "slug")) ==> r == Err(400)
    ensures NormalizeParentId(Get(body, "parent_id")) == Invalid ==> r == Err(400)
    ensures r.Ok? <==>
      (&& IsGivenText(Get(body, "name")) && IsGivenText(Get(body, "slug"))
       && NormalizeParentId(Get(body, "parent_id")) != Invalid
       && !SlugTaken(cats, Trim(Get(body, "slug").s))
       && (NormalizeParentId(Get(body, "parent_id")).Parent? ==> Canon(NormalizeParentId(Get(body, "parent_id")).id) in cats))
    ensures r.Ok? ==> (r.value.name == Trim(Get(body, "name").s) && r.value.slug == Trim(Get(body, "slug").s)
      && r.value.parentId == ParentColumn(NormalizeParentId(Get(body, "parent_id"))))
    ensures r == Err(409) <==>
      (&& IsGivenText(Get(body, "name")) && IsGivenText(Get(body, "slug"))
       && NormalizeParentId(Get(body, "parent_id")) != Invalid
       && SlugTaken(cats, Trim(Get(body, "slug").s)))
  {
    var name := Get(body, "name");
    var slug := Get(body, "slug");
    var parent := NormalizeParentId(Get(body, "parent_id"));
    if !IsGivenText(name) || !IsGivenText(slug) then Err(400)
    else if parent == Invalid then Err(400)
    else if SlugTaken(cats, Trim(slug.s)) then Err(409)
    else if parent.Parent? && Canon(parent.id) !in cats then Err(400)
    else Ok(Category(Trim(name.s), Trim(slug.s), ParentColumn(parent)))
  }

  /** Inserting a created row under a fresh id keeps slugs unique and the tree
      integral. */
  lemma {:induction false} CreateKeepsTable(body: Value, cats: Table, links: seq<string>, newId: string)
    requires newId !in cats
    requires SlugsUnique(cats) && Integral(cats, links)
    requires CreateCategory(body, cats).Ok?
    ensures SlugsUnique(cats[newId := CreateCategory(body, cats).value])
    ensures Integral(cats[newId := CreateCategory(body, cats).value], links)
  {
    var row := CreateCategory(body, cats).value;
    var next := cats[newId := row];
    forall x, y | x in next && y in next && x != y
      ensures next[x].slug != next[y].slug
    {
      if x == newId {
        assert !SlugTaken(cats, row.slug);
        assert cats[y].slug != row.slug;
      } else if y == newId {
        assert !SlugTaken(cats, row.slug);
        assert cats[x].slug != row.slug;
      }
    }
  }

  // ---------------------------------------------------------------------------
  // patchCategory
  // ---------------------------------------------------------------------------

  /** The columns an update sets; `parent` is Some(column) when parent_id changes. */
  datatype CategoryPatch = CategoryPatch(name: Option<string>, slug: Option<string>, parent: Option<Option<string>>)

  predicate IsEmptyPatch(p: CategoryPatch) {
    p.name.None? && p.slug.None? && p.parent.None?
  }

  function Apply(c: Category, p: CategoryPatch): Category {
    Category(if p.name.Some? then p.name.value else c.name,
             if p.slug.Some? then p.slug.value else c.slug,
             if p.parent.Some? then p.parent.value else c.parentId)
  }

  /** The parent_id step of patchCategory as written: the self check compares the
      texts exactly, while the existence lookup matches the uuid column in any letter
      case. */
  function ParentStepAsWritten(id: string, v: Value, cats: Table): (r: Result<Option<string>, int>)
    requires v != Undef
    ensures r.Err? ==> r == Err(400)
    ensures r.Ok? <==> (NormalizeParentId(v) != Invalid && (NormalizeParentId(v).Parent? ==>
      NormalizeParentId(v).id != id && Canon(NormalizeParentId(v).id) in cats))
    ensures r.Ok? ==> r.value == ParentColumn(NormalizeParentId(v))
  {
    var p := NormalizeParentId(v);
    if p == Invalid then Err(400)
    else if p.Parent? && p.id == id then Err(400)
    else if p.Parent? && Canon(p.id) !in cats then Err(400)
    else Ok(ParentColumn(p))
  }

  /** A category's id written in other letters passes the check as written and
      names the category itself: the patch makes the category its own parent. */
  lemma {:induction false} SelfParentAsWritten(u: string, cats: Table)
    requires UuidText(u) && u != Canon(u) && Canon(u) in cats
    ensures ParentStepAsWritten(Canon(u), Str(u), cats) == Ok(Some(Canon(u)))
    ensures !Integral(cats[Canon(u) := Apply(cats[Canon(u)], CategoryPatch(None, None, Some(Some(Canon(u)))))], [])
  {
    UuidTrimmed(u);
    assert NormalizeParentId(Str(u)) == Parent(u);
    var next := cats[Canon(u) := Apply(cats[Canon(u)], CategoryPatch(None, None, Some(Some(Canon(u)))))];
    assert next[Canon(u)].parentId == Some(Canon(u));
  }

  /** Such an id exists: the upper-case form of a lower-case UUID. */
  lemma {:induction false} UpperCaseId()
    ensures UuidText(UpperId) && UpperId != Canon(UpperId) && Canon(UpperId) == LowerId
  {
    assert UpperId == Dashed("AAAAAAAA", "AAAA", "1AAA", "8AAA", "AAAAAAAAAAAA");
    UuidOfGroups("AAAAAAAA", "AAAA", "1AAA", "8AAA", "AAAAAAAAAAAA");
    CanonOfUpperId();
  }

  const UpperId := "AAAAAAAA-AAAA-1AAA-8AAA-AAAAAAAAAAAA"
  const LowerId := "aaaaaaaa-aaaa-1aaa-8aaa-aaaaaaaaaaaa"

  lemma {:induction false} CanonOfUpperId()
    ensures Canon(UpperId) == LowerId
  {
    var c := Canon(UpperId);
    forall i | 0 <= i < 36 ensures c[i] == LowerId[i] {
      if IsDashAt(i) {
        assert UpperId[i] == '-';
      } else if i == 14 {
        assert UpperId[i] == '1';
      } else if i == 19 {
        assert UpperId[i] == '8';
      } else {
        assert UpperId[i] == 'A' && LowerId[i] == 'a';
      }
    }
  }

  /** The parent_id step with the self check made in canonical form, as the refusal
      "parent_id cannot be the same category id" intends: 400 for an invalid id, the
      category itself in any letter case, or an unknown parent. */
  function ParentStep(id: string, v: Value, cats: Table): (r: Result<Option<string>, int>)
    requires v != Undef
    ensures r.Err? ==> r == Err(400)
    ensures r.Ok? <==> (NormalizeParentId(v) != Invalid && (NormalizeParentId(v).Parent? ==>
      Canon(NormalizeParentId(v).id) != Canon(id) && Canon(NormalizeParentId(v).id) in cats))
    ensures r.Ok? ==> r.value == ParentColumn(NormalizeParentId(v))
  {
    var p := NormalizeParentId(v);
    if p == Invalid then Err(400)
    else if p.Parent? && Canon(p.id) == Canon(id) then Err(400)
    else if p.Parent? && Canon(p.id) !in cats then Err(400)
    else Ok(ParentColumn(p))
  }

  /** The corrected step never stores the category as its own parent, and refuses
      the id written in other letters that the step as written lets through. */
  lemma {:induction false} ParentStepNeverSelf(id: string, v: Value, cats: Table)
    requires v != Undef
    ensures ParentStep(id, v, cats).Ok? && ParentStep(id, v, cats).value.Some? ==>
      ParentStep(id, v, cats).value.value != Canon(id) && ParentStep(id, v, cats).value.value in cats
    ensures v.Str? && UuidText(v.s) && Canon(v.s) == Canon(id) ==> ParentStep(id, v, cats) == Err(400)
  {
    if v.Str? && UuidText(v.s) {
      UuidTrimmed(v.s);
    }
  }

  /** The body gives a name that is not a non-empty string. */
  predicate BadName(body: Value) {
    Get(body, "name") != Undef && !IsGivenText(Get(body, "name"))
  }

  /** The body gives a slug that is not a non-empty string. */
  predicate BadSlug(body: Value) {
    Get(body, "slug") != Undef && !IsGivenText(Get(body, "slug"))
  }

  /** The body renames the category to a slug, other than its own, that another
      category has. */
  predicate SlugClash(body: Value, own: string, cats: Table) {
    IsGivenText(Get(body, "slug")) && Trim(Get(body, "slug").s) != own && SlugTaken(cats, Trim(Get(body, "slug").s))
  }

  /** The body gives none of the three fields. */
  predicate NoFields(body: Value) {
    Get(body, "name") == Undef && Get(body, "slug") == Undef && Get(body, "parent_id") == Undef
  }

  /** patchCategory: 404 for an unknown id; then, in this order, for each field the
      body gives: 400 for a name or slug that is not a non-empty string, 409 for a
      new trimmed slug another category has, 400 for an invalid parent_id, for the
      category itself as parent, or for a parent that does not exist; 400 when
      nothing is left to update. */
  method PatchCategory(id: string, body: Value, cats: Table) returns (r: Result<CategoryPatch, int>)
    ensures r == Err(404) <==> Canon(id) !in cats
    ensures r == Err(409) <==> (Canon(id) in cats && !BadName(body) && SlugClash(body, cats[Canon(id)].slug, cats))
    ensures r.Ok? <==> (&& Canon(id) in cats && !BadName(body) && !BadSlug(body)
      && !SlugClash(body, cats[Canon(id)].slug, cats)
      && (Get(body, "parent_id") != Undef ==> ParentStep(id, Get(body, "parent_id"), cats).Ok?)
      && !NoFields(body))
    ensures r.Err? ==> r.error in {400, 404, 409}
    ensures r.Ok? ==> !IsEmptyPatch(r.value)
    ensures r.Ok? ==> (r.value.name.Some? <==> Get(body, "name") != Undef)
    ensures r.Ok? && r.value.name.Some? ==> (IsGivenText(Get(body, "name"))
      && r.value.name.value == Trim(Get(body, "name").s))
    ensures r.Ok? ==> (r.value.slug.Some? <==> Get(body, "slug") != Undef)
    ensures r.Ok? && r.value.slug.Some? ==> (IsGivenText(Get(body, "slug"))
      && r.value.slug.value == Trim(Get(body, "slug").s)
      && (r.value.slug.value == cats[Canon(id)].slug || !SlugTaken(cats, r.value.slug.value)))
    ensures r.Ok? ==> (r.value.parent.Some? <==> Get(body, "parent_id") != Undef)
    ensures r.Ok? && r.value.parent.Some? ==> (
      var p := NormalizeParentId(Get(body, "parent_id"));
      r.value.parent.value == ParentColumn(p) && (p.Parent? ==> Canon(p.id) != Canon(id) && Canon(p.id) in cats))
  {
    var key := Canon(id);
    if key !in cats {
      return Err(404);
    }
    var patch := CategoryPatch(None, None, None);
    var name := Get(body, "name");
    var slug := Get(body, "slug");
    var parentId := Get(body, "parent_id");
    if name != Undef {
      if !IsGivenText(name) {
        return Err(400);
      }
      patch := patch.(name := Some(Trim(name.s)));
    }
    if slug != Undef {
      if !IsGivenText(slug) {
        return Err(400);
      }
      var nextSlug := Trim(slug.s);
      if nextSlug != cats[key].slug && SlugTaken(cats, nextSlug) {
        return Err(409);
      }
      patch := patch.(slug := Some(nextSlug));
    }
    if parentId != Undef {
      var parent := ParentStep(id, parentId, cats);
      if parent.Err? {
        return Err(400);
      }
      patch := patch.(parent := Some(parent.value));
    }
    if IsEmptyPatch(patch) {
      return Err(400);
    }
    r := Ok(patch);
  }

  /** A patch that the rules let through keeps slugs unique and every parent
      reference valid and not the category itself (a cycle of two or more
      categories is not refused). */
  lemma {:induction false} PatchKeepsTable(id: string, cats: Table, links: seq<string>, p: CategoryPatch)
    requires id in cats && SlugsUnique(cats) && Integral(cats, links)
    requires p.slug.Some? ==> p.slug.value == cats[id].slug || !SlugTaken(cats, p.slug.value)
    requires p.parent.Some? && p.parent.value.Some? ==> p.parent.value.value != id && p.parent.value.value in cats
    ensures SlugsUnique(cats[id := Apply(cats[id], p)])
    ensures Integral(cats[id := Apply(cats[id], p)], links)
  {
    var next := cats[id := Apply(cats[id], p)];
    forall x, y | x in next && y in next && x != y
      ensures next[x].slug != next[y].slug
    {
      if x == id && p.slug.Some? && p.slug.value != cats[id].slug {
        assert cats[y].slug != p.slug.value;
      } else if y == id && p.slug.Some? && p.slug.value != cats[id].slug {
        assert cats[x].slug != p.slug.value;
      }
    }
  }

  // ---------------------------------------------------------------------------
  // deleteCategory
  // ---------------------------------------------------------------------------

  /** deleteCategory: 404 for an unknown id, 409 while it has subcategories, 409
      while a template links to it; else the table without it. Every lookup matches
      the id in any letter case. */
  function DeleteCategory(id: string, cats: Table, links: seq<string>): (r: Result<Table, int>)
    ensures Canon(id) !in cats ==> r == Err(404)
    ensures Canon(id) in cats && HasChildren(cats, Canon(id)) ==> r == Err(409)
    ensures Canon(id) in cats && Canon(id) in links ==> r == Err(409)
    ensures r.Ok? <==> Canon(id) in cats && !HasChildren(cats, Canon(id)) && Canon(id) !in links
    ensures r.Ok? ==> r.value == cats - {Canon(id)}
  {
    var key := Canon(id);
    if key !in cats then Err(404)
    else if HasChildren(cats, key) then Err(409)
    else if key in links then Err(409)
    else Ok(cats - {key})
  }

  /** Because of its two refusals, a deletion never leaves a dangling parent or
      template link behind. */
  lemma {:induction false} DeleteKeepsTable(id: string, cats: Table, links: seq<string>)
    requires SlugsUnique(cats) && Integral(cats, links)
    requires DeleteCategory(id, cats, links).Ok?
    ensures SlugsUnique(DeleteCategory(id, cats, links).value)
    ensures Integral(DeleteCategory(id, cats, links).value, links)
  {
    var next := cats - {Canon(id)};
    forall c | c in next && next[c].parentId.Some?
      ensures next[c].parentId.value in next
    {
      assert cats[c].parentId != Some(Canon(id));
    }
    forall i | 0 <= i < |links|
      ensures links[i] in next
    {
      assert links[i] != Canon(id);
    }
  }
}
