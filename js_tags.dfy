/**
 * The tag router of the Express backend (src/routes/tags.js). Creation is
 * the shared CreateTag. Its PATCH tests the colour and the name for
 * truthiness before checking them, so an empty string skips the check but is
 * still assigned; JsUpdateTag is the PATCH with both checks applied to every
 * supplied field.
 */
module JsTags {
  import opened Model
  import opened Text
  import opened Storage
  import opened Tags
  import PyTags

  /**
   * PATCH /tags/:tagId as written: NotFound first; the colour is checked only
   * when it is a non-empty string and the name only when it is non-empty;
   * every supplied field is then assigned.
   */
  function JsUpdateTagAsWritten(tags: map<string, Tag>, id: string, u: TagUpdate, now: Timestamp): (r: Result<Tag>)
    ensures id !in tags ==> r == Err(NotFound)
    ensures r.Ok? <==> (id in tags
      && (u.color.None? || u.color.value == "" || IsHexColor(u.color.value))
      && (u.name.None? || u.name.value == "" || !NameTaken(tags, u.name.value, Some(id))))
    ensures r.Ok? ==> r.value == ApplyTagUpdate(tags[id], u, now)
  {
    if id !in tags then Err(NotFound)
    else if u.color.Some? && u.color.value != "" && !IsHexColor(u.color.value) then Err(ValidationError)
    else if u.name.Some? && u.name.value != "" && NameTaken(tags, u.name.value, Some(id)) then Err(Conflict)
    else Ok(ApplyTagUpdate(tags[id], u, now))
  }

  /** Renaming a tag to the empty string while another tag already has that name gives two tags with the same name. */
  lemma JsUpdateTagDuplicateEmptyName()
    ensures var tags := map["a" := Tag("a", "", "#4285F4", 0, 0), "b" := Tag("b", "Home", "#4285F4", 0, 0)];
      var r := JsUpdateTagAsWritten(tags, "b", TagUpdate(Some(""), None), 1);
      && TagsWellFormed(tags) && NamesUnique(tags)
      && r.Ok? && !NamesUnique(tags["b" := r.value])
  {
    var tags := map["a" := Tag("a", "", "#4285F4", 0, 0), "b" := Tag("b", "Home", "#4285F4", 0, 0)];
    HexColorExamples();
    assert Lower("Home") != Lower("");
    var tags' := tags["b" := JsUpdateTagAsWritten(tags, "b", TagUpdate(Some(""), None), 1).value];
    assert tags'["a"].name == tags'["b"].name;
  }

  /** Setting a tag's colour to the empty string stores a colour outside the #RRGGBB pattern. */
  lemma JsUpdateTagEmptyColor()
    ensures var tags := map["a" := Tag("a", "Work", "#4285F4", 0, 0)];
      var r := JsUpdateTagAsWritten(tags, "a", TagUpdate(None, Some("")), 1);
      && TagsWellFormed(tags) && NamesUnique(tags)
      && r.Ok? && !TagsWellFormed(tags["a" := r.value])
  {
    var tags := map["a" := Tag("a", "Work", "#4285F4", 0, 0)];
    HexColorExamples();
    assert TagsWellFormed(tags);
    var r := JsUpdateTagAsWritten(tags, "a", TagUpdate(None, Some("")), 1);
    assert r.Ok? && r.value.color == "";
    assert !IsHexColor(tags["a" := r.value]["a"].color);
  }

  /** The PATCH as evidently intended: NotFound, then every supplied colour and name is checked. */
  function JsUpdateTag(tags: map<string, Tag>, id: string, u: TagUpdate, now: Timestamp): (r: Result<Tag>)
    ensures id !in tags ==> r == Err(NotFound)
    ensures r.Ok? <==> (id in tags
      && (u.color.None? || IsHexColor(u.color.value))
      && (u.name.None? || !NameTaken(tags, u.name.value, Some(id))))
    ensures r.Ok? ==> r.value == ApplyTagUpdate(tags[id], u, now)
  {
    if id !in tags then Err(NotFound)
    else if u.color.Some? && !IsHexColor(u.color.value) then Err(ValidationError)
    else if u.name.Some? && NameTaken(tags, u.name.value, Some(id)) then Err(Conflict)
    else Ok(ApplyTagUpdate(tags[id], u, now))
  }

  /** The intended PATCH keeps both invariants of the tag map. */
  lemma JsUpdateTagPreserves(tags: map<string, Tag>, id: string, u: TagUpdate, now: Timestamp)
    requires TagsWellFormed(tags) && NamesUnique(tags)
    requires JsUpdateTag(tags, id, u, now).Ok?
    ensures var tags' := tags[id := JsUpdateTag(tags, id, u, now).value];
      TagsWellFormed(tags') && NamesUnique(tags')
  {
    ApplyTagUpdatePreserves(tags, id, u, now);
  }

  /**
   * The code as written agrees with the intended PATCH unless a field is the
   * empty string, and the intended PATCH agrees with the Python one on every
   * stored tag (the two differ only in whether a bad colour or a missing tag
   * is reported first).
   */
  lemma JsUpdateTagAgrees(tags: map<string, Tag>, id: string, u: TagUpdate, now: Timestamp)
    ensures u.name != Some("") && u.color != Some("") ==> JsUpdateTagAsWritten(tags, id, u, now) == JsUpdateTag(tags, id, u, now)
    ensures id in tags ==> JsUpdateTag(tags, id, u, now) == PyTags.PyUpdateTag(tags, id, u, now)
    ensures id !in tags ==> JsUpdateTag(tags, id, u, now) == Err(NotFound) && PyTags.PyUpdateTag(tags, id, u, now).Err?
  {
  }

  /** POST /tags: the duplicate check is `some` over the listed tags. */
  method CreateTagRoute(store: InMemoryStorage, name: string, color: string, id: string, now: Timestamp) returns (r: Result<Tag>)
    modifies store
    ensures r == CreateTag(old(store.tags), name, color, id, now)
    ensures store.tags == (if r.Ok? then old(store.tags)[id := r.value] else old(store.tags))
    ensures store.tasks == old(store.tasks)
  {
    if !IsHexColor(color) {
      return Err(ValidationError);
    }
    var existing, ks := store.AllTags();
    TakenOverEnumeration(store.tags, ks, name, None);
    if AnyTaken(existing, name, None) {
      return Err(Conflict);
    }
    var t := store.CreateTag(Tag(id, name, color, now, now));
    r := Ok(t);
  }

  /** PATCH /tags/:tagId, as written. */
  method UpdateTagRoute(store: InMemoryStorage, id: string, u: TagUpdate, now: Timestamp) returns (r: Result<Tag>)
    modifies store
    ensures r == JsUpdateTagAsWritten(old(store.tags), id, u, now)
    ensures store.tags == (if r.Ok? then old(store.tags)[id := r.value] else old(store.tags))
    ensures store.tasks == old(store.tasks)
  {
    var found := store.GetTag(id);
    if found.None? {
      return Err(NotFound);
    }
    if u.color.Some? && u.color.value != "" && !IsHexColor(u.color.value) {
      return Err(ValidationError);
    }
    if u.name.Some? && u.name.value != "" {
      var existing, ks := store.AllTags();
      TakenOverEnumeration(store.tags, ks, u.name.value, Some(id));
      if AnyTaken(existing, u.name.value, Some(id)) {
        return Err(Conflict);
      }
    }
    var t := ApplyTagUpdate(found.value, u, now);
    var _ := store.UpdateTag(id, t);
    r := Ok(t);
  }
}
