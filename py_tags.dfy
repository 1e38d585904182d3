/**
 * The tag router of the Python backend (app/routers/tags.py). The colour
 * pattern is part of the request models, so an invalid colour is rejected
 * before the handler runs, ahead of NotFound; the handlers search the listed
 * tags for a clashing name with an explicit loop.
 */
module PyTags {
  import opened Model
  import opened Storage
  import opened Tags

  /**
   * update_tag: an invalid supplied colour, then a missing tag, then a
   * supplied name clashing with another tag are rejected in that order;
   * otherwise the supplied fields replace the stored ones.
   */
  function PyUpdateTag(tags: map<string, Tag>, id: string, u: TagUpdate, now: Timestamp): (r: Result<Tag>)
    ensures u.color.Some? && !IsHexColor(u.color.value) ==> r == Err(ValidationError)
    ensures (u.color.None? || IsHexColor(u.color.value)) && id !in tags ==> r == Err(NotFound)
    ensures r.Ok? <==> ((u.color.None? || IsHexColor(u.color.value)) && id in tags
      && (u.name.None? || !NameTaken(tags, u.name.value, Some(id))))
    ensures r.Ok? ==> r.value == ApplyTagUpdate(tags[id], u, now)
  {
    if u.color.Some? && !IsHexColor(u.color.value) then Err(ValidationError)
    else if id !in tags then Err(NotFound)
    else if u.name.Some? && NameTaken(tags, u.name.value, Some(id)) then Err(Conflict)
    else Ok(ApplyTagUpdate(tags[id], u, now))
  }

  /** A successful update keeps both invariants of the tag map. */
  lemma PyUpdateTagPreserves(tags: map<string, Tag>, id: string, u: TagUpdate, now: Timestamp)
    requires TagsWellFormed(tags) && NamesUnique(tags)
    requires PyUpdateTag(tags, id, u, now).Ok?
    ensures var tags' := tags[id := PyUpdateTag(tags, id, u, now).value];
      TagsWellFormed(tags') && NamesUnique(tags')
  {
    ApplyTagUpdatePreserves(tags, id, u, now);
  }

  /** POST /tags. */
  method CreateTagRoute(store: InMemoryStorage, name: string, color: string, id: string, now: Timestamp) returns (r: Result<Tag>)
    modifies store
    ensures r == CreateTag(old(store.tags), name, color, id, now)
    ensures store.tags == (if r.Ok? then old(store.tags)[id := r.value] else old(store.tags))
    ensures store.tasks == old(store.tasks)
  {
    if !IsHexColor(color) {
      return Err(ValidationError);
    }
    var existing, ks := store.AllTags();
    var taken := FindConflict(existing, name, None);
    TakenOverEnumeration(store.tags, ks, name, None);
    if taken {
      return Err(Conflict);
    }
    var t := store.CreateTag(Tag(id, name, color, now, now));
    r := Ok(t);
  }

  /** PATCH /tags/{id}. */
  method UpdateTagRoute(store: InMemoryStorage, id: string, u: TagUpdate, now: Timestamp) returns (r: Result<Tag>)
    modifies store
    ensures r == PyUpdateTag(old(store.tags), id, u, now)
    ensures store.tags == (if r.Ok? then old(store.tags)[id := r.value] else old(store.tags))
    ensures store.tasks == old(store.tasks)
  {
    if u.color.Some? && !IsHexColor(u.color.value) {
      return Err(ValidationError);
    }
    var found := store.GetTag(id);
    if found.None? {
      return Err(NotFound);
    }
    if u.name.Some? {
      var existing, ks := store.AllTags();
      var taken := FindConflict(existing, u.name.value, Some(id));
      TakenOverEnumeration(store.tags, ks, u.name.value, Some(id));
      if taken {
        return Err(Conflict);
      }
    }
    var t := ApplyTagUpdate(found.value, u, now);
    var _ := store.UpdateTag(id, t);
    r := Ok(t);
  }
}
