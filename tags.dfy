/**
 * The tag rules both routers (app/routers/tags.py and src/routes/tags.js)
 * share: case-insensitive name conflicts, tag creation, applying a PATCH
 * body, and the two invariants of the tag map the routers are meant to keep:
 * every tag is stored under its own id with a valid colour, and no two tags
 * have names equal up to case.
 */
module Tags {
  import opened Model
  import opened Text
  import opened Storage

  /** Tag `t` clashes with `name` up to case, unless it is the tag `except` names. */
  predicate NameTakenBy(t: Tag, name: string, except: Option<string>)
  {
    (except.None? || t.id != except.value) && Lower(t.name) == Lower(name)
  }

  /** Some stored tag clashes with `name`. */
  predicate NameTaken(tags: map<string, Tag>, name: string, except: Option<string>)
  {
    exists k :: k in tags && NameTakenBy(tags[k], name, except)
  }

  /** Some tag of the list clashes with `name` (`existingTags.some(...)`). */
  predicate AnyTaken(s: seq<Tag>, name: string, except: Option<string>)
  {
    exists i :: 0 <= i < |s| && NameTakenBy(s[i], name, except)
  }

  /** Searching the listed tags finds a clash exactly when the map holds one. */
  lemma TakenOverEnumeration(tags: map<string, Tag>, ks: seq<string>, name: string, except: Option<string>)
    requires Enumerates(ks, tags)
    ensures AnyTaken(ValuesAt(tags, ks), name, except) <==> NameTaken(tags, name, except)
  {
    var vs := ValuesAt(tags, ks);
    if NameTaken(tags, name, except) {
      var k :| k in tags && NameTakenBy(tags[k], name, except);
      assert k in ks;
      var i :| 0 <= i < |ks| && ks[i] == k;
      assert NameTakenBy(vs[i], name, except);
    }
    if AnyTaken(vs, name, except) {
      var i :| 0 <= i < |vs| && NameTakenBy(vs[i], name, except);
      assert ks[i] in tags && NameTakenBy(tags[ks[i]], name, except);
    }
  }

  /** The duplicate-name loop of create_tag and update_tag in app/routers/tags.py. */
  method FindConflict(s: seq<Tag>, name: string, except: Option<string>) returns (taken: bool)
    ensures taken == AnyTaken(s, name, except)
  {
    for i := 0 to |s|
      invariant forall j :: 0 <= j < i ==> !NameTakenBy(s[j], name, except)
    {
      if (except.None? || s[i].id != except.value) && Lower(s[i].name) == Lower(name) {
        return true;
      }
    }
    taken := false;
  }

  /** Every tag is stored under its own id and has a colour of the form #RRGGBB. */
  predicate TagsWellFormed(tags: map<string, Tag>)
  {
    forall k :: k in tags ==> tags[k].id == k && IsHexColor(tags[k].color)
  }

  /** No two stored tags have names equal up to case. */
  predicate NamesUnique(tags: map<string, Tag>)
  {
    forall k1, k2 :: k1 in tags && k2 in tags && k1 != k2 ==> Lower(tags[k1].name) != Lower(tags[k2].name)
  }

  /**
   * POST /tags: an invalid colour is rejected first, then a name that clashes
   * with any stored tag; otherwise the new tag, stamped now.
   */
  function CreateTag(tags: map<string, Tag>, name: string, color: string, id: string, now: Timestamp): (r: Result<Tag>)
    ensures r.Ok? <==> IsHexColor(color) && !NameTaken(tags, name, None)
    ensures !IsHexColor(color) ==> r == Err(ValidationError)
    ensures IsHexColor(color) && NameTaken(tags, name, None) ==> r == Err(Conflict)
    ensures r.Ok? ==> r.value == Tag(id, name, color, now, now)
  {
    if !IsHexColor(color) then Err(ValidationError)
    else if NameTaken(tags, name, None) then Err(Conflict)
    else Ok(Tag(id, name, color, now, now))
  }

  /** Creating a tag under a fresh id keeps both invariants of the tag map. */
  lemma CreateTagPreserves(tags: map<string, Tag>, name: string, color: string, id: string, now: Timestamp)
    requires TagsWellFormed(tags) && NamesUnique(tags) && id !in tags
    requires CreateTag(tags, name, color, id, now).Ok?
    ensures var tags' := tags[id := CreateTag(tags, name, color, id, now).value];
      TagsWellFormed(tags') && NamesUnique(tags')
  {
    var t := CreateTag(tags, name, color, id, now).value;
    forall k | k in tags ensures Lower(tags[k].name) != Lower(t.name) {
      assert !NameTakenBy(tags[k], name, None);
    }
  }

  /** A PATCH body applied to a tag: supplied fields replace the stored ones. */
  function ApplyTagUpdate(t: Tag, u: TagUpdate, now: Timestamp): (r: Tag)
    ensures r.id == t.id && r.createdAt == t.createdAt && r.updatedAt == now
    ensures r.name == (if u.name.Some? then u.name.value else t.name)
    ensures r.color == (if u.color.Some? then u.color.value else t.color)
  {
    t.(name := if u.name.Some? then u.name.value else t.name,
       color := if u.color.Some? then u.color.value else t.color,
       updatedAt := now)
  }

  /**
   * A PATCH whose supplied colour is valid and whose supplied name clashes
   * with no other tag keeps both invariants of the tag map.
   */
  lemma ApplyTagUpdatePreserves(tags: map<string, Tag>, id: string, u: TagUpdate, now: Timestamp)
    requires TagsWellFormed(tags) && NamesUnique(tags) && id in tags
    requires u.color.Some? ==> IsHexColor(u.color.value)
    requires u.name.Some? ==> !NameTaken(tags, u.name.value, Some(id))
    ensures var tags' := tags[id := ApplyTagUpdate(tags[id], u, now)];
      TagsWellFormed(tags') && NamesUnique(tags')
  {
    var t := ApplyTagUpdate(tags[id], u, now);
    forall k | k in tags && k != id ensures Lower(tags[k].name) != Lower(t.name) {
      if u.name.Some? {
        assert !NameTakenBy(tags[k], u.name.value, Some(id));
      }
    }
  }

  /** GET /tags/{id}. */
  method GetTagRoute(store: InMemoryStorage, id: string) returns (r: Result<Tag>)
    ensures r.Ok? <==> id in store.tags
    ensures r.Ok? ==> r.value == store.tags[id]
    ensures r.Err? ==> r.error == NotFound
  {
    var found := store.GetTag(id);
    r := if found.Some? then Ok(found.value) else Err(NotFound);
  }

  /** DELETE /tags/{id}: tasks keep their references to the deleted tag. */
  method DeleteTagRoute(store: InMemoryStorage, id: string) returns (r: Result<()>)
    modifies store
    ensures r.Ok? <==> id in old(store.tags)
    ensures r.Err? ==> r.error == NotFound
    ensures store.tags == old(store.tags) - {id} && store.tasks == old(store.tasks)
  {
    var existed := store.DeleteTag(id);
    r := if existed then Ok(()) else Err(NotFound);
  }

  /** Deleting a tag keeps both invariants of the tag map. */
  lemma DeleteTagPreserves(tags: map<string, Tag>, id: string)
    requires TagsWellFormed(tags) && NamesUnique(tags)
    ensures TagsWellFormed(tags - {id}) && NamesUnique(tags - {id})
  {
  }
}
