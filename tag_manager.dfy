/**
 * The tag manager dialog (src/components/TagManager.tsx): a local copy of the
 * tag list that the user edits before saving it back to the App.
 */
module TagManager {
  import opened Model
  import opened Seqs
  import opened Text
  import opened ClientTypes

  /** The colour a new tag starts with. */
  const DefaultColor: string := "#4285F4"

  /** The dialog's state: the local tags, the new-tag inputs and the tag being renamed. */
  datatype ManagerState = ManagerState(
    tags: seq<ClientTag>,
    newName: string,
    newColor: string,
    editingId: Option<string>,
    editingName: string)

  /** The dialog as it opens on the App's tags. */
  function Open(tags: seq<ClientTag>): (m: ManagerState)
    ensures m.tags == tags && m.editingId.None? && IsHexColor(m.newColor)
  {
    HexColorExamples();
    ManagerState(tags, "", DefaultColor, None, "")
  }

  /**
   * addTag: nothing when the name is blank; otherwise one tag with the
   * trimmed name and the chosen colour is appended and the name input cleared.
   */
  function AddTag(m: ManagerState, id: string): (r: ManagerState)
    ensures IsBlank(m.newName) ==> r == m
    ensures !IsBlank(m.newName) ==>
      r == m.(tags := m.tags + [ClientTag(id, Trim(m.newName), m.newColor)], newName := "")
  {
    if Trim(m.newName) == [] then m
    else m.(tags := m.tags + [ClientTag(id, Trim(m.newName), m.newColor)], newName := "")
  }

  function TagHasNotId(id: string): ClientTag -> bool
  {
    (t: ClientTag) => t.id != id
  }

  /** Filtering out an id keeps exactly the tags with other ids. */
  lemma FilterWithoutTag(tags: seq<ClientTag>, id: string)
    ensures forall i :: 0 <= i < |tags| && tags[i].id != id ==> tags[i] in Filter(tags, TagHasNotId(id))
  {
    forall i | 0 <= i < |tags| && tags[i].id != id
      ensures tags[i] in Filter(tags, TagHasNotId(id))
    {
      FilterKeeps(tags, TagHasNotId(id), i);
    }
  }

  /** deleteTag: exactly the tags with the id go, the others stay in order; nothing else changes. */
  function DeleteTag(m: ManagerState, id: string): (r: ManagerState)
    ensures r == m.(tags := Filter(m.tags, TagHasNotId(id)))
    ensures forall i :: 0 <= i < |r.tags| ==> r.tags[i].id != id && r.tags[i] in m.tags
    ensures forall i :: 0 <= i < |m.tags| && m.tags[i].id != id ==> m.tags[i] in r.tags
  {
    FilterWithoutTag(m.tags, id);
    m.(tags := Filter(m.tags, TagHasNotId(id)))
  }

  /** `tags.map(t => t.id === id ? {...t, name} : t)`. */
  function Rename(tags: seq<ClientTag>, id: string, name: string): (r: seq<ClientTag>)
    ensures |r| == |tags|
    ensures forall i :: 0 <= i < |r| ==> r[i].id == tags[i].id && r[i].color == tags[i].color
    ensures forall i :: 0 <= i < |r| ==> r[i].name == (if tags[i].id == id then name else tags[i].name)
  {
    seq(|tags|, i requires 0 <= i < |tags| => if tags[i].id == id then tags[i].(name := name) else tags[i])
  }

  /** `tags.map(t => t.id === id ? {...t, color} : t)`. */
  function Recolor(tags: seq<ClientTag>, id: string, color: string): (r: seq<ClientTag>)
    ensures |r| == |tags|
    ensures forall i :: 0 <= i < |r| ==> r[i].id == tags[i].id && r[i].name == tags[i].name
    ensures forall i :: 0 <= i < |r| ==> r[i].color == (if tags[i].id == id then color else tags[i].color)
  {
    seq(|tags|, i requires 0 <= i < |tags| => if tags[i].id == id then tags[i].(color := color) else tags[i])
  }

  /**
   * saveEditing: nothing without an editing id (an empty id counts as none)
   * or with a blank name; otherwise the tags with that id take the trimmed
   * name and editing ends.
   */
  function SaveEditing(m: ManagerState): (r: ManagerState)
    ensures m.editingId.None? || m.editingId.value == "" || IsBlank(m.editingName) ==> r == m
    ensures m.editingId.Some? && m.editingId.value != "" && !IsBlank(m.editingName) ==>
      r == m.(tags := Rename(m.tags, m.editingId.value, Trim(m.editingName)), editingId := None)
  {
    if m.editingId.None? || m.editingId.value == "" || Trim(m.editingName) == [] then m
    else m.(tags := Rename(m.tags, m.editingId.value, Trim(m.editingName)), editingId := None)
  }

  /** updateTagColor: only the colour of the tags with the id changes. */
  function UpdateTagColor(m: ManagerState, id: string, color: string): (r: ManagerState)
    ensures r == m.(tags := Recolor(m.tags, id, color))
  {
    m.(tags := Recolor(m.tags, id, color))
  }

  /** The names the dialog gives: blank input never becomes a tag name. */
  predicate NamesNonBlank(tags: seq<ClientTag>)
  {
    forall i :: 0 <= i < |tags| ==> Trim(tags[i].name) != []
  }

  /** A trimmed non-blank string trims to itself, so it is not blank either. */
  lemma TrimmedNotBlank(s: string)
    requires !IsBlank(s)
    ensures Trim(Trim(s)) != []
  {
    var t := Trim(s);
    assert !IsSpace(t[0]);
    assert !IsBlank(t);
  }

  /** Adding a tag keeps every tag name non-blank. */
  lemma AddTagKeepsNames(m: ManagerState, id: string)
    requires NamesNonBlank(m.tags)
    ensures NamesNonBlank(AddTag(m, id).tags)
  {
    if !IsBlank(m.newName) {
      TrimmedNotBlank(m.newName);
      AppendKeepsNames(m.tags, ClientTag(id, Trim(m.newName), m.newColor));
    }
  }

  lemma AppendKeepsNames(tags: seq<ClientTag>, t: ClientTag)
    requires NamesNonBlank(tags) && Trim(t.name) != []
    ensures NamesNonBlank(tags + [t])
  {
  }

  /** Renaming keeps every tag name non-blank. */
  lemma SaveEditingKeepsNames(m: ManagerState)
    requires NamesNonBlank(m.tags)
    ensures NamesNonBlank(SaveEditing(m).tags)
  {
    if m.editingId.Some? && m.editingId.value != "" && !IsBlank(m.editingName) {
      TrimmedNotBlank(m.editingName);
      RenameKeepsNames(m.tags, m.editingId.value, Trim(m.editingName));
    }
  }

  lemma RenameKeepsNames(tags: seq<ClientTag>, id: string, name: string)
    requires NamesNonBlank(tags) && Trim(name) != []
    ensures NamesNonBlank(Rename(tags, id, name))
  {
  }

  /** Recolouring keeps every tag name non-blank. */
  lemma UpdateTagColorKeepsNames(m: ManagerState, id: string, color: string)
    requires NamesNonBlank(m.tags)
    ensures NamesNonBlank(UpdateTagColor(m, id, color).tags)
  {
    var r := UpdateTagColor(m, id, color).tags;
    forall i | 0 <= i < |r| ensures Trim(r[i].name) != [] {
      assert r[i].name == m.tags[i].name;
    }
  }

  lemma MemberNameNonBlank(tags: seq<ClientTag>, t: ClientTag)
    requires NamesNonBlank(tags) && t in tags
    ensures Trim(t.name) != []
  {
    var j :| 0 <= j < |tags| && tags[j] == t;
  }

  /** Deleting keeps every tag name non-blank. */
  lemma DeleteTagKeepsNames(m: ManagerState, id: string)
    requires NamesNonBlank(m.tags)
    ensures NamesNonBlank(DeleteTag(m, id).tags)
  {
    var d := Filter(m.tags, TagHasNotId(id));
    forall i | 0 <= i < |d| ensures Trim(d[i].name) != [] {
      MemberNameNonBlank(m.tags, d[i]);
    }
  }
}
