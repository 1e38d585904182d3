/**
 * Values the dashboard holds in its own state (src/types/index.ts): a tag
 * without timestamps and the task the form emits; and the id-list toggle
 * used by the tag filter of the App and the tag picker of the task form.
 */
module ClientTypes {
  import opened Model
  import opened Seqs

  /** A tag as the dashboard holds it. */
  datatype ClientTag = ClientTag(id: string, name: string, color: string)

  /**
   * A task as the task form hands it to the App: a simple task carries no
   * subtask list, an advanced one carries it.
   */
  datatype DraftTask = DraftTask(
    id: string,
    title: string,
    kind: TaskKind,
    completed: bool,
    createdAt: Timestamp,
    tags: seq<string>,
    subTasks: Option<seq<SubTask>>)

  function IsNot(x: string): string -> bool
  {
    (y: string) => y != x
  }

  /** Filtering out `x` keeps exactly the other elements. */
  lemma FilterOut(s: seq<string>, x: string)
    ensures forall y :: y in Filter(s, IsNot(x)) <==> y in s && y != x
  {
    forall y | y in s && y != x ensures y in Filter(s, IsNot(x)) {
      var i :| 0 <= i < |s| && s[i] == y;
      FilterKeeps(s, IsNot(x), i);
    }
  }

  /** Filtering keeps a list free of duplicates. */
  lemma {:induction false} FilterNoDups(s: seq<string>, x: string)
    requires NoDups(s)
    ensures NoDups(Filter(s, IsNot(x)))
    decreases |s|
  {
    if s != [] {
      var s' := s[..|s| - 1];
      var last := s[|s| - 1];
      assert NoDups(s') by {
        forall i, j | 0 <= i < j < |s'| ensures s'[i] != s'[j] {
          assert s'[i] == s[i] && s'[j] == s[j];
        }
      }
      FilterNoDups(s', x);
      if last != x {
        assert last !in s' by {
          forall i | 0 <= i < |s'| ensures s'[i] != last {
            assert s'[i] == s[i];
          }
        }
        FilterOut(s', x);
      }
    }
  }

  /**
   * `list.includes(id) ? list.filter(t => t !== id) : [...list, id]`: a
   * present id is removed everywhere, an absent one is appended; every other
   * id stays exactly as present as it was.
   */
  function ToggleInList(s: seq<string>, x: string): (r: seq<string>)
    ensures x in s ==> r == Filter(s, IsNot(x))
    ensures x !in s ==> r == s + [x]
    ensures x in r <==> x !in s
    ensures forall y :: y != x ==> (y in r <==> y in s)
  {
    if x in s then
      FilterOut(s, x);
      Filter(s, IsNot(x))
    else s + [x]
  }

  /** Toggling an absent id twice restores the list. */
  lemma ToggleAbsentTwice(s: seq<string>, x: string)
    requires x !in s
    ensures ToggleInList(ToggleInList(s, x), x) == s
  {
    FilterAppend(s, [x], IsNot(x));
    assert Filter([x], IsNot(x)) == [];
    FilterKeepsAll(s, IsNot(x));
  }

  /**
   * Toggling a present id twice in a duplicate-free list keeps the same ids
   * and no duplicates, but moves `x` to the end.
   */
  lemma TogglePresentTwice(s: seq<string>, x: string)
    requires x in s && NoDups(s)
    ensures ToggleInList(ToggleInList(s, x), x) == Filter(s, IsNot(x)) + [x]
    ensures forall y :: y in ToggleInList(ToggleInList(s, x), x) <==> y in s
    ensures NoDups(ToggleInList(ToggleInList(s, x), x))
  {
    var f := Filter(s, IsNot(x));
    FilterOut(s, x);
    FilterNoDups(s, x);
    var r := f + [x];
    forall i, j | 0 <= i < j < |r| ensures r[i] != r[j] {
      if j == |r| - 1 {
        assert r[i] in f;
      }
    }
  }

  /** So "twice restores" fails for a present id that is not last. */
  lemma ToggleTwiceReorders()
    ensures ToggleInList(ToggleInList(["a", "b"], "a"), "a") == ["b", "a"]
  {
    var s := ["a", "b"];
    assert "a" in s;
    FilterKeepsAll(["b"], IsNot("a"));
    FilterAppend(["a"], ["b"], IsNot("a"));
    assert s == ["a"] + ["b"];
    assert Filter(["a"], IsNot("a")) == [];
  }
}
