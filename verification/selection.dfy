/** The selected-task list of the schedule views: a list of schedule item ids
    in the order they were selected. */
module Selection {
  import opened Seqs

  /** `selected` without any occurrence of `id`, in order. */
  function Without(selected: seq<int>, id: int): seq<int> {
    Filter(selected, (x: int) => x != id)
  }

  /** Clicking one task: a selected id is removed (every occurrence of it),
      an unselected one is appended. */
  function Toggle(selected: seq<int>, id: int): (r: seq<int>)
    ensures id in r <==> id !in selected
    ensures forall x :: x != id ==> (x in r <==> x in selected)
    ensures id in selected ==> forall x :: multiset(r)[x] == if x == id then 0 else multiset(selected)[x]
    ensures id !in selected ==> |r| == |selected| + 1 && r[..|selected|] == selected && r[|selected|] == id
  {
    if id in selected then
      FilterMultiset(selected, (x: int) => x != id);
      Without(selected, id)
    else
      selected + [id]
  }

  /** Toggling the same task twice restores which ids are selected. */
  lemma ToggleTwiceMembership(selected: seq<int>, id: int)
    ensures forall x :: x in Toggle(Toggle(selected, id), id) <==> x in selected
  {
  }

  /** Toggling an unselected task twice restores the list exactly; a selected
      task toggled twice moves to the end, once. */
  lemma ToggleTwice(selected: seq<int>, id: int)
    ensures id !in selected ==> Toggle(Toggle(selected, id), id) == selected
    ensures id in selected ==> Toggle(Toggle(selected, id), id) == Without(selected, id) + [id]
  {
    if id !in selected {
      var p := (x: int) => x != id;
      FilterAppend(selected, [id], p);
      FilterAll(selected, p);
      assert Filter([id], p) == [];
    }
  }

  /** The ids of `tasks` that `selected` lacks, appended in task order, each
      at most once (the selection grows while the ids are visited). */
  function AppendMissing(selected: seq<int>, ids: seq<int>): (r: seq<int>)
    ensures |selected| <= |r| && r[..|selected|] == selected
    ensures forall x :: x in r <==> x in selected || x in ids
    ensures forall i :: |selected| <= i < |r| ==> r[i] in ids
    ensures forall j, i :: 0 <= j < i < |r| && |selected| <= i ==> r[j] != r[i]
    decreases |ids|
  {
    if |ids| == 0 then selected
    else if ids[0] in selected then
      var r := AppendMissing(selected, ids[1..]);
      assert forall x :: x in ids <==> x == ids[0] || x in ids[1..];
      r
    else
      var next := selected + [ids[0]];
      var r := AppendMissing(next, ids[1..]);
      assert r[..|next|] == next;
      assert forall x :: x in ids <==> x == ids[0] || x in ids[1..];
      assert forall i :: 0 <= i < |selected| ==> r[i] == selected[i];
      assert r[|selected|] == ids[0];
      r
  }

  /** Clicking a builder's checkbox: when every one of `ids` is selected they
      are all removed; otherwise the missing ones are appended. */
  function ToggleAll(selected: seq<int>, ids: seq<int>): (r: seq<int>)
    ensures (forall i :: 0 <= i < |ids| ==> ids[i] in selected) ==>
      forall x :: multiset(r)[x] == if x in ids then 0 else multiset(selected)[x]
    ensures !(forall i :: 0 <= i < |ids| ==> ids[i] in selected) ==>
      && |selected| <= |r| && r[..|selected|] == selected
      && (forall i :: 0 <= i < |ids| ==> ids[i] in r)
      && (forall i :: |selected| <= i < |r| ==> r[i] in ids)
      && (forall j, i :: 0 <= j < i < |r| && |selected| <= i ==> r[j] != r[i])
  {
    if forall i :: 0 <= i < |ids| ==> ids[i] in selected then
      FilterMultiset(selected, (x: int) => x !in ids);
      Filter(selected, (x: int) => x !in ids)
    else
      AppendMissing(selected, ids)
  }

  /** Removing `ids` from a selection that lacked them before some of them
      were appended gives the selection back. */
  lemma RemoveAppended(selected: seq<int>, added: seq<int>, ids: seq<int>)
    requires forall i :: 0 <= i < |selected| ==> selected[i] !in ids
    requires forall i :: 0 <= i < |added| ==> added[i] in ids
    ensures Filter(selected + added, (x: int) => x !in ids) == selected
  {
    var p := (x: int) => x !in ids;
    FilterAppend(selected, added, p);
    FilterAll(selected, p);
    FilterNone(added, p);
  }

  /** The first click on a builder none of whose tasks is selected appends
      its ids. */
  lemma ToggleAllFromNone(selected: seq<int>, ids: seq<int>)
    requires |ids| > 0 && ids[0] !in selected
    ensures ToggleAll(selected, ids) == AppendMissing(selected, ids)
  {
  }

  /** The click on a builder all of whose tasks are selected removes them. */
  lemma ToggleAllFromAll(selected: seq<int>, ids: seq<int>)
    requires forall i :: 0 <= i < |ids| ==> ids[i] in selected
    ensures ToggleAll(selected, ids) == Filter(selected, (x: int) => x !in ids)
  {
  }

  /** A builder without tasks: the click changes nothing. */
  lemma ToggleAllNoIds(selected: seq<int>)
    ensures ToggleAll(selected, []) == selected
  {
    FilterAll(selected, (x: int) => x !in []);
  }

  /** The second click, after a first one that appended the missing ids to a
      selection holding none of them, takes the selection back. */
  lemma SecondToggleAllRestores(selected: seq<int>, ids: seq<int>)
    requires forall i :: 0 <= i < |ids| ==> ids[i] !in selected
    ensures ToggleAll(AppendMissing(selected, ids), ids) == selected
  {
    var once := AppendMissing(selected, ids);
    var added := once[|selected|..];
    assert ToggleAll(once, ids) == Filter(selected + added, (x: int) => x !in ids) by {
      ToggleAllFromAll(once, ids);
      assert once == selected + added;
    }
    assert forall i :: 0 <= i < |added| ==> added[i] in ids by {
      assert forall i :: 0 <= i < |added| ==> added[i] == once[|selected| + i];
    }
    RemoveAppended(selected, added, ids);
  }

  /** Clicking a builder's checkbox twice, starting with none of its tasks
      selected, restores the selection exactly. */
  lemma ToggleAllTwice(selected: seq<int>, ids: seq<int>)
    requires forall i :: 0 <= i < |ids| ==> ids[i] !in selected
    ensures ToggleAll(ToggleAll(selected, ids), ids) == selected
  {
    if |ids| == 0 {
      ToggleAllNoIds(selected);
    } else {
      ToggleAllFromNone(selected, ids);
      SecondToggleAllRestores(selected, ids);
    }
  }
}
