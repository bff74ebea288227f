/** The two building-queue editors: the form that adds an upgrade, removal,
    and (in the planner) the checkbox selection of queued upgrades. The id
    of a new upgrade, a clock reading in the original, is a parameter. */
module QueueEdits {
  import opened Wrappers
  import opened Seqs
  import opened Text
  import opened PlannerTypes
  import opened Selection

  function QueueId(item: QueueItem): int {
    item.id
  }

  /** The queue without the upgrades with id `id`, in order. */
  function WithoutId(queue: seq<QueueItem>, id: int): seq<QueueItem> {
    Filter(queue, (item: QueueItem) => item.id != id)
  }

  /** Removing the id of an upgrade appended last, when no other upgrade has
      that id, gives the queue back. */
  lemma RemoveAppendedId(queue: seq<QueueItem>, item: QueueItem)
    requires forall i :: 0 <= i < |queue| ==> queue[i].id != item.id
    ensures WithoutId(queue + [item], item.id) == queue
  {
    var p := (x: QueueItem) => x.id != item.id;
    FilterAppend(queue, [item], p);
    FilterAll(queue, p);
    assert Filter([item], p) == [];
  }

  // ---------------------------------------------------------------------
  // The toolkit editor: blank number inputs, a form reset after each add.

  /** The add form: a blank number input is `None`. */
  datatype QueueForm = QueueForm(
    name: string,
    category: Category,
    priority: Priority,
    days: Option<nat>,
    hours: Option<nat>,
    minutes: Option<nat>)

  /** `resetForm`: empty name, Defense, Medium, blank durations. */
  const EmptyForm: QueueForm := QueueForm("", Defense, Medium, None, None, None)

  /** `handleAddBuilding`: a name that is all whitespace is refused and
      nothing changes; otherwise the upgrade is appended with the name as
      typed, blank durations as 0, and the form is reset. A zero duration is
      accepted. */
  function AddBuilding(queue: seq<QueueItem>, form: QueueForm, newId: int): (r: (seq<QueueItem>, QueueForm))
    ensures r == (queue, form) <==> AllWhitespace(form.name)
    ensures !AllWhitespace(form.name) ==>
      && |r.0| == |queue| + 1 && r.0[..|queue|] == queue && r.1 == EmptyForm
      && r.0[|queue|] == QueueItem(newId, form.name, form.category,
                                   FormDuration(form.days, form.hours, form.minutes), form.priority)
  {
    TrimEmptyIffBlank(form.name);
    if Trim(form.name) == "" then (queue, form)
    else
      var item := QueueItem(newId, form.name, form.category,
                            FormDuration(form.days, form.hours, form.minutes), form.priority);
      assert (queue + [item])[..|queue|] == queue;
      (queue + [item], EmptyForm)
  }

  /** `handleRemoveBuilding`: every upgrade with the id goes, the others stay
      in order. */
  function RemoveBuilding(queue: seq<QueueItem>, id: int): (r: seq<QueueItem>)
    ensures forall x :: x in r <==> x in queue && x.id != id
    ensures forall x :: multiset(r)[x] == if x.id == id then 0 else multiset(queue)[x]
  {
    FilterMultiset(queue, (item: QueueItem) => item.id != id);
    WithoutId(queue, id)
  }

  /** Removal works piece by piece: removing from a queue made of two parts
      removes from each part and keeps the parts in order. */
  lemma RemoveBuildingAppend(a: seq<QueueItem>, b: seq<QueueItem>, id: int)
    ensures RemoveBuilding(a + b, id) == RemoveBuilding(a, id) + RemoveBuilding(b, id)
  {
    FilterAppend(a, b, (item: QueueItem) => item.id != id);
  }

  /** A single upgrade goes exactly when it has the id. Together with
      `RemoveBuildingAppend` this fixes the result, order included. */
  lemma RemoveBuildingSingle(x: QueueItem, id: int)
    ensures RemoveBuilding([x], id) == if x.id == id then [] else [x]
  {
  }

  /** Adding an upgrade under a fresh id and removing that id restores the
      queue; the form is reset all the same. */
  lemma AddThenRemove(queue: seq<QueueItem>, form: QueueForm, newId: int)
    requires !AllWhitespace(form.name)
    requires forall i :: 0 <= i < |queue| ==> queue[i].id != newId
    ensures var (added, form') := AddBuilding(queue, form, newId);
      RemoveBuilding(added, newId) == queue && form' == EmptyForm
  {
    var added := AddBuilding(queue, form, newId).0;
    assert added == queue + [added[|queue|]];
    RemoveAppendedId(queue, added[|queue|]);
  }

  // ---------------------------------------------------------------------
  // The planner editor: number inputs start at 0, checkbox selection.

  /** The planner editor's state: the queue, the form, the selected ids and
      the select-all checkbox. */
  datatype QueueEditor = QueueEditor(
    queue: seq<QueueItem>,
    name: string,
    category: Category,
    priority: Priority,
    days: nat,
    hours: nat,
    minutes: nat,
    selected: seq<int>,
    selectAll: bool)

  /** Whether the add button is refused: a blank name or a zero duration. */
  predicate AddRefused(e: QueueEditor) {
    AllWhitespace(e.name) || (e.days == 0 && e.hours == 0 && e.minutes == 0)
  }

  /** `handleAddToQueue`: refused without a name or without a duration;
      otherwise the upgrade is appended and the name and durations are reset
      while the category, priority and selection are kept. */
  function AddToQueue(e: QueueEditor, newId: int): (r: QueueEditor)
    ensures AddRefused(e) <==> r == e
    ensures !AddRefused(e) ==>
      && |r.queue| == |e.queue| + 1 && r.queue[..|e.queue|] == e.queue
      && r.queue[|e.queue|] == QueueItem(newId, e.name, e.category, Duration(e.days, e.hours, e.minutes), e.priority)
      && r.name == "" && r.days == 0 && r.hours == 0 && r.minutes == 0
      && r.category == e.category && r.priority == e.priority
      && r.selected == e.selected && r.selectAll == e.selectAll
  {
    TrimEmptyIffBlank(e.name);
    if Trim(e.name) == "" || (e.days == 0 && e.hours == 0 && e.minutes == 0) then e
    else
      var item := QueueItem(newId, e.name, e.category, Duration(e.days, e.hours, e.minutes), e.priority);
      assert (e.queue + [item])[..|e.queue|] == e.queue;
      e.(queue := e.queue + [item], name := "", days := 0, hours := 0, minutes := 0)
  }

  /** `handleRemoveSelected`: the unselected upgrades stay, in order; the
      selection and the select-all box are cleared. */
  function RemoveSelected(e: QueueEditor): (r: QueueEditor)
    ensures forall x :: x in r.queue <==> x in e.queue && x.id !in e.selected
    ensures forall x :: multiset(r.queue)[x] == if x.id in e.selected then 0 else multiset(e.queue)[x]
    ensures r.selected == [] && !r.selectAll
  {
    var p := (item: QueueItem) => item.id !in e.selected;
    FilterMultiset(e.queue, p);
    e.(queue := Filter(e.queue, p), selected := [], selectAll := false)
  }

  /** Removing the selection from a queue made of two parts removes it from
      each part and keeps the parts in order. */
  lemma RemoveSelectedAppend(e: QueueEditor, a: seq<QueueItem>, b: seq<QueueItem>)
    ensures RemoveSelected(e.(queue := a + b)).queue
         == RemoveSelected(e.(queue := a)).queue + RemoveSelected(e.(queue := b)).queue
  {
    FilterAppend(a, b, (item: QueueItem) => item.id !in e.selected);
  }

  /** A single upgrade goes exactly when its id is selected. Together with
      `RemoveSelectedAppend` this fixes the remaining queue, order included. */
  lemma RemoveSelectedSingle(e: QueueEditor, x: QueueItem)
    ensures RemoveSelected(e.(queue := [x])).queue == if x.id in e.selected then [] else [x]
  {
  }

  /** `handleSelectAll`: an unticked box selects the queued ids, one per
      queued upgrade in queue order; a ticked one clears the selection; the
      box flips. */
  function SelectAll(e: QueueEditor): (r: QueueEditor)
    ensures r.selectAll == !e.selectAll
    ensures !e.selectAll ==> forall x :: x in r.selected <==> exists i :: 0 <= i < |e.queue| && e.queue[i].id == x
    ensures !e.selectAll ==> |r.selected| == |e.queue| && forall i :: 0 <= i < |e.queue| ==> r.selected[i] == e.queue[i].id
    ensures e.selectAll ==> r.selected == []
    ensures r.queue == e.queue
  {
    if e.selectAll then e.(selected := [], selectAll := false)
    else
      var ids := MapSeq(e.queue, QueueId);
      assert forall x :: x in ids <==> exists i :: 0 <= i < |e.queue| && e.queue[i].id == x;
      e.(selected := ids, selectAll := true)
  }

  /** Ticking select-all and then removing the selection empties the queue. */
  lemma SelectAllThenRemoveEmptiesQueue(e: QueueEditor)
    requires !e.selectAll
    ensures RemoveSelected(SelectAll(e)).queue == []
  {
    var ids := SelectAll(e).selected;
    forall i | 0 <= i < |e.queue|
      ensures e.queue[i].id in ids
    {
    }
    FilterNone(e.queue, (item: QueueItem) => item.id !in ids);
  }

  /** Ticking select-all twice comes back to no selection, box unticked. */
  lemma SelectAllTwice(e: QueueEditor)
    requires !e.selectAll
    ensures SelectAll(SelectAll(e)).selected == [] && !SelectAll(SelectAll(e)).selectAll
  {
  }

  /** `handleSelectItem`: the id is toggled in the selection. Unticking
      clears the select-all box; ticking sets it when the selection then has
      as many entries as the queue, and leaves it alone otherwise. */
  function SelectItem(e: QueueEditor, id: int): (r: QueueEditor)
    ensures r.selected == Toggle(e.selected, id)
    ensures id in e.selected ==> !r.selectAll
    ensures id !in e.selected ==> r.selectAll == (e.selectAll || |r.selected| == |e.queue|)
    ensures r.queue == e.queue
  {
    if id in e.selected then e.(selected := Toggle(e.selected, id), selectAll := false)
    else
      e.(selected := Toggle(e.selected, id), selectAll := if |e.selected| + 1 == |e.queue| then true else e.selectAll)
  }

  /** Ticking an item and unticking it again restores the selection and
      leaves the select-all box unticked. */
  lemma SelectItemTwice(e: QueueEditor, id: int)
    requires id !in e.selected
    ensures SelectItem(SelectItem(e, id), id).selected == e.selected
    ensures !SelectItem(SelectItem(e, id), id).selectAll
  {
    ToggleTwice(e.selected, id);
  }
}
