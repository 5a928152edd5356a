/**
 * The module editing dialog: the draft list of steps with its reorder,
 * delete, clone and save-from-modal operations, the draft form with its
 * order-number fallback, and the checks made before a module is saved.
 */
module ModuleEditor {
  import opened Wrappers
  import opened JsText

  /**
   * A step of a module. `kind` is its type ("video", "quiz", ...) and
   * `content` stands for the type-specific fields, which the editor copies
   * without looking at them. Timestamps are clock readings.
   */
  datatype Step = Step(id: string, title: string, order: int, kind: string, content: string, createdAt: int, updatedAt: int)

  /** A module as the store holds it; `order` may be missing. */
  datatype ModuleRecord = ModuleRecord(id: string, title: string, description: string, order: Option<int>, steps: seq<Step>)

  /** The editable fields of the dialog. */
  datatype FormData = FormData(title: string, description: string, order: int)

  /** What a successful save hands to the store: trimmed details and the draft steps. */
  datatype SaveRequest = SaveRequest(title: string, description: string, order: int, steps: seq<Step>)

  /** Why a save was refused; `takenBy` is the title of the module that already has the order number. */
  datatype SaveError = EmptyTitle | OrderTaken(order: int, takenBy: string)

  /** The result of `parseInt` on the order field: a number or NaN. */
  datatype ParsedInt = NotANumber | Parsed(value: int)

  // ---------- lookups ----------

  /** `findIndex` / `find`: the first position whose element satisfies `P`. */
  function FindFirst<T>(s: seq<T>, P: T -> bool): (r: Option<nat>)
    ensures r.Some? ==> r.value < |s| && P(s[r.value]) && forall j :: 0 <= j < r.value ==> !P(s[j])
    ensures r.None? ==> forall j :: 0 <= j < |s| ==> !P(s[j])
  {
    if s == [] then None
    else if P(s[0]) then Some(0)
    else match FindFirst(s[1..], P)
      case None => None
      case Some(i) => Some(i + 1)
  }

  /** `steps.findIndex((s) => s.id === id)` */
  function IndexOfStep(steps: seq<Step>, id: string): (r: Option<nat>)
    ensures r.Some? ==> r.value < |steps| && steps[r.value].id == id && forall j :: 0 <= j < r.value ==> steps[j].id != id
    ensures r.None? <==> forall j :: 0 <= j < |steps| ==> steps[j].id != id
  {
    FindFirst(steps, (s: Step) => s.id == id)
  }

  /** `moduleId ? modules.find((m) => m.id === moduleId) : null`; an empty id counts as none. */
  function SelectedModule(modules: seq<ModuleRecord>, moduleId: Option<string>): (r: Option<ModuleRecord>)
    ensures (moduleId.None? || moduleId.value == "") ==> r.None?
    ensures r.Some? ==> r.value in modules && r.value.id == moduleId.value
    ensures r.Some? ==> exists i :: 0 <= i < |modules| && modules[i] == r.value && forall j :: 0 <= j < i ==> modules[j].id != moduleId.value
    ensures moduleId.Some? && moduleId.value != "" && (exists i :: 0 <= i < |modules| && modules[i].id == moduleId.value) ==> r.Some?
  {
    if moduleId.None? || moduleId.value == "" then None
    else match FindFirst(modules, (m: ModuleRecord) => m.id == moduleId.value)
      case None => None
      case Some(i) => Some(modules[i])
  }

  // ---------- form ----------

  /** `parseInt(value) || 1`: NaN and 0 become 1; every other number is kept, negative ones too. */
  function OrderFromInput(parsed: ParsedInt): (order: int)
    ensures order != 0
    ensures order == 1 <==> (parsed.NotANumber? || parsed.value == 0 || parsed.value == 1)
    ensures parsed.Parsed? && parsed.value != 0 ==> order == parsed.value
  {
    match parsed
    case NotANumber => 1
    case Parsed(v) => if v == 0 then 1 else v
  }

  /** Whether module `m` holds `order` already and is not the module being edited. */
  predicate TakesOrder(m: ModuleRecord, order: int, editing: Option<ModuleRecord>)
  {
    m.order == Some(order) && (editing.None? || m.id != editing.value.id)
  }

  /** Some module other than the edited one already has `order`. */
  predicate OrderInUse(modules: seq<ModuleRecord>, order: int, editing: Option<ModuleRecord>)
  {
    exists i :: 0 <= i < |modules| && TakesOrder(modules[i], order, editing)
  }

  /**
   * The checks of `handleSave`: the trimmed title must not be empty, and no
   * other module may have the same order number. An accepted save passes the
   * title and description trimmed; a refused one names the first module
   * holding the order number.
   */
  function ValidateSave(form: FormData, modules: seq<ModuleRecord>, editing: Option<ModuleRecord>, steps: seq<Step>)
    : (r: Result<SaveRequest, SaveError>)
    ensures r == Failure(EmptyTitle) <==> Trim(form.title) == []
    ensures r.Failure? && r.error.OrderTaken? <==> Trim(form.title) != [] && OrderInUse(modules, form.order, editing)
    ensures r.Failure? && r.error.OrderTaken? ==>
      exists i :: 0 <= i < |modules| && TakesOrder(modules[i], form.order, editing)
        && r.error == OrderTaken(form.order, modules[i].title)
        && forall j :: 0 <= j < i ==> !TakesOrder(modules[j], form.order, editing)
    ensures r.Success? ==> r.value == SaveRequest(Trim(form.title), Trim(form.description), form.order, steps)
  {
    if Trim(form.title) == [] then Failure(EmptyTitle)
    else match FindFirst(modules, (m: ModuleRecord) => TakesOrder(m, form.order, editing))
      case Some(i) => Failure(OrderTaken(form.order, modules[i].title))
      case None => Success(SaveRequest(Trim(form.title), Trim(form.description), form.order, steps))
  }

  /** A save is refused for the title exactly when the title is all white space. */
  lemma ValidateSaveTitle(form: FormData, modules: seq<ModuleRecord>, editing: Option<ModuleRecord>, steps: seq<Step>)
    ensures ValidateSave(form, modules, editing, steps) == Failure(EmptyTitle)
        <==> forall i :: 0 <= i < |form.title| ==> IsWhitespace(form.title[i])
  {
    TrimEmptyIff(form.title);
  }

  /** An accepted title is not empty and neither starts nor ends with white space. */
  lemma ValidateSaveTrimmed(form: FormData, modules: seq<ModuleRecord>, editing: Option<ModuleRecord>, steps: seq<Step>)
    requires ValidateSave(form, modules, editing, steps).Success?
    ensures var t := ValidateSave(form, modules, editing, steps).value.title;
      t != [] && !IsWhitespace(t[0]) && !IsWhitespace(t[|t| - 1])
  {
  }

  // ---------- step list: delete, clone, save-from-modal ----------

  /** `steps.filter((s) => s.id !== stepId)` */
  function WithoutStep(steps: seq<Step>, stepId: string): (r: seq<Step>)
    ensures |r| <= |steps|
  {
    if steps == [] then []
    else (if steps[0].id != stepId then [steps[0]] else []) + WithoutStep(steps[1..], stepId)
  }

  /** Deleting removes every step with the id and keeps each other step as many times as it was there. */
  lemma {:induction false} WithoutStepCounts(steps: seq<Step>, stepId: string, s: Step)
    ensures multiset(WithoutStep(steps, stepId))[s] == if s.id == stepId then 0 else multiset(steps)[s]
  {
    if steps != [] {
      WithoutStepCounts(steps[1..], stepId, s);
      var head := if steps[0].id != stepId then [steps[0]] else [];
      assert steps == [steps[0]] + steps[1..];
      assert multiset(WithoutStep(steps, stepId)) == multiset(head) + multiset(WithoutStep(steps[1..], stepId));
    }
  }

  /** Deleting keeps the order of the rest: it acts on each part of a list separately. */
  lemma {:induction false} WithoutStepAppend(a: seq<Step>, b: seq<Step>, stepId: string)
    ensures WithoutStep(a + b, stepId) == WithoutStep(a, stepId) + WithoutStep(b, stepId)
  {
    if a == [] {
      assert a + b == b;
    } else {
      assert (a + b)[0] == a[0];
      assert (a + b)[1..] == a[1..] + b;
      WithoutStepAppend(a[1..], b, stepId);
    }
  }

  /** Deleting an id no step has changes nothing. */
  lemma {:induction false} WithoutAbsentStep(steps: seq<Step>, stepId: string)
    requires forall i :: 0 <= i < |steps| ==> steps[i].id != stepId
    ensures WithoutStep(steps, stepId) == steps
  {
    if steps != [] {
      WithoutAbsentStep(steps[1..], stepId);
    }
  }

  /**
   * The copy made by `handleCloneStep`: the fields of the original spread
   * into a new step, which then gets a fresh id, the " (Copy)" title, its
   * order and two fresh timestamps.
   */
  function CopyOf(s: Step, tempId: string, createdAt: int, updatedAt: int, order: int): (c: Step)
    ensures c.id == tempId && c.title == s.title + " (Copy)" && c.order == order
    ensures c.createdAt == createdAt && c.updatedAt == updatedAt
    ensures c.(id := s.id, title := s.title, order := s.order, createdAt := s.createdAt, updatedAt := s.updatedAt) == s
  {
    Step(tempId, s.title + " (Copy)", order, s.kind, s.content, createdAt, updatedAt)
  }

  /**
   * `handleCloneStep`: an unknown id changes nothing; otherwise a copy of the
   * first step with that id is appended, numbered with the old length.
   */
  function WithClone(steps: seq<Step>, stepId: string, tempId: string, createdAt: int, updatedAt: int): (r: seq<Step>)
    ensures IndexOfStep(steps, stepId).None? <==> r == steps
    ensures IndexOfStep(steps, stepId).Some? ==>
      var original := steps[IndexOfStep(steps, stepId).value];
      && |r| == |steps| + 1 && r[..|steps|] == steps
      && r[|steps|].id == tempId && r[|steps|].title == original.title + " (Copy)"
      && r[|steps|].order == |steps|
      && r[|steps|].kind == original.kind && r[|steps|].content == original.content
      && r[|steps|].createdAt == createdAt && r[|steps|].updatedAt == updatedAt
  {
    match IndexOfStep(steps, stepId)
    case None => steps
    case Some(i) => steps + [CopyOf(steps[i], tempId, createdAt, updatedAt, |steps|)]
  }

  /**
   * `handleStepSave`: a step whose id is already in the list replaces the
   * first step with that id in place; any other step is appended.
   */
  function WithSaved(steps: seq<Step>, saved: Step): (r: seq<Step>)
    ensures saved in r
    ensures (exists j :: 0 <= j < |steps| && steps[j].id == saved.id) <==> |r| == |steps|
    ensures |r| != |steps| ==> r == steps + [saved]
    ensures |r| == |steps| ==>
      var i := IndexOfStep(steps, saved.id).value;
      r[i] == saved && forall j :: 0 <= j < |steps| && j != i ==> r[j] == steps[j]
  {
    match IndexOfStep(steps, saved.id)
    case Some(i) =>
      assert steps[i := saved][i] == saved;
      steps[i := saved]
    case None => steps + [saved]
  }

  /** Saving the same step twice is saving it once. */
  lemma WithSavedIdempotent(steps: seq<Step>, saved: Step)
    ensures WithSaved(WithSaved(steps, saved), saved) == WithSaved(steps, saved)
  {
    var r := WithSaved(steps, saved);
    match IndexOfStep(steps, saved.id)
    case Some(i) =>
      assert forall j :: 0 <= j < i ==> r[j] == steps[j];
      assert IndexOfStep(r, saved.id) == Some(i);
    case None =>
      assert r[|steps|] == saved;
      assert forall j :: 0 <= j < |steps| ==> r[j] == steps[j];
      assert IndexOfStep(r, saved.id) == Some(|steps|);
  }

  // ---------- step list: drag reorder ----------

  function RemoveAt<T>(s: seq<T>, i: nat): seq<T>
    requires i < |s|
  {
    s[..i] + s[i + 1..]
  }

  function InsertAt<T>(s: seq<T>, i: nat, x: T): seq<T>
    requires i <= |s|
  {
    s[..i] + [x] + s[i..]
  }

  /** The list after the step at `from` is taken out and put back in at `to`. */
  function Moved<T>(s: seq<T>, from: nat, to: nat): (r: seq<T>)
    requires from < |s| && to < |s|
    ensures |r| == |s| && r[to] == s[from]
  {
    InsertAt(RemoveAt(s, from), to, s[from])
  }

  lemma RemoveInsert<T>(s: seq<T>, i: nat, x: T)
    requires i <= |s|
    ensures RemoveAt(InsertAt(s, i, x), i) == s
  {
    assert InsertAt(s, i, x)[..i] == s[..i];
    assert InsertAt(s, i, x)[i + 1..] == s[i..];
  }

  lemma InsertRemove<T>(s: seq<T>, i: nat)
    requires i < |s|
    ensures InsertAt(RemoveAt(s, i), i, s[i]) == s
  {
    assert RemoveAt(s, i)[..i] == s[..i];
    assert RemoveAt(s, i)[i..] == s[i + 1..];
  }

  /**
   * A move is a permutation that puts the moved step at `to` and keeps the
   * other steps in their order.
   */
  lemma MovedProperties<T>(s: seq<T>, from: nat, to: nat)
    requires from < |s| && to < |s|
    ensures var r := Moved(s, from, to);
      && |r| == |s| && multiset(r) == multiset(s)
      && r[to] == s[from]
      && RemoveAt(r, to) == RemoveAt(s, from)
  {
    var r, rest := Moved(s, from, to), RemoveAt(s, from);
    RemoveInsert(rest, to, s[from]);
    assert s == s[..from] + [s[from]] + s[from + 1..];
    assert multiset(s) == multiset(rest) + multiset{s[from]};
    assert r == rest[..to] + [s[from]] + rest[to..];
    assert rest == rest[..to] + rest[to..];
  }

  /** Dragging the step back from `to` to `from` undoes a move. */
  lemma MovedRoundTrip<T>(s: seq<T>, from: nat, to: nat)
    requires from < |s| && to < |s|
    ensures Moved(Moved(s, from, to), to, from) == s
  {
    var r := Moved(s, from, to);
    MovedProperties(s, from, to);
    InsertRemove(s, from);
  }

  /**
   * The reorder of `handleDrop` on a copy of the list: take the dragged step
   * out with one splice and put it back at the drop position with another.
   */
  method Reorder(steps: seq<Step>, from: nat, to: nat) returns (newSteps: seq<Step>)
    requires from < |steps| && to < |steps|
    ensures newSteps == Moved(steps, from, to)
    ensures |newSteps| == |steps| && multiset(newSteps) == multiset(steps)
    ensures newSteps[to] == steps[from] && RemoveAt(newSteps, to) == RemoveAt(steps, from)
  {
    newSteps := steps;
    var dragged := newSteps[from];
    newSteps := newSteps[..from] + newSteps[from + 1..];
    newSteps := newSteps[..to] + [dragged] + newSteps[to..];
    MovedProperties(steps, from, to);
  }

  // ---------- handleDrop as written ----------

  /** `array.splice(i, 1)`: an index past the end removes nothing. */
  function JsSpliceOut<T>(a: seq<T>, i: nat): (r: seq<T>)
    ensures i >= |a| ==> r == a
    ensures i < |a| ==> |r| == |a| - 1 && r[..i] == a[..i] && r[i..] == a[i + 1..]
  {
    if i < |a| then a[..i] + a[i + 1..] else a
  }

  /** `array.splice(i, 0, x)`: an index past the end inserts at the end. */
  function JsSpliceIn<T>(a: seq<T>, i: nat, x: T): (r: seq<T>)
    ensures |r| == |a| + 1
    ensures var k := if i <= |a| then i else |a|; r[k] == x && r[..k] == a[..k] && r[k + 1..] == a[k..]
  {
    var k := if i <= |a| then i else |a|;
    a[..k] + [x] + a[k..]
  }

  /**
   * `handleDrop`'s list update exactly as written, over a JavaScript array in
   * which a read past the end yields `undefined` (`None`).
   */
  function DropAsWritten(a: seq<Option<Step>>, draggedIndex: nat, dropIndex: nat): (r: seq<Option<Step>>)
    ensures draggedIndex < |a| ==> |r| == |a|
    ensures draggedIndex >= |a| ==> |r| == |a| + 1 && r[if dropIndex <= |a| then dropIndex else |a|] == None
    ensures draggedIndex >= |a| ==> var k := if dropIndex <= |a| then dropIndex else |a|; r[..k] == a[..k] && r[k + 1..] == a[k..]
  {
    var dragged := if draggedIndex < |a| then a[draggedIndex] else None;
    JsSpliceIn(JsSpliceOut(a, draggedIndex), dropIndex, dragged)
  }

  function Lift(steps: seq<Step>): (r: seq<Option<Step>>)
    ensures |r| == |steps| && forall i :: 0 <= i < |steps| ==> r[i] == Some(steps[i])
  {
    seq(|steps|, i requires 0 <= i < |steps| => Some(steps[i]))
  }

  /** With both indices on the list, the code as written is the move. */
  lemma DropAsWrittenInRange(a: seq<Option<Step>>, draggedIndex: nat, dropIndex: nat)
    requires draggedIndex < |a| && dropIndex < |a|
    ensures DropAsWritten(a, draggedIndex, dropIndex) == Moved(a, draggedIndex, dropIndex)
  {
  }

  /**
   * A `draggedIndex` left over from an earlier drag that is now past the end
   * of the list (the drag ended off the list and a step was then deleted)
   * makes the next drop on a row insert `undefined` into the step list. The
   * drop must carry something dragged from outside the list, since a row drag
   * records its own index first.
   */
  lemma DropAsWrittenStaleIndex(steps: seq<Step>, draggedIndex: nat, dropIndex: nat)
    requires |steps| <= draggedIndex && dropIndex < |steps|
    ensures var r := DropAsWritten(Lift(steps), draggedIndex, dropIndex);
      |r| == |steps| + 1 && r[dropIndex] == None
  {
  }

  /** The scenario: steps [a, b], index 2 left from dragging a deleted third step, a foreign drag dropped on row 0. */
  lemma DropAsWrittenExample(a: Step, b: Step)
    ensures DropAsWritten([Some(a), Some(b)], 2, 0) == [None, Some(a), Some(b)]
  {
  }

  // ---------- the dialog's state ----------

  class ModuleEditor {
    var form: FormData
    /** The draft list of steps, saved with the module. */
    var steps: seq<Step>
    /** The index of the row being dragged, kept after a drag that ends off the list. */
    var draggedIndex: Option<nat>

    constructor ()
      ensures form == FormData("", "", 1) && steps == [] && draggedIndex == None
    {
      form := FormData("", "", 1);
      steps := [];
      draggedIndex := None;
    }

    /**
     * The load effect: an existing module fills the form (a missing order
     * becomes 1) and the draft steps; a new module gets an empty form numbered
     * one past the number of modules, and no steps.
     */
    method Load(modules: seq<ModuleRecord>, moduleId: Option<string>)
      modifies this`form, this`steps
      ensures var selected := SelectedModule(modules, moduleId);
        && (selected.Some? ==>
          var m := selected.value;
          form == FormData(m.title, m.description, if m.order.Some? then m.order.value else 1) && steps == m.steps)
        && (selected.None? ==> form == FormData("", "", |modules| + 1) && steps == [])
    {
      var selected := SelectedModule(modules, moduleId);
      if selected.Some? {
        var m := selected.value;
        form := FormData(m.title, m.description, if m.order.Some? then m.order.value else 1);
        steps := m.steps;
      } else {
        var nextOrder := |modules| + 1;
        form := FormData("", "", nextOrder);
        steps := [];
      }
    }

    method EditTitle(title: string)
      modifies this`form
      ensures form == old(form).(title := title)
    {
      form := form.(title := title);
    }

    method EditDescription(description: string)
      modifies this`form
      ensures form == old(form).(description := description)
    {
      form := form.(description := description);
    }

    /** The order field's change handler, on the value `parseInt` returned. */
    method EditOrder(parsed: ParsedInt)
      modifies this`form
      ensures form == old(form).(order := OrderFromInput(parsed))
      ensures form.order != 0
    {
      form := form.(order := OrderFromInput(parsed));
    }

    /** The checks `handleSave` makes before it calls the store. */
    method Save(modules: seq<ModuleRecord>, moduleId: Option<string>) returns (r: Result<SaveRequest, SaveError>)
      ensures r == ValidateSave(form, modules, SelectedModule(modules, moduleId), steps)
    {
      var editing := SelectedModule(modules, moduleId);
      r := ValidateSave(form, modules, editing, steps);
    }

    /** `handleDeleteStep`, after the confirmation dialog answered `confirmed`. */
    method DeleteStep(stepId: string, confirmed: bool)
      modifies this`steps
      ensures steps == if confirmed then WithoutStep(old(steps), stepId) else old(steps)
    {
      if !confirmed {
        return;
      }
      steps := WithoutStep(steps, stepId);
    }

    /**
     * `handleCloneStep`. The three clock readings of the handler are
     * parameters: `tempId` is built from the first, and `updatedAt` and
     * `createdAt` are the next two.
     */
    method CloneStep(stepId: string, tempId: string, updatedAt: int, createdAt: int)
      modifies this`steps
      ensures steps == WithClone(old(steps), stepId, tempId, createdAt, updatedAt)
    {
      var found := IndexOfStep(steps, stepId);
      if found.None? {
        return;
      }
      var newStep := CopyOf(steps[found.value], tempId, createdAt, updatedAt, |steps|);
      steps := steps + [newStep];
    }

    /** `handleDragStart` on row `index`. */
    method DragStart(index: nat)
      modifies this`draggedIndex
      ensures draggedIndex == Some(index)
    {
      draggedIndex := Some(index);
    }

    /**
     * `handleDrop` on row `dropIndex`, with a guard against a left-over
     * `draggedIndex` past the end of the list: no drag source, a drop on the
     * dragged row itself or such a stale index change nothing; otherwise the
     * dragged step moves to `dropIndex` and the drag source clears.
     */
    method Drop(dropIndex: nat)
      requires dropIndex < |steps|
      modifies this`steps, this`draggedIndex
      ensures multiset(steps) == multiset(old(steps))
      ensures old(draggedIndex).None? || old(draggedIndex) == Some(dropIndex) || old(draggedIndex).value >= |old(steps)|
        ==> unchanged(this)
      ensures old(draggedIndex).Some? && old(draggedIndex) != Some(dropIndex) && old(draggedIndex).value < |old(steps)|
        ==> steps == Moved(old(steps), old(draggedIndex).value, dropIndex) && draggedIndex == None
    {
      if draggedIndex.None? || draggedIndex == Some(dropIndex) {
        return;
      }
      if draggedIndex.value >= |steps| {
        return;
      }
      var newSteps := Reorder(steps, draggedIndex.value, dropIndex);
      steps := newSteps;
      draggedIndex := None;
    }

    /** `handleStepSave`, called by the add and edit step dialogs. */
    method StepSave(saved: Step)
      modifies this`steps
      ensures steps == WithSaved(old(steps), saved)
    {
      var index := IndexOfStep(steps, saved.id);
      if index.Some? {
        steps := steps[index.value := saved];
      } else {
        steps := steps + [saved];
      }
    }
  }
}
