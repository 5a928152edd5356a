# Ethics Bowl Academy front-end: the sorting exercise, the module editor and the carousel, in Dafny

This project models three React components of the Ethics Bowl Academy front-end and proves properties of them.

- **The sorting exercise** (`SortingStepView`). Cards are dragged from a bank into buckets.
  - Modules `SortingHelpers` and `SortingView`.
  - The three helpers of the component are loop methods, each proved against a specification:
    - `BuildInitialPlacements` against the predicate `AllInBank`;
    - `GroupCards` against the recursive function `Group` (the bank list) and the map comprehension `BucketLists` (the bucket lists);
    - `CardCountInContainer` against the size of the set comprehension `KeysIn`.
  - The partition, fallback and counting properties are proved about those functions.
  - The component state (placements, submit flag, drag source, hovered zone) is the class `SortingStepView`, with one method per handler.
  - The component has three `useEffect` hooks (lines 66, 76 and 93). The two that change state, the reset on a new exercise id and the submit revert, run explicitly at the end of the change that triggers them. The third (lines 76-78) only passes the placements to `onPlacementsChange` and is left out.
  - The values passed to `onSubmittedChange` are kept in a ghost log.
  - The class keeps the invariant `Valid()`: a submitted exercise has no card in the bank group. Under that invariant, running the revert after every change is the same as React running it only when its dependencies change.
- **The module editor dialog** (`ModuleEditor`). Module `ModuleEditor`, with module `JsText` for `String.prototype.trim`.
  - The step-list operations (delete, clone, save from the step dialogs, drag reorder) are functions with their properties as lemmas.
  - The checks `handleSave` makes before it calls the store are the function `ValidateSave`.
  - The load effect, the form fields and the draft list are the class `ModuleEditor`.
  - `handleDrop` is modelled twice: once as written, with JavaScript's `undefined` and its out-of-range `splice`, and once corrected (see Findings).
- **The home page carousel**. Module `Homepage`.
  - JavaScript's truncating `%` is written out.
  - The next, previous and dot-click updates of `currentSlide` are methods of the class `Carousel`, proved against the index functions.

Shared `Option`/`Result` types are in `Wrappers`.

In five places the sorting component does less than its names suggest. The model follows the code:

- **Submit.** `handleSubmit` (SortingStepView.tsx:118-124) tests only that the bank group is empty. It does not test `submitted`; the submit button's `disabled` does (line 302), and rendering is not modelled.
- **Bank group, not bank count.** `allCardsPlaced` (line 90) tests the bank *group*, which also holds cards with no entry and cards placed in a bucket the exercise no longer has. It does not count the "bank" entries. `BankEmptyIffNoBankEntry` proves the two agree when the placement keys are the card ids and every entry is a container. `RemovedBucketCardInBankGroup` shows an input where they differ.
- **Drop source.** `onZoneDrop` takes the card id from the drag payload, not from `draggingCardId`.
- **Unknown card ids.** `onZoneDrop` does not check that the card id belongs to the exercise; any non-empty id is recorded.
- **Reset keeps the drag state.** `handleReset` (lines 111-116) puts the cards back in the bank and clears the submit flag. It leaves `draggingCardId` and `dragOverZone` as they were.

## Model

| member | source | states |
|---|---|---|
| SortingHelpers.BucketIds | frontend/src/components/SortingStepView.tsx:83 | the bucket ids, one per bucket, in bucket order |
| SortingHelpers.ContainerIds | frontend/src/components/SortingStepView.tsx:82-85 | the drop zones: "bank" first, then the bucket ids in bucket order |
| SortingHelpers.Where | frontend/src/components/SortingStepView.tsx:37 | a card's container is its entry when it has one and "bank" otherwise; it is always "bank" or one of the entries |
| SortingHelpers.Destination | frontend/src/components/SortingStepView.tsx:37-40 | the container grouping lists a card under is the bank or a bucket id of the exercise that the card's entry names |
| SortingHelpers.BucketLists | frontend/src/components/SortingStepView.tsx:32-41 | the keys of the bucket map are exactly the bucket ids, and a bucket named "bank" gets no card |
| SortingHelpers.DestinationCases | frontend/src/components/SortingStepView.tsx:37-40 | a card is listed in the bank exactly when it has no entry, its entry is "bank", or its entry names no bucket of the exercise; otherwise it is listed under the bucket its entry names |
| SortingHelpers.Selected | frontend/src/components/SortingStepView.tsx:36-41 | the positions of the cards grouped under a container are increasing, and position i is among them exactly when card i's destination is that container |
| SortingHelpers.GroupAtSelected | frontend/src/components/SortingStepView.tsx:36-41 | a group is the cards at those positions, in the order of the card list |
| SortingHelpers.CardListedAtDestination | frontend/src/components/SortingStepView.tsx:36-41 | every card appears in the group of its destination |
| SortingHelpers.GroupEmptyIff | frontend/src/components/SortingStepView.tsx:90 | a group is empty exactly when no card has that destination |
| SortingHelpers.BuildInitialPlacements | frontend/src/components/SortingStepView.tsx:24-28 | all cards are in the bank (`AllInBank`): the result has an entry for exactly the card ids, and every entry is "bank" |
| SortingHelpers.AllInBankGroups | frontend/src/components/SortingStepView.tsx:24-44 | with all-bank placements the bank group is the whole card list and every other group is empty |
| SortingHelpers.EmptyBucketLists | frontend/src/components/SortingStepView.tsx:34 | one empty list per bucket id and no other key |
| SortingHelpers.PlaceCard | frontend/src/components/SortingStepView.tsx:37-40 | one card is appended to the bank list or to the list of its destination bucket, and to no other list |
| SortingHelpers.GroupCards | frontend/src/components/SortingStepView.tsx:30-44 | the bank list is the bank group, and the bucket map is `BucketLists`: each bucket id maps to that bucket's group |
| SortingHelpers.BucketListsAt | frontend/src/components/SortingStepView.tsx:32-39 | the map's keys are exactly the bucket ids; a bucket named "bank" gets an empty list, every other bucket gets its group |
| SortingHelpers.GroupSizesSum | frontend/src/components/SortingStepView.tsx:30-44 | over any duplicate-free list of containers naming the bank and every bucket id, the group sizes add up to the number of cards (no card lost or repeated) |
| SortingHelpers.CardCountInContainer | frontend/src/components/SortingStepView.tsx:46-52 | the count is the number of placement keys whose entry is the container |
| SortingHelpers.CountSumIsSize | frontend/src/components/SortingStepView.tsx:46-52 | when every entry is in a duplicate-free container list, the counts over that list add up to the number of entries |
| SortingHelpers.BankEmptyIffNoBankEntry | frontend/src/components/SortingStepView.tsx:46-52 | with keys equal to the card ids and every entry a container, the bank group is empty exactly when no entry is "bank" |
| SortingHelpers.RemovedBucketCardInBankGroup | frontend/src/components/SortingStepView.tsx:40 | a card placed in a bucket the exercise no longer has is in the bank group while no entry counts for the bank |
| SortingView.SortingStepView.AllCardsPlaced | frontend/src/components/SortingStepView.tsx:90 | all cards are placed exactly when no card's destination is the bank |
| SortingView.SortingStepView.CanInteract | frontend/src/components/SortingStepView.tsx:87 | an exercise that does not lock, or is not submitted, accepts moves; a locking exercise that is submitted refuses them |
| SortingView.SortingStepView.DropAccepted | frontend/src/components/SortingStepView.tsx:155-161 | an accepted drop needs interaction allowed, a non-empty payload and a zone that is the bank or a bucket id; conversely, while interaction is allowed a non-empty payload on the bank or on a bucket id is accepted |
| SortingView.SortingStepView.constructor | frontend/src/components/SortingStepView.tsx:60-73 | on mount all cards are in the bank, nothing is submitted or dragged, and `false` is reported once |
| SortingView.SortingStepView.MoveCardTo | frontend/src/components/SortingStepView.tsx:104-109 | the entry of the card becomes the target; every other entry and every other field is unchanged |
| SortingView.SortingStepView.RevertIfIncomplete | frontend/src/components/SortingStepView.tsx:93-102 | a submitted exercise whose bank group is not empty becomes unsubmitted and reports `false`; otherwise nothing changes |
| SortingView.SortingStepView.ChangeStep | frontend/src/components/SortingStepView.tsx:66-73 | a new exercise id resets placements to all-bank, clears submit and drag state and reports `false`, and the revert of the same render may report `false` again; the same id keeps placements and drag state and only the revert applies |
| SortingView.SortingStepView.Reset | frontend/src/components/SortingStepView.tsx:111-116 | while locked nothing changes; otherwise all cards go back to the bank, the exercise is unsubmitted and `false` is reported |
| SortingView.SortingStepView.Submit | frontend/src/components/SortingStepView.tsx:118-124 | with a card in the bank group nothing changes; otherwise the exercise is submitted and `true` is reported |
| SortingView.SortingStepView.CardDragStart | frontend/src/components/SortingStepView.tsx:127-136 | the drag source is recorded unless locked |
| SortingView.SortingStepView.CardDragEnd | frontend/src/components/SortingStepView.tsx:138-141 | both drag fields are cleared, locked or not |
| SortingView.SortingStepView.ZoneDragOver | frontend/src/components/SortingStepView.tsx:143-148 | the hovered zone becomes the zone unless locked |
| SortingView.SortingStepView.ZoneDragLeave | frontend/src/components/SortingStepView.tsx:150-152 | the hover clears only when it is on the zone being left |
| SortingView.SortingStepView.ZoneDrop | frontend/src/components/SortingStepView.tsx:154-166 | when locked, with an empty payload, or on a zone not in the exercise, nothing changes; otherwise the payload card moves to the zone, both drag fields clear and the revert applies, and a card of the exercise dropped on the bank always withdraws a submit |
| JsText.TrimStartDropsWhitespace | frontend/src/components/ModuleEditor.tsx:62 | trimming the front drops only white space and line terminators |
| JsText.TrimEndDropsWhitespace | frontend/src/components/ModuleEditor.tsx:62 | trimming the back drops only white space and line terminators |
| JsText.TrimEmptyIff | frontend/src/components/ModuleEditor.tsx:62 | a trimmed title is empty exactly when every character is white space or a line terminator |
| JsText.Trim | frontend/src/components/ModuleEditor.tsx:86-87 | a trimmed string neither starts nor ends with white space |
| JsText.TrimSlice | frontend/src/components/ModuleEditor.tsx:86-87 | a trimmed string is the contiguous slice of the input after its leading white space |
| JsText.TrimIdempotent | frontend/src/components/ModuleEditor.tsx:86-87 | trimming twice is trimming once |
| ModuleEditor.FindFirst | frontend/src/components/ModuleEditor.tsx:113 | `find`/`findIndex`: the index of the first element satisfying the predicate, or none when no element does |
| ModuleEditor.IndexOfStep | frontend/src/components/ModuleEditor.tsx:161 | `findIndex` by id: the index of the first step with the id, or none exactly when no step has it |
| ModuleEditor.SelectedModule | frontend/src/components/ModuleEditor.tsx:25 | no id or an empty id selects nothing; a selected module is the first module in the list with the id; a present id is always found |
| ModuleEditor.OrderFromInput | frontend/src/components/ModuleEditor.tsx:278 | NaN and 0 become 1, every other parsed number (negative ones too) is kept, and the result is never 0 |
| ModuleEditor.ValidateSave | frontend/src/components/ModuleEditor.tsx:61-91 | refused for the title exactly when the trimmed title is empty; otherwise refused for the order exactly when another module (by id) has the same order, naming the first such module; an accepted save carries the trimmed title and description, the order and the draft steps |
| ModuleEditor.ValidateSaveTitle | frontend/src/components/ModuleEditor.tsx:62-65 | a save is refused for the title exactly when the title is all white space |
| ModuleEditor.ValidateSaveTrimmed | frontend/src/components/ModuleEditor.tsx:84-91 | an accepted title is non-empty and neither starts nor ends with white space |
| ModuleEditor.WithoutStep | frontend/src/components/ModuleEditor.tsx:109 | the delete filter never lengthens the list |
| ModuleEditor.WithoutStepCounts | frontend/src/components/ModuleEditor.tsx:109 | after a delete, no step has the id, and every other step occurs as often as before |
| ModuleEditor.WithoutStepAppend | frontend/src/components/ModuleEditor.tsx:109 | the delete filter works on each part of a list separately, so the remaining steps keep their order |
| ModuleEditor.WithoutAbsentStep | frontend/src/components/ModuleEditor.tsx:109 | deleting an id that no step has changes nothing |
| ModuleEditor.CopyOf | frontend/src/components/ModuleEditor.tsx:117-128 | the copy has the new id, the two new timestamps, the old title with " (Copy)" appended and the given order; every other field is the original's |
| ModuleEditor.WithClone | frontend/src/components/ModuleEditor.tsx:112-130 | an unknown id changes nothing; otherwise the old list, then one copy of the first step with the id, with the new id, update time and creation time, the " (Copy)" title, order equal to the old length, and the same type and content |
| ModuleEditor.WithSaved | frontend/src/components/ModuleEditor.tsx:158-171 | a known id replaces the first step with that id in place (length unchanged, other positions untouched); an unknown one is appended (length plus one) |
| ModuleEditor.WithSavedIdempotent | frontend/src/components/ModuleEditor.tsx:158-171 | saving the same step twice is saving it once |
| ModuleEditor.Moved | frontend/src/components/ModuleEditor.tsx:147-150 | a move keeps the length and puts the dragged step at the drop index |
| ModuleEditor.MovedProperties | frontend/src/components/ModuleEditor.tsx:147-150 | a move keeps the length and the multiset of steps, puts the dragged step at the drop index, and leaves the other steps in their order |
| ModuleEditor.MovedRoundTrip | frontend/src/components/ModuleEditor.tsx:147-150 | dragging the step back from the drop index to its old index restores the list |
| ModuleEditor.Reorder | frontend/src/components/ModuleEditor.tsx:147-150 | the two splices produce the move, with its permutation and order properties |
| ModuleEditor.JsSpliceOut | frontend/src/components/ModuleEditor.tsx:149 | `splice(i, 1)`: an index past the end changes nothing; otherwise the element at i is removed and the rest keep their order |
| ModuleEditor.JsSpliceIn | frontend/src/components/ModuleEditor.tsx:150 | `splice(i, 0, x)`: x is inserted at i, or at the end when i is past the end, and the rest keep their order |
| ModuleEditor.DropAsWritten | frontend/src/components/ModuleEditor.tsx:147-150 | the drop as written keeps the length when the drag index is on the list; past the end it inserts `undefined` at the drop index (or the end), lengthening the list by one, with the old list before and after the new slot |
| ModuleEditor.DropAsWrittenInRange | frontend/src/components/ModuleEditor.tsx:147-150 | with both indices on the list, the code as written is the move |
| ModuleEditor.DropAsWrittenStaleIndex | frontend/src/components/ModuleEditor.tsx:143-155 | as written, a drag index past the end of the list makes a drop on a row insert `undefined`, lengthening the list |
| ModuleEditor.DropAsWrittenExample | frontend/src/components/ModuleEditor.tsx:143-155 | as written, steps [a, b] with drag index 2 and a drop on row 0 give [undefined, a, b] |
| ModuleEditor.ModuleEditor.constructor | frontend/src/components/ModuleEditor.tsx:27-38 | the form starts empty with order 1, with no steps and no drag source |
| ModuleEditor.ModuleEditor.Load | frontend/src/components/ModuleEditor.tsx:40-59 | a selected module fills the form (a missing order becomes 1) and the steps; otherwise the form is empty with order one past the number of modules, and there are no steps |
| ModuleEditor.ModuleEditor.EditTitle | frontend/src/components/ModuleEditor.tsx:244-246 | only the title changes |
| ModuleEditor.ModuleEditor.EditDescription | frontend/src/components/ModuleEditor.tsx:258-260 | only the description changes |
| ModuleEditor.ModuleEditor.EditOrder | frontend/src/components/ModuleEditor.tsx:275-279 | only the order changes, to the parsed number with NaN and 0 replaced by 1, never 0 |
| ModuleEditor.ModuleEditor.Save | frontend/src/components/ModuleEditor.tsx:61-91 | the outcome is the validation of the form against the other modules, excluding the module being edited |
| ModuleEditor.ModuleEditor.DeleteStep | frontend/src/components/ModuleEditor.tsx:101-110 | unconfirmed, nothing changes; confirmed, the steps with the id are removed |
| ModuleEditor.ModuleEditor.CloneStep | frontend/src/components/ModuleEditor.tsx:112-131 | the steps become the clone result for the three clock readings passed in |
| ModuleEditor.ModuleEditor.DragStart | frontend/src/components/ModuleEditor.tsx:133-136 | the dragged index is recorded |
| ModuleEditor.ModuleEditor.Drop | frontend/src/components/ModuleEditor.tsx:143-155 | the multiset of steps is always kept; no drag source, a drop on the dragged row, or a drag index past the end change nothing; otherwise the steps become the move and the drag source clears |
| ModuleEditor.ModuleEditor.StepSave | frontend/src/components/ModuleEditor.tsx:158-171 | the steps become the replace-or-append result |
| Homepage.JsRemainder | frontend/src/app/homepage/page.tsx:22 | JavaScript `%` by a positive number: in [0, n) for a non-negative dividend, in (-n, 0] for a negative one; its value is fixed by `JsRemainderQuotient` |
| Homepage.NatRemainderQuotient | frontend/src/app/homepage/page.tsx:22 | a non-negative dividend is a non-negative multiple of the divisor plus its remainder |
| Homepage.JsRemainderQuotient | frontend/src/app/homepage/page.tsx:22 | `a % b` is the remainder of truncating division: `a` is the quotient times `b` plus the result, with the quotient of the sign of `a` (rounded toward zero) |
| Homepage.NextIndex | frontend/src/app/homepage/page.tsx:22 | from a slide in range, the next index is in range |
| Homepage.PrevIndex | frontend/src/app/homepage/page.tsx:26 | from a slide in range, the previous index is in range |
| Homepage.NextIndexSpec | frontend/src/app/homepage/page.tsx:21-23 | next stays in [0, n), wraps the last slide to 0 and otherwise adds one |
| Homepage.PrevIndexSpec | frontend/src/app/homepage/page.tsx:25-27 | previous stays in [0, n), wraps 0 to the last slide and otherwise subtracts one |
| Homepage.NextPrevRoundTrip | frontend/src/app/homepage/page.tsx:21-27 | previous after next, and next after previous, return to the slide shown |
| Homepage.Carousel.constructor | frontend/src/app/homepage/page.tsx:11 | the first slide is shown |
| Homepage.Carousel.NextSlide | frontend/src/app/homepage/page.tsx:21-23 | the slide becomes the next index over the four images and stays in range |
| Homepage.Carousel.PrevSlide | frontend/src/app/homepage/page.tsx:25-27 | the slide becomes the previous index over the four images and stays in range |
| Homepage.Carousel.GoTo | frontend/src/app/homepage/page.tsx:252-255 | a click on dot i shows slide i |

## Left out

- Rendering is not modelled: JSX, styling, the SVG icons of `getStepIcon`, the `Zone` and card render helpers, the "N cards" chips, `AuthGate` and the placeholder image URLs. The carousel keeps only the number of images, 4.
- Browser drag events are not modelled (`DragEvent`, `dataTransfer`, `preventDefault`, `effectAllowed`, `dropEffect`). The text a drop carries is a `payload` parameter, empty when absent. `handleDragOver` changes no state and is left out.
- React scheduling (`useEffect`, `useMemo`, batching) is not modelled. Of the three effects of the sorting component, the two that change state run at the end of the handler that triggers them; the third only calls `onPlacementsChange` (below). The module editor's load effect is the method `Load`, called with the store's module list.
- `onPlacementsChange` is not modelled: it only passes the placements to the host. `onSubmittedChange` is a ghost log of the values passed.
- `lockAfterSubmit` is a constant of the sorting object: a change of that prop while mounted is not modelled.
- The store is not modelled (`useModuleStore`, `saveModuleWithSteps`, `onClose`), along with `isSaving` and the error alert of a failed save. `Save` returns the validated request instead of sending it.
- The `showAlert` and `showConfirm` dialogs are not modelled. A refusal is a `SaveError` value, and the delete confirmation is a boolean parameter.
- The opening and closing of the add-step and edit-step dialogs (`showAddStepModal`, `editingStep`) are not modelled. `StepSave` is the callback those dialogs call.
- The clock (`Date.now()`, `new Date()`) is not modelled. The clone reads it three times: the temporary id, built from `Date.now()` as `temp-<ms>`, and the update and creation times are three parameters of `CloneStep`.
- `parseInt` on the text of the order field is not modelled: its outcome is the `ParsedInt` parameter.
- Step types and their type-specific fields are not modelled. They are the opaque `kind` and `content` fields, which the editor copies unchanged.
- `module.steps || []` is not modelled: a module's steps are always a sequence.
- Plain JavaScript objects used as dictionaries are modelled as maps. Keys inherited from `Object.prototype` (a bucket lookup of "constructor", say) are not modelled.
- Numbers are modelled as unbounded integers. `ParsedInt` stands for `parseInt` giving NaN or a finite integer; the `Infinity` that `parseInt` gives for a very long digit string (ModuleEditor.tsx:278) is not modelled, nor is the loss of precision of doubles past 2^53.
- ModuleEditor.ModuleEditor.Drop: requires `dropIndex < |steps|`, since drop targets are the rendered rows of the list.
- ModuleEditor.ModuleEditor.Drop: guards against a drag index past the end. The code as written does not have that guard; see Findings.

## Findings

| source | as written | input that shows it | evidently intended | confidence | as-written member | corrected member |
|---|---|---|---|---|---|---|
| frontend/src/components/ModuleEditor.tsx:143-155 | `handleDrop` trusts `draggedIndex`. It is set at drag start and cleared only by a drop on a row (there is no drag-end handler), so it can outlive the row it names. | Steps [a, b, c]. Drag c (index 2) and release it outside the list. Delete c. Drag something from outside the list (a file or selected text) and drop it on row 0; a row drag would not do, since `handleDragStart` resets the index. `newSteps[2]` is `undefined`, `splice(2, 1)` removes nothing, and `splice(0, 0, undefined)` gives [undefined, a, b], which the row rendering then reads `id` from. | A drop only moves a step that is still on the list: the list stays a permutation of the old one. | not executed; medium | ModuleEditor.DropAsWrittenStaleIndex | ModuleEditor.ModuleEditor.Drop |
