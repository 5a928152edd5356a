/**
 * The sorting exercise component: which container each card sits in, whether
 * the answer is submitted, and the transient drag state, with the handlers of
 * the component and its two state effects (the reset on a new exercise and
 * the submit revert) run explicitly at the end of the change that triggers them.
 */
module SortingView {
  import opened Wrappers
  import opened SortingHelpers

  class SortingStepView {
    /** The exercise shown: a prop, replaced by `ChangeStep`. */
    var step: SortingStep
    /** The `lockAfterSubmit` prop: after a submit the cards can no longer be moved. */
    const lockAfterSubmit: bool

    var placements: Placements
    var draggingCardId: Option<CardId>
    var dragOverZone: Option<ContainerId>
    var submitted: bool

    /** The values the component has passed to `onSubmittedChange`, oldest first. */
    ghost var submittedNotices: seq<bool>

    /** `allCardsPlaced`: no card is listed in the bank, that is, every card has a bucket as its destination. */
    predicate AllCardsPlaced()
      reads this
      ensures AllCardsPlaced() <==> forall i :: 0 <= i < |step.cards| ==> Destination(step.buckets, placements, step.cards[i]) != Bank
    {
      GroupEmptyIff(step.cards, step.buckets, placements, Bank);
      Group(step.cards, step.buckets, placements, Bank) == []
    }

    /** `canInteract`: only a locking exercise that is submitted refuses moves. */
    predicate CanInteract()
      reads this
      ensures !lockAfterSubmit ==> CanInteract()
      ensures !submitted ==> CanInteract()
      ensures lockAfterSubmit && submitted ==> !CanInteract()
    {
      !(lockAfterSubmit && submitted)
    }

    /** An exercise is only ever submitted while every card is placed in a bucket. */
    ghost predicate Valid()
      reads this
    {
      submitted ==> AllCardsPlaced()
    }

    /** Mounting: all cards in the bank, nothing submitted, and the step effect reports `false`. */
    constructor (step: SortingStep, lockAfterSubmit: bool)
      ensures Valid()
      ensures this.step == step && this.lockAfterSubmit == lockAfterSubmit
      ensures AllInBank(step.cards, placements)
      ensures !submitted && draggingCardId == None && dragOverZone == None
      ensures submittedNotices == [false]
    {
      this.step := step;
      this.lockAfterSubmit := lockAfterSubmit;
      var initial := BuildInitialPlacements(step);
      placements := initial;
      draggingCardId := None;
      dragOverZone := None;
      submitted := false;
      submittedNotices := [false];
    }

    /** `moveCardTo`: records the container for one card and touches nothing else. */
    method MoveCardTo(cardId: CardId, to: ContainerId)
      modifies this`placements
      ensures placements == old(placements)[cardId := to]
    {
      placements := placements[cardId := to];
    }

    /** The submit revert effect: a submitted exercise with a card back in the bank is no longer submitted. */
    method RevertIfIncomplete()
      modifies this`submitted, this`submittedNotices
      ensures Valid()
      ensures submitted == (old(submitted) && AllCardsPlaced())
      ensures submittedNotices == old(submittedNotices) + (if old(submitted) && !AllCardsPlaced() then [false] else [])
    {
      if !submitted {
        return;
      }
      var bank, _ := GroupCards(step, placements);
      if |bank| != 0 {
        submitted := false;
        submittedNotices := submittedNotices + [false];
      }
    }

    /**
     * The step effect: a new exercise id puts every card in the bank, clears
     * the submit and the drag state and reports `false`. The submit revert
     * effect of the same commit still sees the old `submitted` and the new
     * exercise, so it may report `false` a second time.
     */
    method ChangeStep(newStep: SortingStep)
      requires Valid()
      modifies this
      ensures Valid()
      ensures step == newStep
      ensures old(step.id) != newStep.id ==>
        && AllInBank(newStep.cards, placements)
        && !submitted && draggingCardId == None && dragOverZone == None
        && submittedNotices == old(submittedNotices) + [false]
             + (if old(submitted) && Group(newStep.cards, newStep.buckets, old(placements), Bank) != [] then [false] else [])
      ensures old(step.id) == newStep.id ==>
        && placements == old(placements)
        && draggingCardId == old(draggingCardId) && dragOverZone == old(dragOverZone)
        && submitted == (old(submitted) && AllCardsPlaced())
        && submittedNotices == old(submittedNotices) + (if old(submitted) && !AllCardsPlaced() then [false] else [])
    {
      var renderedSubmitted := submitted;
      var renderedBank, _ := GroupCards(newStep, placements);
      var idChanged := newStep.id != step.id;
      step := newStep;
      if idChanged {
        placements := BuildInitialPlacements(newStep);
        draggingCardId := None;
        dragOverZone := None;
        submitted := false;
        submittedNotices := submittedNotices + [false];
      }
      if renderedSubmitted && |renderedBank| != 0 {
        submitted := false;
        submittedNotices := submittedNotices + [false];
      }
    }

    /** `handleReset`: unless locked, every card back to the bank, not submitted, and `false` reported. */
    method Reset()
      requires Valid()
      modifies this`placements, this`submitted, this`submittedNotices
      ensures Valid()
      ensures !old(CanInteract()) ==> unchanged(this)
      ensures old(CanInteract()) ==>
        AllInBank(step.cards, placements) && !submitted && submittedNotices == old(submittedNotices) + [false]
    {
      if !CanInteract() {
        return;
      }
      placements := BuildInitialPlacements(step);
      submitted := false;
      submittedNotices := submittedNotices + [false];
      RevertIfIncomplete();
    }

    /**
     * `handleSubmit`: only when every card is placed, marks the exercise
     * submitted and reports `true`; it does not look at `submitted` itself.
     */
    method Submit()
      requires Valid()
      modifies this`submitted, this`submittedNotices
      ensures Valid()
      ensures !old(AllCardsPlaced()) ==> unchanged(this)
      ensures old(AllCardsPlaced()) ==> submitted && submittedNotices == old(submittedNotices) + [true]
    {
      var bank, _ := GroupCards(step, placements);
      if |bank| != 0 {
        return;
      }
      submitted := true;
      submittedNotices := submittedNotices + [true];
    }

    /** `onCardDragStart`: records the dragged card unless locked. */
    method CardDragStart(cardId: CardId)
      modifies this`draggingCardId
      ensures draggingCardId == if CanInteract() then Some(cardId) else old(draggingCardId)
    {
      if !CanInteract() {
        return;
      }
      draggingCardId := Some(cardId);
    }

    /** `onCardDragEnd`: clears both drag fields, locked or not. */
    method CardDragEnd()
      modifies this`draggingCardId, this`dragOverZone
      ensures draggingCardId == None && dragOverZone == None
    {
      draggingCardId := None;
      dragOverZone := None;
    }

    /** `onZoneDragOver`: unless locked, the hovered zone becomes `zone`. */
    method ZoneDragOver(zone: ContainerId)
      modifies this`dragOverZone
      ensures dragOverZone == if CanInteract() then Some(zone) else old(dragOverZone)
    {
      if !CanInteract() {
        return;
      }
      if dragOverZone != Some(zone) {
        dragOverZone := Some(zone);
      }
    }

    /** `onZoneDragLeave`: clears the hover only when it is on the zone being left. */
    method ZoneDragLeave(zone: ContainerId)
      modifies this`dragOverZone
      ensures dragOverZone == if old(dragOverZone) == Some(zone) then None else old(dragOverZone)
    {
      if dragOverZone == Some(zone) {
        dragOverZone := None;
      }
    }

    /** Whether `onZoneDrop` acts on a drop of `payload` (the dragged text) on `zone`. */
    predicate DropAccepted(payload: string, zone: ContainerId)
      reads this
      ensures DropAccepted(payload, zone) ==> CanInteract() && payload != "" && (zone == Bank || zone in BucketIds(step.buckets))
      ensures CanInteract() && payload != "" && (zone == Bank || zone in BucketIds(step.buckets)) ==> DropAccepted(payload, zone)
    {
      CanInteract() && payload != "" && zone in ContainerIds(step)
    }

    /**
     * `onZoneDrop`: the card id comes from the drag payload, not from
     * `draggingCardId`. Unless locked, with a non-empty payload and a zone of
     * the exercise, the card moves to the zone, both drag fields clear and
     * the submit revert effect runs; otherwise nothing changes.
     */
    method ZoneDrop(payload: string, zone: ContainerId)
      requires Valid()
      modifies this`placements, this`submitted, this`submittedNotices, this`draggingCardId, this`dragOverZone
      ensures Valid()
      ensures !old(DropAccepted(payload, zone)) ==> unchanged(this)
      ensures old(DropAccepted(payload, zone)) ==>
        && placements == old(placements)[payload := zone]
        && draggingCardId == None && dragOverZone == None
        && submitted == (old(submitted) && AllCardsPlaced())
        && submittedNotices == old(submittedNotices) + (if old(submitted) && !AllCardsPlaced() then [false] else [])
      ensures old(DropAccepted(payload, zone)) && zone == Bank && payload in CardIds(step.cards) ==> !submitted
    {
      if !CanInteract() {
        return;
      }
      if payload == "" {
        return;
      }
      if zone !in ContainerIds(step) {
        return;
      }
      MoveCardTo(payload, zone);
      dragOverZone := None;
      draggingCardId := None;
      RevertIfIncomplete();
      if zone == Bank && payload in CardIds(step.cards) {
        ghost var c :| c in step.cards && c.id == payload;
        ghost var i :| 0 <= i < |step.cards| && step.cards[i] == c;
        CardListedAtDestination(step.cards, step.buckets, placements, i);
      }
    }
  }
}
