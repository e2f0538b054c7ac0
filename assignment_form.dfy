/** The assignment form: pick a pending, unassigned movement and a delivery
    person, and hand both ids to the `onAssign` prop. */
module AssignmentForm {
  import opened Options
  import opened JsText
  import opened JsArray
  import opened Domain
  import opened MovementForm

  /** `m.status === 'pendente' && !m.deliveryPersonId`: an empty id counts as
      no assignee, since '' is falsy. */
  function IsAssignable(m: Movement): (assignable: bool)
    ensures assignable <==> m.status == Pendente && (m.deliveryPersonId.None? || m.deliveryPersonId == Some(""))
  {
    m.status == Pendente && !IsTruthy(m.deliveryPersonId)
  }

  /** `pendingMovements`: the candidates offered in the movement select,
      exactly the pending movements without an assignee, in their original
      order. */
  function PendingMovements(movements: seq<Movement>): (r: seq<Movement>)
    ensures IsSubsequence(r, movements)
    ensures forall m :: m in r <==> m in movements && m.status == Pendente
                                    && (m.deliveryPersonId.None? || m.deliveryPersonId == Some(""))
    ensures forall m :: multiset(r)[m] == if IsAssignable(m) then multiset(movements)[m] else 0
  {
    var r := Filter(movements, IsAssignable);
    forall m ensures m in r <==> m in movements && IsAssignable(m) {
      FilterMembership(movements, IsAssignable, m);
    }
    r
  }

  /** There is no candidate exactly when no movement is pending and unassigned. */
  lemma NoCandidateIffNoneAssignable(movements: seq<Movement>)
    ensures |PendingMovements(movements)| == 0 <==> forall i :: 0 <= i < |movements| ==> !IsAssignable(movements[i])
  {
    if |PendingMovements(movements)| != 0 {
      var m := PendingMovements(movements)[0];
      assert m in PendingMovements(movements);
      var i :| 0 <= i < |movements| && movements[i] == m;
      assert IsAssignable(movements[i]);
    }
  }

  /** `pendingMovements.length === 0`: the submit button is disabled exactly
      when no movement is pending and unassigned. */
  function SubmitDisabled(movements: seq<Movement>): (disabled: bool)
    ensures disabled <==> forall i :: 0 <= i < |movements| ==> !IsAssignable(movements[i])
  {
    NoCandidateIffNoneAssignable(movements);
    |PendingMovements(movements)| == 0
  }

  /** What `handleSubmit` does, in order: show a toast, call `onAssign` with
      a movement id and a delivery person id, call `onClose`. */
  datatype AssignEffect = Notify(variant: ToastVariant) | OnAssign(movementId: string, deliveryPersonId: string) | Close

  /** The form component's state: the two selected ids. */
  class Form {
    var selectedMovement: string
    var selectedDeliveryPerson: string

    constructor ()
      ensures selectedMovement == "" && selectedDeliveryPerson == ""
    {
      selectedMovement := "";
      selectedDeliveryPerson := "";
    }

    /** Choosing in the movement select. */
    method SelectMovement(id: string)
      modifies this
      ensures selectedMovement == id && selectedDeliveryPerson == old(selectedDeliveryPerson)
    {
      selectedMovement := id;
    }

    /** Choosing in the delivery person select. */
    method SelectDeliveryPerson(id: string)
      modifies this
      ensures selectedDeliveryPerson == id && selectedMovement == old(selectedMovement)
    {
      selectedDeliveryPerson := id;
    }

    /** `handleSubmit`: without both selections, an error toast and nothing
        else, the selections kept. Otherwise `onAssign` is called once with the
        two ids as selected (they are not checked against the candidates),
        then a success toast, both selections cleared, and `onClose`. */
    method HandleSubmit() returns (effects: seq<AssignEffect>)
      modifies this
      ensures old(selectedMovement) == [] || old(selectedDeliveryPerson) == [] ==>
                && effects == [Notify(Destructive)]
                && selectedMovement == old(selectedMovement)
                && selectedDeliveryPerson == old(selectedDeliveryPerson)
      ensures old(selectedMovement) != [] && old(selectedDeliveryPerson) != [] ==>
                && effects == [OnAssign(old(selectedMovement), old(selectedDeliveryPerson)), Notify(Default), Close]
                && selectedMovement == ""
                && selectedDeliveryPerson == ""
    {
      if selectedMovement == "" || selectedDeliveryPerson == "" {
        return [Notify(Destructive)];
      }
      effects := [OnAssign(selectedMovement, selectedDeliveryPerson), Notify(Default)];
      selectedMovement := "";
      selectedDeliveryPerson := "";
      effects := effects + [Close];
    }
  }
}
