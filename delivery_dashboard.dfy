/** The delivery person's dashboard: the movements assigned to them, and the
    transition of a pending movement to a reported status with a justification. */
module DeliveryDashboard {
  import opened Options
  import opened JsText
  import opened JsArray
  import opened Domain

  /** A movement as the delivery person sees it. */
  datatype AssignedMovement = AssignedMovement(
    id: string,
    movementType: MovementType,
    client: string,
    clientAddress: string,
    clientPhone: string,
    description: string,
    quantity: string,
    status: Status,
    createdAt: string,
    assignedAt: string,
    justification: Option<string>,
    updatedAt: Option<string>)

  /** The statuses a delivery person can report: `"entregue" | "nao_entregue" | "avariado"`. */
  type ReportedStatus = s: Status | s != Pendente witness Entregue

  /** No two movements share an id. */
  predicate UniqueIds(ms: seq<AssignedMovement>) {
    forall i, j :: 0 <= i < j < |ms| ==> ms[i].id != ms[j].id
  }

  /** The copy of `m` that records a reported outcome. */
  function WithOutcome(m: AssignedMovement, newStatus: ReportedStatus, justification: string, now: string): (r: AssignedMovement)
    ensures r.status == newStatus && r.justification == Some(justification) && r.updatedAt == Some(now)
    ensures r.(status := m.status, justification := m.justification, updatedAt := m.updatedAt) == m
  {
    m.(status := newStatus, justification := Some(justification), updatedAt := Some(now))
  }

  /** The list `updateMovementStatus` stores: every movement whose id is
      `movementId` gets the new status, the justification as typed and the
      timestamp; every other movement is kept as it was. The current status of
      the target is not consulted. */
  function MarkMovement(ms: seq<AssignedMovement>, movementId: string, newStatus: ReportedStatus,
                        justification: string, now: string): (r: seq<AssignedMovement>)
    ensures |r| == |ms|
    ensures forall i :: 0 <= i < |ms| ==> r[i].id == ms[i].id
    ensures forall i :: 0 <= i < |ms| && ms[i].id != movementId ==> r[i] == ms[i]
    ensures forall i :: 0 <= i < |ms| && ms[i].id == movementId ==> r[i] == WithOutcome(ms[i], newStatus, justification, now)
  {
    if ms == [] then []
    else
      var head := if ms[0].id == movementId then WithOutcome(ms[0], newStatus, justification, now) else ms[0];
      [head] + MarkMovement(ms[1..], movementId, newStatus, justification, now)
  }

  /** With unique ids, exactly the one movement with that id is replaced. */
  lemma MarkMovementReplacesOne(ms: seq<AssignedMovement>, k: nat, newStatus: ReportedStatus, justification: string, now: string)
    requires UniqueIds(ms) && k < |ms|
    ensures MarkMovement(ms, ms[k].id, newStatus, justification, now)
         == ms[k := WithOutcome(ms[k], newStatus, justification, now)]
  {
    var r := MarkMovement(ms, ms[k].id, newStatus, justification, now);
    forall i | 0 <= i < |ms|
      ensures r[i] == ms[k := WithOutcome(ms[k], newStatus, justification, now)][i]
    {
      if i != k {
        assert ms[i].id != ms[k].id;
      }
    }
  }

  /** An id that matches no movement leaves the list as it was. */
  lemma MarkMovementUnknownId(ms: seq<AssignedMovement>, movementId: string, newStatus: ReportedStatus, justification: string, now: string)
    requires forall i :: 0 <= i < |ms| ==> ms[i].id != movementId
    ensures MarkMovement(ms, movementId, newStatus, justification, now) == ms
  {
  }

  /** No transition makes a movement pending: a movement is pending afterwards
      only if it was pending before and was not the target. */
  lemma MarkMovementNeverSetsPending(ms: seq<AssignedMovement>, movementId: string, newStatus: ReportedStatus, justification: string, now: string)
    ensures forall i :: 0 <= i < |ms| && MarkMovement(ms, movementId, newStatus, justification, now)[i].status == Pendente
              ==> ms[i].status == Pendente && ms[i].id != movementId
  {
  }

  /** The status actions are offered only when the movement's status string
      is "pendente". */
  function OffersStatusActions(m: AssignedMovement): (offered: bool)
    ensures offered <==> StatusName(m.status) == "pendente"
  {
    m.status == Pendente
  }

  function StatusOf(m: AssignedMovement): Status {
    m.status
  }

  /** `pendingCount`: the number of pending movements. */
  function PendingCount(ms: seq<AssignedMovement>): (n: nat)
    ensures n == |Filter(ms, (m: AssignedMovement) => m.status == Pendente)|
  {
    CountByIsFilterLength(ms, StatusOf, Pendente, (m: AssignedMovement) => m.status == Pendente);
    CountBy(ms, StatusOf, Pendente)
  }

  /** `completedCount`: the number of delivered movements; "nao_entregue"
      and "avariado" are not counted as completed. */
  function CompletedCount(ms: seq<AssignedMovement>): (n: nat)
    ensures n == |Filter(ms, (m: AssignedMovement) => m.status == Entregue)|
  {
    CountByIsFilterLength(ms, StatusOf, Entregue, (m: AssignedMovement) => m.status == Entregue);
    CountBy(ms, StatusOf, Entregue)
  }

  /** The two counters never exceed the number of movements together. */
  lemma CountersBounded(ms: seq<AssignedMovement>)
    ensures PendingCount(ms) + CompletedCount(ms) <= |ms|
  {
    StatusCountsPartition(ms, StatusOf);
  }

  /** Reporting on an offered (pending) movement, with unique ids, takes one
      off the pending count, and adds one to the completed count exactly when
      the report is "entregue". */
  lemma ReportOnOfferedMovement(ms: seq<AssignedMovement>, k: nat, newStatus: ReportedStatus, justification: string, now: string)
    requires UniqueIds(ms) && k < |ms| && OffersStatusActions(ms[k])
    ensures PendingCount(MarkMovement(ms, ms[k].id, newStatus, justification, now)) == PendingCount(ms) - 1
    ensures CompletedCount(MarkMovement(ms, ms[k].id, newStatus, justification, now))
         == CompletedCount(ms) + (if newStatus == Entregue then 1 else 0)
  {
    var y := WithOutcome(ms[k], newStatus, justification, now);
    MarkMovementReplacesOne(ms, k, newStatus, justification, now);
    CountByUpdate(ms, k, y, StatusOf, Pendente);
    CountByUpdate(ms, k, y, StatusOf, Entregue);
  }

  /** `MarkMovement` itself does not check the guard: a movement already in
      a final status, which is offered no actions, is overwritten just the
      same, and the pending count does not move. */
  lemma MarkMovementIgnoresCurrentStatus(ms: seq<AssignedMovement>, k: nat, newStatus: ReportedStatus, justification: string, now: string)
    requires UniqueIds(ms) && k < |ms| && !OffersStatusActions(ms[k])
    ensures MarkMovement(ms, ms[k].id, newStatus, justification, now)[k] == WithOutcome(ms[k], newStatus, justification, now)
    ensures PendingCount(MarkMovement(ms, ms[k].id, newStatus, justification, now)) == PendingCount(ms)
  {
    MarkMovementReplacesOne(ms, k, newStatus, justification, now);
    CountByUpdate(ms, k, WithOutcome(ms[k], newStatus, justification, now), StatusOf, Pendente);
  }

  /** The dashboard's state: the movement list, the movement whose dialog is
      open, and the text of the justification box. */
  class Screen {
    var movements: seq<AssignedMovement>
    var selectedMovement: Option<AssignedMovement>
    var justification: string

    constructor (initial: seq<AssignedMovement>)
      ensures movements == initial && selectedMovement == None && justification == ""
    {
      movements := initial;
      selectedMovement := None;
      justification := "";
    }

    /** Opening a status dialog selects its movement. */
    method SelectMovement(m: AssignedMovement)
      modifies this
      ensures selectedMovement == Some(m)
      ensures movements == old(movements) && justification == old(justification)
    {
      selectedMovement := Some(m);
    }

    /** Typing in the justification box; "Cancelar" sets it to "". */
    method SetJustification(text: string)
      modifies this
      ensures justification == text
      ensures movements == old(movements) && selectedMovement == old(selectedMovement)
    {
      justification := text;
    }

    /** `updateMovementStatus`: a justification that is empty or whitespace
        only is rejected and nothing changes; otherwise the movement list is
        updated with the justification as typed (not trimmed) and the
        timestamp `now`, and the dialog state is reset. */
    method UpdateMovementStatus(movementId: string, newStatus: ReportedStatus, now: string) returns (toast: ToastVariant)
      modifies this
      ensures IsBlank(old(justification)) ==>
                && toast == Destructive
                && movements == old(movements)
                && selectedMovement == old(selectedMovement)
                && justification == old(justification)
      ensures !IsBlank(old(justification)) ==>
                && toast == Default
                && movements == MarkMovement(old(movements), movementId, newStatus, old(justification), now)
                && selectedMovement == None
                && justification == ""
    {
      TrimEmptyIffBlank(justification);
      if Trim(justification) == [] {
        return Destructive;
      }
      movements := MarkMovement(movements, movementId, newStatus, justification, now);
      toast := Default;
      selectedMovement := None;
      justification := "";
    }
  }
}
