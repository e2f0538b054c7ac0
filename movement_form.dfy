/** The movement form: create or edit a delivery or a pickup for a client. */
module MovementForm {
  import opened Options
  import opened JsText
  import opened JsArray
  import opened Domain
  import ClientForm

  /** A movement as the admin side stores it. */
  datatype Movement = Movement(
    id: string,
    movementType: MovementType,
    clientId: string,
    clientName: string,
    description: string,
    quantity: string,
    status: Status,
    deliveryPersonId: Option<string>,
    deliveryPersonName: Option<string>,
    createdAt: string,
    justification: Option<string>)

  /** The form's record. `handleInputChange` stores plain strings, so the
      type is held as the string the select supplies ("entrega" or "coleta"). */
  datatype MovementData = MovementData(movementType: string, clientId: string, description: string, quantity: string)

  /** What `onSave` receives: the form's fields and the client's name. It has
      no id, status or creation date. */
  datatype MovementDraft = MovementDraft(
    movementType: string,
    clientId: string,
    description: string,
    quantity: string,
    clientName: string)

  /** The names `handleInputChange` is called with. */
  datatype Field = Type | ClientId | Description | Quantity

  /** The reset record: a delivery with every other field empty. */
  const Blank := MovementData(TypeName(Entrega), "", "", "")

  /** `formData[field]`. */
  function Get(d: MovementData, f: Field): string {
    match f
    case Type => d.movementType
    case ClientId => d.clientId
    case Description => d.description
    case Quantity => d.quantity
  }

  /** `{ ...d, [f]: v }`: the named field becomes `v`, the others are kept. */
  function WithField(d: MovementData, f: Field, v: string): (r: MovementData)
    ensures Get(r, f) == v
    ensures forall g :: g != f ==> Get(r, g) == Get(d, g)
  {
    match f
    case Type => d.(movementType := v)
    case ClientId => d.(clientId := v)
    case Description => d.(description := v)
    case Quantity => d.(quantity := v)
  }

  /** The check of `handleSubmit`: type, client, description and quantity are
      all non-empty, so every field `handleInputChange` can set is required.
      Only emptiness is checked. */
  function HasRequired(d: MovementData): (ok: bool)
    ensures ok <==> forall f :: Get(d, f) != []
  {
    assert Get(d, Type) == d.movementType && Get(d, ClientId) == d.clientId;
    assert Get(d, Description) == d.description && Get(d, Quantity) == d.quantity;
    d.movementType != [] && d.clientId != [] && d.description != [] && d.quantity != []
  }

  /** A description and a quantity made of spaces pass the check, although
      `trim()` would leave them empty. */
  lemma WhitespaceTextAccepted(d: MovementData)
    requires d.movementType != [] && d.clientId != []
    requires d.description != [] && d.quantity != [] && IsBlank(d.description) && IsBlank(d.quantity)
    ensures HasRequired(d) && Trim(d.description) == [] && Trim(d.quantity) == []
  {
    TrimEmptyIffBlank(d.description);
    TrimEmptyIffBlank(d.quantity);
  }

  /** The initial form: the edited movement's type, client, description and
      quantity, or a blank delivery for a new movement. A new form does not
      pass the check; an unchanged edit form passes it exactly when the edited
      movement has a client, a description and a quantity. */
  function InitialFormData(movement: Option<Movement>): (r: MovementData)
    ensures movement.None? ==> r == Blank && !HasRequired(r)
    ensures movement.Some? ==> r.movementType == TypeName(movement.value.movementType)
    ensures movement.Some? ==> r.clientId == movement.value.clientId
    ensures movement.Some? ==> r.description == movement.value.description
    ensures movement.Some? ==> r.quantity == movement.value.quantity
    ensures movement.Some? ==>
              (HasRequired(r) <==> movement.value.clientId != [] && movement.value.description != []
                                   && movement.value.quantity != [])
  {
    match movement
    case None => Blank
    case Some(m) => MovementData(TypeName(m.movementType), m.clientId, m.description, m.quantity)
  }

  /** `clients.find(c => c.id === clientId)?.name || ''`: the name of the
      first client with that id, or '' when there is none. */
  function SelectedClientName(clients: seq<ClientForm.Client>, clientId: string): (name: string)
    ensures (forall i :: 0 <= i < |clients| ==> clients[i].id != clientId) ==> name == []
    ensures forall i :: 0 <= i < |clients| && clients[i].id == clientId ==>
              (forall j :: 0 <= j < i ==> clients[j].id != clientId) ==> name == clients[i].name
  {
    match Find(clients, (c: ClientForm.Client) => c.id == clientId)
    case None => ""
    case Some(c) => c.name
  }

  /** The form component's state. */
  class Form {
    var formData: MovementData

    constructor (movement: Option<Movement>)
      ensures formData == InitialFormData(movement)
    {
      formData := InitialFormData(movement);
    }

    /** `handleInputChange(field, value)`. */
    method HandleInputChange(field: Field, value: string)
      modifies this
      ensures formData == WithField(old(formData), field, value)
    {
      formData := WithField(formData, field, value);
    }

    /** `handleSubmit`: a record with an empty field is rejected with an error
        toast and the form is kept; otherwise `onSave` gets the four fields and
        the selected client's name, a success toast is shown, the form goes
        back to a blank delivery and `onClose` is called. */
    method HandleSubmit(clients: seq<ClientForm.Client>) returns (effects: seq<FormEffect<MovementDraft>>)
      modifies this
      ensures !HasRequired(old(formData)) ==> effects == [Toast(Destructive)] && formData == old(formData)
      ensures HasRequired(old(formData)) ==>
                && formData == Blank
                && |effects| == 3 && effects[1] == Toast(Default) && effects[2] == OnClose
                && effects[0] == OnSave(MovementDraft(
                     old(formData).movementType, old(formData).clientId, old(formData).description,
                     old(formData).quantity, SelectedClientName(clients, old(formData).clientId)))
    {
      if formData.movementType == "" || formData.clientId == "" || formData.description == "" || formData.quantity == "" {
        return [Toast(Destructive)];
      }
      var clientName := SelectedClientName(clients, formData.clientId);
      var draft := MovementDraft(formData.movementType, formData.clientId, formData.description, formData.quantity, clientName);
      effects := [OnSave(draft), Toast(Default)];
      formData := Blank;
      effects := effects + [OnClose];
    }
  }
}
