/** The client form: create or edit a client; code and name are required. */
module ClientForm {
  import opened Options
  import opened JsText
  import opened Domain

  /** A client; address, phone and email are optional. */
  datatype Client = Client(
    id: string,
    code: string,
    name: string,
    address: Option<string>,
    phone: Option<string>,
    email: Option<string>)

  /** The form's record, which is also what `onSave` receives: a client
      without its id, every field a string. */
  datatype ClientData = ClientData(code: string, name: string, address: string, phone: string, email: string)

  /** The names `handleInputChange` is called with. */
  datatype Field = Code | Name | Address | Phone | Email

  /** The reset record: every field empty. */
  const Empty := ClientData("", "", "", "", "")

  /** `formData[field]`. */
  function Get(d: ClientData, f: Field): string {
    match f
    case Code => d.code
    case Name => d.name
    case Address => d.address
    case Phone => d.phone
    case Email => d.email
  }

  /** `{ ...d, [f]: v }`: the named field becomes `v`, the others are kept. */
  function WithField(d: ClientData, f: Field, v: string): (r: ClientData)
    ensures Get(r, f) == v
    ensures forall g :: g != f ==> Get(r, g) == Get(d, g)
  {
    match f
    case Code => d.(code := v)
    case Name => d.(name := v)
    case Address => d.(address := v)
    case Phone => d.(phone := v)
    case Email => d.(email := v)
  }

  /** Writing back a field's own value changes nothing. */
  lemma WithFieldOwnValue(d: ClientData, f: Field)
    ensures WithField(d, f, Get(d, f)) == d
  {
  }

  /** Of two writes to the same field, the second wins. */
  lemma WithFieldTwice(d: ClientData, f: Field, v: string, w: string)
    ensures WithField(WithField(d, f, v), f, w) == WithField(d, f, w)
  {
  }

  /** The check of `handleSubmit`: code and name are not empty, while address,
      phone and email may be. Only emptiness is checked; whitespace passes. */
  function HasRequired(d: ClientData): (ok: bool)
    ensures ok <==> forall f :: Get(d, f) == [] ==> f in {Address, Phone, Email}
  {
    assert Get(d, Code) == d.code && Get(d, Name) == d.name;
    d.code != [] && d.name != []
  }

  /** The initial form: the edited client's fields, with '' for a missing
      optional one; all '' for a new client. A new form is rejected until it is
      filled in, and an unchanged edit form of a client with a code and a name
      is accepted as it is. */
  function InitialFormData(client: Option<Client>): (r: ClientData)
    ensures client.None? ==> r == Empty && !HasRequired(r)
    ensures client.Some? ==> r.code == client.value.code && r.name == client.value.name
    ensures client.Some? ==>
              && (client.value.address.Some? ==> r.address == client.value.address.value)
              && (client.value.phone.Some? ==> r.phone == client.value.phone.value)
              && (client.value.email.Some? ==> r.email == client.value.email.value)
    ensures client.Some? ==>
              && (client.value.address.None? ==> r.address == "")
              && (client.value.phone.None? ==> r.phone == "")
              && (client.value.email.None? ==> r.email == "")
    ensures client.Some? ==> HasRequired(r) == (client.value.code != [] && client.value.name != [])
  {
    match client
    case None => Empty
    case Some(c) => ClientData(c.code, c.name, OrEmpty(c.address), OrEmpty(c.phone), OrEmpty(c.email))
  }

  /** A code and a name made of spaces pass the check, although `trim()`
      would leave them empty. */
  lemma WhitespaceCodeAndNameAccepted(d: ClientData)
    requires d.code != [] && d.name != [] && IsBlank(d.code) && IsBlank(d.name)
    ensures HasRequired(d) && Trim(d.code) == [] && Trim(d.name) == []
  {
    TrimEmptyIffBlank(d.code);
    TrimEmptyIffBlank(d.name);
  }

  /** The form component's state. */
  class Form {
    var formData: ClientData

    constructor (client: Option<Client>)
      ensures formData == InitialFormData(client)
    {
      formData := InitialFormData(client);
    }

    /** `handleInputChange(field, value)`. */
    method HandleInputChange(field: Field, value: string)
      modifies this
      ensures formData == WithField(old(formData), field, value)
    {
      formData := WithField(formData, field, value);
    }

    /** `handleSubmit`: a record without a code or a name is rejected with an
        error toast and the form is kept; otherwise `onSave` gets the record as
        entered, a success toast is shown, the form is cleared and `onClose`
        is called. */
    method HandleSubmit() returns (effects: seq<FormEffect<ClientData>>)
      modifies this
      ensures !HasRequired(old(formData)) ==> effects == [Toast(Destructive)] && formData == old(formData)
      ensures HasRequired(old(formData)) ==>
                effects == [OnSave(old(formData)), Toast(Default), OnClose] && formData == Empty
    {
      if formData.code == "" || formData.name == "" {
        return [Toast(Destructive)];
      }
      effects := [OnSave(formData), Toast(Default)];
      formData := Empty;
      effects := effects + [OnClose];
    }
  }
}
