/** The delivery person form: create or edit a delivery person; every field is required. */
module DeliveryPersonForm {
  import opened Options
  import opened Domain

  /** A delivery person. The password is kept in clear text, as the source does. */
  datatype DeliveryPerson = DeliveryPerson(id: string, code: string, name: string, email: string, password: string)

  /** The form's record, which is also what `onSave` receives: a delivery
      person without its id. */
  datatype PersonData = PersonData(code: string, name: string, email: string, password: string)

  /** The names `handleInputChange` is called with. */
  datatype Field = Code | Name | Email | Password

  /** The reset record: every field empty. */
  const Empty := PersonData("", "", "", "")

  /** `formData[field]`. */
  function Get(d: PersonData, f: Field): string {
    match f
    case Code => d.code
    case Name => d.name
    case Email => d.email
    case Password => d.password
  }

  /** `{ ...d, [f]: v }`: the named field becomes `v`, the others are kept. */
  function WithField(d: PersonData, f: Field, v: string): (r: PersonData)
    ensures Get(r, f) == v
    ensures forall g :: g != f ==> Get(r, g) == Get(d, g)
  {
    match f
    case Code => d.(code := v)
    case Name => d.(name := v)
    case Email => d.(email := v)
    case Password => d.(password := v)
  }

  /** The check of `handleSubmit`: code, name, email and password are all
      non-empty, so every field `handleInputChange` can set is required. Only
      emptiness is checked. */
  function HasRequired(d: PersonData): (ok: bool)
    ensures ok <==> forall f :: Get(d, f) != []
  {
    assert Get(d, Code) == d.code && Get(d, Name) == d.name;
    assert Get(d, Email) == d.email && Get(d, Password) == d.password;
    d.code != [] && d.name != [] && d.email != [] && d.password != []
  }

  /** The initial form: the edited person's fields, or all '' for a new one.
      An unchanged edit form passes the check exactly when the edited person
      has every field; a new form does not pass it. */
  function InitialFormData(person: Option<DeliveryPerson>): (r: PersonData)
    ensures person.None? ==> r == Empty && !HasRequired(r)
    ensures person.Some? ==>
              r == PersonData(person.value.code, person.value.name, person.value.email, person.value.password)
    ensures person.Some? ==>
              (HasRequired(r) <==> person.value.code != [] && person.value.name != []
                                   && person.value.email != [] && person.value.password != [])
  {
    match person
    case None => Empty
    case Some(p) => PersonData(p.code, p.name, p.email, p.password)
  }

  /** The form component's state. */
  class Form {
    var formData: PersonData

    constructor (person: Option<DeliveryPerson>)
      ensures formData == InitialFormData(person)
    {
      formData := InitialFormData(person);
    }

    /** `handleInputChange(field, value)`. */
    method HandleInputChange(field: Field, value: string)
      modifies this
      ensures formData == WithField(old(formData), field, value)
    {
      formData := WithField(formData, field, value);
    }

    /** `handleSubmit`: a record with an empty field is rejected with an error
        toast and the form is kept; otherwise `onSave` gets the record as
        entered, a success toast is shown, the form is cleared and `onClose`
        is called. */
    method HandleSubmit() returns (effects: seq<FormEffect<PersonData>>)
      modifies this
      ensures !HasRequired(old(formData)) ==> effects == [Toast(Destructive)] && formData == old(formData)
      ensures HasRequired(old(formData)) ==>
                effects == [OnSave(old(formData)), Toast(Default), OnClose] && formData == Empty
    {
      if formData.code == "" || formData.name == "" || formData.email == "" || formData.password == "" {
        return [Toast(Destructive)];
      }
      effects := [OnSave(formData), Toast(Default)];
      formData := Empty;
      effects := effects + [OnClose];
    }
  }
}
