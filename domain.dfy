/** The enumerations shared by the components: movement statuses and types,
    toast variants, and what a form's submit handler does. */
module Domain {
  import opened JsArray

  /** `"pendente" | "entregue" | "nao_entregue" | "avariado"`. */
  datatype Status = Pendente | Entregue | NaoEntregue | Avariado

  /** `"entrega" | "coleta"`: a delivery or a pickup. */
  datatype MovementType = Entrega | Coleta

  /** The string the source stores for a status. */
  function StatusName(s: Status): string {
    match s
    case Pendente => "pendente"
    case Entregue => "entregue"
    case NaoEntregue => "nao_entregue"
    case Avariado => "avariado"
  }

  /** The string the source stores for a movement type. */
  function TypeName(t: MovementType): string {
    match t
    case Entrega => "entrega"
    case Coleta => "coleta"
  }

  /** Distinct statuses have distinct names, and no status is named "todos",
      the admin dashboard's wildcard. */
  lemma StatusNameInjective(s: Status, t: Status)
    ensures StatusName(s) == StatusName(t) <==> s == t
    ensures StatusName(s) != "todos"
  {
  }

  /** The `variant` of a toast: `"destructive"` for a rejection, the default
      one for a success. */
  datatype ToastVariant = Default | Destructive

  /** What a form's submit handler does, in order: show a toast, call the
      `onSave` prop with a record, call the `onClose` prop. */
  datatype FormEffect<T> = Toast(variant: ToastVariant) | OnSave(record: T) | OnClose

  /** Every element has exactly one of the four statuses, so the four
      per-status counts add up to the length of the list. */
  lemma {:induction false} StatusCountsPartition<T(!new)>(xs: seq<T>, status: T -> Status)
    ensures CountBy(xs, status, Pendente) + CountBy(xs, status, Entregue)
          + CountBy(xs, status, NaoEntregue) + CountBy(xs, status, Avariado) == |xs|
  {
    if xs != [] {
      CountByCons(xs, status, Pendente);
      CountByCons(xs, status, Entregue);
      CountByCons(xs, status, NaoEntregue);
      CountByCons(xs, status, Avariado);
      StatusCountsPartition(xs[1..], status);
      match status(xs[0])
      case Pendente =>
      case Entregue =>
      case NaoEntregue =>
      case Avariado =>
    }
  }
}
