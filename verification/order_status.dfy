/** The order status enumeration and the transition graph over it. */
module OrderStatus {
  import opened Wrappers

  /** `EstadoPedido` and its persistence twin `EstadoPedidoPL`, collapsed into
      one type: the five values either enumeration may hold. */
  datatype Status = Nuevo | EnProceso | PendienteEntrega | Servido | Cancelado

  /** The four guarded transitions: `procesar`, `entregar`, `servir`, `cancelar`. */
  datatype Op = Process | Deliver | Serve | Cancel

  /** The status each transition writes. The repository update methods are not
      part of this model; the target is the one the guard's error message names. */
  function Target(op: Op): Status {
    match op
    case Process => EnProceso
    case Deliver => PendienteEntrega
    case Serve => Servido
    case Cancel => Cancelado
  }

  /** The guard each transition evaluates on the current status before writing. */
  predicate Permits(op: Op, current: Status) {
    match op
    case Process => current == Nuevo
    case Deliver => current == EnProceso
    case Serve => current == PendienteEntrega
    case Cancel => !(current == Cancelado || current == Servido)
  }

  /** The state machine drawn as an explicit set of edges, independent of the
      guards: the forward path, plus a cancel edge from every non-final status. */
  const Edges: set<(Status, Status)> :=
    { (Nuevo, EnProceso), (EnProceso, PendienteEntrega), (PendienteEntrega, Servido),
      (Nuevo, Cancelado), (EnProceso, Cancelado), (PendienteEntrega, Cancelado) }

  /** A status no transition leaves. */
  predicate IsFinal(s: Status) {
    s == Servido || s == Cancelado
  }

  /** Position along the forward path NUEVO < EN_PROCESO < PENDIENTE_ENTREGA < SERVIDO;
      CANCELADO is off that path. */
  function Rank(s: Status): nat
    requires s != Cancelado
  {
    match s
    case Nuevo => 0
    case EnProceso => 1
    case PendienteEntrega => 2
    case Servido => 3
  }

  /** `later` is `earlier`, or lies further along the forward path, or is CANCELADO
      reached from a status that was not yet cancelled. */
  predicate AtOrAfter(earlier: Status, later: Status) {
    || earlier == later
    || (earlier != Cancelado && later == Cancelado)
    || (earlier != Cancelado && later != Cancelado && Rank(earlier) <= Rank(later))
  }

  /** One guarded step: the new status if the guard admits `op` from `current`,
      nothing otherwise. */
  function Step(op: Op, current: Status): (next: Option<Status>)
    ensures next.Some? <==> (current, Target(op)) in Edges
    ensures next.Some? ==> next.value == Target(op)
    ensures next.Some? ==> current != next.value && AtOrAfter(current, next.value)
    ensures IsFinal(current) ==> next.None?
  {
    if Permits(op, current) then Some(Target(op)) else None
  }

  lemma AtOrAfterReflexive(s: Status)
    ensures AtOrAfter(s, s)
  {
  }

  lemma AtOrAfterTransitive(a: Status, b: Status, c: Status)
    requires AtOrAfter(a, b) && AtOrAfter(b, c)
    ensures AtOrAfter(a, c)
  {
  }

  /** The text `EstadoPedidoPL.toString()` yields: the constant's name. */
  function Label(s: Status): string {
    match s
    case Nuevo => "NUEVO"
    case EnProceso => "EN_PROCESO"
    case PendienteEntrega => "PENDIENTE_ENTREGA"
    case Servido => "SERVIDO"
    case Cancelado => "CANCELADO"
  }

  /** The inverse of `Label`: the status a label names, if any. */
  function ParseLabel(l: string): Option<Status> {
    if l == "NUEVO" then Some(Nuevo)
    else if l == "EN_PROCESO" then Some(EnProceso)
    else if l == "PENDIENTE_ENTREGA" then Some(PendienteEntrega)
    else if l == "SERVIDO" then Some(Servido)
    else if l == "CANCELADO" then Some(Cancelado)
    else None
  }

  /** A label always reads back as the status it renders. */
  lemma LabelRoundTrip(s: Status)
    ensures ParseLabel(Label(s)) == Some(s)
  {
  }

  /** Every string that parses is the label of the status it parses to. */
  lemma ParseLabelSound(l: string)
    ensures ParseLabel(l).Some? ==> Label(ParseLabel(l).value) == l
  {
  }
}
