/** The order lifecycle service: creation, lookups and the four guarded
    transitions. Every call is atomic; a `Failure` leaves the store as it was. */
module OrderService {
  import opened Wrappers
  import opened OrderStatus
  import opened Orders

  /** What a successful `create` produces: the new store, the number it returns,
      and the caller's order as the call leaves it (numbered, status NUEVO). */
  datatype Created = Created(store: Store, number: int, order: Order)

  /** `create`: refuse an order that already has a number, then one whose waiter
      does not exist, then one whose establishment does not exist; otherwise
      stamp the clock value as its number, force status NUEVO and save it. */
  function Create(store: Store, registry: Registry, order: Order, clock: int): (r: Result<Created, Error>)
    ensures order.number.Some? ==> r == Failure(AlreadyNumbered)
    ensures order.number.None? && order.waiter !in registry.waiters ==>
              r == Failure(NoWaiter(order.waiter))
    ensures order.number.None? && order.waiter in registry.waiters &&
            order.establishment !in registry.establishments ==>
              r == Failure(NoEstablishment(order.establishment))
    ensures r.Success? <==> order.number.None? && order.waiter in registry.waiters
                            && order.establishment in registry.establishments
    ensures r.Success? ==> r.value.number == clock
    ensures r.Success? ==> r.value.order.number == Some(clock) && r.value.order.status == Nuevo
    ensures r.Success? ==> r.value.order.(number := order.number, status := order.status) == order
    ensures r.Success? ==> r.value.store.Keys == store.Keys + {clock}
                           && r.value.store[clock] == r.value.order
    ensures r.Success? ==> forall k :: k in store && k != clock ==> r.value.store[k] == store[k]
    ensures r.Success? && WellFormed(store) ==> WellFormed(r.value.store)
  {
    if order.number.Some? then
      Failure(AlreadyNumbered)
    else
      // Both existence checks are made before either is acted on.
      var waiterExists := order.waiter in registry.waiters;
      var establishmentExists := order.establishment in registry.establishments;
      if !waiterExists then
        Failure(NoWaiter(order.waiter))
      else if !establishmentExists then
        Failure(NoEstablishment(order.establishment))
      else
        var stamped := order.(number := Some(clock), status := Nuevo);
        Success(Created(store[clock := stamped], clock, stamped))
  }

  /** `read`: a missing number is an empty result, not an error. */
  function Read(store: Store, n: int): (r: Option<Order>)
    ensures r.None? <==> n !in store
    ensures r.Some? ==> r.value == store[n]
  {
    if n in store then Some(store[n]) else None
  }

  /** True when `numbers` lists every key of `store` exactly once. */
  ghost predicate Enumerates(store: Store, numbers: seq<int>) {
    && (forall i, j :: 0 <= i < j < |numbers| ==> numbers[i] != numbers[j])
    && (forall i :: 0 <= i < |numbers| ==> numbers[i] in store)
    && (forall k :: k in store ==> k in numbers)
  }

  /** `getAll`: every stored order, once each, in the store's iteration order
      (`numbers` records that order). */
  method GetAll(store: Store) returns (orders: seq<Order>, ghost numbers: seq<int>)
    ensures Enumerates(store, numbers)
    ensures |orders| == |numbers| == |store|
    ensures forall i :: 0 <= i < |orders| ==> orders[i] == store[numbers[i]]
    ensures forall k :: k in store ==> store[k] in orders
  {
    var rest := store.Keys;
    orders, numbers := [], [];
    while rest != {}
      invariant rest <= store.Keys
      invariant forall i, j :: 0 <= i < j < |numbers| ==> numbers[i] != numbers[j]
      invariant forall i :: 0 <= i < |numbers| ==> numbers[i] in store && numbers[i] !in rest
      invariant forall k :: k in store ==> k in rest || k in numbers
      invariant |numbers| + |rest| == |store.Keys|
      invariant |orders| == |numbers|
      invariant forall i :: 0 <= i < |orders| ==> orders[i] == store[numbers[i]]
      decreases rest
    {
      assert exists k :: k in rest by {
        if forall k :: k !in rest {
          assert false;
        }
      }
      var k :| k in rest;
      orders, numbers := orders + [store[k]], numbers + [k];
      rest := rest - {k};
    }
    forall k | k in store
      ensures store[k] in orders
    {
      var i :| 0 <= i < |numbers| && numbers[i] == k;
      assert orders[i] == store[k];
    }
  }

  /** `getPedidoPL`: the stored order, or the not-found error. */
  function GetPedido(store: Store, n: int): (r: Result<Order, Error>)
    ensures r.Success? <==> n in store
    ensures r.Success? ==> r.value == store[n]
    ensures r.Failure? ==> r.error == NotFound(n)
  {
    if n in store then Success(store[n]) else Failure(NotFound(n))
  }

  /** The shape all four transitions share: look the order up, check its status
      against the guard, and write the target status. */
  function Transition(store: Store, n: int, op: Op): (r: Result<Store, Error>)
    ensures n !in store ==> r == Failure(NotFound(n))
    ensures n in store ==> (r.Success? <==> (store[n].status, Target(op)) in Edges)
    ensures n in store && r.Failure? ==> r == Failure(BadTransition(Target(op), store[n].status))
    ensures r.Success? ==> ChangesOnlyStatus(store, r.value, n, Target(op))
    ensures r.Success? ==> AtOrAfter(store[n].status, r.value[n].status) && !IsFinal(store[n].status)
    ensures r.Success? && WellFormed(store) ==> WellFormed(r.value)
  {
    var current :- GetPedido(store, n);
    match Step(op, current.status)
    case None => Failure(BadTransition(Target(op), current.status))
    case Some(next) => Success(store[n := current.(status := next)])
  }

  /** `procesar`: NUEVO to EN_PROCESO. */
  function Procesar(store: Store, n: int): (r: Result<Store, Error>)
    ensures r.Success? <==> n in store && store[n].status == Nuevo
    ensures r.Success? ==> ChangesOnlyStatus(store, r.value, n, EnProceso)
    ensures n !in store ==> r == Failure(NotFound(n))
    ensures n in store && store[n].status != Nuevo ==>
              r == Failure(BadTransition(EnProceso, store[n].status))
  {
    Transition(store, n, Process)
  }

  /** `entregar`: EN_PROCESO to PENDIENTE_ENTREGA. */
  function Entregar(store: Store, n: int): (r: Result<Store, Error>)
    ensures r.Success? <==> n in store && store[n].status == EnProceso
    ensures r.Success? ==> ChangesOnlyStatus(store, r.value, n, PendienteEntrega)
    ensures n !in store ==> r == Failure(NotFound(n))
    ensures n in store && store[n].status != EnProceso ==>
              r == Failure(BadTransition(PendienteEntrega, store[n].status))
  {
    Transition(store, n, Deliver)
  }

  /** `servir`: PENDIENTE_ENTREGA to SERVIDO. */
  function Servir(store: Store, n: int): (r: Result<Store, Error>)
    ensures r.Success? <==> n in store && store[n].status == PendienteEntrega
    ensures r.Success? ==> ChangesOnlyStatus(store, r.value, n, Servido)
    ensures n !in store ==> r == Failure(NotFound(n))
    ensures n in store && store[n].status != PendienteEntrega ==>
              r == Failure(BadTransition(Servido, store[n].status))
  {
    Transition(store, n, Serve)
  }

  /** `cancelar`: any status but CANCELADO or SERVIDO to CANCELADO. */
  function Cancelar(store: Store, n: int): (r: Result<Store, Error>)
    ensures r.Success? <==> n in store && store[n].status != Cancelado && store[n].status != Servido
    ensures r.Success? ==> ChangesOnlyStatus(store, r.value, n, Cancelado)
    ensures n !in store ==> r == Failure(NotFound(n))
    ensures n in store && IsFinal(store[n].status) ==>
              r == Failure(BadTransition(Cancelado, store[n].status))
  {
    Transition(store, n, Cancel)
  }
}
