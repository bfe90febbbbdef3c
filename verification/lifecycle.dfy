/** Properties of the service across several calls: runs of transitions,
    the forward path, and the effect of `create` on what is already stored. */
module Lifecycle {
  import opened Wrappers
  import opened OrderStatus
  import opened Orders
  import opened OrderService

  /** One transition call: which transition, on which order number. */
  datatype Call = Call(number: int, op: Op)

  /** The store after one call: the call's new store if it succeeds, the
      unchanged store if it fails. */
  function Apply(store: Store, call: Call): (after: Store)
    ensures after.Keys == store.Keys
    ensures forall k :: k in store ==> after[k].(status := store[k].status) == store[k]
    ensures forall k :: k in store ==> AtOrAfter(store[k].status, after[k].status)
    ensures forall k :: k in store && IsFinal(store[k].status) ==> after[k] == store[k]
    ensures forall k :: k in store && k != call.number ==> after[k] == store[k]
    ensures WellFormed(store) ==> WellFormed(after)
  {
    match Transition(store, call.number, call.op)
    case Success(next) => next
    case Failure(_) => store
  }

  /** The store after a sequence of calls, each applied to the result of the last. */
  function Run(store: Store, calls: seq<Call>): Store
    decreases |calls|
  {
    if calls == [] then store else Run(Apply(store, calls[0]), calls[1..])
  }

  /** No run of transitions adds or removes an order, or touches anything but
      statuses. */
  lemma {:induction false} RunKeepsOrders(store: Store, calls: seq<Call>)
    ensures Run(store, calls).Keys == store.Keys
    ensures forall k :: k in store ==> Run(store, calls)[k].(status := store[k].status) == store[k]
    decreases |calls|
  {
    if calls != [] {
      var next := Apply(store, calls[0]);
      RunKeepsOrders(next, calls[1..]);
      forall k | k in store
        ensures Run(store, calls)[k].(status := store[k].status) == store[k]
      {
        assert Run(store, calls)[k].(status := next[k].status) == next[k];
      }
    }
  }

  /** Along any run an order's status only moves forward along
      NUEVO < EN_PROCESO < PENDIENTE_ENTREGA < SERVIDO, or into CANCELADO. */
  lemma {:induction false} RunNeverRegresses(store: Store, calls: seq<Call>, n: int)
    requires n in store
    ensures n in Run(store, calls)
    ensures AtOrAfter(store[n].status, Run(store, calls)[n].status)
    decreases |calls|
  {
    if calls == [] {
      AtOrAfterReflexive(store[n].status);
    } else {
      var next := Apply(store, calls[0]);
      RunNeverRegresses(next, calls[1..], n);
      AtOrAfterTransitive(store[n].status, next[n].status, Run(next, calls[1..])[n].status);
    }
  }

  /** An order that is SERVIDO or CANCELADO stays exactly as it is, whatever
      transitions follow. */
  lemma {:induction false} RunKeepsFinal(store: Store, calls: seq<Call>, n: int)
    requires n in store && IsFinal(store[n].status)
    ensures n in Run(store, calls) && Run(store, calls)[n] == store[n]
    decreases |calls|
  {
    if calls != [] {
      RunKeepsFinal(Apply(store, calls[0]), calls[1..], n);
    }
  }

  /** An order that no call of the run addresses is left exactly as it is. */
  lemma {:induction false} RunKeepsUnaddressed(store: Store, calls: seq<Call>, n: int)
    requires n in store
    requires forall i :: 0 <= i < |calls| ==> calls[i].number != n
    ensures n in Run(store, calls) && Run(store, calls)[n] == store[n]
    decreases |calls|
  {
    if calls != [] {
      RunKeepsUnaddressed(Apply(store, calls[0]), calls[1..], n);
    }
  }

  /** Every order keeps the number it is stored under, whatever transitions run. */
  lemma {:induction false} RunKeepsWellFormed(store: Store, calls: seq<Call>)
    requires WellFormed(store)
    ensures WellFormed(Run(store, calls))
    decreases |calls|
  {
    if calls != [] {
      RunKeepsWellFormed(Apply(store, calls[0]), calls[1..]);
    }
  }

  /** The forward path: a freshly created order can be processed, handed to
      delivery and served, in that order, and once served every transition on
      it fails naming SERVIDO as its current status. */
  lemma ForwardPath(store: Store, registry: Registry, order: Order, clock: int)
    requires order.number.None?
    requires order.waiter in registry.waiters && order.establishment in registry.establishments
    ensures Create(store, registry, order, clock).Success?
    ensures var s0 := Create(store, registry, order, clock).value.store;
            Read(s0, clock).Some? && Read(s0, clock).value.status == Nuevo &&
            Procesar(s0, clock).Success? &&
            var s1 := Procesar(s0, clock).value;
            s1[clock].status == EnProceso &&
            Entregar(s1, clock).Success? &&
            var s2 := Entregar(s1, clock).value;
            s2[clock].status == PendienteEntrega &&
            Servir(s2, clock).Success? &&
            var s3 := Servir(s2, clock).value;
            s3[clock].status == Servido &&
            Procesar(s3, clock) == Failure(BadTransition(EnProceso, Servido)) &&
            Entregar(s3, clock) == Failure(BadTransition(PendienteEntrega, Servido)) &&
            Servir(s3, clock) == Failure(BadTransition(Servido, Servido)) &&
            Cancelar(s3, clock) == Failure(BadTransition(Cancelado, Servido))
  {
  }

  /** Create, process, cancel: the order ends CANCELADO, and a further
      `procesar` fails naming CANCELADO as the current status; so does a
      second `cancelar`. */
  lemma CancelAfterProcess(store: Store, registry: Registry, order: Order, clock: int)
    requires order.number.None?
    requires order.waiter in registry.waiters && order.establishment in registry.establishments
    ensures Create(store, registry, order, clock).Success?
    ensures var s0 := Create(store, registry, order, clock).value.store;
            Procesar(s0, clock).Success? &&
            var s1 := Procesar(s0, clock).value;
            Read(s1, clock).Some? && Read(s1, clock).value.status == EnProceso &&
            Cancelar(s1, clock).Success? &&
            var s2 := Cancelar(s1, clock).value;
            Read(s2, clock).Some? && Read(s2, clock).value.status == Cancelado &&
            Procesar(s2, clock) == Failure(BadTransition(EnProceso, Cancelado)) &&
            Cancelar(s2, clock) == Failure(BadTransition(Cancelado, Cancelado))
  {
  }

  /** `create` stamps the caller's order, so handing the same order to
      `create` again fails with the already-numbered error. */
  lemma CreateTwiceFails(store: Store, registry: Registry, order: Order, clock: int, clock': int)
    requires Create(store, registry, order, clock).Success?
    ensures var c := Create(store, registry, order, clock).value;
            Create(c.store, registry, c.order, clock') == Failure(AlreadyNumbered)
  {
  }

  /** After a successful `create`, `read` of the returned number yields the
      stamped order. */
  lemma ReadAfterCreate(store: Store, registry: Registry, order: Order, clock: int)
    requires Create(store, registry, order, clock).Success?
    ensures var c := Create(store, registry, order, clock).value;
            Read(c.store, c.number) == Some(c.order)
  {
  }

  /** `create` does not check that the clock value is a fresh number: when it
      collides with a stored order, that order is replaced, so even a SERVIDO
      or CANCELADO order comes back as NUEVO and the store does not grow. */
  lemma CreateOverwritesOnCollision(store: Store, registry: Registry, order: Order, clock: int)
    requires clock in store
    requires Create(store, registry, order, clock).Success?
    ensures var c := Create(store, registry, order, clock).value;
            c.store[clock].status == Nuevo && |c.store| == |store|
  {
  }

  /** With a clock value no stored order has, `create` adds exactly one order. */
  lemma CreateFreshAddsOne(store: Store, registry: Registry, order: Order, clock: int)
    requires clock !in store
    requires Create(store, registry, order, clock).Success?
    ensures var c := Create(store, registry, order, clock).value;
            |c.store| == |store| + 1 && forall k :: k in store ==> c.store[k] == store[k]
  {
  }
}
