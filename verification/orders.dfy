/** The order record, the service's errors, and the store of orders. */
module Orders {
  import opened Wrappers
  import opened OrderStatus

  /** A `Pedido`. `number` is unset (`None`) until `create` stamps it; `waiter`
      is the camarero's id and `establishment` the establecimiento's code. The
      remaining fields are payload this service carries but never inspects. */
  datatype Order = Order(
    number: Option<int>,
    status: Status,
    waiter: int,
    establishment: int,
    customer: string,
    date: int,
    lineCount: int)

  /** The four kinds of failure the service raises, one constructor per
      distinct exception it throws. */
  datatype Error =
    | AlreadyNumbered
    | NoWaiter(waiter: int)
    | NoEstablishment(establishment: int)
    | NotFound(number: int)
    | BadTransition(target: Status, current: Status)

  /** The waiters and establishments the two existence checks consult. */
  datatype Registry = Registry(waiters: set<int>, establishments: set<int>)

  /** The order repository: orders keyed by their number. */
  type Store = map<int, Order>

  /** Every stored order carries the number it is stored under. */
  predicate WellFormed(store: Store) {
    forall k :: k in store ==> store[k].number == Some(k)
  }

  /** `after` is `before` with the order under `n` moved to `status`: same keys,
      every other order identical, and no other field of that order touched. */
  predicate ChangesOnlyStatus(before: Store, after: Store, n: int, status: Status) {
    && after.Keys == before.Keys
    && n in before
    && after[n].status == status
    && after[n].(status := before[n].status) == before[n]
    && forall k :: k in before && k != n ==> after[k] == before[k]
  }
}
