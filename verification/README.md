# Order lifecycle service — a Dafny model

This project models the order lifecycle service of the Pollos Felices backend
(`PedidoServicesImpl`). A restaurant order (*pedido*) is created by a waiter
(*camarero*) for an establishment (*establecimiento*). It is then driven
through a fixed sequence of statuses: NUEVO, EN_PROCESO, PENDIENTE_ENTREGA,
SERVIDO. From any status that is not final it may instead be moved to CANCELADO.

The model is functional. The order repository is a `map<int, Order>` keyed by
order number. `Create` and the four transitions are pure functions from the
store to a `Result`: either the new store (and, for `Create`, the new number)
or the error the Java method throws. A `Failure` carries no store, so the
store after a failed call is the store before it. The lookups `Read` and
`GetAll` change nothing and return their values directly, and the summary
listing maps the rows of the summary query, not the store.

Files:

- `wrappers.dfy`: `Option` (for `Optional`) and `Result` (for return-or-throw).
- `order_status.dfy`: the status enumeration, with `EstadoPedido` and `EstadoPedidoPL` collapsed into one type. It also holds the four transitions, their guards and targets, the transition graph as an explicit set of edges, the rank along the forward path, and the status labels.
- `orders.dfy`: the `Order` record, the error kinds, the registry of waiters and establishments, and the store with its well-formedness invariant.
- `order_service.dfy`: `create`, `read`, `getAll`, the private `getPedidoPL`, and the transitions `procesar`, `entregar`, `servir` and `cancelar`.
- `order_summary.dfy`: `getAllPedido1DTO`, the summary listing.
- `lifecycle.dfy`: properties across several calls. These cover runs of transitions, the forward path, the cancel scenario, and how `create` interacts with stored orders.

Collaborators become inputs:

- The two `existsById` checks become membership in a `Registry` of waiter ids and establishment codes.
- `System.currentTimeMillis()` becomes the `clock` parameter of `Create`.
- Each repository status update becomes "set this key's status".

The repository's `procesar`, `entregar`, `servir` and `cancelar` update methods are not part of this model. The status each one writes is taken from the error message of the guard in front of it: EN_PROCESO, PENDIENTE_ENTREGA, SERVIDO and CANCELADO respectively (`Target` in `order_status.dfy`).

The Java `create` mutates the order it is given: it sets the number and the status. The model returns that mutated order as `Created.order`, beside the new store and the returned number.

## Model

| member | source | states |
|---|---|---|
| OrderStatus.Step | src/main/java/com/sinensia/pollosfelices/backend/business/services/impl/PedidoServicesImpl.java:85-145 | A transition is admitted from a status exactly when the edge from that status to the transition's target is in the state graph. An admitted step writes that target and moves forward or into CANCELADO. No transition leaves SERVIDO or CANCELADO. |
| OrderStatus.LabelRoundTrip | src/main/java/com/sinensia/pollosfelices/backend/business/services/impl/PedidoServicesImpl.java:161 | The label a status renders to parses back to that status. |
| OrderStatus.ParseLabelSound | src/main/java/com/sinensia/pollosfelices/backend/business/services/impl/PedidoServicesImpl.java:161 | Any string that parses to a status is exactly that status's label. |
| OrderService.Create | src/main/java/com/sinensia/pollosfelices/backend/business/services/impl/PedidoServicesImpl.java:39-66 | An already-numbered order fails with AlreadyNumbered whatever the waiter and establishment. A missing waiter fails with NoWaiter even when the establishment is missing too. NoEstablishment arises only when the waiter exists. Success happens exactly when none of these apply. It returns the clock value and stores under it the input order with that number and status NUEVO, all other fields unchanged. It sets that one key (replacing any order already stored under it), leaves every other key untouched, and keeps the store well formed. |
| OrderService.Read | src/main/java/com/sinensia/pollosfelices/backend/business/services/impl/PedidoServicesImpl.java:69-72 | The result is empty exactly when the number is not stored; otherwise it is the stored order. |
| OrderService.GetAll | src/main/java/com/sinensia/pollosfelices/backend/business/services/impl/PedidoServicesImpl.java:75-81 | The list holds one entry per stored order, each stored order appears in it, and the entries follow an enumeration of the keys with no repeats. |
| OrderService.GetPedido | src/main/java/com/sinensia/pollosfelices/backend/business/services/impl/PedidoServicesImpl.java:174-183 | The lookup succeeds exactly when the number is stored and yields that order; otherwise it fails with NotFound naming the number. |
| OrderService.Transition | src/main/java/com/sinensia/pollosfelices/backend/business/services/impl/PedidoServicesImpl.java:85-145 | An unknown number fails with NotFound. A known one succeeds exactly when its status has an edge to the target in the state graph, and fails otherwise with BadTransition naming the target and the current status. Success changes only that order's status, never regresses it, never starts from a final status, and keeps the store well formed. |
| OrderService.Procesar | src/main/java/com/sinensia/pollosfelices/backend/business/services/impl/PedidoServicesImpl.java:85-97 | Succeeds exactly from NUEVO and then changes only that order's status, to EN_PROCESO. An unknown number fails with NotFound. Any other status, EN_PROCESO included, fails with BadTransition(EN_PROCESO, current). |
| OrderService.Entregar | src/main/java/com/sinensia/pollosfelices/backend/business/services/impl/PedidoServicesImpl.java:101-113 | Succeeds exactly from EN_PROCESO and then changes only that order's status, to PENDIENTE_ENTREGA. An unknown number fails with NotFound. Any other status fails with BadTransition(PENDIENTE_ENTREGA, current). |
| OrderService.Servir | src/main/java/com/sinensia/pollosfelices/backend/business/services/impl/PedidoServicesImpl.java:117-129 | Succeeds exactly from PENDIENTE_ENTREGA and then changes only that order's status, to SERVIDO. An unknown number fails with NotFound. Any other status fails with BadTransition(SERVIDO, current). |
| OrderService.Cancelar | src/main/java/com/sinensia/pollosfelices/backend/business/services/impl/PedidoServicesImpl.java:133-145 | Succeeds exactly when the status is neither CANCELADO nor SERVIDO, and then changes only that order's status, to CANCELADO. An unknown number fails with NotFound. A double cancel, or cancelling a served order, fails with BadTransition(CANCELADO, current). |
| OrderSummary.Summarize | src/main/java/com/sinensia/pollosfelices/backend/business/services/impl/PedidoServicesImpl.java:151-163 | A summary copies all six plain fields of its row and renders the status as its label, so the row can be read back from the summary unchanged. |
| OrderSummary.SummarizeAll | src/main/java/com/sinensia/pollosfelices/backend/business/services/impl/PedidoServicesImpl.java:148-166 | The listing has as many entries as the query has rows. Entry i reads back to row i. |
| Lifecycle.Apply | src/main/java/com/sinensia/pollosfelices/backend/business/services/impl/PedidoServicesImpl.java:85-145 | A single transition call, successful or not, keeps the set of numbers and every non-status field, and leaves every order other than the addressed one exactly as it was. It never moves a status backwards, leaves SERVIDO and CANCELADO orders as they are, and keeps the store well formed. |
| Lifecycle.RunKeepsOrders | src/main/java/com/sinensia/pollosfelices/backend/business/services/impl/PedidoServicesImpl.java:85-145 | Any sequence of transitions keeps the same set of order numbers and changes nothing but statuses. |
| Lifecycle.RunNeverRegresses | src/main/java/com/sinensia/pollosfelices/backend/business/services/impl/PedidoServicesImpl.java:85-145 | Over any sequence of transitions, an order's rank along NUEVO < EN_PROCESO < PENDIENTE_ENTREGA < SERVIDO never decreases, except by moving to CANCELADO. |
| Lifecycle.RunKeepsFinal | src/main/java/com/sinensia/pollosfelices/backend/business/services/impl/PedidoServicesImpl.java:85-145 | An order that is SERVIDO or CANCELADO is left exactly as it is by any sequence of transitions. |
| Lifecycle.RunKeepsUnaddressed | src/main/java/com/sinensia/pollosfelices/backend/business/services/impl/PedidoServicesImpl.java:85-145 | An order whose number no call of a run addresses is left exactly as it is, since every guard and update is keyed by the number it is given. |
| Lifecycle.RunKeepsWellFormed | src/main/java/com/sinensia/pollosfelices/backend/business/services/impl/PedidoServicesImpl.java:85-145 | Any sequence of transitions keeps every order stored under its own number. |
| Lifecycle.ForwardPath | src/main/java/com/sinensia/pollosfelices/backend/business/services/impl/PedidoServicesImpl.java:39-145 | A freshly created order reads back as NUEVO, then moves through procesar, entregar and servir in turn to SERVIDO. After that, each of the four transitions fails naming SERVIDO as the current status. |
| Lifecycle.CancelAfterProcess | src/main/java/com/sinensia/pollosfelices/backend/business/services/impl/PedidoServicesImpl.java:39-145 | Create, procesar and cancelar leave the order reading back as CANCELADO. A further procesar then fails naming CANCELADO as current, and so does a second cancelar. |
| Lifecycle.CreateTwiceFails | src/main/java/com/sinensia/pollosfelices/backend/business/services/impl/PedidoServicesImpl.java:41-59 | After a successful create the caller's order carries a number, so passing it to create again fails with AlreadyNumbered. |
| Lifecycle.ReadAfterCreate | src/main/java/com/sinensia/pollosfelices/backend/business/services/impl/PedidoServicesImpl.java:56-72 | Reading the number create returned yields exactly the stamped order. |
| Lifecycle.CreateOverwritesOnCollision | src/main/java/com/sinensia/pollosfelices/backend/business/services/impl/PedidoServicesImpl.java:56-63 | No collision check is made. A clock value that is already an order number replaces that order with a NUEVO one, whatever its status was, and the store does not grow. |
| Lifecycle.CreateFreshAddsOne | src/main/java/com/sinensia/pollosfelices/backend/business/services/impl/PedidoServicesImpl.java:56-63 | A clock value that is not yet a number adds exactly one order and leaves all stored orders unchanged. |

## Left out

- Spring wiring and `@Transactional`: each call is modelled as atomic. Isolation between concurrent calls belongs to the container.
- `DozerBeanMapper` conversions between `Pedido` and `PedidoPL` are treated as the identity, because the mapper is a foreign reflective library.
- `System.currentTimeMillis()` is the `clock` parameter. Uniqueness of order numbers is not modelled because the source does not check it; `Lifecycle.CreateOverwritesOnCollision` shows the consequence.
- Repository internals are not modelled because their bodies are not available: `existsById`, `findById`, `findAll`, `save`, the update queries and `findPedido1DTO`.
- The status each repository update writes is assumed to be the target named by its guard's error message, since the update queries are not part of this model.
- Null handling is not modelled: a null number passed to `read` or to a transition, a null waiter or establishment in `create`, a null status or null cells in a summary row. Java would raise a `NullPointerException` or a repository exception there; the model's integers and statuses are never null.
- The `Object[]` casts in `getAllPedido1DTO` are not modelled: `Row` is already typed, so no `ClassCastException` can arise.
- `EstadoPedidoPL.toString()` is not part of this model. `Label` assumes it yields the constant's name.
- Order fields other than number, status, waiter and establishment (`customer`, `date`, `lineCount`) stand in for the payload the service carries without inspecting. The `Pedido` class is not part of this model.
- `OrderService.GetAll`: the order of the list is stated only as some enumeration of the keys, because the repository's iteration order is not visible.
- Exception messages are replaced by distinct error constructors: `AlreadyNumbered`, `NoWaiter`, `NoEstablishment`, `NotFound` and `BadTransition(target, current)`.
- 64-bit `Long` order numbers are unbounded integers; a clock value cannot overflow in practice.
