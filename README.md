# Pizza-order API: events, users and request models

A model of the core of a small pizza-order API for a recurring monthly
event. Users register and log in; administrators open an event for one
calendar date, change its status or ordering deadline, read a summary of
its orders, and delete it when no order references it. Every request body
is checked by pydantic field constraints before a handler runs.

The model has four modules:

- `Common` (common.dfy): `Option` (also SQL `NULL` and Python `None`),
  `Result` and `Outcome`.
- `Models` (models.dfy): the request and response shapes of models.py. The
  `Field(...)` constraints are kept as data, read by one checker. Each
  validator states the concrete bounds it amounts to. The per-flavour
  statistics record comes with the identity its field comments promise.
- `Eventos` (eventos.dfy): the `eventos` table as a map from `id` to row.
  The read-only handlers are functions of the table. Listing is a scan of
  the identity values followed by an insertion sort on the date, newest
  first. The three handlers that INSERT, UPDATE or DELETE are methods of
  the class `EventStore`, which owns the table and its identity counter.
  The summary is modelled as the SQL is written: aggregates over the rows
  of `pedidos LEFT JOIN itens_pedido`, with `NULL` kept as `None` until the
  handler turns it into 0.
- `Auth` (auth.dfy): the `usuarios` table as the class `UserStore` with the
  `register` method. `login` and `get_me` are functions. Python's `str(int)`
  keeps a round-trip proof, which shows the token subject names exactly
  one user.

Password hashing, credential checking (`authenticate_user`) and token
signing (`create_access_token`) live in auth.py, which is not part of this
model. They enter as function parameters, so no property of them is
assumed. The database clock (`SYSTIMESTAMP`) and the default timestamps
the database fills in (`data_criacao`, `data_cadastro`) are parameters too.

Dates and timestamps are integers on their own time lines. Money is in
integer cents.

The summary's response field `total_pedidos` (models.py:119) names a count
of orders. The SQL behind it counts and sums the rows of a join that
repeats each order once per item. The model keeps the SQL as written and
adds a corrected summary beside it (see "## Findings").

## Model

| member | source | states |
|---|---|---|
| Models.ValidUsuarioCreate | models.py:6-12 | a registration is accepted iff the name has 3 to 200 characters, the sector 2 to 100, and the password at least 6 |
| Models.ValidSaborPizza | models.py:30-32 | a flavour is accepted iff its name has 3 to 100 characters and its price per slice is positive |
| Models.ValidSaborPizzaUpdate | models.py:37-40 | a partial flavour update is accepted iff each field given meets the creation bound; `ativo` is free; a full update is a valid flavour |
| Models.IsStatusEvento | models.py:58 | the anchored pattern accepts exactly ABERTO, FECHADO and FINALIZADO |
| Models.ValidEventoUpdate | models.py:57-59 | an event update is accepted iff its status is absent or one of the three event statuses; the deadline is free |
| Models.ValidItemPedido | models.py:67-69 | an item is accepted iff its quantity is between 1 and 8 slices |
| Models.ValidPedidoCreate | models.py:79-81 | an order is accepted iff it has at least one item and every item has 1 to 8 slices |
| Models.IsStatusPedido | models.py:96 | the anchored pattern accepts exactly PENDENTE, CONFIRMADO and PAGO |
| Models.ValidPedidoUpdate | models.py:95-96 | an order update is accepted iff its status is absent or one of the three order statuses |
| Models.Estatisticas | models.py:99-105 | per-flavour statistics built from a slice total: total = 8 × whole pizzas + leftover slices, with 0 ≤ leftover < 8 |
| Models.ConsistentDetermined | models.py:102-104 | whole pizzas and leftover slices are fixed by the slice total alone |
| Models.FlavourTotals | models.py:99-105 | over all flavours every slice is counted once as pizza or leftover; per-flavour whole pizzas never exceed total ÷ 8 and fall short of it by less than one pizza per flavour |
| Eventos.Varredura | routes_eventos.py:16-22 | the scan yields exactly the stored rows, each once, in ascending identity order |
| Eventos.Ordenar | routes_eventos.py:19 | `ORDER BY data_evento DESC`: the result is a permutation of the input, dates non-increasing, and distinct ids stay distinct |
| Eventos.ListarEventos | routes_eventos.py:16-33 | the listing holds every stored event and nothing else, no event twice, newest date first |
| Eventos.Abertos | routes_eventos.py:44 | the WHERE clause keeps exactly the ABERTO rows whose deadline is after now, preserving the date order |
| Eventos.ObterEventoAtivo | routes_eventos.py:41-63 | NotFound iff no stored event is ABERTO with a future deadline; otherwise a stored event that is, whose date is the latest among all such |
| Eventos.ActiveIsTheLatestOpen | routes_eventos.py:41-47 | with one event per date, the active event is exactly the open event with the latest date |
| Eventos.ObterEvento | routes_eventos.py:72-92 | succeeds iff the id is stored, returning that row; otherwise NotFound |
| Eventos.ContarPedidos | routes_eventos.py:273-276 | the order count of an event is positive iff some order references it |
| Eventos.EventStore.CriarEvento | routes_eventos.py:101-144 | DuplicateDate, table unchanged, iff the date already has an event; otherwise inserts one ABERTO row with the next identity, the request's date and deadline, leaving it the only event of that date |
| Eventos.Aplicar | routes_eventos.py:182-191 | the UPDATE gives each column named in the SET list its value and leaves every other column, id, date and creation time among them, unchanged; the handler names each column at most once |
| Eventos.EventStore.AtualizarEvento | routes_eventos.py:154-209 | NotFound for a missing id is checked before NoFields; both leave the table unchanged; otherwise exactly the given fields change and the table stays valid |
| Eventos.LinhasDoPedidoLinhas | routes_eventos.py:240 | the LEFT JOIN rows of one order: paired with each of its items, with NULL exactly when it has none, and as many rows as its items but at least one |
| Eventos.JuncaoLinhas | routes_eventos.py:239-241 | the joined rows hold only orders of the event; every item of such an order appears paired with it; an order without items appears once with NULL; NULL rows belong to orders without items |
| Eventos.SqlCountMeaning | routes_eventos.py:236 | `COUNT(col)` counts at most every row: all of them iff no value is NULL, none iff every value is |
| Eventos.SqlSumMeaning | routes_eventos.py:237-238 | `SUM(col)` is NULL iff every value is NULL; otherwise it is the sum with NULLs read as 0 |
| Eventos.SqlDistinctMeaning | routes_eventos.py:235 | `COUNT(DISTINCT col)` counts exactly the values some row holds |
| Eventos.JuncaoAggregates | routes_eventos.py:233-242 | over the join, COUNT, SUM and COUNT(DISTINCT) equal per-order reference totals: joined rows, value per joined row, slices of all items, users with an order |
| Eventos.OrZero | routes_eventos.py:245-248 | an aggregate that is NULL becomes 0 |
| Eventos.FloorDiv | routes_eventos.py:249 | `//` by a positive divisor is the floor quotient |
| Eventos.ObterResumoEvento | routes_eventos.py:218-263 | NotFound iff the event is missing; otherwise the summary carries the stored event and total pizzas are the joined slice total divided by 8, rounded down |
| Eventos.ResumoMeaning | routes_eventos.py:233-249 | participants are the distinct users with an order in the event; the order count and value sum range over the joined rows, one per item and one for an order without items; pizzas are all slices ÷ 8 |
| Eventos.ResumoWithoutOrders | routes_eventos.py:233-249 | an event without orders has an all-zero summary: every NULL aggregate becomes 0 |
| Eventos.RowsVersusOrders | routes_eventos.py:236-240 | the joined-row count is at least the order count, and equals it iff no order of the event has two or more items |
| Eventos.ResumosAgree | routes_eventos.py:236-237 | the order count as written agrees with the per-order count iff no order of the event has two or more items |
| Eventos.TwoItemOrderCountedTwice | routes_eventos.py:236-237 | one order with two items is reported as two orders with twice its value; the corrected summary reports one order and its value once |
| Eventos.ObterResumoEventoCorrigido | routes_eventos.py:218-263 | the corrected summary counts each order of the event once and sums value plus shipping once per order; participants and pizzas are as `Eventos.ObterResumoEvento` computes them |
| Eventos.UpdateKeepsValid | routes_eventos.py:182-191 | changing status or deadline to a known status keeps one event per date and every table invariant |
| Eventos.InsertKeepsValid | routes_eventos.py:112-126 | inserting an ABERTO event on a free date under the next identity keeps the table invariant with the counter advanced |
| Eventos.EventStore.DeletarEvento | routes_eventos.py:272-299 | HasOrders with the count whenever an order references the id, even a missing one; then NotFound; otherwise removes exactly that row; a failure leaves the table unchanged |
| Auth.FlagColumn | routes_auth.py:48 | the stored admin flag is 0 or 1, and `bool` of it gives back the requested flag |
| Auth.IntToStr | routes_auth.py:87 | `str(n)`: digits only for n ≥ 0, a minus sign then digits for n < 0, and no leading zero |
| Auth.NatToStrRoundTrip | routes_auth.py:87 | reading the decimal digits of a natural number gives the number back |
| Auth.IntToStrRoundTrip | routes_auth.py:87 | `int(str(n)) == n` for every integer, sign included |
| Auth.IntToStrInjective | routes_auth.py:87 | two ids with the same decimal string are equal: the token subject names one user |
| Auth.Resposta | routes_auth.py:63-70 | the register response copies id, name, sector and registration time from the stored row and reads each flag back with `bool` (non-zero is true) |
| Auth.UserStore.Register | routes_auth.py:17-70 | DuplicateName, table unchanged, iff the name is taken; otherwise inserts one row storing hash(senha), the admin flag as 1/0 and the next identity; the response carries the request's name, sector and admin flag and `ativo` true |
| Auth.Login | routes_auth.py:72-101 | Unauthorized iff the credentials match no user; otherwise a "bearer" token made from the subject `str(id)`, which reads back as the user's id, and the user's six fields |
| Auth.GetMe | routes_auth.py:103-113 | the response is the current user's six fields, unchanged |

## Left out

- HTTP status codes, detail messages and the `WWW-Authenticate` header: each error is one constructor of `EventoError` or `AuthError`.
- The route dependencies `get_current_user` and `get_current_admin_user`, and token validation: auth.py is not part of this model. Handlers are modelled as if the caller had passed them.
- auth.py's `get_password_hash`, `authenticate_user` and `create_access_token` are function parameters, because their code is not part of this model.
- Auth.UserStore.Register: proves that the stored credential is `hash(senha)`. That it differs from the raw password is a property of the hash function, which is a parameter here.
- Auth.Login: the token's expiry enters as the configured minutes passed to the token function. Signing, expiry checks and the clock are not modelled.
- Auth.UserStore.Register: the `ativo` column is taken as 1 on insert. The schema that sets this default is not part of this model.
- Identity values are a counter (`nextId`) handed out in order, and `data_criacao`/`data_cadastro` are the `now` passed in. The database schema that provides these is not part of this model.
- Eventos.ListarEventos: takes the identity counter so the scan can be bounded, and requires that every stored id lies below it.
- Eventos.ObterEventoAtivo: rows with equal dates are not ordered by the database. The model returns one row of the latest date. With one event per date, the table invariant kept by `EventStore`, that row is unique (`Eventos.ActiveIsTheLatestOpen`).
- Money is integer cents; the floats of the source and their rounding are not modelled.
- The `nome` field of `EventoCreate`/`EventoResponse` is accepted but never stored by the handlers, so rows carry no name.
- Each handler is modelled as one atomic step. The race between the existence check and the INSERT in `criar_evento` and `register` is not modelled. Neither are connection handling and commits.
- Eventos.EventStore.AtualizarEvento: requires the request to have passed pydantic validation. The handler never runs otherwise.
- The orders, flavours and dashboard routes, and main.py's application wiring, are not part of this model. Their request models are modelled in `Models`. The order relation is a read-only input of `EventStore`.

## Findings

| source | as written | input that shows it | evidently intended | confidence | as-written member | corrected member |
|---|---|---|---|---|---|---|
| routes_eventos.py:236-240 | `COUNT(p.id)` and `SUM(p.valor_total + p.valor_frete)` run over the LEFT JOIN of orders with their items, so an order counts once per item | event 1 with one order (total 4000, shipping 500) holding two items: the summary reports 2 orders and a value of 9000 | one count per order, as the response field name `total_pedidos` (models.py:119) says, and its value plus shipping once: 1 order, 4500 | not executed | Eventos.TwoItemOrderCountedTwice | Eventos.ObterResumoEventoCorrigido |
