/** The request and response shapes of the API and the field constraints
    pydantic enforces on them before any handler runs.  Each constraint is
    kept as data (the arguments of `Field(...)`), interpreted by one generic
    checker, and every validator states the concrete bounds it amounts to. */
module Models {
  import opened Common

  /** A calendar day (`date`) and an instant (`datetime`), both as numbers
      on their own time line. */
  type Date = int
  type Timestamp = int
  /** Money in cents; the source uses floats, rounding is not modelled. */
  type Cents = int

  // ---------------------------------------------------------------------
  // Field constraints as data, and what pydantic does with them
  // ---------------------------------------------------------------------

  /** `Field(min_length=…, max_length=…)` on a `str`. */
  datatype StrField = StrField(minLength: nat, maxLength: Option<nat>)

  /** `Field(gt=…, le=…)` on a number. */
  datatype NumField = NumField(gt: Option<int>, le: Option<int>)

  /** `Field(pattern="^(W1|W2|…)$")`: an anchored alternation of literal
      words.  Pydantic 2 matches patterns with Rust's regex engine, where
      `$` is the end of the text, so this is an exact match of one word. */
  datatype Pattern = AnchoredAlternation(words: seq<string>)

  predicate StrOk(f: StrField, s: string) {
    f.minLength <= |s| && (f.maxLength.Some? ==> |s| <= f.maxLength.value)
  }

  predicate NumOk(f: NumField, x: int) {
    (f.gt.Some? ==> x > f.gt.value) && (f.le.Some? ==> x <= f.le.value)
  }

  predicate FullMatch(p: Pattern, s: string) {
    s in p.words
  }

  /** A field declared `Optional[…] = Field(None, …)`: an absent value is
      accepted, a present one must meet the constraint. */
  predicate OptStrOk(f: StrField, o: Option<string>) {
    o.None? || StrOk(f, o.value)
  }

  predicate OptNumOk(f: NumField, o: Option<int>) {
    o.None? || NumOk(f, o.value)
  }

  predicate OptMatch(p: Pattern, o: Option<string>) {
    o.None? || FullMatch(p, o.value)
  }

  // The constraints declared in models.py.
  const NomeCompleto := StrField(3, Some(200))
  const Setor := StrField(2, Some(100))
  const Senha := StrField(6, None)
  const NomeSabor := StrField(3, Some(100))
  const PrecoPedaco := NumField(Some(0), None)
  const Quantidade := NumField(Some(0), Some(8))
  const MinItens: nat := 1
  const StatusEvento := AnchoredAlternation(["ABERTO", "FECHADO", "FINALIZADO"])
  const StatusPedido := AnchoredAlternation(["PENDENTE", "CONFIRMADO", "PAGO"])

  /** The number of slices in one pizza. */
  const PedacosPorPizza := 8

  // ---------------------------------------------------------------------
  // Users
  // ---------------------------------------------------------------------

  /** `is_admin` defaults to false when the request omits it. */
  datatype UsuarioCreate = UsuarioCreate(nomeCompleto: string, setor: string, senha: string, isAdmin: bool := false)

  datatype UsuarioLogin = UsuarioLogin(nomeCompleto: string, senha: string)

  datatype UsuarioResponse = UsuarioResponse(
    id: int, nomeCompleto: string, setor: string,
    isAdmin: bool, ativo: bool, dataCadastro: Option<Timestamp>)

  function ValidUsuarioCreate(u: UsuarioCreate): (ok: bool)
    ensures ok <==> 3 <= |u.nomeCompleto| <= 200 && 2 <= |u.setor| <= 100 && 6 <= |u.senha|
  {
    StrOk(NomeCompleto, u.nomeCompleto) && StrOk(Setor, u.setor) && StrOk(Senha, u.senha)
  }

  // ---------------------------------------------------------------------
  // Pizza flavours
  // ---------------------------------------------------------------------

  datatype SaborPizzaBase = SaborPizzaBase(nome: string, precoPedaco: Cents)

  datatype SaborPizzaUpdate = SaborPizzaUpdate(nome: Option<string>, precoPedaco: Option<Cents>, ativo: Option<bool>)

  function ValidSaborPizza(s: SaborPizzaBase): (ok: bool)
    ensures ok <==> 3 <= |s.nome| <= 100 && s.precoPedaco > 0
  {
    StrOk(NomeSabor, s.nome) && NumOk(PrecoPedaco, s.precoPedaco)
  }

  /** Any subset of the fields may be given; each one given meets the same
      bound as on creation, and `ativo` is unconstrained. */
  function ValidSaborPizzaUpdate(u: SaborPizzaUpdate): (ok: bool)
    ensures ok <==> ((u.nome.Some? ==> 3 <= |u.nome.value| <= 100)
                     && (u.precoPedaco.Some? ==> u.precoPedaco.value > 0))
    ensures ok && u.nome.Some? && u.precoPedaco.Some? ==>
              ValidSaborPizza(SaborPizzaBase(u.nome.value, u.precoPedaco.value))
  {
    OptStrOk(NomeSabor, u.nome) && OptNumOk(PrecoPedaco, u.precoPedaco)
  }

  // ---------------------------------------------------------------------
  // Events
  // ---------------------------------------------------------------------

  /** `nome` is accepted in the request but never stored. */
  datatype EventoCreate = EventoCreate(dataEvento: Date, dataLimite: Timestamp, nome: Option<string>)

  datatype EventoUpdate = EventoUpdate(status: Option<string>, dataLimite: Option<Timestamp>)

  /** The three statuses an event may hold. */
  function IsStatusEvento(s: string): (ok: bool)
    ensures ok <==> s == "ABERTO" || s == "FECHADO" || s == "FINALIZADO"
  {
    FullMatch(StatusEvento, s)
  }

  function ValidEventoUpdate(u: EventoUpdate): (ok: bool)
    ensures ok <==> u.status.None? || IsStatusEvento(u.status.value)
  {
    OptMatch(StatusEvento, u.status)
  }

  // ---------------------------------------------------------------------
  // Orders
  // ---------------------------------------------------------------------

  datatype ItemPedidoCreate = ItemPedidoCreate(saborId: int, quantidade: int)

  datatype PedidoCreate = PedidoCreate(eventoId: int, itens: seq<ItemPedidoCreate>)

  datatype PedidoUpdate = PedidoUpdate(status: Option<string>)

  /** A line item holds between one slice and one whole pizza. */
  function ValidItemPedido(i: ItemPedidoCreate): (ok: bool)
    ensures ok <==> 1 <= i.quantidade <= PedacosPorPizza
  {
    NumOk(Quantidade, i.quantidade)
  }

  /** An order needs at least one item, and pydantic validates every item. */
  function ValidPedidoCreate(p: PedidoCreate): (ok: bool)
    ensures ok <==> |p.itens| >= 1 && forall i :: 0 <= i < |p.itens| ==> 1 <= p.itens[i].quantidade <= 8
    ensures ok ==> p.itens != []
  {
    |p.itens| >= MinItens && forall i :: 0 <= i < |p.itens| ==> ValidItemPedido(p.itens[i])
  }

  function IsStatusPedido(s: string): (ok: bool)
    ensures ok <==> s == "PENDENTE" || s == "CONFIRMADO" || s == "PAGO"
  {
    FullMatch(StatusPedido, s)
  }

  function ValidPedidoUpdate(u: PedidoUpdate): (ok: bool)
    ensures ok <==> u.status.None? || IsStatusPedido(u.status.value)
  {
    OptMatch(StatusPedido, u.status)
  }

  // ---------------------------------------------------------------------
  // Per-flavour statistics of the dashboard
  // ---------------------------------------------------------------------

  datatype EstatisticasPizza = EstatisticasPizza(
    saborId: int, saborNome: string, totalPedacos: int,
    pizzasCompletas: int, pedacosRestantes: int, valorTotal: Cents)

  /** What the field comments promise: the slices make `pizzasCompletas`
      whole pizzas of 8 and `pedacosRestantes` slices that close no pizza. */
  predicate Consistent(e: EstatisticasPizza) {
    e.totalPedacos == PedacosPorPizza * e.pizzasCompletas + e.pedacosRestantes
    && 0 <= e.pedacosRestantes < PedacosPorPizza
  }

  /** The statistics of one flavour from its slice total. */
  function Estatisticas(saborId: int, saborNome: string, totalPedacos: nat, valorTotal: Cents): (e: EstatisticasPizza)
    ensures Consistent(e)
    ensures e.saborId == saborId && e.saborNome == saborNome
    ensures e.totalPedacos == totalPedacos && e.valorTotal == valorTotal
  {
    EstatisticasPizza(saborId, saborNome, totalPedacos,
                      totalPedacos / PedacosPorPizza, totalPedacos % PedacosPorPizza, valorTotal)
  }

  /** The two counts are determined by the slice total. */
  lemma ConsistentDetermined(e: EstatisticasPizza, f: EstatisticasPizza)
    requires Consistent(e) && Consistent(f) && e.totalPedacos == f.totalPedacos
    ensures e.pizzasCompletas == f.pizzasCompletas && e.pedacosRestantes == f.pedacosRestantes
  {
    var q, r, q', r' := e.pizzasCompletas, e.pedacosRestantes, f.pizzasCompletas, f.pedacosRestantes;
    assert 8 * (q - q') == r' - r;
  }

  function SumTotal(es: seq<EstatisticasPizza>): int {
    if es == [] then 0 else es[0].totalPedacos + SumTotal(es[1..])
  }

  function SumCompletas(es: seq<EstatisticasPizza>): int {
    if es == [] then 0 else es[0].pizzasCompletas + SumCompletas(es[1..])
  }

  function SumRestantes(es: seq<EstatisticasPizza>): int {
    if es == [] then 0 else es[0].pedacosRestantes + SumRestantes(es[1..])
  }

  /** Over all flavours, whole pizzas and leftover slices account for every
      slice; the per-flavour whole pizzas never exceed the cross-flavour
      count `total / 8`, and fall short of it by fewer than one pizza per
      flavour. */
  lemma {:induction false} FlavourTotals(es: seq<EstatisticasPizza>)
    requires forall i :: 0 <= i < |es| ==> Consistent(es[i])
    ensures SumTotal(es) == PedacosPorPizza * SumCompletas(es) + SumRestantes(es)
    ensures 0 <= SumRestantes(es) < PedacosPorPizza * |es| || es == []
    ensures SumCompletas(es) <= SumTotal(es) / PedacosPorPizza
    ensures SumTotal(es) / PedacosPorPizza - SumCompletas(es) < |es| || es == []
  {
    if es != [] {
      FlavourTotals(es[1..]);
      assert forall i :: 0 <= i < |es[1..]| ==> Consistent(es[1..][i]);
      var t, c, r := SumTotal(es), SumCompletas(es), SumRestantes(es);
      assert 0 <= r < 8 * |es| by {
        if es[1..] == [] { assert SumRestantes(es[1..]) == 0; }
      }
      assert t == 8 * c + r;
      DivBounds(t, c, r, |es|);
    }
  }

  /** t == 8c + r with 0 <= r < 8n puts t / 8 in [c, c + n). */
  lemma DivBounds(t: int, c: int, r: int, n: nat)
    requires t == 8 * c + r && 0 <= r < 8 * n
    ensures c <= t / 8 < c + n
  {
    var q := t / 8;
    assert t == 8 * q + t % 8;
    assert 8 * (q - c) == r - t % 8;
  }
}
