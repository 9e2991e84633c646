/** The events table (`eventos`) and the handlers of routes_eventos.py.
    The read-only handlers are functions of the table; the ones that
    INSERT, UPDATE or DELETE are methods of `EventStore`, which holds the
    table together with the read-only order relation (`pedidos` and
    `itens_pedido`) the summary and the delete guard consult. */
module Eventos {
  import opened Common
  import opened Models

  /** A row of `eventos`. */
  datatype Evento = Evento(id: int, dataEvento: Date, status: string, dataLimite: Timestamp, dataCriacao: Timestamp)

  /** A row of `pedidos`. */
  datatype Pedido = Pedido(id: int, eventoId: int, usuarioId: int, valorTotal: Cents, valorFrete: Cents, status: string)

  /** A row of `itens_pedido`. */
  datatype ItemPedido = ItemPedido(id: int, pedidoId: int, saborId: int, quantidade: int, precoUnitario: Cents, subtotal: Cents)

  datatype EventoError = NotFound | DuplicateDate | NoFields | HasOrders(count: nat)

  datatype ResumoEvento = ResumoEvento(
    evento: Evento, totalParticipantes: int, totalPedidos: int, totalPizzas: int, valorTotal: Cents)

  /** The events table, keyed by `id`. */
  type Tabela = map<int, Evento>

  ghost predicate WellKeyed(t: Tabela) {
    forall k :: k in t ==> t[k].id == k
  }

  /** At most one event per calendar date. */
  ghost predicate UniqueDates(t: Tabela) {
    forall k, k' :: k in t && k' in t && t[k].dataEvento == t[k'].dataEvento ==> k == k'
  }

  ghost predicate KnownStatuses(t: Tabela) {
    forall k :: k in t ==> IsStatusEvento(t[k].status)
  }

  /** The table invariant; identity values below `nextId` have been handed out. */
  ghost predicate TabelaValida(t: Tabela, nextId: int) {
    WellKeyed(t) && UniqueDates(t) && KnownStatuses(t)
    && 1 <= nextId && forall k :: k in t ==> 1 <= k < nextId
  }

  // ---------------------------------------------------------------------
  // listar_eventos: SELECT … FROM eventos ORDER BY data_evento DESC
  // ---------------------------------------------------------------------

  ghost predicate NewestFirst(s: seq<Evento>) {
    forall i, j :: 0 <= i < j < |s| ==> s[i].dataEvento >= s[j].dataEvento
  }

  ghost predicate DistinctIds(s: seq<Evento>) {
    forall i, j :: 0 <= i < j < |s| ==> s[i].id != s[j].id
  }

  /** Every identity value handed out so far lies in [1, nextId). */
  ghost predicate IdsBelow(t: Tabela, nextId: int) {
    WellKeyed(t) && forall k :: k in t ==> 1 <= k < nextId
  }

  /** A full scan of the rows with identity in [1, n), in identity order. */
  function Varredura(t: Tabela, n: int): (r: seq<Evento>)
    requires WellKeyed(t)
    ensures forall e :: e in r <==> 1 <= e.id < n && e.id in t && t[e.id] == e
    ensures forall i, j :: 0 <= i < j < |r| ==> r[i].id < r[j].id
    decreases n
  {
    if n <= 1 then []
    else
      var prefix := Varredura(t, n - 1);
      assert forall i :: 0 <= i < |prefix| ==> prefix[i] in prefix;
      prefix + (if n - 1 in t then [t[n - 1]] else [])
  }

  /** One step of ORDER BY data_evento DESC: e goes before the first row
      that is not newer. */
  function Inserir(e: Evento, s: seq<Evento>): (r: seq<Evento>)
    ensures multiset(r) == multiset(s) + multiset{e}
  {
    if s == [] || e.dataEvento >= s[0].dataEvento then [e] + s
    else
      assert s == [s[0]] + s[1..];
      [s[0]] + Inserir(e, s[1..])
  }

  lemma InMultiset(x: Evento, r: seq<Evento>, s: seq<Evento>, e: Evento)
    requires multiset(r) == multiset(s) + multiset{e}
    requires x in r
    ensures x == e || x in s
  {
    assert x in multiset(r);
  }

  lemma {:induction false} InserirKeepsOrder(e: Evento, s: seq<Evento>)
    requires NewestFirst(s)
    ensures NewestFirst(Inserir(e, s))
  {
    var r := Inserir(e, s);
    if s == [] || e.dataEvento >= s[0].dataEvento {
      forall i, j | 0 <= i < j < |r| ensures r[i].dataEvento >= r[j].dataEvento {
        if i == 0 && j > 1 {
          assert r[j] == s[j - 1];
        }
      }
    } else {
      var tail := Inserir(e, s[1..]);
      InserirKeepsOrder(e, s[1..]);
      forall i, j | 0 <= i < j < |r| ensures r[i].dataEvento >= r[j].dataEvento {
        if i == 0 {
          assert r[j] == tail[j - 1];
          InMultiset(r[j], tail, s[1..], e);
          if r[j] != e {
            var m :| 0 <= m < |s[1..]| && s[1..][m] == r[j];
            assert s[m + 1] == r[j];
          }
        } else {
          assert r[i] == tail[i - 1] && r[j] == tail[j - 1];
        }
      }
    }
  }

  lemma {:induction false} InserirKeepsIds(e: Evento, s: seq<Evento>)
    requires DistinctIds(s) && forall x :: x in s ==> x.id != e.id
    ensures DistinctIds(Inserir(e, s))
  {
    var r := Inserir(e, s);
    if s == [] || e.dataEvento >= s[0].dataEvento {
      forall i, j | 0 <= i < j < |r| ensures r[i].id != r[j].id {
        if i == 0 {
          assert r[j] == s[j - 1];
        } else {
          assert r[i] == s[i - 1] && r[j] == s[j - 1];
        }
      }
    } else {
      var tail := Inserir(e, s[1..]);
      assert forall x :: x in s[1..] ==> x in s;
      assert DistinctIds(s[1..]) by {
        forall i, j | 0 <= i < j < |s[1..]| ensures s[1..][i].id != s[1..][j].id {
          assert s[1..][i] == s[i + 1] && s[1..][j] == s[j + 1];
        }
      }
      InserirKeepsIds(e, s[1..]);
      forall i, j | 0 <= i < j < |r| ensures r[i].id != r[j].id {
        if i == 0 {
          assert r[j] == tail[j - 1];
          InMultiset(r[j], tail, s[1..], e);
          if r[j] != e {
            var m :| 0 <= m < |s[1..]| && s[1..][m] == r[j];
            assert s[m + 1] == r[j];
          }
        } else {
          assert r[i] == tail[i - 1] && r[j] == tail[j - 1];
        }
      }
    }
  }

  /** The step of `Ordenar` that keeps ids distinct: the head of a list
      with distinct ids is inserted into a permutation of its tail. */
  lemma OrdenarKeepsIds(s: seq<Evento>, rest: seq<Evento>)
    requires s != [] && multiset(rest) == multiset(s[1..])
    requires DistinctIds(s[1..]) ==> DistinctIds(rest)
    ensures DistinctIds(s) ==> DistinctIds(Inserir(s[0], rest))
  {
    if DistinctIds(s) {
      assert DistinctIds(s[1..]) by {
        forall i, j | 0 <= i < j < |s[1..]| ensures s[1..][i].id != s[1..][j].id {
          assert s[1..][i] == s[i + 1] && s[1..][j] == s[j + 1];
        }
      }
      forall x | x in rest ensures x.id != s[0].id {
        assert x in multiset(rest);
        var m :| 0 <= m < |s[1..]| && s[1..][m] == x;
        assert s[m + 1] == x;
      }
      InserirKeepsIds(s[0], rest);
    }
  }

  /** ORDER BY data_evento DESC, as an insertion sort. */
  function Ordenar(s: seq<Evento>): (r: seq<Evento>)
    ensures multiset(r) == multiset(s)
    ensures NewestFirst(r)
    ensures DistinctIds(s) ==> DistinctIds(r)
  {
    if s == [] then []
    else
      var rest := Ordenar(s[1..]);
      assert s == [s[0]] + s[1..];
      InserirKeepsOrder(s[0], rest);
      OrdenarKeepsIds(s, rest);
      Inserir(s[0], rest)
  }

  /** listar_eventos: every event of the table once, newest date first. */
  function ListarEventos(t: Tabela, nextId: int): (r: seq<Evento>)
    requires IdsBelow(t, nextId)
    ensures forall e :: e in r <==> e.id in t && t[e.id] == e
    ensures NewestFirst(r)
    ensures DistinctIds(r)
  {
    var scan := Varredura(t, nextId);
    var r := Ordenar(scan);
    assert forall e :: e in r <==> e in scan by {
      forall e ensures e in r <==> e in scan {
        assert e in r <==> e in multiset(r);
      }
    }
    r
  }

  // ---------------------------------------------------------------------
  // obter_evento_ativo: WHERE status = 'ABERTO' AND data_limite > now
  //                     ORDER BY data_evento DESC FETCH FIRST 1 ROWS ONLY
  // ---------------------------------------------------------------------

  /** Open for orders at instant `now`. */
  predicate Ativo(e: Evento, now: Timestamp) {
    e.status == "ABERTO" && e.dataLimite > now
  }

  /** The WHERE clause of the active-event query, keeping the row order. */
  function Abertos(s: seq<Evento>, now: Timestamp): (r: seq<Evento>)
    ensures forall e :: e in r <==> e in s && Ativo(e, now)
    ensures NewestFirst(s) ==> NewestFirst(r)
  {
    if s == [] then []
    else
      var tail := Abertos(s[1..], now);
      AbertosKeepsOrder(s, tail);
      (if Ativo(s[0], now) then [s[0]] else []) + tail
  }

  /** The step of `Abertos`: a row kept from a sorted list goes before the
      rows kept from its tail. */
  lemma AbertosKeepsOrder(s: seq<Evento>, tail: seq<Evento>)
    requires s != [] && forall e :: e in tail ==> e in s[1..]
    requires NewestFirst(s[1..]) ==> NewestFirst(tail)
    ensures NewestFirst(s) ==> NewestFirst(tail) && NewestFirst([s[0]] + tail)
  {
    if NewestFirst(s) {
      assert NewestFirst(s[1..]) by {
        forall i, j | 0 <= i < j < |s[1..]| ensures s[1..][i].dataEvento >= s[1..][j].dataEvento {
          assert s[1..][i] == s[i + 1] && s[1..][j] == s[j + 1];
        }
      }
      forall e | e in tail ensures e.dataEvento <= s[0].dataEvento {
        var j :| 0 <= j < |s[1..]| && s[1..][j] == e;
        assert s[j + 1] == e;
      }
      var r := [s[0]] + tail;
      forall i, j | 0 <= i < j < |r| ensures r[i].dataEvento >= r[j].dataEvento {
        assert r[j] == tail[j - 1];
        if i > 0 {
          assert r[i] == tail[i - 1];
        }
      }
    }
  }

  /** obter_evento_ativo: an ABERTO event whose deadline is still ahead,
      with the latest date among all such; NotFound when none qualifies. */
  function ObterEventoAtivo(t: Tabela, nextId: int, now: Timestamp): (r: Result<Evento, EventoError>)
    requires IdsBelow(t, nextId)
    ensures r.Failure? <==> forall k :: k in t ==> !Ativo(t[k], now)
    ensures r.Failure? ==> r.error == NotFound
    ensures r.Success? ==> r.value.id in t && t[r.value.id] == r.value && Ativo(r.value, now)
    ensures r.Success? ==> forall k :: k in t && Ativo(t[k], now) ==> t[k].dataEvento <= r.value.dataEvento
  {
    var rows := Abertos(ListarEventos(t, nextId), now);
    assert forall k :: k in t && Ativo(t[k], now) ==> t[k] in rows by {
      forall k | k in t && Ativo(t[k], now) ensures t[k] in rows {
        assert t[k].id == k;
      }
    }
    if rows == [] then Failure(NotFound)
    else
      assert rows[0] in rows;
      assert forall k :: k in t && Ativo(t[k], now) ==> t[k].dataEvento <= rows[0].dataEvento by {
        forall k | k in t && Ativo(t[k], now) ensures t[k].dataEvento <= rows[0].dataEvento {
          var j :| 0 <= j < |rows| && rows[j] == t[k];
        }
      }
      Success(rows[0])
  }

  /** With one event per date the answer is determined: it is the open
      event with the latest date. */
  lemma ActiveIsTheLatestOpen(t: Tabela, nextId: int, now: Timestamp, k: int)
    requires IdsBelow(t, nextId) && UniqueDates(t)
    requires k in t && Ativo(t[k], now)
    requires forall k' :: k' in t && Ativo(t[k'], now) ==> t[k'].dataEvento <= t[k].dataEvento
    ensures ObterEventoAtivo(t, nextId, now) == Success(t[k])
  {
    var r := ObterEventoAtivo(t, nextId, now);
    assert t[r.value.id].dataEvento == t[k].dataEvento;
  }

  // ---------------------------------------------------------------------
  // obter_evento: WHERE id = :evento_id
  // ---------------------------------------------------------------------

  function ObterEvento(t: Tabela, id: int): (r: Result<Evento, EventoError>)
    ensures r.Success? <==> id in t
    ensures r.Success? ==> r.value == t[id]
    ensures r.Failure? ==> r.error == NotFound
  {
    if id in t then Success(t[id]) else Failure(NotFound)
  }

  // ---------------------------------------------------------------------
  // The order relation: orders of an event, and the LEFT JOIN with items
  // ---------------------------------------------------------------------

  /** `SELECT COUNT(*) FROM pedidos WHERE evento_id = :evento_id`. */
  function ContarPedidos(pedidos: seq<Pedido>, eventoId: int): (n: nat)
    ensures n <= |pedidos|
    ensures n > 0 <==> exists i :: 0 <= i < |pedidos| && pedidos[i].eventoId == eventoId
  {
    if pedidos == [] then 0
    else
      var tail := ContarPedidos(pedidos[1..], eventoId);
      assert (exists i :: 0 <= i < |pedidos| && pedidos[i].eventoId == eventoId) <==>
             pedidos[0].eventoId == eventoId || exists i :: 0 <= i < |pedidos[1..]| && pedidos[1..][i].eventoId == eventoId by {
        if exists i :: 0 <= i < |pedidos| && pedidos[i].eventoId == eventoId {
          var i :| 0 <= i < |pedidos| && pedidos[i].eventoId == eventoId;
          if i > 0 { assert pedidos[1..][i - 1] == pedidos[i]; }
        }
        if exists i :: 0 <= i < |pedidos[1..]| && pedidos[1..][i].eventoId == eventoId {
          var i :| 0 <= i < |pedidos[1..]| && pedidos[1..][i].eventoId == eventoId;
          assert pedidos[i + 1] == pedidos[1..][i];
        }
      }
      (if pedidos[0].eventoId == eventoId then 1 else 0) + tail
  }

  /** The rows of `itens_pedido` with `pedido_id = pedidoId`. */
  function ItensDoPedido(itens: seq<ItemPedido>, pedidoId: int): (r: seq<ItemPedido>)
    ensures forall x :: x in r <==> x in itens && x.pedidoId == pedidoId
  {
    if itens == [] then []
    else (if itens[0].pedidoId == pedidoId then [itens[0]] else []) + ItensDoPedido(itens[1..], pedidoId)
  }

  /** A row of `pedidos p LEFT JOIN itens_pedido ip`: the item columns are
      NULL (None) for an order without items. */
  datatype LinhaJuncao = LinhaJuncao(pedido: Pedido, item: Option<ItemPedido>)

  function ComItens(p: Pedido, its: seq<ItemPedido>): seq<LinhaJuncao> {
    if its == [] then [] else [LinhaJuncao(p, Some(its[0]))] + ComItens(p, its[1..])
  }

  /** The LEFT JOIN rows of one order: one per matching item, or a single
      row with NULL item columns when it has none. */
  function LinhasDoPedido(p: Pedido, itens: seq<ItemPedido>): seq<LinhaJuncao> {
    var its := ItensDoPedido(itens, p.id);
    if its == [] then [LinhaJuncao(p, None)] else ComItens(p, its)
  }

  /** `FROM pedidos p LEFT JOIN itens_pedido ip ON p.id = ip.pedido_id
      WHERE p.evento_id = :evento_id`. */
  function Juncao(pedidos: seq<Pedido>, itens: seq<ItemPedido>, eventoId: int): seq<LinhaJuncao> {
    if pedidos == [] then []
    else (if pedidos[0].eventoId == eventoId then LinhasDoPedido(pedidos[0], itens) else [])
         + Juncao(pedidos[1..], itens, eventoId)
  }

  lemma {:induction false} ComItensLinhas(p: Pedido, its: seq<ItemPedido>)
    ensures |ComItens(p, its)| == |its|
    ensures forall i :: 0 <= i < |its| ==> ComItens(p, its)[i] == LinhaJuncao(p, Some(its[i]))
  {
    if its != [] {
      ComItensLinhas(p, its[1..]);
    }
  }

  /** The rows of one order: it is paired with each of its items, and with
      NULL exactly when it has none. */
  lemma LinhasDoPedidoLinhas(p: Pedido, itens: seq<ItemPedido>)
    ensures forall l :: l in LinhasDoPedido(p, itens) ==> l.pedido == p
    ensures forall x :: x in itens && x.pedidoId == p.id ==> LinhaJuncao(p, Some(x)) in LinhasDoPedido(p, itens)
    ensures forall l :: l in LinhasDoPedido(p, itens) && l.item.Some? ==>
                          l.item.value in itens && l.item.value.pedidoId == p.id
    ensures LinhaJuncao(p, None) in LinhasDoPedido(p, itens) <==> forall x :: x in itens ==> x.pedidoId != p.id
    ensures |LinhasDoPedido(p, itens)| == LinhasPorPedido(p, itens)
  {
    var its := ItensDoPedido(itens, p.id);
    if its != [] {
      var r := ComItens(p, its);
      ComItensLinhas(p, its);
      assert its[0] in its;
      forall x | x in itens && x.pedidoId == p.id ensures LinhaJuncao(p, Some(x)) in r {
        var i :| 0 <= i < |its| && its[i] == x;
        assert r[i] == LinhaJuncao(p, Some(x));
      }
      forall l | l in r ensures l.pedido == p && l.item.Some? && l.item.value in its {
        var i :| 0 <= i < |r| && r[i] == l;
      }
    }
  }

  /** The joined rows of an event: only its orders; each order paired
      with each of its items, and with NULL once when it has none. */
  lemma {:induction false} JuncaoLinhas(pedidos: seq<Pedido>, itens: seq<ItemPedido>, eventoId: int)
    ensures forall l :: l in Juncao(pedidos, itens, eventoId) ==> l.pedido in pedidos && l.pedido.eventoId == eventoId
    ensures forall l :: l in Juncao(pedidos, itens, eventoId) && l.item.Some? ==>
                          l.item.value in itens && l.item.value.pedidoId == l.pedido.id
    ensures forall l :: l in Juncao(pedidos, itens, eventoId) && l.item.None? ==>
                          forall x :: x in itens ==> x.pedidoId != l.pedido.id
    ensures forall q, x :: q in pedidos && q.eventoId == eventoId && x in itens && x.pedidoId == q.id ==>
                             LinhaJuncao(q, Some(x)) in Juncao(pedidos, itens, eventoId)
    ensures forall q :: q in pedidos && q.eventoId == eventoId && (forall x :: x in itens ==> x.pedidoId != q.id) ==>
                          LinhaJuncao(q, None) in Juncao(pedidos, itens, eventoId)
    ensures |Juncao(pedidos, itens, eventoId)| == LinhasDoEvento(pedidos, itens, eventoId)
  {
    if pedidos != [] {
      JuncaoLinhas(pedidos[1..], itens, eventoId);
      LinhasDoPedidoLinhas(pedidos[0], itens);
      assert forall q :: q in pedidos ==> q == pedidos[0] || q in pedidos[1..];
    }
  }

  // The columns the summary aggregates; None is SQL NULL.
  function ColPedidoId(l: LinhaJuncao): Option<int> { Some(l.pedido.id) }
  function ColUsuarioId(l: LinhaJuncao): Option<int> { Some(l.pedido.usuarioId) }
  function ColValor(l: LinhaJuncao): Option<int> { Some(l.pedido.valorTotal + l.pedido.valorFrete) }
  function ColQuantidade(l: LinhaJuncao): Option<int> {
    if l.item.Some? then Some(l.item.value.quantidade) else None
  }

  // ---------------------------------------------------------------------
  // SQL aggregates over a column of the row set
  // ---------------------------------------------------------------------

  /** `COUNT(col)`: the rows where the column is not NULL. */
  function SqlCount(rows: seq<LinhaJuncao>, col: LinhaJuncao -> Option<int>): nat {
    if rows == [] then 0 else (if col(rows[0]).Some? then 1 else 0) + SqlCount(rows[1..], col)
  }

  function AddNullable(a: Option<int>, b: Option<int>): Option<int> {
    if a.None? then b else if b.None? then a else Some(a.value + b.value)
  }

  /** `SUM(col)`: NULL when no row has a non-NULL value. */
  function SqlSum(rows: seq<LinhaJuncao>, col: LinhaJuncao -> Option<int>): Option<int> {
    if rows == [] then None else AddNullable(col(rows[0]), SqlSum(rows[1..], col))
  }

  /** The non-NULL values of a column, as `COUNT(DISTINCT col)` sees them. */
  function SqlDistinct(rows: seq<LinhaJuncao>, col: LinhaJuncao -> Option<int>): set<int> {
    if rows == [] then {}
    else (if col(rows[0]).Some? then {col(rows[0]).value} else {}) + SqlDistinct(rows[1..], col)
  }

  /** COUNT counts at most every row: all of them exactly when no value is
      NULL, none exactly when every value is. */
  lemma {:induction false} SqlCountMeaning(rows: seq<LinhaJuncao>, col: LinhaJuncao -> Option<int>)
    ensures SqlCount(rows, col) <= |rows|
    ensures SqlCount(rows, col) == |rows| <==> forall i :: 0 <= i < |rows| ==> col(rows[i]).Some?
    ensures SqlCount(rows, col) == 0 <==> forall i :: 0 <= i < |rows| ==> col(rows[i]).None?
  {
    if rows != [] {
      SqlCountMeaning(rows[1..], col);
      assert forall i :: 1 <= i < |rows| ==> rows[i] == rows[1..][i - 1];
    }
  }

  /** COUNT(DISTINCT) sees exactly the values some row holds. */
  lemma {:induction false} SqlDistinctMeaning(rows: seq<LinhaJuncao>, col: LinhaJuncao -> Option<int>)
    ensures forall v :: v in SqlDistinct(rows, col) <==> exists i :: 0 <= i < |rows| && col(rows[i]) == Some(v)
  {
    if rows != [] {
      var tail := SqlDistinct(rows[1..], col);
      SqlDistinctMeaning(rows[1..], col);
      forall v ensures v in tail <==> exists i :: 1 <= i < |rows| && col(rows[i]) == Some(v) {
        if v in tail {
          var j :| 0 <= j < |rows[1..]| && col(rows[1..][j]) == Some(v);
          assert rows[j + 1] == rows[1..][j];
        }
        if exists i :: 1 <= i < |rows| && col(rows[i]) == Some(v) {
          var i :| 1 <= i < |rows| && col(rows[i]) == Some(v);
          assert rows[1..][i - 1] == rows[i];
        }
      }
    }
  }

  /** The reference sum: NULL values add nothing. */
  function SumNullAsZero(rows: seq<LinhaJuncao>, col: LinhaJuncao -> Option<int>): int {
    if rows == [] then 0 else col(rows[0]).GetOr(0) + SumNullAsZero(rows[1..], col)
  }

  /** Python's `int(x) if x else 0`: NULL and zero both become 0. */
  function OrZero(x: Option<int>): (v: int)
    ensures v == x.GetOr(0)
  {
    if x.Some? && x.value != 0 then x.value else 0
  }

  /** Python's `a // b` for a positive divisor: the floor of a / b. */
  function FloorDiv(a: int, b: int): (q: int)
    requires b > 0
    ensures b * q <= a < b * q + b
  {
    a / b
  }

  /** SUM is NULL exactly when every value is NULL, and otherwise it is the
      sum with NULLs read as 0; so after `OrZero` it is the reference sum. */
  lemma {:induction false} SqlSumMeaning(rows: seq<LinhaJuncao>, col: LinhaJuncao -> Option<int>)
    ensures SqlSum(rows, col).None? <==> forall i :: 0 <= i < |rows| ==> col(rows[i]).None?
    ensures SqlSum(rows, col).Some? ==> SqlSum(rows, col).value == SumNullAsZero(rows, col)
    ensures OrZero(SqlSum(rows, col)) == SumNullAsZero(rows, col)
  {
    if rows != [] {
      SqlSumMeaning(rows[1..], col);
      assert forall i :: 1 <= i < |rows| ==> rows[i] == rows[1..][i - 1];
    }
  }

  lemma {:induction false} AggregatesConcat(a: seq<LinhaJuncao>, b: seq<LinhaJuncao>, col: LinhaJuncao -> Option<int>)
    ensures SqlCount(a + b, col) == SqlCount(a, col) + SqlCount(b, col)
    ensures SumNullAsZero(a + b, col) == SumNullAsZero(a, col) + SumNullAsZero(b, col)
    ensures SqlDistinct(a + b, col) == SqlDistinct(a, col) + SqlDistinct(b, col)
  {
    if a != [] {
      assert (a + b)[1..] == a[1..] + b;
      AggregatesConcat(a[1..], b, col);
    } else {
      assert a + b == b;
    }
  }

  // ---------------------------------------------------------------------
  // Reference quantities, computed per order instead of per joined row
  // ---------------------------------------------------------------------

  /** The number of joined rows an order yields: its item count, but at
      least one. */
  function LinhasPorPedido(p: Pedido, itens: seq<ItemPedido>): nat {
    var n := |ItensDoPedido(itens, p.id)|;
    if n == 0 then 1 else n
  }

  function SomaQuantidades(its: seq<ItemPedido>): int {
    if its == [] then 0 else its[0].quantidade + SomaQuantidades(its[1..])
  }

  /** Over the orders of the event: the joined rows. */
  function LinhasDoEvento(pedidos: seq<Pedido>, itens: seq<ItemPedido>, eventoId: int): nat {
    if pedidos == [] then 0
    else (if pedidos[0].eventoId == eventoId then LinhasPorPedido(pedidos[0], itens) else 0)
         + LinhasDoEvento(pedidos[1..], itens, eventoId)
  }

  /** Over the orders of the event: value plus shipping once per joined row. */
  function ValorPorLinhas(pedidos: seq<Pedido>, itens: seq<ItemPedido>, eventoId: int): int {
    if pedidos == [] then 0
    else (if pedidos[0].eventoId == eventoId
          then (pedidos[0].valorTotal + pedidos[0].valorFrete) * LinhasPorPedido(pedidos[0], itens)
          else 0)
         + ValorPorLinhas(pedidos[1..], itens, eventoId)
  }

  /** Over the orders of the event: value plus shipping once per order. */
  function ValorDosPedidos(pedidos: seq<Pedido>, eventoId: int): int {
    if pedidos == [] then 0
    else (if pedidos[0].eventoId == eventoId then pedidos[0].valorTotal + pedidos[0].valorFrete else 0)
         + ValorDosPedidos(pedidos[1..], eventoId)
  }

  /** Over the orders of the event: the slices of all their items. */
  function PedacosDoEvento(pedidos: seq<Pedido>, itens: seq<ItemPedido>, eventoId: int): int {
    if pedidos == [] then 0
    else (if pedidos[0].eventoId == eventoId then SomaQuantidades(ItensDoPedido(itens, pedidos[0].id)) else 0)
         + PedacosDoEvento(pedidos[1..], itens, eventoId)
  }

  /** The users with at least one order in the event. */
  function UsuariosDoEvento(pedidos: seq<Pedido>, eventoId: int): set<int> {
    if pedidos == [] then {}
    else (if pedidos[0].eventoId == eventoId then {pedidos[0].usuarioId} else {})
         + UsuariosDoEvento(pedidos[1..], eventoId)
  }

  lemma {:induction false} ComItensAggregates(p: Pedido, its: seq<ItemPedido>)
    ensures SqlCount(ComItens(p, its), ColPedidoId) == |its|
    ensures SumNullAsZero(ComItens(p, its), ColValor) == (p.valorTotal + p.valorFrete) * |its|
    ensures SumNullAsZero(ComItens(p, its), ColQuantidade) == SomaQuantidades(its)
    ensures SqlDistinct(ComItens(p, its), ColUsuarioId) == if its == [] then {} else {p.usuarioId}
  {
    if its != [] {
      ComItensAggregates(p, its[1..]);
      var v := p.valorTotal + p.valorFrete;
      assert v * |its| == v + v * |its[1..]|;
    }
  }

  /** One order's rows: as many as its items, at least one, each carrying
      the order's value, user and (when present) an item's quantity. */
  lemma LinhasDoPedidoAggregates(p: Pedido, itens: seq<ItemPedido>)
    ensures SqlCount(LinhasDoPedido(p, itens), ColPedidoId) == LinhasPorPedido(p, itens)
    ensures SumNullAsZero(LinhasDoPedido(p, itens), ColValor) == (p.valorTotal + p.valorFrete) * LinhasPorPedido(p, itens)
    ensures SumNullAsZero(LinhasDoPedido(p, itens), ColQuantidade) == SomaQuantidades(ItensDoPedido(itens, p.id))
    ensures SqlDistinct(LinhasDoPedido(p, itens), ColUsuarioId) == {p.usuarioId}
  {
    ComItensAggregates(p, ItensDoPedido(itens, p.id));
  }

  /** The aggregates over the joined rows, in terms of the orders of the
      event: a row per item, and one row for an order without items. */
  lemma {:induction false} JuncaoAggregates(pedidos: seq<Pedido>, itens: seq<ItemPedido>, eventoId: int)
    ensures SqlCount(Juncao(pedidos, itens, eventoId), ColPedidoId) == LinhasDoEvento(pedidos, itens, eventoId)
    ensures SumNullAsZero(Juncao(pedidos, itens, eventoId), ColValor) == ValorPorLinhas(pedidos, itens, eventoId)
    ensures SumNullAsZero(Juncao(pedidos, itens, eventoId), ColQuantidade) == PedacosDoEvento(pedidos, itens, eventoId)
    ensures SqlDistinct(Juncao(pedidos, itens, eventoId), ColUsuarioId) == UsuariosDoEvento(pedidos, eventoId)
  {
    if pedidos != [] {
      var p := pedidos[0];
      var head := if p.eventoId == eventoId then LinhasDoPedido(p, itens) else [];
      var tail := Juncao(pedidos[1..], itens, eventoId);
      JuncaoAggregates(pedidos[1..], itens, eventoId);
      AggregatesConcat(head, tail, ColPedidoId);
      AggregatesConcat(head, tail, ColValor);
      AggregatesConcat(head, tail, ColQuantidade);
      AggregatesConcat(head, tail, ColUsuarioId);
      assert Juncao(pedidos, itens, eventoId) == head + tail;
      if p.eventoId == eventoId {
        LinhasDoPedidoAggregates(p, itens);
      }
    }
  }

  // ---------------------------------------------------------------------
  // obter_resumo_evento, as written
  // ---------------------------------------------------------------------

  function ObterResumoEvento(t: Tabela, pedidos: seq<Pedido>, itens: seq<ItemPedido>, eventoId: int): (r: Result<ResumoEvento, EventoError>)
    ensures r.Success? <==> eventoId in t
    ensures r.Failure? ==> r.error == NotFound
    ensures r.Success? ==> r.value.evento == t[eventoId]
    ensures r.Success? ==>
              var pedacos := OrZero(SqlSum(Juncao(pedidos, itens, eventoId), ColQuantidade));
              8 * r.value.totalPizzas <= pedacos < 8 * r.value.totalPizzas + 8
  {
    if eventoId !in t then Failure(NotFound)
    else
      var linhas := Juncao(pedidos, itens, eventoId);
      var totalParticipantes := OrZero(Some(|SqlDistinct(linhas, ColUsuarioId)|));
      var totalPedidos := OrZero(Some(SqlCount(linhas, ColPedidoId)));
      var valorTotal := OrZero(SqlSum(linhas, ColValor));
      var totalPedacos := OrZero(SqlSum(linhas, ColQuantidade));
      var totalPizzas := FloorDiv(totalPedacos, PedacosPorPizza);
      Success(ResumoEvento(t[eventoId], totalParticipantes, totalPedidos, totalPizzas, valorTotal))
  }

  /** What the summary reports, per order of the event: participants are the
      distinct users with an order; the order count and the value sum range
      over the joined rows (an order counts once per item, an order without
      items once); the pizzas are the slices of all items divided by 8,
      rounded down. */
  lemma ResumoMeaning(t: Tabela, pedidos: seq<Pedido>, itens: seq<ItemPedido>, eventoId: int)
    requires eventoId in t
    ensures var r := ObterResumoEvento(t, pedidos, itens, eventoId).value;
      && r.evento == t[eventoId]
      && r.totalParticipantes == |UsuariosDoEvento(pedidos, eventoId)|
      && r.totalPedidos == LinhasDoEvento(pedidos, itens, eventoId)
      && r.valorTotal == ValorPorLinhas(pedidos, itens, eventoId)
      && r.totalPizzas == PedacosDoEvento(pedidos, itens, eventoId) / 8
  {
    var linhas := Juncao(pedidos, itens, eventoId);
    JuncaoAggregates(pedidos, itens, eventoId);
    SqlSumMeaning(linhas, ColValor);
    SqlSumMeaning(linhas, ColQuantidade);
  }

  /** An event without orders has an all-zero summary: every NULL aggregate
      becomes 0. */
  lemma ResumoWithoutOrders(t: Tabela, pedidos: seq<Pedido>, itens: seq<ItemPedido>, eventoId: int)
    requires eventoId in t
    requires ContarPedidos(pedidos, eventoId) == 0
    ensures var r := ObterResumoEvento(t, pedidos, itens, eventoId).value;
      r.totalParticipantes == 0 && r.totalPedidos == 0 && r.valorTotal == 0 && r.totalPizzas == 0
  {
    ResumoMeaning(t, pedidos, itens, eventoId);
    NoOrdersNoRows(pedidos, itens, eventoId);
  }

  lemma {:induction false} NoOrdersNoRows(pedidos: seq<Pedido>, itens: seq<ItemPedido>, eventoId: int)
    requires ContarPedidos(pedidos, eventoId) == 0
    ensures UsuariosDoEvento(pedidos, eventoId) == {}
    ensures LinhasDoEvento(pedidos, itens, eventoId) == 0
    ensures ValorPorLinhas(pedidos, itens, eventoId) == 0
    ensures PedacosDoEvento(pedidos, itens, eventoId) == 0
  {
    if pedidos != [] {
      NoOrdersNoRows(pedidos[1..], itens, eventoId);
    }
  }

  // ---------------------------------------------------------------------
  // The summary as evidently intended: one count and one value per order
  // ---------------------------------------------------------------------

  /** The joined-row count is at least the order count, and equals it
      exactly when no order of the event has two or more items. */
  lemma {:induction false} RowsVersusOrders(pedidos: seq<Pedido>, itens: seq<ItemPedido>, eventoId: int)
    ensures LinhasDoEvento(pedidos, itens, eventoId) >= ContarPedidos(pedidos, eventoId)
    ensures LinhasDoEvento(pedidos, itens, eventoId) == ContarPedidos(pedidos, eventoId) <==>
            forall i :: 0 <= i < |pedidos| && pedidos[i].eventoId == eventoId ==>
                          |ItensDoPedido(itens, pedidos[i].id)| <= 1
  {
    if pedidos != [] {
      RowsVersusOrders(pedidos[1..], itens, eventoId);
      assert forall i :: 1 <= i < |pedidos| ==> pedidos[1..][i - 1] == pedidos[i];
    }
  }

  /** A summary that counts each order of the event once and adds its value
      and shipping once; participants and pizzas as `ObterResumoEvento`
      computes them. */
  function ObterResumoEventoCorrigido(t: Tabela, pedidos: seq<Pedido>, itens: seq<ItemPedido>, eventoId: int): (r: Result<ResumoEvento, EventoError>)
    ensures r.Success? <==> eventoId in t
    ensures r.Failure? ==> r.error == NotFound
    ensures r.Success? ==> r.value.evento == t[eventoId]
    ensures r.Success? ==> r.value.totalPedidos == ContarPedidos(pedidos, eventoId)
    ensures r.Success? ==> r.value.valorTotal == ValorDosPedidos(pedidos, eventoId)
    ensures r.Success? ==> r.value.totalParticipantes == |UsuariosDoEvento(pedidos, eventoId)|
    ensures r.Success? ==> r.value.totalPizzas == PedacosDoEvento(pedidos, itens, eventoId) / 8
  {
    if eventoId !in t then Failure(NotFound)
    else
      var linhas := Juncao(pedidos, itens, eventoId);
      JuncaoAggregates(pedidos, itens, eventoId);
      SqlSumMeaning(linhas, ColQuantidade);
      var totalPedacos := OrZero(SqlSum(linhas, ColQuantidade));
      Success(ResumoEvento(t[eventoId],
                           |SqlDistinct(linhas, ColUsuarioId)|,
                           ContarPedidos(pedidos, eventoId),
                           FloorDiv(totalPedacos, PedacosPorPizza),
                           ValorDosPedidos(pedidos, eventoId)))
  }

  /** The two summaries agree when no order has two or more items; in
      particular they agree on an event with only single-item orders. */
  lemma ResumosAgree(t: Tabela, pedidos: seq<Pedido>, itens: seq<ItemPedido>, eventoId: int)
    requires eventoId in t
    ensures ObterResumoEvento(t, pedidos, itens, eventoId).value.totalPedidos
            == ObterResumoEventoCorrigido(t, pedidos, itens, eventoId).value.totalPedidos
        <==> forall i :: 0 <= i < |pedidos| && pedidos[i].eventoId == eventoId ==>
                        |ItensDoPedido(itens, pedidos[i].id)| <= 1
  {
    ResumoMeaning(t, pedidos, itens, eventoId);
    RowsVersusOrders(pedidos, itens, eventoId);
  }

  /** One event with a single order of two items: the summary as written
      reports two orders and twice the order's value. */
  lemma TwoItemOrderCountedTwice()
    ensures var t := map[1 := Evento(1, 20240601, "ABERTO", 2024060523, 2024050100)];
            var pedidos := [Pedido(10, 1, 7, 4000, 500, "PENDENTE")];
            var itens := [ItemPedido(100, 10, 3, 5, 500, 2500), ItemPedido(101, 10, 4, 3, 500, 1500)];
            && ContarPedidos(pedidos, 1) == 1
            && ObterResumoEvento(t, pedidos, itens, 1).value.totalPedidos == 2
            && ObterResumoEvento(t, pedidos, itens, 1).value.valorTotal == 9000
            && ObterResumoEventoCorrigido(t, pedidos, itens, 1).value.totalPedidos == 1
            && ObterResumoEventoCorrigido(t, pedidos, itens, 1).value.valorTotal == 4500
  {
    var t := map[1 := Evento(1, 20240601, "ABERTO", 2024060523, 2024050100)];
    var pedidos := [Pedido(10, 1, 7, 4000, 500, "PENDENTE")];
    var itens := [ItemPedido(100, 10, 3, 5, 500, 2500), ItemPedido(101, 10, 4, 3, 500, 1500)];
    ResumoMeaning(t, pedidos, itens, 1);
    assert ItensDoPedido(itens, 10) == itens;
  }

  // ---------------------------------------------------------------------
  // The handlers that change the table
  // ---------------------------------------------------------------------

  /** One `SET column = :value` of an UPDATE, with its parameter. */
  datatype Atribuicao = SetStatus(status: string) | SetDataLimite(dataLimite: Timestamp)

  /** The value the SET list assigns to `status`, if it names it. */
  function StatusAtribuido(sets: seq<Atribuicao>): Option<string> {
    if sets == [] then None
    else if sets[|sets| - 1].SetStatus? then Some(sets[|sets| - 1].status)
    else StatusAtribuido(sets[..|sets| - 1])
  }

  /** The value the SET list assigns to `data_limite`, if it names it. */
  function DataLimiteAtribuida(sets: seq<Atribuicao>): Option<Timestamp> {
    if sets == [] then None
    else if sets[|sets| - 1].SetDataLimite? then Some(sets[|sets| - 1].dataLimite)
    else DataLimiteAtribuida(sets[..|sets| - 1])
  }

  /** `UPDATE eventos SET …` on one row: each column the SET list names
      takes its value, every other column (identity, date and creation
      time among them) keeps its value.  The handler names each column at
      most once, status before deadline (see `AtualizarEvento`), so which
      of two assignments to one column wins never arises there. */
  function Aplicar(e: Evento, sets: seq<Atribuicao>): (r: Evento)
    ensures r == e.(status := StatusAtribuido(sets).GetOr(e.status),
                    dataLimite := DataLimiteAtribuida(sets).GetOr(e.dataLimite))
    decreases |sets|
  {
    if sets == [] then e
    else
      var before := Aplicar(e, sets[..|sets| - 1]);
      match sets[|sets| - 1]
      case SetStatus(s) => before.(status := s)
      case SetDataLimite(d) => before.(dataLimite := d)
  }

  /** Changing the status or deadline of an event keeps the table valid. */
  lemma UpdateKeepsValid(t: Tabela, nextId: int, e: Evento)
    requires TabelaValida(t, nextId)
    requires e.id in t && e.dataEvento == t[e.id].dataEvento && IsStatusEvento(e.status)
    ensures TabelaValida(t[e.id := e], nextId)
  {
    var t' := t[e.id := e];
    forall k, k' | k in t' && k' in t' && t'[k].dataEvento == t'[k'].dataEvento ensures k == k' {
      assert t'[k].dataEvento == t[k].dataEvento && t'[k'].dataEvento == t[k'].dataEvento;
    }
  }

  /** Inserting an ABERTO event on a free date under the next identity
      keeps the table valid with the counter advanced. */
  lemma InsertKeepsValid(t: Tabela, nextId: int, e: Evento)
    requires TabelaValida(t, nextId)
    requires e.id == nextId && e.status == "ABERTO"
    requires forall k :: k in t ==> t[k].dataEvento != e.dataEvento
    ensures TabelaValida(t[e.id := e], nextId + 1)
  {
  }

  class EventStore {
    var eventos: Tabela
    var nextId: int
    const pedidos: seq<Pedido>
    const itens: seq<ItemPedido>

    ghost predicate Valid()
      reads this
    {
      TabelaValida(eventos, nextId)
    }

    constructor (eventos0: Tabela, nextId0: int, pedidos0: seq<Pedido>, itens0: seq<ItemPedido>)
      requires TabelaValida(eventos0, nextId0)
      ensures Valid()
      ensures eventos == eventos0 && nextId == nextId0 && pedidos == pedidos0 && itens == itens0
    {
      eventos := eventos0;
      nextId := nextId0;
      pedidos := pedidos0;
      itens := itens0;
    }

    /** criar_evento: refuses a date that already has an event; otherwise
        inserts one row with status ABERTO and the next identity value. */
    method CriarEvento(req: EventoCreate, now: Timestamp) returns (r: Result<Evento, EventoError>)
      requires Valid()
      modifies this
      ensures Valid()
      ensures r.Failure? <==> exists k :: k in old(eventos) && old(eventos)[k].dataEvento == req.dataEvento
      ensures r.Failure? ==> r.error == DuplicateDate && eventos == old(eventos) && nextId == old(nextId)
      ensures r.Success? ==> r.value == Evento(old(nextId), req.dataEvento, "ABERTO", req.dataLimite, now)
      ensures r.Success? ==> r.value.id !in old(eventos) && eventos == old(eventos)[r.value.id := r.value]
      ensures r.Success? ==> nextId == old(nextId) + 1 && |eventos| == |old(eventos)| + 1
      ensures r.Success? ==> forall k :: k in eventos && eventos[k].dataEvento == req.dataEvento ==> k == r.value.id
    {
      if exists k :: k in eventos && eventos[k].dataEvento == req.dataEvento {
        r := Failure(DuplicateDate);
        return;
      }
      var e := Evento(nextId, req.dataEvento, "ABERTO", req.dataLimite, now);
      assert nextId !in eventos;
      InsertKeepsValid(eventos, nextId, e);
      eventos := eventos[nextId := e];
      nextId := nextId + 1;
      r := Success(e);
    }

    /** atualizar_evento: NotFound for a missing id, then NoFields when the
        request carries neither field; otherwise assigns exactly the fields
        given. */
    method AtualizarEvento(id: int, req: EventoUpdate) returns (r: Result<Evento, EventoError>)
      requires Valid() && ValidEventoUpdate(req)
      modifies this
      ensures Valid() && nextId == old(nextId)
      ensures id !in old(eventos) ==> r == Failure(NotFound)
      ensures id in old(eventos) && req.status.None? && req.dataLimite.None? ==> r == Failure(NoFields)
      ensures r.Failure? ==> eventos == old(eventos)
      ensures id in old(eventos) && (req.status.Some? || req.dataLimite.Some?) ==> r.Success?
      ensures r.Success? ==>
                var e := old(eventos)[id];
                && r.value == e.(status := req.status.GetOr(e.status), dataLimite := req.dataLimite.GetOr(e.dataLimite))
                && eventos == old(eventos)[id := r.value]
    {
      if id !in eventos {
        r := Failure(NotFound);
        return;
      }
      var updates: seq<Atribuicao> := [];
      if req.status.Some? {
        updates := updates + [SetStatus(req.status.value)];
      }
      if req.dataLimite.Some? {
        updates := updates + [SetDataLimite(req.dataLimite.value)];
      }
      if updates == [] {
        r := Failure(NoFields);
        return;
      }
      assert StatusAtribuido(updates) == req.status && DataLimiteAtribuida(updates) == req.dataLimite by {
        if req.status.Some? && req.dataLimite.Some? {
          assert updates[..1] == [SetStatus(req.status.value)];
        }
      }
      var e := Aplicar(eventos[id], updates);
      UpdateKeepsValid(eventos, nextId, e);
      eventos := eventos[id := e];
      r := Success(e);
    }

    /** deletar_evento: refuses while any order references the event (even
        a missing one), then NotFound for a missing id; otherwise removes
        exactly that row. */
    method DeletarEvento(id: int) returns (r: Outcome<EventoError>)
      requires Valid()
      modifies this
      ensures Valid() && nextId == old(nextId)
      ensures ContarPedidos(pedidos, id) > 0 ==> r == Fail(HasOrders(ContarPedidos(pedidos, id)))
      ensures ContarPedidos(pedidos, id) == 0 && id !in old(eventos) ==> r == Fail(NotFound)
      ensures r.Fail? ==> eventos == old(eventos)
      ensures r.Pass? ==> id in old(eventos) && eventos == old(eventos) - {id}
      ensures r.Pass? <==> ContarPedidos(pedidos, id) == 0 && id in old(eventos)
    {
      var n := ContarPedidos(pedidos, id);
      if n > 0 {
        r := Fail(HasOrders(n));
        return;
      }
      if id !in eventos {
        r := Fail(NotFound);
        return;
      }
      eventos := eventos - {id};
      r := Pass;
    }
  }
}
