/**
 * The `waste_records` table: one row per redeemed token, carrying the
 * credit, the lot it was batched into, its payout and the status dates.
 * Queries are functions of the table contents; `RecordTable` holds the
 * contents and changes them in place.
 */
module WasteRecords {
  import opened Wrappers
  import opened Domain
  import opened Collections

  datatype WasteRecord = WasteRecord(
    id: nat,
    userId: UserId,
    token: string,
    categoria: Categoria,
    peso: real,
    credito: real,
    loteId: Option<nat>,
    valorProporcional: real,
    status: RecordStatus,
    dataCriacao: Timestamp,
    dataValidacao: Option<Timestamp>,
    dataSolicitacaoPagamento: Option<Timestamp>,
    dataPagamento: Option<Timestamp>)

  /** Selectors used with `Sum` and as sort keys. */
  function Peso(r: WasteRecord): real { r.peso }
  function Credito(r: WasteRecord): real { r.credito }
  function Valor(r: WasteRecord): real { r.valorProporcional }
  function OldestFirst(r: WasteRecord): int { r.dataCriacao }
  function NewestFirst(r: WasteRecord): int { -r.dataCriacao }

  /**
   * A row as the driver hands it over: every column already typed except
   * `peso` and `credito`, which arrive as numeric text (None: unparseable
   * or NULL).
   */
  datatype RawWasteRecord = RawWasteRecord(row: WasteRecord, peso: Option<real>, credito: Option<real>)

  /** Converts the numeric columns (unparseable or zero gives 0) and passes a missing row through. */
  function ParseNumericFields(raw: Option<RawWasteRecord>): (r: Option<WasteRecord>)
    ensures r.None? <==> raw.None?
    ensures r.Some? ==> r.value == raw.value.row.(peso := r.value.peso, credito := r.value.credito)
    ensures r.Some? && raw.value.peso.Some? ==> r.value.peso == raw.value.peso.value
    ensures r.Some? && raw.value.peso.None? ==> r.value.peso == 0.0
    ensures r.Some? && raw.value.credito.Some? ==> r.value.credito == raw.value.credito.value
    ensures r.Some? && raw.value.credito.None? ==> r.value.credito == 0.0
  {
    match raw
    case None => None
    case Some(w) => Some(w.row.(peso := ParseNumeric(w.peso, 0.0), credito := ParseNumeric(w.credito, 0.0)))
  }

  // ---------------------------------------------------------------------------
  // Queries
  // ---------------------------------------------------------------------------

  /** `SELECT * ... WHERE id = ?`: the first row with that id (the same first-match search each table has). */
  function FindById(rows: seq<WasteRecord>, id: nat): (r: Option<WasteRecord>)
    ensures r.Some? ==> r.value in rows && r.value.id == id
    ensures r.None? <==> forall i :: 0 <= i < |rows| ==> rows[i].id != id
  {
    if |rows| == 0 then None
    else if rows[0].id == id then Some(rows[0])
    else FindById(rows[1..], id)
  }

  /** `SELECT * ... WHERE token = ?`: the first row redeemed with that code (the token table's search, over records). */
  function FindByToken(rows: seq<WasteRecord>, code: string): (r: Option<WasteRecord>)
    ensures r.Some? ==> r.value in rows && r.value.token == code
    ensures r.None? <==> forall i :: 0 <= i < |rows| ==> rows[i].token != code
  {
    if |rows| == 0 then None
    else if rows[0].token == code then Some(rows[0])
    else FindByToken(rows[1..], code)
  }

  /** Sorted by `NewestFirst`: creation dates never increase along the list. */
  lemma NewestFirstOrder(r: seq<WasteRecord>)
    requires SortedBy(r, NewestFirst)
    ensures forall i, j :: 0 <= i < j < |r| ==> r[i].dataCriacao >= r[j].dataCriacao
  {
    forall i, j | 0 <= i < j < |r| ensures r[i].dataCriacao >= r[j].dataCriacao {
      assert NewestFirst(r[i]) <= NewestFirst(r[j]);
    }
  }

  /** Sorted by `OldestFirst`: creation dates never decrease along the list. */
  lemma OldestFirstOrder(r: seq<WasteRecord>)
    requires SortedBy(r, OldestFirst)
    ensures forall i, j :: 0 <= i < j < |r| ==> r[i].dataCriacao <= r[j].dataCriacao
  {
    forall i, j | 0 <= i < j < |r| ensures r[i].dataCriacao <= r[j].dataCriacao {
      assert OldestFirst(r[i]) <= OldestFirst(r[j]);
    }
  }

  /** The rows of one user, in table order. */
  function FilterUser(rows: seq<WasteRecord>, u: UserId): (r: seq<WasteRecord>)
    ensures forall x :: x in r <==> x in rows && x.userId == u
    ensures |r| <= |rows|
  {
    if |rows| == 0 then []
    else
      var init := FilterUser(rows[..|rows| - 1], u);
      assert rows == rows[..|rows| - 1] + [rows[|rows| - 1]];
      if rows[|rows| - 1].userId == u then init + [rows[|rows| - 1]] else init
  }

  /** The rows in one status, in table order. */
  function FilterStatus(rows: seq<WasteRecord>, s: RecordStatus): (r: seq<WasteRecord>)
    ensures forall x :: x in r <==> x in rows && x.status == s
    ensures |r| <= |rows|
  {
    if |rows| == 0 then []
    else
      var init := FilterStatus(rows[..|rows| - 1], s);
      assert rows == rows[..|rows| - 1] + [rows[|rows| - 1]];
      if rows[|rows| - 1].status == s then init + [rows[|rows| - 1]] else init
  }

  /** The rows batched into one lot, in table order. */
  function FilterLote(rows: seq<WasteRecord>, loteId: nat): (r: seq<WasteRecord>)
    ensures forall x :: x in r <==> x in rows && x.loteId == Some(loteId)
    ensures |r| <= |rows|
  {
    if |rows| == 0 then []
    else
      var init := FilterLote(rows[..|rows| - 1], loteId);
      assert rows == rows[..|rows| - 1] + [rows[|rows| - 1]];
      if rows[|rows| - 1].loteId == Some(loteId) then init + [rows[|rows| - 1]] else init
  }

  /** `findByUserId`: that user's rows, newest `dataCriacao` first. */
  function FindByUserId(rows: seq<WasteRecord>, u: UserId): (r: seq<WasteRecord>)
    ensures forall x :: x in r <==> x in rows && x.userId == u
    ensures multiset(r) == multiset(FilterUser(rows, u))
    ensures forall i, j :: 0 <= i < j < |r| ==> r[i].dataCriacao >= r[j].dataCriacao
  {
    var r := SortBy(FilterUser(rows, u), NewestFirst);
    MultisetMembers(r, FilterUser(rows, u));
    NewestFirstOrder(r);
    r
  }

  /** `findByStatus`: the rows in that status, newest first. */
  function FindByStatus(rows: seq<WasteRecord>, s: RecordStatus): (r: seq<WasteRecord>)
    ensures forall x :: x in r <==> x in rows && x.status == s
    ensures multiset(r) == multiset(FilterStatus(rows, s))
    ensures forall i, j :: 0 <= i < j < |r| ==> r[i].dataCriacao >= r[j].dataCriacao
  {
    var r := SortBy(FilterStatus(rows, s), NewestFirst);
    MultisetMembers(r, FilterStatus(rows, s));
    NewestFirstOrder(r);
    r
  }

  /** `findByUserIdAndStatus`: one user's rows in one status, newest first. */
  function FindByUserIdAndStatus(rows: seq<WasteRecord>, u: UserId, s: RecordStatus): (r: seq<WasteRecord>)
    ensures forall x :: x in r <==> x in rows && x.userId == u && x.status == s
    ensures multiset(r) == multiset(FilterStatus(FilterUser(rows, u), s))
    ensures forall i, j :: 0 <= i < j < |r| ==> r[i].dataCriacao >= r[j].dataCriacao
  {
    var f := FilterStatus(FilterUser(rows, u), s);
    var r := SortBy(f, NewestFirst);
    MultisetMembers(r, f);
    NewestFirstOrder(r);
    r
  }

  /** `findAll`: every row, newest first. */
  function FindAll(rows: seq<WasteRecord>): (r: seq<WasteRecord>)
    ensures multiset(r) == multiset(rows)
    ensures forall i, j :: 0 <= i < j < |r| ==> r[i].dataCriacao >= r[j].dataCriacao
  {
    var r := SortBy(rows, NewestFirst);
    NewestFirstOrder(r);
    r
  }

  /** `SELECT * ... WHERE status = 'VALIDADO' ORDER BY dataCriacao ASC`: the records not yet batched, oldest first. */
  function FindValidadosOldestFirst(rows: seq<WasteRecord>): (r: seq<WasteRecord>)
    ensures forall x :: x in r <==> x in rows && x.status == VALIDADO
    ensures multiset(r) == multiset(FilterStatus(rows, VALIDADO))
    ensures forall i, j :: 0 <= i < j < |r| ==> r[i].dataCriacao <= r[j].dataCriacao
  {
    var r := SortBy(FilterStatus(rows, VALIDADO), OldestFirst);
    MultisetMembers(r, FilterStatus(rows, VALIDADO));
    OldestFirstOrder(r);
    r
  }

  /** A status filter keeps every copy of a row in that status and none of the others. */
  lemma {:induction false} FilterStatusMultiset(rows: seq<WasteRecord>, st: RecordStatus)
    ensures forall x :: multiset(FilterStatus(rows, st))[x] == if x.status == st then multiset(rows)[x] else 0
  {
    if |rows| > 0 {
      var init := rows[..|rows| - 1];
      assert rows == init + [rows[|rows| - 1]];
      FilterStatusMultiset(init, st);
    }
  }

  /** Weight sums agree between a filter and its sorted query: sorting moves rows, it adds or drops none. */
  lemma FindByStatusSums(rows: seq<WasteRecord>, s: RecordStatus)
    ensures Sum(FindByStatus(rows, s), Peso) == Sum(FilterStatus(rows, s), Peso)
    ensures Sum(FindByStatus(rows, s), Valor) == Sum(FilterStatus(rows, s), Valor)
    ensures |FindByStatus(rows, s)| == |FilterStatus(rows, s)|
  {
    var r := FindByStatus(rows, s);
    SumPermutation(r, FilterStatus(rows, s), Peso);
    SumPermutation(r, FilterStatus(rows, s), Valor);
    assert |multiset(r)| == |multiset(FilterStatus(rows, s))|;
  }

  // ---------------------------------------------------------------------------
  // Row updates
  // ---------------------------------------------------------------------------

  /** The optional dates `updateStatus` may be given. */
  datatype StatusDates = StatusDates(dataSolicitacaoPagamento: Option<Timestamp>, dataPagamento: Option<Timestamp>)

  const NoDates := StatusDates(None, None)

  /**
   * The row `updateStatus` writes: the new status whatever the old one was;
   * `dataSolicitacaoPagamento` becomes the supplied date, or now when moving
   * to PENDENTE_PAGAMENTO without one; `dataPagamento` likewise with PAGO;
   * every other column is kept.
   */
  function StatusUpdated(w: WasteRecord, status: RecordStatus, extra: StatusDates, now: Timestamp): (u: WasteRecord)
    ensures u.status == status
    ensures u == w.(status := status, dataSolicitacaoPagamento := u.dataSolicitacaoPagamento, dataPagamento := u.dataPagamento)
    ensures extra.dataSolicitacaoPagamento.Some? ==> u.dataSolicitacaoPagamento == extra.dataSolicitacaoPagamento
    ensures extra.dataSolicitacaoPagamento.None? && status == PENDENTE_PAGAMENTO ==> u.dataSolicitacaoPagamento == Some(now)
    ensures extra.dataSolicitacaoPagamento.None? && status != PENDENTE_PAGAMENTO ==> u.dataSolicitacaoPagamento == w.dataSolicitacaoPagamento
    ensures extra.dataPagamento.Some? ==> u.dataPagamento == extra.dataPagamento
    ensures extra.dataPagamento.None? && status == PAGO ==> u.dataPagamento == Some(now)
    ensures extra.dataPagamento.None? && status != PAGO ==> u.dataPagamento == w.dataPagamento
  {
    var solicitacao :=
      if status == PENDENTE_PAGAMENTO && extra.dataSolicitacaoPagamento.None? then Some(now)
      else if extra.dataSolicitacaoPagamento.Some? then extra.dataSolicitacaoPagamento
      else w.dataSolicitacaoPagamento;
    var pagamento :=
      if status == PAGO && extra.dataPagamento.None? then Some(now)
      else if extra.dataPagamento.Some? then extra.dataPagamento
      else w.dataPagamento;
    w.(status := status, dataSolicitacaoPagamento := solicitacao, dataPagamento := pagamento)
  }

  /** No transition is refused: even a paid record can be sent back to VALIDADO. */
  lemma UpdateStatusMovesBackward(w: WasteRecord, now: Timestamp)
    requires w.status == PAGO
    ensures StatusUpdated(w, VALIDADO, NoDates, now).status == VALIDADO
    ensures Rank(StatusUpdated(w, VALIDADO, NoDates, now).status) < Rank(w.status)
    ensures StatusUpdated(w, VALIDADO, NoDates, now).dataPagamento == w.dataPagamento
  {
  }

  /** The table after `updateStatus(id, …)`: the row with that id rewritten, every other row kept. */
  function UpdateWhereId(rows: seq<WasteRecord>, id: nat, status: RecordStatus, extra: StatusDates, now: Timestamp): (r: seq<WasteRecord>)
    ensures |r| == |rows|
    ensures forall i :: 0 <= i < |rows| && rows[i].id != id ==> r[i] == rows[i]
    ensures forall i :: 0 <= i < |rows| && rows[i].id == id ==> r[i] == StatusUpdated(rows[i], status, extra, now)
    ensures forall i :: 0 <= i < |rows| ==> r[i].id == rows[i].id
  {
    seq(|rows|, i requires 0 <= i < |rows| => if rows[i].id == id then StatusUpdated(rows[i], status, extra, now) else rows[i])
  }

  /** The row `updateMany` writes: the same status, and dataPagamento now for PAGO, otherwise cleared. */
  function BulkUpdated(w: WasteRecord, status: RecordStatus, now: Timestamp): (u: WasteRecord)
    ensures u.status == status
    ensures u.dataPagamento == (if status == PAGO then Some(now) else None)
    ensures u == w.(status := status, dataPagamento := u.dataPagamento)
  {
    w.(status := status, dataPagamento := if status == PAGO then Some(now) else None)
  }

  function UpdateWhereIdIn(rows: seq<WasteRecord>, ids: set<nat>, status: RecordStatus, now: Timestamp): (r: seq<WasteRecord>)
    ensures |r| == |rows|
    ensures forall i :: 0 <= i < |rows| && rows[i].id !in ids ==> r[i] == rows[i]
    ensures forall i :: 0 <= i < |rows| && rows[i].id in ids ==> r[i] == BulkUpdated(rows[i], status, now)
  {
    seq(|rows|, i requires 0 <= i < |rows| => if rows[i].id in ids then BulkUpdated(rows[i], status, now) else rows[i])
  }

  /** Number of rows whose id is in `ids`. */
  function CountIdsIn(rows: seq<WasteRecord>, ids: set<nat>): (n: nat)
    ensures n <= |rows|
    ensures n == 0 <==> forall i :: 0 <= i < |rows| ==> rows[i].id !in ids
  {
    if |rows| == 0 then 0
    else CountIdsIn(rows[..|rows| - 1], ids) + (if rows[|rows| - 1].id in ids then 1 else 0)
  }

  /** The rows whose id is in `ids`, in table order (the `RETURNING *` of a bulk update). */
  function FilterIdsIn(rows: seq<WasteRecord>, ids: set<nat>): (r: seq<WasteRecord>)
    ensures forall x :: x in r <==> x in rows && x.id in ids
    ensures |r| == CountIdsIn(rows, ids)
  {
    if |rows| == 0 then []
    else
      var init := FilterIdsIn(rows[..|rows| - 1], ids);
      assert rows == rows[..|rows| - 1] + [rows[|rows| - 1]];
      if rows[|rows| - 1].id in ids then init + [rows[|rows| - 1]] else init
  }

  /** A bulk update keeps every id, so the rows it reports are exactly the rows it changed. */
  lemma UpdateWhereIdInCount(rows: seq<WasteRecord>, ids: set<nat>, status: RecordStatus, now: Timestamp)
    ensures CountIdsIn(UpdateWhereIdIn(rows, ids, status, now), ids) == CountIdsIn(rows, ids)
    ensures forall x :: x in FilterIdsIn(UpdateWhereIdIn(rows, ids, status, now), ids) ==> x.status == status
  {
    var r := UpdateWhereIdIn(rows, ids, status, now);
    IdsPreservedCount(rows, r, ids);
  }

  lemma {:induction false} IdsPreservedCount(a: seq<WasteRecord>, b: seq<WasteRecord>, ids: set<nat>)
    requires |a| == |b|
    requires forall i :: 0 <= i < |a| ==> a[i].id == b[i].id
    ensures CountIdsIn(a, ids) == CountIdsIn(b, ids)
  {
    if |a| > 0 {
      IdsPreservedCount(a[..|a| - 1], b[..|b| - 1], ids);
    }
  }

  /** The ids carried by a sequence of rows. */
  function IdsOf(s: seq<WasteRecord>): (ids: set<nat>)
    ensures forall x :: x in s ==> x.id in ids
    ensures forall n :: n in ids ==> exists x :: x in s && x.id == n
  {
    set x | x in s :: x.id
  }

  lemma IdsOfSnoc(s: seq<WasteRecord>, j: nat)
    requires j < |s|
    ensures IdsOf(s[..j + 1]) == IdsOf(s[..j]) + {s[j].id}
  {
    TakeSnoc(s, j);
    assert forall x :: x in s[..j + 1] <==> x in s[..j] || x == s[j];
  }

  /** The row a batching writes: sent to the validator as part of lot `loteId`. */
  function SentToLote(w: WasteRecord, loteId: nat): (u: WasteRecord)
    ensures u.status == ENVIADO_VALIDADORA && u.loteId == Some(loteId)
    ensures u == w.(status := u.status, loteId := u.loteId)
  {
    w.(status := ENVIADO_VALIDADORA, loteId := Some(loteId))
  }

  /** The row a settlement writes: released for payment with payout `valor`. */
  function Released(w: WasteRecord, valor: real): (u: WasteRecord)
    ensures u.status == LIBERADO_PAGAMENTO && u.valorProporcional == valor
    ensures u == w.(status := u.status, valorProporcional := valor)
  {
    w.(status := LIBERADO_PAGAMENTO, valorProporcional := valor)
  }

  function SendWhereId(rows: seq<WasteRecord>, id: nat, loteId: nat): (r: seq<WasteRecord>)
    ensures |r| == |rows|
    ensures forall i :: 0 <= i < |rows| && rows[i].id != id ==> r[i] == rows[i]
    ensures forall i :: 0 <= i < |rows| && rows[i].id == id ==> r[i] == SentToLote(rows[i], loteId)
  {
    seq(|rows|, i requires 0 <= i < |rows| => if rows[i].id == id then SentToLote(rows[i], loteId) else rows[i])
  }

  function ReleaseWhereId(rows: seq<WasteRecord>, id: nat, valor: real): (r: seq<WasteRecord>)
    ensures |r| == |rows|
    ensures forall i :: 0 <= i < |rows| && rows[i].id != id ==> r[i] == rows[i]
    ensures forall i :: 0 <= i < |rows| && rows[i].id == id ==> r[i] == Released(rows[i], valor)
  {
    seq(|rows|, i requires 0 <= i < |rows| => if rows[i].id == id then Released(rows[i], valor) else rows[i])
  }

  /** The rows whose id differs from `id`: what `DELETE ... WHERE id = ?` leaves. */
  function WithoutId(rows: seq<WasteRecord>, id: nat): (r: seq<WasteRecord>)
    ensures forall x :: x in r <==> x in rows && x.id != id
    ensures |r| <= |rows|
  {
    if |rows| == 0 then []
    else
      var init := WithoutId(rows[..|rows| - 1], id);
      assert rows == rows[..|rows| - 1] + [rows[|rows| - 1]];
      if rows[|rows| - 1].id != id then init + [rows[|rows| - 1]] else init
  }

  /** Deleting by id keeps every other row exactly as often as it occurred. */
  lemma {:induction false} WithoutIdMultiset(rows: seq<WasteRecord>, id: nat, x: WasteRecord)
    ensures multiset(WithoutId(rows, id))[x] == if x.id == id then 0 else multiset(rows)[x]
  {
    if |rows| > 0 {
      var n := |rows| - 1;
      WithoutIdMultiset(rows[..n], id, x);
      assert rows == rows[..n] + [rows[n]];
    }
  }

  /** Ids are unique and below the allocation counter. */
  ghost predicate IdsBelow(rows: seq<WasteRecord>, nextId: nat)
  {
    (forall i :: 0 <= i < |rows| ==> rows[i].id < nextId) &&
    (forall i, j :: 0 <= i < j < |rows| ==> rows[i].id != rows[j].id)
  }

  /** With unique ids, the row `FindById` returns sits at the only index carrying that id. */
  lemma FindByIdAt(rows: seq<WasteRecord>, i: nat)
    requires i < |rows|
    requires forall a, b :: 0 <= a < b < |rows| ==> rows[a].id != rows[b].id
    ensures FindById(rows, rows[i].id) == Some(rows[i])
  {
    if i > 0 {
      assert rows[0].id != rows[i].id;
      assert rows[1..][i - 1] == rows[i];
      FindByIdAt(rows[1..], i - 1);
    }
  }

  /** A row inserted under the next id keeps ids unique and allocated, and is found under its id. */
  lemma AppendKeepsIds(rows: seq<WasteRecord>, nextId: nat, rec: WasteRecord)
    requires IdsBelow(rows, nextId) && rec.id == nextId
    ensures IdsBelow(rows + [rec], nextId + 1)
    ensures FindById(rows + [rec], rec.id) == Some(rec)
  {
    var r := rows + [rec];
    assert forall i :: 0 <= i < |r| ==> r[i] == if i < |rows| then rows[i] else rec;
    FindByIdAt(r, |r| - 1);
  }

  /** A row appended under a code no row carries is the one `findByToken` returns. */
  lemma {:induction false} FindByTokenAppendNew(rows: seq<WasteRecord>, rec: WasteRecord)
    requires FindByToken(rows, rec.token).None?
    ensures FindByToken(rows + [rec], rec.token) == Some(rec)
  {
    if |rows| > 0 {
      assert (rows + [rec])[1..] == rows[1..] + [rec];
      FindByTokenAppendNew(rows[1..], rec);
    }
  }

  /** Rewriting one row's status keeps every id. */
  lemma UpdateKeepsIds(rows: seq<WasteRecord>, nextId: nat, id: nat, status: RecordStatus, extra: StatusDates, now: Timestamp)
    requires IdsBelow(rows, nextId)
    ensures IdsBelow(UpdateWhereId(rows, id, status, extra, now), nextId)
  {
    var r := UpdateWhereId(rows, id, status, extra, now);
    assert forall i :: 0 <= i < |rows| ==> r[i].id == rows[i].id;
  }

  /** After the rewrite the id finds the rewritten row, or nothing when no row had that id. */
  lemma UpdateFound(rows: seq<WasteRecord>, id: nat, status: RecordStatus, extra: StatusDates, now: Timestamp)
    requires forall a, b :: 0 <= a < b < |rows| ==> rows[a].id != rows[b].id
    ensures (FindById(UpdateWhereId(rows, id, status, extra, now), id) ==
      if FindById(rows, id).Some? then Some(StatusUpdated(FindById(rows, id).value, status, extra, now)) else None)
  {
    var r := UpdateWhereId(rows, id, status, extra, now);
    assert forall i :: 0 <= i < |rows| ==> r[i].id == rows[i].id;
    if FindById(rows, id).Some? {
      var i :| 0 <= i < |rows| && rows[i] == FindById(rows, id).value;
      FindByIdAt(r, i);
    }
  }

  /** Rewriting the listed rows keeps every id. */
  lemma UpdateManyKeepsIds(rows: seq<WasteRecord>, nextId: nat, ids: set<nat>, status: RecordStatus, now: Timestamp)
    requires IdsBelow(rows, nextId)
    ensures IdsBelow(UpdateWhereIdIn(rows, ids, status, now), nextId)
  {
    var r := UpdateWhereIdIn(rows, ids, status, now);
    assert forall i :: 0 <= i < |rows| ==> r[i].id == rows[i].id;
  }

  /** The fields `create` takes; the optional ones get the defaults below. */
  datatype NewRecord = NewRecord(
    userId: UserId,
    token: string,
    categoria: Categoria,
    peso: real,
    credito: real,
    status: Option<RecordStatus>,
    dataValidacao: Option<Timestamp>,
    dataSolicitacaoPagamento: Option<Timestamp>,
    dataPagamento: Option<Timestamp>)

  /** The table; `nextId` stands in for the generated primary key. */
  class RecordTable {
    var rows: seq<WasteRecord>
    var nextId: nat

    ghost predicate Valid()
      reads this
    {
      IdsBelow(rows, nextId)
    }

    constructor ()
      ensures Valid() && rows == []
    {
      rows := [];
      nextId := 0;
    }

    /**
     * `create`: inserts a row with status VALIDADO unless one is given,
     * dataValidacao now unless given, payment dates as given (else null),
     * no lot and a zero payout, and returns it. The token column is UNIQUE:
     * when a record already carries the code the INSERT throws, which is
     * None here with the table unchanged.
     */
    method Create(data: NewRecord, now: Timestamp) returns (rec: Option<WasteRecord>)
      requires Valid()
      modifies this
      ensures Valid()
      ensures rec.None? <==> old(FindByToken(rows, data.token)).Some?
      ensures rec.None? ==> rows == old(rows) && nextId == old(nextId)
      ensures rec.Some? ==> rec.value.id == old(nextId) && rec.value.userId == data.userId && rec.value.token == data.token
      ensures rec.Some? ==> rec.value.categoria == data.categoria && rec.value.peso == data.peso && rec.value.credito == data.credito
      ensures rec.Some? ==> rec.value.status == data.status.GetOr(VALIDADO)
      ensures rec.Some? ==> rec.value.dataValidacao == Some(data.dataValidacao.GetOr(now))
      ensures rec.Some? ==> rec.value.dataSolicitacaoPagamento == data.dataSolicitacaoPagamento
      ensures rec.Some? ==> rec.value.dataPagamento == data.dataPagamento
      ensures rec.Some? ==> rec.value.loteId == None && rec.value.valorProporcional == 0.0 && rec.value.dataCriacao == now
      ensures rec.Some? ==> rows == old(rows) + [rec.value]
      ensures rec.Some? ==> FindById(rows, rec.value.id) == rec && FindByToken(rows, data.token) == rec
    {
      if FindByToken(rows, data.token).Some? {
        return None;
      }
      var r := WasteRecord(nextId, data.userId, data.token, data.categoria, data.peso, data.credito,
                           None, 0.0, data.status.GetOr(VALIDADO), now,
                           Some(data.dataValidacao.GetOr(now)), data.dataSolicitacaoPagamento, data.dataPagamento);
      AppendKeepsIds(rows, nextId, r);
      FindByTokenAppendNew(rows, r);
      rows := rows + [r];
      nextId := nextId + 1;
      rec := Some(r);
    }

    /**
     * `updateStatus`: rewrites the row with that id as `StatusUpdated` says,
     * leaves every other row alone, and returns the updated row (None when no
     * row has that id).
     */
    method UpdateStatus(id: nat, status: RecordStatus, extra: StatusDates, now: Timestamp) returns (updated: Option<WasteRecord>)
      requires Valid()
      modifies this
      ensures Valid() && nextId == old(nextId)
      ensures rows == UpdateWhereId(old(rows), id, status, extra, now)
      ensures updated.None? <==> old(FindById(rows, id)).None?
      ensures updated.Some? ==> updated == Some(StatusUpdated(old(FindById(rows, id)).value, status, extra, now))
      ensures updated == FindById(rows, id)
    {
      UpdateKeepsIds(rows, nextId, id, status, extra, now);
      UpdateFound(rows, id, status, extra, now);
      rows := UpdateWhereId(rows, id, status, extra, now);
      updated := FindById(rows, id);
    }

    /**
     * `updateMany`: every row whose id is listed gets the same status and a
     * dataPagamento of now for PAGO (null otherwise); returns the number of
     * matched rows and those rows. An empty list builds `IN ()`, which the
     * database rejects: None, and nothing changes.
     */
    method UpdateMany(ids: seq<nat>, status: RecordStatus, now: Timestamp) returns (result: Option<(nat, seq<WasteRecord>)>)
      requires Valid()
      modifies this
      ensures Valid() && nextId == old(nextId)
      ensures |ids| == 0 ==> result.None? && rows == old(rows)
      ensures |ids| > 0 ==> rows == UpdateWhereIdIn(old(rows), (set i | i in ids), status, now)
      ensures |ids| > 0 ==> result.Some? && result.value.0 == CountIdsIn(old(rows), (set i | i in ids))
      ensures result.Some? ==> result.value.1 == FilterIdsIn(rows, (set i | i in ids))
    {
      if |ids| == 0 {
        return None;
      }
      var idSet := set i | i in ids;
      UpdateManyKeepsIds(rows, nextId, idSet, status, now);
      UpdateWhereIdInCount(rows, idSet, status, now);
      rows := UpdateWhereIdIn(rows, idSet, status, now);
      result := Some((CountIdsIn(rows, idSet), FilterIdsIn(rows, idSet)));
    }

    /** `UPDATE waste_records SET status = 'ENVIADO_VALIDADORA', loteId = ? WHERE id = ?`. */
    method SendToLote(id: nat, loteId: nat)
      requires Valid()
      modifies this
      ensures Valid() && nextId == old(nextId)
      ensures rows == SendWhereId(old(rows), id, loteId)
    {
      rows := SendWhereId(rows, id, loteId);
    }

    /** `UPDATE waste_records SET status = 'LIBERADO_PAGAMENTO', valorProporcional = ? WHERE id = ?`. */
    method Release(id: nat, valor: real)
      requires Valid()
      modifies this
      ensures Valid() && nextId == old(nextId)
      ensures rows == ReleaseWhereId(old(rows), id, valor)
    {
      rows := ReleaseWhereId(rows, id, valor);
    }

    /** `delete`: removes the row with that id; `changes` is 1 when it existed, else 0. */
    method Delete(id: nat) returns (changes: nat)
      requires Valid()
      modifies this
      ensures Valid() && nextId == old(nextId)
      ensures rows == WithoutId(old(rows), id)
      ensures changes == (if old(FindById(rows, id)).Some? then 1 else 0)
      ensures FindById(rows, id).None?
    {
      changes := if FindById(rows, id).Some? then 1 else 0;
      WithoutIdKeepsIds(rows, nextId, id);
      rows := WithoutId(rows, id);
    }
  }

  /** Deleting keeps ids unique and allocated, and leaves no row with the deleted id. */
  lemma WithoutIdKeepsIds(rows: seq<WasteRecord>, nextId: nat, id: nat)
    requires IdsBelow(rows, nextId)
    ensures IdsBelow(WithoutId(rows, id), nextId)
    ensures FindById(WithoutId(rows, id), id).None?
  {
    var r := WithoutId(rows, id);
    forall i | 0 <= i < |r| ensures r[i].id < nextId && r[i].id != id {
      assert r[i] in r;
    }
    WithoutIdUnique(rows, id);
  }

  /** Deleting keeps ids unique (every kept row is an old row, in the same order). */
  lemma {:induction false} WithoutIdUnique(rows: seq<WasteRecord>, id: nat)
    requires forall i, j :: 0 <= i < j < |rows| ==> rows[i].id != rows[j].id
    ensures forall i, j :: 0 <= i < j < |WithoutId(rows, id)| ==> WithoutId(rows, id)[i].id != WithoutId(rows, id)[j].id
  {
    if |rows| > 0 {
      var init := rows[..|rows| - 1];
      WithoutIdUnique(init, id);
      var last := rows[|rows| - 1];
      forall x | x in WithoutId(init, id) ensures x.id != last.id {
        var k :| 0 <= k < |init| && init[k] == x;
      }
    }
  }
}
