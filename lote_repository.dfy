/**
 * The `lotes` table: batches of waste records sent to a validating company,
 * with the weight they carry and, once paid, the amount received and the
 * amount passed on to depositors.
 */
module Lotes {
  import opened Wrappers
  import opened Domain
  import opened Collections
  import WasteRecords

  /** Share of a payment the platform keeps, in percent, unless the row says otherwise. */
  const DefaultPercentualEmpresa: real := 20.0

  datatype Lote = Lote(
    id: nat,
    pesoMaximo: real,
    pesoUtilizado: real,
    quantidadeTokens: int,
    valorPago: real,
    percentualEmpresa: real,
    valorDistribuido: real,
    status: LoteStatus,
    dataCriacao: Timestamp,
    dataPagamentoValidadora: Option<Timestamp>)

  function LoteNewestFirst(l: Lote): int { -l.dataCriacao }

  /** A lot row as the driver hands it over, with its numeric columns still as text (None: unparseable or NULL). */
  datatype RawLote = RawLote(
    row: Lote,
    pesoMaximo: Option<real>,
    pesoUtilizado: Option<real>,
    quantidadeTokens: Option<int>,
    percentualEmpresa: Option<real>,
    valorPago: Option<real>,
    valorDistribuido: Option<real>)

  /**
   * `parseNumericFields`: every numeric column parsed with 0 as the fallback,
   * except the company percentage whose fallback (for a missing or zero value)
   * is 20; a missing row passes through.
   */
  function ParseNumericFields(raw: Option<RawLote>): (r: Option<Lote>)
    ensures r.None? <==> raw.None?
    ensures r.Some? ==> r.value.id == raw.value.row.id && r.value.status == raw.value.row.status
    ensures r.Some? ==> r.value.dataCriacao == raw.value.row.dataCriacao
    ensures r.Some? ==> r.value.dataPagamentoValidadora == raw.value.row.dataPagamentoValidadora
    ensures r.Some? ==> r.value.percentualEmpresa != 0.0
    ensures r.Some? && (raw.value.percentualEmpresa.None? || raw.value.percentualEmpresa == Some(0.0)) ==>
      r.value.percentualEmpresa == DefaultPercentualEmpresa
    ensures r.Some? && raw.value.percentualEmpresa.Some? && raw.value.percentualEmpresa != Some(0.0) ==>
      r.value.percentualEmpresa == raw.value.percentualEmpresa.value
    ensures r.Some? ==> r.value.pesoUtilizado == raw.value.pesoUtilizado.GetOr(0.0)
    ensures r.Some? ==> r.value.pesoMaximo == raw.value.pesoMaximo.GetOr(0.0)
    ensures r.Some? ==> r.value.quantidadeTokens == raw.value.quantidadeTokens.GetOr(0)
    ensures r.Some? ==> r.value.valorPago == raw.value.valorPago.GetOr(0.0)
    ensures r.Some? ==> r.value.valorDistribuido == raw.value.valorDistribuido.GetOr(0.0)
  {
    match raw
    case None => None
    case Some(w) =>
      Some(w.row.(
        pesoMaximo := ParseNumeric(w.pesoMaximo, 0.0),
        pesoUtilizado := ParseNumeric(w.pesoUtilizado, 0.0),
        quantidadeTokens := w.quantidadeTokens.GetOr(0),
        percentualEmpresa := ParseNumeric(w.percentualEmpresa, DefaultPercentualEmpresa),
        valorPago := ParseNumeric(w.valorPago, 0.0),
        valorDistribuido := ParseNumeric(w.valorDistribuido, 0.0)))
  }

  /** `findById`: the lot with that id (the same first-match search each table has, over its own row type). */
  function FindById(rows: seq<Lote>, id: nat): (r: Option<Lote>)
    ensures r.Some? ==> r.value in rows && r.value.id == id
    ensures r.None? <==> forall i :: 0 <= i < |rows| ==> rows[i].id != id
  {
    if |rows| == 0 then None
    else if rows[0].id == id then Some(rows[0])
    else FindById(rows[1..], id)
  }

  /** `findAll`: every lot, newest first. */
  function FindAll(rows: seq<Lote>): (r: seq<Lote>)
    ensures multiset(r) == multiset(rows)
    ensures forall i, j :: 0 <= i < j < |r| ==> r[i].dataCriacao >= r[j].dataCriacao
  {
    var r := SortBy(rows, LoteNewestFirst);
    LoteNewestFirstOrder(r);
    r
  }

  lemma LoteNewestFirstOrder(r: seq<Lote>)
    requires SortedBy(r, LoteNewestFirst)
    ensures forall i, j :: 0 <= i < j < |r| ==> r[i].dataCriacao >= r[j].dataCriacao
  {
    forall i, j | 0 <= i < j < |r| ensures r[i].dataCriacao >= r[j].dataCriacao {
      assert LoteNewestFirst(r[i]) <= LoteNewestFirst(r[j]);
    }
  }

  /** `findTokensByLoteId`: the records batched into that lot, oldest first. */
  function FindTokensByLoteId(records: seq<WasteRecords.WasteRecord>, loteId: nat): (r: seq<WasteRecords.WasteRecord>)
    ensures forall x :: x in r <==> x in records && x.loteId == Some(loteId)
    ensures multiset(r) == multiset(WasteRecords.FilterLote(records, loteId))
    ensures forall i, j :: 0 <= i < j < |r| ==> r[i].dataCriacao <= r[j].dataCriacao
  {
    var r := SortBy(WasteRecords.FilterLote(records, loteId), WasteRecords.OldestFirst);
    MultisetMembers(r, WasteRecords.FilterLote(records, loteId));
    WasteRecords.OldestFirstOrder(r);
    r
  }

  /** The row `updatePagamento` writes: paid by the validator, with both amounts and the payment time. */
  function Paid(l: Lote, valorPago: real, valorDistribuido: real, now: Timestamp): (u: Lote)
    ensures u.status == PAGO_VALIDADORA && u.valorPago == valorPago && u.valorDistribuido == valorDistribuido
    ensures u.dataPagamentoValidadora == Some(now)
    ensures u == l.(status := u.status, valorPago := valorPago, valorDistribuido := valorDistribuido,
                    dataPagamentoValidadora := u.dataPagamentoValidadora)
  {
    l.(status := PAGO_VALIDADORA, valorPago := valorPago, valorDistribuido := valorDistribuido,
       dataPagamentoValidadora := Some(now))
  }

  function PaidWhereId(rows: seq<Lote>, id: nat, valorPago: real, valorDistribuido: real, now: Timestamp): (r: seq<Lote>)
    ensures |r| == |rows|
    ensures forall i :: 0 <= i < |rows| && rows[i].id != id ==> r[i] == rows[i]
    ensures forall i :: 0 <= i < |rows| && rows[i].id == id ==> r[i] == Paid(rows[i], valorPago, valorDistribuido, now)
  {
    seq(|rows|, i requires 0 <= i < |rows| => if rows[i].id == id then Paid(rows[i], valorPago, valorDistribuido, now) else rows[i])
  }

  /** Ids are unique and below the allocation counter. */
  ghost predicate LoteIdsBelow(rows: seq<Lote>, nextId: nat)
  {
    (forall i :: 0 <= i < |rows| ==> rows[i].id < nextId) &&
    (forall i, j :: 0 <= i < j < |rows| ==> rows[i].id != rows[j].id)
  }

  lemma FindLoteAt(rows: seq<Lote>, i: nat)
    requires i < |rows|
    requires forall a, b :: 0 <= a < b < |rows| ==> rows[a].id != rows[b].id
    ensures FindById(rows, rows[i].id) == Some(rows[i])
  {
    if i > 0 {
      assert rows[0].id != rows[i].id;
      assert rows[1..][i - 1] == rows[i];
      FindLoteAt(rows[1..], i - 1);
    }
  }

  /** A lot inserted under the next id keeps ids unique and allocated, and is found under its id. */
  lemma CreateKeepsIds(rows: seq<Lote>, nextId: nat, lote: Lote)
    requires LoteIdsBelow(rows, nextId) && lote.id == nextId
    ensures LoteIdsBelow(rows + [lote], nextId + 1)
    ensures FindById(rows + [lote], lote.id) == Some(lote)
  {
    var r := rows + [lote];
    assert forall i :: 0 <= i < |r| ==> r[i] == if i < |rows| then rows[i] else lote;
    FindLoteAt(r, |r| - 1);
  }

  /** Paying a lot keeps every lot's id. */
  lemma PaidKeepsIds(rows: seq<Lote>, nextId: nat, id: nat, valorPago: real, valorDistribuido: real, now: Timestamp)
    requires LoteIdsBelow(rows, nextId)
    ensures LoteIdsBelow(PaidWhereId(rows, id, valorPago, valorDistribuido, now), nextId)
  {
    var r := PaidWhereId(rows, id, valorPago, valorDistribuido, now);
    assert forall i :: 0 <= i < |rows| ==> r[i].id == rows[i].id;
  }

  /** The paid lot is found under its id with the payment written. */
  lemma PaidFound(rows: seq<Lote>, id: nat, valorPago: real, valorDistribuido: real, now: Timestamp)
    requires forall a, b :: 0 <= a < b < |rows| ==> rows[a].id != rows[b].id
    requires FindById(rows, id).Some?
    ensures (FindById(PaidWhereId(rows, id, valorPago, valorDistribuido, now), id) ==
      Some(Paid(FindById(rows, id).value, valorPago, valorDistribuido, now)))
  {
    var r := PaidWhereId(rows, id, valorPago, valorDistribuido, now);
    var i :| 0 <= i < |rows| && rows[i] == FindById(rows, id).value;
    assert forall a :: 0 <= a < |rows| ==> r[a].id == rows[a].id;
    FindLoteAt(r, i);
  }

  /** Paying an id no lot has changes nothing. */
  lemma PaidMissing(rows: seq<Lote>, id: nat, valorPago: real, valorDistribuido: real, now: Timestamp)
    requires FindById(rows, id).None?
    ensures PaidWhereId(rows, id, valorPago, valorDistribuido, now) == rows
  {
    var r := PaidWhereId(rows, id, valorPago, valorDistribuido, now);
    assert forall i :: 0 <= i < |rows| ==> r[i] == rows[i];
  }

  /** The table; `nextId` stands in for the generated lot id. */
  class LoteTable {
    var rows: seq<Lote>
    var nextId: nat

    ghost predicate Valid()
      reads this
    {
      LoteIdsBelow(rows, nextId)
    }

    constructor ()
      ensures Valid() && rows == [] && nextId == 0
    {
      rows := [];
      nextId := 0;
    }

    /**
     * `create`: inserts a lot awaiting the validator's payment with exactly the
     * supplied ceiling, weight and count; the columns it does not name take the
     * table defaults (nothing paid, 20 percent for the company).
     */
    method Create(pesoMaximo: real, pesoUtilizado: real, quantidadeTokens: int, now: Timestamp) returns (lote: Lote)
      requires Valid()
      modifies this
      ensures Valid() && nextId == old(nextId) + 1
      ensures lote.id == old(nextId) && lote.status == PENDENTE_VALIDADORA
      ensures lote.pesoMaximo == pesoMaximo && lote.pesoUtilizado == pesoUtilizado
      ensures lote.quantidadeTokens == quantidadeTokens
      ensures lote.valorPago == 0.0 && lote.valorDistribuido == 0.0
      ensures lote.percentualEmpresa == DefaultPercentualEmpresa
      ensures lote.dataCriacao == now && lote.dataPagamentoValidadora.None?
      ensures rows == old(rows) + [lote]
      ensures FindById(rows, lote.id) == Some(lote)
    {
      lote := Lote(nextId, pesoMaximo, pesoUtilizado, quantidadeTokens, 0.0, DefaultPercentualEmpresa, 0.0,
                   PENDENTE_VALIDADORA, now, None);
      CreateKeepsIds(rows, nextId, lote);
      rows := rows + [lote];
      nextId := nextId + 1;
    }

    /** `updatePagamento`: marks that lot paid, whatever its status was; other lots are untouched. */
    method UpdatePagamento(loteId: nat, valorPago: real, valorDistribuido: real, now: Timestamp)
      requires Valid()
      modifies this
      ensures Valid() && nextId == old(nextId)
      ensures rows == PaidWhereId(old(rows), loteId, valorPago, valorDistribuido, now)
      ensures old(FindById(rows, loteId)).Some? ==>
        FindById(rows, loteId) == Some(Paid(old(FindById(rows, loteId)).value, valorPago, valorDistribuido, now))
      ensures old(FindById(rows, loteId)).None? ==> rows == old(rows)
    {
      ghost var before := rows;
      rows := PaidWhereId(rows, loteId, valorPago, valorDistribuido, now);
      PaidKeepsIds(before, nextId, loteId, valorPago, valorDistribuido, now);
      if FindById(before, loteId).Some? {
        PaidFound(before, loteId, valorPago, valorDistribuido, now);
      } else {
        PaidMissing(before, loteId, valorPago, valorDistribuido, now);
      }
    }
  }
}
