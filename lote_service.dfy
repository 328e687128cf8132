/**
 * The lot service: the same batching and settlement as the lot model, behind
 * the input checks the service performs first.
 */
module LoteService {
  import opened Wrappers
  import opened Domain
  import opened Collections
  import opened WasteRecords
  import Lotes
  import opened LoteBatching

  /**
   * `criar(pesoMaximo)`: a missing, zero or negative ceiling is refused and
   * nothing changes; otherwise the lot is created as `LoteBatching.Create` does.
   */
  method Criar(lotes: Lotes.LoteTable, records: RecordTable, pesoMaximo: Option<real>, now: Timestamp)
    returns (r: Result<Criado, LoteError>)
    requires lotes.Valid() && records.Valid()
    requires LoteRefsBelow(records.rows, lotes.nextId)
    modifies lotes, records
    ensures lotes.Valid() && records.Valid() && LoteRefsBelow(records.rows, lotes.nextId)
    ensures pesoMaximo.None? || pesoMaximo.value <= 0.0 ==>
      r == Err(PesoMaximoInvalido) && lotes.rows == old(lotes.rows) && records.rows == old(records.rows)
    ensures pesoMaximo.Some? && pesoMaximo.value > 0.0 && |FindValidadosOldestFirst(old(records.rows))| == 0 ==>
      r == Err(SemTokensDisponiveis)
    ensures r.Ok? ==> pesoMaximo.Some? && pesoMaximo.value > 0.0
    ensures r.Ok? ==> IsGreedySelection(FindValidadosOldestFirst(old(records.rows)), pesoMaximo.value, |r.value.tokens|)
    ensures r.Ok? ==> |r.value.tokens| >= 1 && |r.value.tokens| <= |FindValidadosOldestFirst(old(records.rows))|
    ensures r.Ok? ==> r.value.tokens == FindValidadosOldestFirst(old(records.rows))[..|r.value.tokens|]
    ensures r.Ok? ==> r.value.lote.id == old(lotes.nextId)
    ensures r.Ok? ==> r.value.lote.status == PENDENTE_VALIDADORA && r.value.lote.pesoMaximo == pesoMaximo.value
    ensures r.Ok? ==> r.value.lote.pesoUtilizado == Sum(r.value.tokens, Peso)
    ensures r.Ok? ==> r.value.lote.quantidadeTokens == |r.value.tokens|
    ensures r.Ok? ==> lotes.rows == old(lotes.rows) + [r.value.lote]
    ensures r.Ok? ==> Lotes.FindById(lotes.rows, r.value.lote.id) == Some(r.value.lote)
    ensures r.Ok? ==> records.rows == AssignedToLote(old(records.rows), IdsOf(r.value.tokens), r.value.lote.id)
    ensures r.Ok? ==> Sum(FilterLote(records.rows, r.value.lote.id), Peso) == r.value.lote.pesoUtilizado
  {
    if pesoMaximo.None? || pesoMaximo.value <= 0.0 {
      return Err(PesoMaximoInvalido);
    }
    r := Create(lotes, records, pesoMaximo.value, now);
  }

  /**
   * `marcarComoPago(loteId, valorPago)`: a missing lot id, and a missing, zero
   * or negative payment, are refused and nothing changes; otherwise the lot is
   * settled as `LoteBatching.MarcarComoPago` does.
   */
  method MarcarComoPago(lotes: Lotes.LoteTable, records: RecordTable, loteId: Option<nat>, valorPago: Option<real>, now: Timestamp)
    returns (r: Result<Pagamento, LoteError>)
    requires lotes.Valid() && records.Valid()
    modifies lotes, records
    ensures lotes.Valid() && records.Valid()
    ensures lotes.nextId == old(lotes.nextId) && records.nextId == old(records.nextId)
    ensures old(LoteRefsBelow(records.rows, lotes.nextId)) ==> LoteRefsBelow(records.rows, lotes.nextId)
    ensures loteId.None? ==> r == Err(LoteIdObrigatorio)
    ensures loteId.Some? && (valorPago.None? || valorPago.value <= 0.0) ==> r == Err(ValorPagoInvalido)
    ensures r.Err? ==> lotes.rows == old(lotes.rows) && records.rows == old(records.rows)
    ensures loteId.Some? && valorPago.Some? && valorPago.value > 0.0 && old(Lotes.FindById(lotes.rows, loteId.value)).None? ==>
      r == Err(LoteNaoEncontrado)
    ensures loteId.Some? && valorPago.Some? && valorPago.value > 0.0 && old(Lotes.FindById(lotes.rows, loteId.value)).Some? ==>
      (old(Lotes.FindById(lotes.rows, loteId.value)).value.status != PENDENTE_VALIDADORA ==> r == Err(LoteJaProcessado))
    ensures r.Ok? <==> (loteId.Some? && valorPago.Some? && valorPago.value > 0.0 &&
                        old(Lotes.FindById(lotes.rows, loteId.value)).Some? &&
                        old(Lotes.FindById(lotes.rows, loteId.value)).value.status == PENDENTE_VALIDADORA)
    ensures r.Ok? ==> old(Lotes.FindById(lotes.rows, loteId.value)).Some?
    ensures r.Ok? ==> old(Lotes.FindById(lotes.rows, loteId.value)).value.status == PENDENTE_VALIDADORA
    ensures r.Ok? ==> (r.value.valorEmpresa ==
      ValorEmpresa(valorPago.value, EffectivePercent(old(Lotes.FindById(lotes.rows, loteId.value)).value.percentualEmpresa)))
    ensures r.Ok? ==> r.value.valorEmpresa + r.value.valorDistribuido == valorPago.value
    ensures r.Ok? ==> r.value.tokensAtualizados == |FilterLote(old(records.rows), loteId.value)|
    ensures r.Ok? ==> (records.rows ==
      ReleasedLote(old(records.rows), loteId.value, r.value.valorDistribuido, old(Lotes.FindById(lotes.rows, loteId.value)).value.pesoUtilizado))
    ensures r.Ok? ==> lotes.rows == Lotes.PaidWhereId(old(lotes.rows), loteId.value, valorPago.value, r.value.valorDistribuido, now)
    ensures r.Ok? ==> Lotes.FindById(lotes.rows, loteId.value).Some? && Lotes.FindById(lotes.rows, loteId.value).value.status == PAGO_VALIDADORA
  {
    if loteId.None? {
      return Err(LoteIdObrigatorio);
    }
    if valorPago.None? || valorPago.value <= 0.0 {
      return Err(ValorPagoInvalido);
    }
    r := LoteBatching.MarcarComoPago(lotes, records, loteId.value, valorPago.value, now);
  }

  /**
   * A lot created and then settled: the payouts written to its records add up
   * exactly to the distributed amount (when the lot weighs something), and a
   * second settlement of the same lot is refused.
   */
  method CriarEPagar(lotes: Lotes.LoteTable, records: RecordTable, pesoMaximo: real, valorPago: real, now: Timestamp)
    returns (criado: Result<Criado, LoteError>, pago: Result<Pagamento, LoteError>, repetido: Result<Pagamento, LoteError>)
    requires lotes.Valid() && records.Valid()
    requires LoteRefsBelow(records.rows, lotes.nextId)
    modifies lotes, records
    ensures criado.Ok? && criado.value.lote.pesoUtilizado != 0.0 && pago.Ok? ==>
      Sum(FilterLote(records.rows, criado.value.lote.id), Valor) == pago.value.valorDistribuido
    ensures criado.Ok? && valorPago > 0.0 ==> pago.Ok?
    ensures criado.Ok? && valorPago > 0.0 ==> repetido == Err(LoteJaProcessado)
  {
    criado := Criar(lotes, records, Some(pesoMaximo), now);
    if criado.Err? {
      pago := Err(criado.error);
      repetido := Err(criado.error);
      return;
    }
    var id := criado.value.lote.id;
    ghost var afterBatch := records.rows;
    pago := MarcarComoPago(lotes, records, Some(id), Some(valorPago), now);
    if pago.Ok? && criado.value.lote.pesoUtilizado != 0.0 {
      DistributionConserves(afterBatch, id, pago.value.valorDistribuido, criado.value.lote.pesoUtilizado);
    }
    ghost var settled := Lotes.FindById(lotes.rows, id);
    assert pago.Ok? ==> settled.Some? && settled.value.status == PAGO_VALIDADORA;
    repetido := MarcarComoPago(lotes, records, Some(id), Some(valorPago), now);
  }

  /**
   * A settlement followed by a new batch: the settlement keeps the lot
   * counter, so the next lot gets a fresh id, distinct from the settled one,
   * and every lot reference stays allocated.
   */
  method PagarECriar(lotes: Lotes.LoteTable, records: RecordTable, loteId: nat, valorPago: real, pesoMaximo: real, now: Timestamp)
    returns (pago: Result<Pagamento, LoteError>, criado: Result<Criado, LoteError>)
    requires lotes.Valid() && records.Valid()
    requires LoteRefsBelow(records.rows, lotes.nextId)
    modifies lotes, records
    ensures lotes.Valid() && records.Valid() && LoteRefsBelow(records.rows, lotes.nextId)
    ensures criado.Ok? ==> criado.value.lote.id == old(lotes.nextId)
    ensures pago.Ok? && criado.Ok? ==> criado.value.lote.id != loteId
  {
    pago := MarcarComoPago(lotes, records, Some(loteId), Some(valorPago), now);
    criado := Criar(lotes, records, Some(pesoMaximo), now);
  }
}
