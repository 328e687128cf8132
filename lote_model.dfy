/**
 * Lot batching and settlement as the lot model performs them: the greedy
 * oldest-first selection of VALIDADO records under a weight ceiling, the
 * creation of the lot with its records moved to ENVIADO_VALIDADORA, and the
 * settlement that splits the validator's payment into the platform's share and
 * weight-proportional payouts.
 */
module LoteBatching {
  import opened Wrappers
  import opened Domain
  import opened Collections
  import opened WasteRecords
  import Lotes

  datatype LoteError =
    | SemTokensDisponiveis      // "Não há tokens disponíveis para criar lote"
    | LoteNaoEncontrado         // "Lote não encontrado"
    | LoteJaProcessado          // "Lote já foi processado"
    | PesoMaximoInvalido        // "Peso máximo deve ser maior que zero"
    | LoteIdObrigatorio         // "ID do lote é obrigatório"
    | ValorPagoInvalido         // "Valor pago deve ser maior que zero"

  // ---------------------------------------------------------------------------
  // Greedy selection
  // ---------------------------------------------------------------------------

  /**
   * Taking the first `k` of the candidates `c` is what the greedy loop does:
   * nothing is taken from an empty list; a first candidate heavier than the
   * ceiling is taken alone; otherwise every prefix up to `k` fits under the
   * ceiling and, unless all were taken, adding the next one would not.
   */
  ghost predicate IsGreedySelection(c: seq<WasteRecord>, pesoMaximo: real, k: nat)
  {
    k <= |c| &&
    if |c| == 0 then k == 0
    else if c[0].peso > pesoMaximo then k == 1
    else
      1 <= k &&
      (forall j :: 1 <= j <= k ==> Sum(c[..j], Peso) <= pesoMaximo) &&
      (k < |c| ==> Sum(c[..k + 1], Peso) > pesoMaximo)
  }

  lemma SumPrefixSnoc(c: seq<WasteRecord>, i: nat)
    requires i < |c|
    ensures Sum(c[..i + 1], Peso) == Sum(c[..i], Peso) + c[i].peso
  {
    assert c[..i + 1][..i] == c[..i];
  }

  /**
   * The selection loop: walks the candidates in order, taking each one that
   * still fits; at the first one that does not fit it stops, unless nothing
   * has been taken yet, in which case it takes that one and stops.
   */
  method SelectGreedy(c: seq<WasteRecord>, pesoMaximo: real) returns (selected: seq<WasteRecord>, acumulado: real)
    ensures |selected| <= |c| && selected == c[..|selected|]
    ensures IsGreedySelection(c, pesoMaximo, |selected|)
    ensures acumulado == Sum(selected, Peso)
    ensures |c| > 0 ==> |selected| >= 1
    ensures |selected| > 0 ==> acumulado <= pesoMaximo || (|selected| == 1 && c[0].peso > pesoMaximo)
  {
    acumulado := 0.0;
    selected := [];
    var i := 0;
    while i < |c|
      invariant 0 <= i <= |c|
      invariant selected == c[..i]
      invariant acumulado == Sum(selected, Peso)
      invariant forall j :: 1 <= j <= i ==> Sum(c[..j], Peso) <= pesoMaximo
      invariant i > 0 ==> acumulado <= pesoMaximo
    {
      SumPrefixSnoc(c, i);
      TakeSnoc(c, i);
      if acumulado + c[i].peso <= pesoMaximo {
        selected := selected + [c[i]];
        acumulado := acumulado + c[i].peso;
        i := i + 1;
      } else {
        SumPrefixSnoc(c, 0);
        if |selected| > 0 {
          assert Sum(c[..1], Peso) <= pesoMaximo;
          break;
        }
        selected := selected + [c[i]];
        acumulado := acumulado + c[i].peso;
        break;
      }
    }
    if |c| > 0 {
      SumPrefixSnoc(c, 0);
    }
  }

  /** The greedy rule determines the selection: at most one count satisfies it. */
  lemma GreedySelectionUnique(c: seq<WasteRecord>, pesoMaximo: real, k1: nat, k2: nat)
    requires IsGreedySelection(c, pesoMaximo, k1) && IsGreedySelection(c, pesoMaximo, k2)
    ensures k1 == k2
  {
    if |c| > 0 && c[0].peso <= pesoMaximo && k1 < |c| {
      assert Sum(c[..k1 + 1], Peso) > pesoMaximo;
    }
    if |c| > 0 && c[0].peso <= pesoMaximo && k2 < |c| {
      assert Sum(c[..k2 + 1], Peso) > pesoMaximo;
    }
  }

  /** A VALIDADO record with the given id, weight and creation time, for the examples below. */
  function Sample(id: nat, peso: real, t: Timestamp): (w: WasteRecord)
    ensures w.id == id && w.peso == peso && w.dataCriacao == t && w.status == VALIDADO
  {
    WasteRecord(id, "u", "000000", RECICLAVEL, peso, peso * 0.10, None, 0.0, VALIDADO, t, Some(t), None, None)
  }

  /** Weights 100, 100, 100 under a 250 kg ceiling: two records, 200 kg. */
  lemma StopsBeforeCeiling()
    ensures var c := [Sample(1, 100.0, 1), Sample(2, 100.0, 2), Sample(3, 100.0, 3)];
      (forall k :: IsGreedySelection(c, 250.0, k) <==> k == 2) && Sum(c[..2], Peso) == 200.0
  {
    var c := [Sample(1, 100.0, 1), Sample(2, 100.0, 2), Sample(3, 100.0, 3)];
    SumPrefixSnoc(c, 0);
    SumPrefixSnoc(c, 1);
    SumPrefixSnoc(c, 2);
    assert IsGreedySelection(c, 250.0, 2);
    forall k | IsGreedySelection(c, 250.0, k) ensures k == 2 {
      GreedySelectionUnique(c, 250.0, k, 2);
    }
  }

  /** A single 500 kg record under a 100 kg ceiling is still taken: a 500 kg lot. */
  lemma OversizedFirstTaken()
    ensures var c := [Sample(1, 500.0, 1)];
      (forall k :: IsGreedySelection(c, 100.0, k) <==> k == 1) && Sum(c[..1], Peso) == 500.0
  {
    var c := [Sample(1, 500.0, 1)];
    SumPrefixSnoc(c, 0);
    assert IsGreedySelection(c, 100.0, 1);
  }

  /** Weights 100, 300, 50 under 250: the light third record is not skipped to; only the first is taken. */
  lemma NoSkippingAhead()
    ensures var c := [Sample(1, 100.0, 1), Sample(2, 300.0, 2), Sample(3, 50.0, 3)];
      forall k :: IsGreedySelection(c, 250.0, k) <==> k == 1
  {
    var c := [Sample(1, 100.0, 1), Sample(2, 300.0, 2), Sample(3, 50.0, 3)];
    SumPrefixSnoc(c, 0);
    SumPrefixSnoc(c, 1);
    assert IsGreedySelection(c, 250.0, 1);
    forall k | IsGreedySelection(c, 250.0, k) ensures k == 1 {
      GreedySelectionUnique(c, 250.0, k, 1);
    }
  }

  // ---------------------------------------------------------------------------
  // Creating a lot
  // ---------------------------------------------------------------------------

  /** Every row whose id is in `ids` sent to lot `loteId`; the others kept. */
  function AssignedToLote(rows: seq<WasteRecord>, ids: set<nat>, loteId: nat): (r: seq<WasteRecord>)
    ensures |r| == |rows|
    ensures forall i :: 0 <= i < |rows| && rows[i].id in ids ==> r[i] == SentToLote(rows[i], loteId)
    ensures forall i :: 0 <= i < |rows| && rows[i].id !in ids ==> r[i] == rows[i]
  {
    seq(|rows|, i requires 0 <= i < |rows| => if rows[i].id in ids then SentToLote(rows[i], loteId) else rows[i])
  }

  /** One more id sent: what one step of the update loop does to the table. */
  lemma AssignedStep(rows: seq<WasteRecord>, ids: set<nat>, id: nat, loteId: nat)
    ensures SendWhereId(AssignedToLote(rows, ids, loteId), id, loteId) == AssignedToLote(rows, ids + {id}, loteId)
  {
    var a := SendWhereId(AssignedToLote(rows, ids, loteId), id, loteId);
    var b := AssignedToLote(rows, ids + {id}, loteId);
    assert forall i :: 0 <= i < |rows| ==> a[i] == b[i];
  }

  /** Every lot a record points to has been allocated. */
  ghost predicate LoteRefsBelow(rows: seq<WasteRecord>, nextLote: nat)
  {
    forall i :: 0 <= i < |rows| && rows[i].loteId.Some? ==> rows[i].loteId.value < nextLote
  }

  /** Sending records to an allocated lot keeps every reference allocated. */
  lemma AssignedRefsBelow(rows: seq<WasteRecord>, ids: set<nat>, loteId: nat, nextLote: nat)
    requires LoteRefsBelow(rows, nextLote) && loteId < nextLote
    ensures LoteRefsBelow(AssignedToLote(rows, ids, loteId), nextLote)
  {
  }

  datatype Criado = Criado(lote: Lotes.Lote, tokens: seq<WasteRecord>)

  /**
   * `create(pesoMaximo)`: fails when no record is VALIDADO; otherwise stores a
   * lot PENDENTE_VALIDADORA carrying the greedy selection's weight and count,
   * and moves exactly the selected records to ENVIADO_VALIDADORA in that lot.
   * The ceiling itself is not checked here.
   */
  method Create(lotes: Lotes.LoteTable, records: RecordTable, pesoMaximo: real, now: Timestamp)
    returns (r: Result<Criado, LoteError>)
    requires lotes.Valid() && records.Valid()
    requires LoteRefsBelow(records.rows, lotes.nextId)
    modifies lotes, records
    ensures lotes.Valid() && records.Valid() && LoteRefsBelow(records.rows, lotes.nextId)
    ensures r.Err? <==> |FindValidadosOldestFirst(old(records.rows))| == 0
    ensures r.Err? ==> r.error == SemTokensDisponiveis
    ensures r.Err? ==> lotes.rows == old(lotes.rows) && lotes.nextId == old(lotes.nextId) && records.rows == old(records.rows)
    ensures r.Ok? ==> |r.value.tokens| <= |FindValidadosOldestFirst(old(records.rows))|
    ensures r.Ok? ==> r.value.tokens == FindValidadosOldestFirst(old(records.rows))[..|r.value.tokens|]
    ensures r.Ok? ==> IsGreedySelection(FindValidadosOldestFirst(old(records.rows)), pesoMaximo, |r.value.tokens|)
    ensures r.Ok? ==> |r.value.tokens| >= 1
    ensures r.Ok? ==> r.value.lote.id == old(lotes.nextId) && r.value.lote.status == PENDENTE_VALIDADORA
    ensures r.Ok? ==> r.value.lote.pesoMaximo == pesoMaximo
    ensures r.Ok? ==> r.value.lote.pesoUtilizado == Sum(r.value.tokens, Peso)
    ensures r.Ok? ==> r.value.lote.quantidadeTokens == |r.value.tokens|
    ensures r.Ok? ==> lotes.rows == old(lotes.rows) + [r.value.lote]
    ensures r.Ok? ==> Lotes.FindById(lotes.rows, r.value.lote.id) == Some(r.value.lote)
    ensures r.Ok? ==> Sum(FilterLote(records.rows, r.value.lote.id), Peso) == r.value.lote.pesoUtilizado
    ensures r.Ok? ==> |FilterLote(records.rows, r.value.lote.id)| == r.value.lote.quantidadeTokens
    ensures r.Ok? ==> records.rows == AssignedToLote(old(records.rows), IdsOf(r.value.tokens), r.value.lote.id)
  {
    var candidatos := FindValidadosOldestFirst(records.rows);
    if |candidatos| == 0 {
      return Err(SemTokensDisponiveis);
    }
    var selected, acumulado := SelectGreedy(candidatos, pesoMaximo);
    if |selected| == 0 {
      // "Nenhum token selecionado para o lote": the selection of a non-empty list is never empty.
      assert false;
    }
    var lote := lotes.Create(pesoMaximo, acumulado, |selected|, now);
    SendAll(records, selected, lote.id);
    AssignedRefsBelow(old(records.rows), IdsOf(selected), lote.id, lotes.nextId);
    CreatedLoteMembers(old(records.rows), lote.id, |selected|);
    return Ok(Criado(lote, selected));
  }

  /** The loop that moves each selected record into the new lot, one `UPDATE` per record. */
  method SendAll(records: RecordTable, selected: seq<WasteRecord>, loteId: nat)
    requires records.Valid()
    modifies records
    ensures records.Valid() && records.nextId == old(records.nextId)
    ensures records.rows == AssignedToLote(old(records.rows), IdsOf(selected), loteId)
  {
    ghost var before := records.rows;
    var j := 0;
    while j < |selected|
      invariant 0 <= j <= |selected|
      invariant records.Valid() && records.nextId == old(records.nextId)
      invariant records.rows == AssignedToLote(before, IdsOf(selected[..j]), loteId)
    {
      IdsOfSnoc(selected, j);
      AssignedStep(before, IdsOf(selected[..j]), selected[j].id, loteId);
      records.SendToLote(selected[j].id, loteId);
      j := j + 1;
    }
    assert selected[..|selected|] == selected;
  }

  // ---------------------------------------------------------------------------
  // The weight of a freshly created lot
  // ---------------------------------------------------------------------------

  /** No element occurs twice. */
  ghost predicate NoDup(s: seq<WasteRecord>)
  {
    forall x :: multiset(s)[x] <= 1
  }

  lemma {:induction false} UniqueIdsNoDup(s: seq<WasteRecord>)
    requires UniqueIds(s)
    ensures NoDup(s)
  {
    if |s| > 0 {
      var n := |s| - 1;
      assert s == s[..n] + [s[n]];
      UniqueIdsNoDup(s[..n]);
      forall x | x in s[..n] ensures x != s[n] {
        var k :| 0 <= k < n && s[..n][k] == x;
        assert s[k].id != s[n].id;
      }
      assert multiset(s) == multiset(s[..n]) + multiset{s[n]};
    }
  }

  lemma {:induction false} FilterStatusSub(rows: seq<WasteRecord>, st: RecordStatus)
    ensures multiset(FilterStatus(rows, st)) <= multiset(rows)
  {
    if |rows| > 0 {
      var n := |rows| - 1;
      assert rows == rows[..n] + [rows[n]];
      FilterStatusSub(rows[..n], st);
    }
  }

  lemma {:induction false} FilterIdsInSub(rows: seq<WasteRecord>, ids: set<nat>)
    ensures multiset(FilterIdsIn(rows, ids)) <= multiset(rows)
  {
    if |rows| > 0 {
      var n := |rows| - 1;
      assert rows == rows[..n] + [rows[n]];
      FilterIdsInSub(rows[..n], ids);
    }
  }

  /** Two duplicate-free sequences with the same members are permutations of each other. */
  lemma SameMembersSameMultiset(a: seq<WasteRecord>, b: seq<WasteRecord>)
    requires NoDup(a) && NoDup(b)
    requires forall x :: x in a <==> x in b
    ensures multiset(a) == multiset(b)
  {
    forall x ensures multiset(a)[x] == multiset(b)[x] {
      if x in a {
        assert x in multiset(a) && x in multiset(b);
      } else {
        assert x !in multiset(a) && x !in multiset(b);
      }
    }
  }

  /**
   * A selection drawn from a table with unique ids: the table rows whose ids
   * it carries are exactly the selection, so they weigh the same and are as many.
   */
  lemma SelectionRows(rows: seq<WasteRecord>, sel: seq<WasteRecord>)
    requires UniqueIds(rows)
    requires multiset(sel) <= multiset(rows)
    ensures Sum(FilterIdsIn(rows, IdsOf(sel)), Peso) == Sum(sel, Peso)
    ensures |FilterIdsIn(rows, IdsOf(sel))| == |sel|
  {
    var f := FilterIdsIn(rows, IdsOf(sel));
    UniqueIdsNoDup(rows);
    FilterIdsInSub(rows, IdsOf(sel));
    assert NoDup(f) by {
      forall x ensures multiset(f)[x] <= 1 {
        assert multiset(f)[x] <= multiset(rows)[x];
      }
    }
    assert NoDup(sel) by {
      forall x ensures multiset(sel)[x] <= 1 {
        assert multiset(sel)[x] <= multiset(rows)[x];
      }
    }
    forall x | x in sel ensures x in f {
      assert x in multiset(sel);
    }
    forall x | x in f ensures x in sel {
      var y :| y in sel && y.id == x.id;
      assert y in multiset(sel);
      SameIdSameRow(rows, y);
    }
    SameMembersSameMultiset(f, sel);
    SumPermutation(f, sel, Peso);
    assert |multiset(f)| == |multiset(sel)|;
  }

  /** Sending rows to a lot no row pointed to before makes them, and only them, its members. */
  lemma {:induction false} FreshLoteMembers(rows: seq<WasteRecord>, ids: set<nat>, loteId: nat)
    requires forall i :: 0 <= i < |rows| ==> rows[i].loteId != Some(loteId)
    ensures Sum(FilterLote(AssignedToLote(rows, ids, loteId), loteId), Peso) == Sum(FilterIdsIn(rows, ids), Peso)
    ensures |FilterLote(AssignedToLote(rows, ids, loteId), loteId)| == |FilterIdsIn(rows, ids)|
  {
    if |rows| > 0 {
      var n := |rows| - 1;
      FreshLoteMembers(rows[..n], ids, loteId);
      FreshLoteLast(rows, ids, loteId);
    }
  }

  /** The last row adds its weight to the lot exactly when its id is sent. */
  lemma FreshLoteLast(rows: seq<WasteRecord>, ids: set<nat>, loteId: nat)
    requires |rows| > 0 && rows[|rows| - 1].loteId != Some(loteId)
    ensures var n := |rows| - 1;
      var w := if rows[n].id in ids then rows[n].peso else 0.0;
      var k := if rows[n].id in ids then 1 else 0;
      var fa, fa0 := FilterLote(AssignedToLote(rows, ids, loteId), loteId), FilterLote(AssignedToLote(rows[..n], ids, loteId), loteId);
      var fr, fr0 := FilterIdsIn(rows, ids), FilterIdsIn(rows[..n], ids);
      Sum(fa, Peso) == Sum(fa0, Peso) + w && Sum(fr, Peso) == Sum(fr0, Peso) + w &&
      |fa| == |fa0| + k && |fr| == |fr0| + k
  {
    var n := |rows| - 1;
    var a := AssignedToLote(rows, ids, loteId);
    assert a[..n] == AssignedToLote(rows[..n], ids, loteId);
    if rows[n].id in ids {
      SumPush(FilterLote(a[..n], loteId), a[n], Peso);
      SumPush(FilterIdsIn(rows[..n], ids), rows[n], Peso);
    }
  }

  /**
   * In a table whose ids are unique and whose lot references are all below
   * `loteId`, sending a prefix of the VALIDADO records (oldest first) to lot
   * `loteId` gives that lot exactly the prefix's weight and count.
   */
  lemma CreatedLoteMembers(rows: seq<WasteRecord>, loteId: nat, k: nat)
    requires UniqueIds(rows) && LoteRefsBelow(rows, loteId)
    requires k <= |FindValidadosOldestFirst(rows)|
    ensures var sel := FindValidadosOldestFirst(rows)[..k];
      Sum(FilterLote(AssignedToLote(rows, IdsOf(sel), loteId), loteId), Peso) == Sum(sel, Peso) &&
      |FilterLote(AssignedToLote(rows, IdsOf(sel), loteId), loteId)| == k
  {
    var sel := FindValidadosOldestFirst(rows)[..k];
    ValidadosPrefixSub(rows, k);
    SelectionRows(rows, sel);
    FreshLoteMembers(rows, IdsOf(sel), loteId);
  }

  /** Any prefix of the VALIDADO records, oldest first, is drawn from the table. */
  lemma ValidadosPrefixSub(rows: seq<WasteRecord>, k: nat)
    requires k <= |FindValidadosOldestFirst(rows)|
    ensures multiset(FindValidadosOldestFirst(rows)[..k]) <= multiset(rows)
  {
    var c := FindValidadosOldestFirst(rows);
    assert c == c[..k] + c[k..];
    assert multiset(c) == multiset(c[..k]) + multiset(c[k..]);
    FilterStatusSub(rows, VALIDADO);
  }

  // ---------------------------------------------------------------------------
  // Settling a lot
  // ---------------------------------------------------------------------------

  /** `percentualempresa || 20`: a zero percentage counts as the default. */
  function EffectivePercent(p: real): (r: real)
    ensures p != 0.0 ==> r == p
    ensures p == 0.0 ==> r == Lotes.DefaultPercentualEmpresa
    ensures r != 0.0
  {
    if p == 0.0 then Lotes.DefaultPercentualEmpresa else p
  }

  /** The platform's part of a payment of `valorPago` at `pct` percent. */
  function ValorEmpresa(valorPago: real, pct: real): real
  {
    valorPago * (pct / 100.0)
  }

  /** A record's payout: its fraction of the lot weight applied to the distributable amount. */
  function Share(valorDistribuir: real, peso: real, pesoTotal: real): real
  {
    if pesoTotal == 0.0 then 0.0 else valorDistribuir * (peso / pesoTotal)
  }

  /** Every record of lot `loteId` released with its share; other records kept. */
  function ReleasedLote(rows: seq<WasteRecord>, loteId: nat, valorDistribuir: real, pesoTotal: real): (r: seq<WasteRecord>)
    ensures |r| == |rows|
    ensures forall i :: 0 <= i < |rows| && rows[i].loteId == Some(loteId) ==>
      r[i] == Released(rows[i], Share(valorDistribuir, rows[i].peso, pesoTotal))
    ensures forall i :: 0 <= i < |rows| && rows[i].loteId != Some(loteId) ==> r[i] == rows[i]
  {
    seq(|rows|, i requires 0 <= i < |rows| =>
      if rows[i].loteId == Some(loteId) then Released(rows[i], Share(valorDistribuir, rows[i].peso, pesoTotal)) else rows[i])
  }

  /** Every record whose id is in `ids` released with its share: the state after part of the settlement loop. */
  function ReleasedIds(rows: seq<WasteRecord>, ids: set<nat>, valorDistribuir: real, pesoTotal: real): (r: seq<WasteRecord>)
    ensures |r| == |rows|
    ensures forall i :: 0 <= i < |rows| && rows[i].id in ids ==>
      r[i] == Released(rows[i], Share(valorDistribuir, rows[i].peso, pesoTotal))
    ensures forall i :: 0 <= i < |rows| && rows[i].id !in ids ==> r[i] == rows[i]
  {
    seq(|rows|, i requires 0 <= i < |rows| =>
      if rows[i].id in ids then Released(rows[i], Share(valorDistribuir, rows[i].peso, pesoTotal)) else rows[i])
  }

  ghost predicate UniqueIds(rows: seq<WasteRecord>)
  {
    forall i, j :: 0 <= i < j < |rows| ==> rows[i].id != rows[j].id
  }

  /** With unique ids, a row is the only one carrying its id. */
  lemma SameIdSameRow(rows: seq<WasteRecord>, m: WasteRecord)
    requires UniqueIds(rows) && m in rows
    ensures forall i :: 0 <= i < |rows| && rows[i].id == m.id ==> rows[i] == m
  {
    var k :| 0 <= k < |rows| && rows[k] == m;
    forall i | 0 <= i < |rows| && rows[i].id == m.id ensures rows[i] == m {
      assert !(i < k) && !(k < i);
    }
  }

  /** With unique ids, the ids of a lot's members pick out exactly that lot's rows. */
  lemma LoteMemberIds(rows: seq<WasteRecord>, loteId: nat)
    requires UniqueIds(rows)
    ensures forall i :: 0 <= i < |rows| ==> (rows[i].id in IdsOf(FilterLote(rows, loteId)) <==> rows[i].loteId == Some(loteId))
  {
    forall i | 0 <= i < |rows| && rows[i].id in IdsOf(FilterLote(rows, loteId)) ensures rows[i].loteId == Some(loteId) {
      var m :| m in FilterLote(rows, loteId) && m.id == rows[i].id;
      SameIdSameRow(rows, m);
    }
  }

  /** Releasing one more member of the lot extends the released set by its id. */
  lemma ReleaseStep(before: seq<WasteRecord>, ids: set<nat>, m: WasteRecord, valorDistribuir: real, pesoTotal: real)
    requires UniqueIds(before) && m in before
    ensures (ReleaseWhereId(ReleasedIds(before, ids, valorDistribuir, pesoTotal), m.id, Share(valorDistribuir, m.peso, pesoTotal)) ==
      ReleasedIds(before, ids + {m.id}, valorDistribuir, pesoTotal))
  {
    SameIdSameRow(before, m);
    var a := ReleaseWhereId(ReleasedIds(before, ids, valorDistribuir, pesoTotal), m.id, Share(valorDistribuir, m.peso, pesoTotal));
    var b := ReleasedIds(before, ids + {m.id}, valorDistribuir, pesoTotal);
    assert forall i :: 0 <= i < |before| ==> a[i] == b[i];
  }

  /** Releasing the rows whose ids are the lot's members is releasing the lot's rows. */
  lemma ReleasedIdsLote(before: seq<WasteRecord>, loteId: nat, valorDistribuir: real, pesoTotal: real)
    requires UniqueIds(before)
    ensures (ReleasedIds(before, IdsOf(FilterLote(before, loteId)), valorDistribuir, pesoTotal) ==
      ReleasedLote(before, loteId, valorDistribuir, pesoTotal))
  {
    LoteMemberIds(before, loteId);
    var a := ReleasedIds(before, IdsOf(FilterLote(before, loteId)), valorDistribuir, pesoTotal);
    var b := ReleasedLote(before, loteId, valorDistribuir, pesoTotal);
    assert forall i :: 0 <= i < |before| ==> a[i] == b[i];
  }

  datatype Pagamento = Pagamento(loteId: nat, valorPago: real, valorEmpresa: real, valorDistribuido: real, tokensAtualizados: nat)

  /**
   * `marcarComoPago(loteId, valorPago)`: fails for an unknown lot and for a
   * lot that is not PENDENTE_VALIDADORA; otherwise keeps the platform's
   * percentage, releases every record of the lot with its weight-proportional
   * share of the rest, and marks the lot paid by the validator.
   */
  method MarcarComoPago(lotes: Lotes.LoteTable, records: RecordTable, loteId: nat, valorPago: real, now: Timestamp)
    returns (r: Result<Pagamento, LoteError>)
    requires lotes.Valid() && records.Valid()
    modifies lotes, records
    ensures lotes.Valid() && records.Valid()
    ensures lotes.nextId == old(lotes.nextId) && records.nextId == old(records.nextId)
    ensures old(LoteRefsBelow(records.rows, lotes.nextId)) ==> LoteRefsBelow(records.rows, lotes.nextId)
    ensures old(Lotes.FindById(lotes.rows, loteId)).None? ==> r == Err(LoteNaoEncontrado)
    ensures old(Lotes.FindById(lotes.rows, loteId)).Some? && old(Lotes.FindById(lotes.rows, loteId)).value.status != PENDENTE_VALIDADORA ==>
      r == Err(LoteJaProcessado)
    ensures r.Err? ==> lotes.rows == old(lotes.rows) && records.rows == old(records.rows)
    ensures r.Ok? <==> old(Lotes.FindById(lotes.rows, loteId)).Some? && old(Lotes.FindById(lotes.rows, loteId)).value.status == PENDENTE_VALIDADORA
    ensures r.Ok? ==> r.value.loteId == loteId && r.value.valorPago == valorPago
    ensures r.Ok? ==> r.value.valorEmpresa == ValorEmpresa(valorPago, EffectivePercent(old(Lotes.FindById(lotes.rows, loteId)).value.percentualEmpresa))
    ensures r.Ok? ==> r.value.valorEmpresa + r.value.valorDistribuido == valorPago
    ensures r.Ok? ==> r.value.tokensAtualizados == |FilterLote(old(records.rows), loteId)|
    ensures r.Ok? ==> records.rows == ReleasedLote(old(records.rows), loteId, r.value.valorDistribuido, old(Lotes.FindById(lotes.rows, loteId)).value.pesoUtilizado)
    ensures r.Ok? ==> lotes.rows == Lotes.PaidWhereId(old(lotes.rows), loteId, valorPago, r.value.valorDistribuido, now)
    ensures r.Ok? ==> Lotes.FindById(lotes.rows, loteId).Some? && Lotes.FindById(lotes.rows, loteId).value.status == PAGO_VALIDADORA
  {
    var found := Lotes.FindById(lotes.rows, loteId);
    if found.None? {
      return Err(LoteNaoEncontrado);
    }
    var lote := found.value;
    if lote.status != PENDENTE_VALIDADORA {
      return Err(LoteJaProcessado);
    }
    var pct := EffectivePercent(lote.percentualEmpresa);
    var valorEmpresa := ValorEmpresa(valorPago, pct);
    var valorDistribuir := valorPago - valorEmpresa;
    var quantidade := ReleaseMembers(records, loteId, valorDistribuir, lote.pesoUtilizado);
    lotes.UpdatePagamento(loteId, valorPago, valorDistribuir, now);
    return Ok(Pagamento(loteId, valorPago, valorEmpresa, valorDistribuir, quantidade));
  }

  /**
   * The settlement's update loop: every record of lot `loteId` is released, in
   * turn, with its share of `valorDistribuir`; the result is how many there were.
   */
  method ReleaseMembers(records: RecordTable, loteId: nat, valorDistribuir: real, pesoTotal: real) returns (quantidade: nat)
    requires records.Valid()
    modifies records
    ensures records.Valid() && records.nextId == old(records.nextId)
    ensures records.rows == ReleasedLote(old(records.rows), loteId, valorDistribuir, pesoTotal)
    ensures quantidade == |FilterLote(old(records.rows), loteId)|
  {
    var members := FilterLote(records.rows, loteId);
    ghost var before := records.rows;
    var j := 0;
    while j < |members|
      invariant 0 <= j <= |members|
      invariant records.Valid() && records.nextId == old(records.nextId)
      invariant records.rows == ReleasedIds(before, IdsOf(members[..j]), valorDistribuir, pesoTotal)
      modifies records
    {
      IdsOfSnoc(members, j);
      ReleaseStep(before, IdsOf(members[..j]), members[j], valorDistribuir, pesoTotal);
      records.Release(members[j].id, Share(valorDistribuir, members[j].peso, pesoTotal));
      j := j + 1;
    }
    assert members[..|members|] == members;
    ReleasedIdsLote(before, loteId, valorDistribuir, pesoTotal);
    quantidade := |members|;
  }

  // ---------------------------------------------------------------------------
  // Conservation of the distributed amount
  // ---------------------------------------------------------------------------

  /** The members of a lot, each released with its share. */
  function ReleasedAll(s: seq<WasteRecord>, valorDistribuir: real, pesoTotal: real): (r: seq<WasteRecord>)
    ensures |r| == |s|
    ensures forall i :: 0 <= i < |s| ==> r[i] == Released(s[i], Share(valorDistribuir, s[i].peso, pesoTotal))
  {
    seq(|s|, i requires 0 <= i < |s| => Released(s[i], Share(valorDistribuir, s[i].peso, pesoTotal)))
  }

  /** The payouts of released members add up to the distributable amount times their weight fraction. */
  lemma {:induction false} SharesSum(s: seq<WasteRecord>, valorDistribuir: real, pesoTotal: real)
    requires pesoTotal != 0.0
    ensures Sum(ReleasedAll(s, valorDistribuir, pesoTotal), Valor) == valorDistribuir * (Sum(s, Peso) / pesoTotal)
  {
    if |s| > 0 {
      var n := |s| - 1;
      SharesSum(s[..n], valorDistribuir, pesoTotal);
      SharesLast(s, valorDistribuir, pesoTotal);
      ShareAdd(valorDistribuir, Sum(s[..n], Peso), s[n].peso, pesoTotal);
    }
  }

  /** The last member adds its share to the payouts. */
  lemma SharesLast(s: seq<WasteRecord>, valorDistribuir: real, pesoTotal: real)
    requires |s| > 0
    ensures Sum(ReleasedAll(s, valorDistribuir, pesoTotal), Valor)
         == Sum(ReleasedAll(s[..|s| - 1], valorDistribuir, pesoTotal), Valor) + Share(valorDistribuir, s[|s| - 1].peso, pesoTotal)
  {
    var n := |s| - 1;
    var r := ReleasedAll(s, valorDistribuir, pesoTotal);
    assert r[..n] == ReleasedAll(s[..n], valorDistribuir, pesoTotal);
    assert Valor(r[n]) == Share(valorDistribuir, s[n].peso, pesoTotal);
  }

  /** Shares of two weights add up to the share of their sum. */
  lemma ShareAdd(d: real, a: real, b: real, w: real)
    requires w != 0.0
    ensures d * (a / w) + d * (b / w) == d * ((a + b) / w)
  {
    assert (a + b) / w == a / w + b / w;
  }

  /** Releasing a lot and then reading its members gives the members, each released. */
  lemma {:induction false} FilterLoteReleased(rows: seq<WasteRecord>, loteId: nat, valorDistribuir: real, pesoTotal: real)
    ensures FilterLote(ReleasedLote(rows, loteId, valorDistribuir, pesoTotal), loteId)
         == ReleasedAll(FilterLote(rows, loteId), valorDistribuir, pesoTotal)
  {
    if |rows| > 0 {
      var n := |rows| - 1;
      var u := ReleasedLote(rows, loteId, valorDistribuir, pesoTotal);
      assert u[..n] == ReleasedLote(rows[..n], loteId, valorDistribuir, pesoTotal);
      FilterLoteReleased(rows[..n], loteId, valorDistribuir, pesoTotal);
      var f := FilterLote(rows[..n], loteId);
      if rows[n].loteId == Some(loteId) {
        assert FilterLote(rows, loteId) == f + [rows[n]];
        assert ReleasedAll(f + [rows[n]], valorDistribuir, pesoTotal)
            == ReleasedAll(f, valorDistribuir, pesoTotal) + [Released(rows[n], Share(valorDistribuir, rows[n].peso, pesoTotal))];
      }
    }
  }

  /**
   * When the lot's recorded weight equals the weight of its members (and is
   * not zero), the payouts written by a settlement add up exactly to the
   * distributed amount.
   */
  lemma DistributionConserves(rows: seq<WasteRecord>, loteId: nat, valorDistribuir: real, pesoTotal: real)
    requires pesoTotal == Sum(FilterLote(rows, loteId), Peso) && pesoTotal != 0.0
    ensures Sum(FilterLote(ReleasedLote(rows, loteId, valorDistribuir, pesoTotal), loteId), Valor) == valorDistribuir
  {
    ReleasedMembersSum(FilterLote(rows, loteId), valorDistribuir, pesoTotal);
    FilterLoteReleased(rows, loteId, valorDistribuir, pesoTotal);
  }

  /** Members whose weights add up to the lot weight receive exactly the distributable amount. */
  lemma ReleasedMembersSum(s: seq<WasteRecord>, valorDistribuir: real, pesoTotal: real)
    requires pesoTotal == Sum(s, Peso) && pesoTotal != 0.0
    ensures Sum(ReleasedAll(s, valorDistribuir, pesoTotal), Valor) == valorDistribuir
  {
    SharesSum(s, valorDistribuir, pesoTotal);
    WholeShare(Sum(ReleasedAll(s, valorDistribuir, pesoTotal), Valor), valorDistribuir, Sum(s, Peso), pesoTotal);
  }

  /** A total of `d` times the whole weight over itself is `d`. */
  lemma WholeShare(total: real, d: real, p: real, w: real)
    requires w != 0.0 && p == w && total == d * (p / w)
    ensures total == d
  {
    assert w / w == 1.0;
  }

  /** Weights 300 and 700 with a payment of 100 at the default 20 percent: payouts 24 and 56. */
  lemma DefaultSplitExample()
    ensures ValorEmpresa(100.0, EffectivePercent(0.0)) == 20.0
    ensures Share(100.0 - ValorEmpresa(100.0, EffectivePercent(0.0)), 300.0, 1000.0) == 24.0
    ensures Share(100.0 - ValorEmpresa(100.0, EffectivePercent(0.0)), 700.0, 1000.0) == 56.0
  {
  }
}
