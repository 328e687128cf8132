/**
 * The waste service: the credit rule, redeeming a totem token into a
 * waste record, a depositor's statistics, and the list of records a new lot
 * can draw from.
 */
module WasteService {
  import opened Wrappers
  import opened Domain
  import opened Collections
  import opened TokenLedger
  import opened WasteRecords

  /** Credit rate per kilogram: 10 percent for recyclable waste, 5 percent otherwise. */
  function Taxa(categoria: Categoria): real
  {
    if categoria == RECICLAVEL then 0.10 else 0.05
  }

  /**
   * `calcularCredito(peso, categoria)`: a tenth of the weight for recyclable
   * waste and a twentieth for anything else; for a non-negative weight it lies
   * between 0 and a tenth of the weight.
   */
  function CalcularCredito(peso: real, categoria: Categoria): (c: real)
    ensures categoria == RECICLAVEL ==> c == peso / 10.0
    ensures categoria != RECICLAVEL ==> c == peso / 20.0
    ensures peso >= 0.0 ==> 0.0 <= c <= peso / 10.0
  {
    peso * Taxa(categoria)
  }

  /** Recyclable waste never earns less than the same weight of organic waste. */
  lemma ReciclavelRendeMais(peso: real)
    requires peso >= 0.0
    ensures CalcularCredito(peso, ORGANICO) <= CalcularCredito(peso, RECICLAVEL)
  {
  }

  /** The credit grows with the weight in each category. */
  lemma CreditoMonotone(p: real, q: real, categoria: Categoria)
    requires p <= q
    ensures CalcularCredito(p, categoria) <= CalcularCredito(q, categoria)
  {
  }

  /** The figures of the sample data: 150.5 kg and 180 kg recyclable, 200 kg organic. */
  lemma CreditoSamples()
    ensures CalcularCredito(150.5, RECICLAVEL) == 15.05
    ensures CalcularCredito(200.0, ORGANICO) == 10.0
    ensures CalcularCredito(180.0, RECICLAVEL) == 18.0
  {
  }

  datatype RegistroError =
    | TokenFormatoInvalido   // "Token deve ter 6 dígitos"
    | TokenInvalidoOuUsado   // "Token inválido ou já utilizado"
    | TokenJaRegistrado      // the INSERT broke UNIQUE(token) on waste_records
    | FalhaAoMarcarToken     // the `markAsUsed` query itself failed

  /** The only check made on the code's form: present and six characters long. */
  predicate FormatoValido(token: Option<string>)
  {
    token.Some? && |token.value| == 6
  }

  /**
   * `registrar(userId, token)`. The code is checked for length only; the
   * first redeemable row with that code supplies categoria and peso; the
   * record is inserted, which fails when a record already carries the code,
   * and only then is the code marked used. `marcacaoFalha` stands for the
   * second statement failing after the first succeeded: the record then
   * exists while the code is still redeemable.
   */
  method Registrar(tokens: TokenTable, records: RecordTable, userId: UserId, token: Option<string>,
                   now: Timestamp, marcacaoFalha: bool)
    returns (r: Result<WasteRecord, RegistroError>)
    requires tokens.Valid() && records.Valid()
    modifies tokens, records
    ensures tokens.Valid() && records.Valid()
    ensures !FormatoValido(token) ==>
      r == Err(TokenFormatoInvalido) && tokens.rows == old(tokens.rows) && records.rows == old(records.rows)
    ensures FormatoValido(token) && old(FindAvailable(tokens.rows, token.value)).None? ==>
      r == Err(TokenInvalidoOuUsado) && tokens.rows == old(tokens.rows) && records.rows == old(records.rows)
    ensures ((FormatoValido(token) && old(FindAvailable(tokens.rows, token.value)).Some? &&
              old(WasteRecords.FindByToken(records.rows, token.value)).Some?) ==>
      r == Err(TokenJaRegistrado) && tokens.rows == old(tokens.rows) && records.rows == old(records.rows))
    ensures r.Ok? <==> (FormatoValido(token) && old(FindAvailable(tokens.rows, token.value)).Some? &&
                        old(WasteRecords.FindByToken(records.rows, token.value)).None? && !marcacaoFalha)
    ensures ((FormatoValido(token) && old(FindAvailable(tokens.rows, token.value)).Some? &&
              old(WasteRecords.FindByToken(records.rows, token.value)).None?) ==>
      var t := old(FindAvailable(tokens.rows, token.value)).value;
      |records.rows| == |old(records.rows)| + 1 &&
      records.rows[..|old(records.rows)|] == old(records.rows) &&
      var rec := records.rows[|old(records.rows)|];
      rec.id == old(records.nextId) && rec.userId == userId && rec.token == token.value &&
      rec.categoria == t.categoria && rec.peso == t.peso &&
      rec.credito == CalcularCredito(t.peso, t.categoria) &&
      rec.status == VALIDADO && rec.dataValidacao == Some(now) && rec.dataCriacao == now &&
      rec.loteId.None? && rec.valorProporcional == 0.0 &&
      rec.dataSolicitacaoPagamento.None? && rec.dataPagamento.None? &&
      WasteRecords.FindByToken(records.rows, token.value) == Some(rec) &&
      (r.Ok? ==> r.value == rec))
    ensures r.Ok? ==> tokens.rows == MarkUsed(old(tokens.rows), token.value)
    ensures r.Ok? ==> FindAvailable(tokens.rows, token.value).None?
    ensures ((FormatoValido(token) && old(FindAvailable(tokens.rows, token.value)).Some? &&
              old(WasteRecords.FindByToken(records.rows, token.value)).None? && marcacaoFalha) ==>
      r == Err(FalhaAoMarcarToken) && tokens.rows == old(tokens.rows))
  {
    if !FormatoValido(token) {
      return Err(TokenFormatoInvalido);
    }
    var code := token.value;
    var tokenData := FindAvailable(tokens.rows, code);
    if tokenData.None? {
      return Err(TokenInvalidoOuUsado);
    }
    var credito := CalcularCredito(tokenData.value.peso, tokenData.value.categoria);
    var novo := records.Create(
      NewRecord(userId, code, tokenData.value.categoria, tokenData.value.peso, credito,
                Some(VALIDADO), Some(now), None, None), now);
    if novo.None? {
      return Err(TokenJaRegistrado);
    }
    if marcacaoFalha {
      return Err(FalhaAoMarcarToken);
    }
    var _ := tokens.MarkAsUsed(code);
    r := Ok(novo.value);
  }

  /** Redeeming the same code twice in a row: the second attempt is refused and creates nothing. */
  method RegistrarDuasVezes(tokens: TokenTable, records: RecordTable, userId: UserId, code: string, now: Timestamp)
    returns (primeiro: Result<WasteRecord, RegistroError>, segundo: Result<WasteRecord, RegistroError>)
    requires tokens.Valid() && records.Valid()
    modifies tokens, records
    ensures primeiro.Ok? <==> |code| == 6 && old(FindAvailable(tokens.rows, code)).Some? && old(WasteRecords.FindByToken(records.rows, code)).None?
    ensures primeiro.Ok? ==> segundo == Err(TokenInvalidoOuUsado)
    ensures primeiro.Ok? ==> |records.rows| == |old(records.rows)| + 1
  {
    primeiro := Registrar(tokens, records, userId, Some(code), now, false);
    ghost var between := records.rows;
    segundo := Registrar(tokens, records, userId, Some(code), now, false);
    assert primeiro.Ok? ==> records.rows == between;
  }

  /**
   * The insert comes before the mark: when the mark fails, the record stays
   * and the code stays redeemable, but the next redemption breaks the UNIQUE
   * token column at the insert. No second record is made, nothing is marked,
   * and the code can never be redeemed again while its record exists.
   */
  method RegistrarAposFalha(tokens: TokenTable, records: RecordTable, userId: UserId, code: string, now: Timestamp)
    returns (primeiro: Result<WasteRecord, RegistroError>, segundo: Result<WasteRecord, RegistroError>)
    requires tokens.Valid() && records.Valid()
    requires |code| == 6 && FindAvailable(tokens.rows, code).Some? && WasteRecords.FindByToken(records.rows, code).None?
    modifies tokens, records
    ensures primeiro == Err(FalhaAoMarcarToken) && segundo == Err(TokenJaRegistrado)
    ensures |records.rows| == |old(records.rows)| + 1
    ensures records.rows[..|old(records.rows)|] == old(records.rows)
    ensures WasteRecords.FindByToken(records.rows, code) == Some(records.rows[|records.rows| - 1])
    ensures tokens.rows == old(tokens.rows) && FindAvailable(tokens.rows, code).Some?
  {
    primeiro := Registrar(tokens, records, userId, Some(code), now, true);
    segundo := Registrar(tokens, records, userId, Some(code), now, false);
  }

  /**
   * A code issued again after its redemption is redeemable in the token
   * table, but its redemption breaks the UNIQUE token column: refused, with
   * the record table unchanged and the new row still available.
   */
  method RegistrarReemitido(tokens: TokenTable, records: RecordTable, userId: UserId, code: string,
                            categoria: Categoria, peso: real, now: Timestamp)
    returns (primeiro: Result<WasteRecord, RegistroError>, segundo: Result<WasteRecord, RegistroError>)
    requires tokens.Valid() && records.Valid()
    modifies tokens, records
    ensures primeiro.Ok? ==> segundo == Err(TokenJaRegistrado)
    ensures primeiro.Ok? ==> |records.rows| == |old(records.rows)| + 1
    ensures primeiro.Ok? ==> FindAvailable(tokens.rows, code).Some?
  {
    primeiro := Registrar(tokens, records, userId, Some(code), now, false);
    var _ := tokens.Create(code, categoria, peso, now);
    ghost var between := records.rows;
    segundo := Registrar(tokens, records, userId, Some(code), now, false);
    assert primeiro.Ok? ==> records.rows == between;
  }

  // Per-category and per-status selectors for the statistics.

  function PesoReciclavel(r: WasteRecord): real { if r.categoria == RECICLAVEL then r.peso else 0.0 }
  function PesoOrganico(r: WasteRecord): real { if r.categoria == ORGANICO then r.peso else 0.0 }
  function CreditoReciclavel(r: WasteRecord): real { if r.categoria == RECICLAVEL then r.credito else 0.0 }
  function CreditoOrganico(r: WasteRecord): real { if r.categoria == ORGANICO then r.credito else 0.0 }
  predicate IsReciclavel(r: WasteRecord) { r.categoria == RECICLAVEL }
  predicate IsOrganico(r: WasteRecord) { r.categoria == ORGANICO }

  /** Number of records in status `st`. */
  function CountStatus(s: seq<WasteRecord>, st: RecordStatus): (n: nat)
    ensures n <= |s|
  {
    if |s| == 0 then 0 else CountStatus(s[..|s| - 1], st) + (if s[|s| - 1].status == st then 1 else 0)
  }

  /** The statuses that occur in `s`. */
  function StatusesOf(s: seq<WasteRecord>): (r: set<RecordStatus>)
    ensures forall st :: st in r <==> exists x :: x in s && x.status == st
  {
    set x | x in s :: x.status
  }

  /** The three status counters the statistics start with. */
  const BaseStatuses: set<RecordStatus> := {VALIDADO, PENDENTE_PAGAMENTO, PAGO}

  datatype CategoriaStats = CategoriaStats(peso: real, credito: real, quantidade: nat)

  datatype Estatisticas = Estatisticas(
    totalPeso: real,
    totalCredito: real,
    reciclavel: CategoriaStats,
    organico: CategoriaStats,
    porStatus: map<RecordStatus, nat>)

  /** Every record is either recyclable or organic, so the two counts make up the whole. */
  lemma {:induction false} CategoriaCountsPartition(s: seq<WasteRecord>)
    ensures Count(s, IsReciclavel) + Count(s, IsOrganico) == |s|
  {
    if |s| > 0 {
      CategoriaCountsPartition(s[..|s| - 1]);
    }
  }

  /** The per-category weights add up to the total weight, and likewise the credits. */
  lemma {:induction false} CategoriaSumsPartition(s: seq<WasteRecord>)
    ensures Sum(s, PesoReciclavel) + Sum(s, PesoOrganico) == Sum(s, Peso)
    ensures Sum(s, CreditoReciclavel) + Sum(s, CreditoOrganico) == Sum(s, Credito)
  {
    if |s| > 0 {
      CategoriaSumsPartition(s[..|s| - 1]);
    }
  }

  /** The status counts of a sequence total its length. */
  lemma {:induction false} StatusCountsPartition(s: seq<WasteRecord>)
    ensures CountStatus(s, VALIDADO) + CountStatus(s, ENVIADO_VALIDADORA) + CountStatus(s, LIBERADO_PAGAMENTO) +
            CountStatus(s, PENDENTE_PAGAMENTO) + CountStatus(s, PAGO) == |s|
  {
    if |s| > 0 {
      StatusCountsPartition(s[..|s| - 1]);
    }
  }

  /** The statistics of a sequence of records, as one pass over it leaves them. */
  ghost predicate StatsOf(s: seq<WasteRecord>, stats: Estatisticas)
  {
    stats.totalPeso == Sum(s, Peso) && stats.totalCredito == Sum(s, Credito) &&
    stats.reciclavel == CategoriaStats(Sum(s, PesoReciclavel), Sum(s, CreditoReciclavel), Count(s, IsReciclavel)) &&
    stats.organico == CategoriaStats(Sum(s, PesoOrganico), Sum(s, CreditoOrganico), Count(s, IsOrganico)) &&
    StatusCounts(s, stats.porStatus)
  }

  /** The per-status counters: the preset statuses and those that occur, each with its number of records. */
  ghost predicate StatusCounts(s: seq<WasteRecord>, porStatus: map<RecordStatus, nat>)
  {
    porStatus.Keys == BaseStatuses + StatusesOf(s) &&
    forall st :: st in porStatus ==> porStatus[st] == CountStatus(s, st)
  }

  /** One more recyclable record grows the recyclable figures by its weight, credit and one. */
  lemma ReciclavelStep(s: seq<WasteRecord>, x: WasteRecord, c: CategoriaStats)
    requires c == CategoriaStats(Sum(s, PesoReciclavel), Sum(s, CreditoReciclavel), Count(s, IsReciclavel))
    ensures Somar(c, x, RECICLAVEL) ==
      CategoriaStats(Sum(s + [x], PesoReciclavel), Sum(s + [x], CreditoReciclavel), Count(s + [x], IsReciclavel))
  {
    assert (s + [x])[..|s|] == s;
  }

  /** One more organic record grows the organic figures by its weight, credit and one. */
  lemma OrganicoStep(s: seq<WasteRecord>, x: WasteRecord, c: CategoriaStats)
    requires c == CategoriaStats(Sum(s, PesoOrganico), Sum(s, CreditoOrganico), Count(s, IsOrganico))
    ensures Somar(c, x, ORGANICO) ==
      CategoriaStats(Sum(s + [x], PesoOrganico), Sum(s + [x], CreditoOrganico), Count(s + [x], IsOrganico))
  {
    assert (s + [x])[..|s|] == s;
  }

  lemma StatusesSnoc(s: seq<WasteRecord>, x: WasteRecord)
    ensures StatusesOf(s + [x]) == StatusesOf(s) + {x.status}
  {
    assert (s + [x])[..|s|] == s;
  }

  lemma CountStatusSnoc(s: seq<WasteRecord>, x: WasteRecord, st: RecordStatus)
    ensures CountStatus(s + [x], st) == CountStatus(s, st) + (if x.status == st then 1 else 0)
  {
    assert (s + [x])[..|s|] == s;
  }

  /** A status that does not occur is counted zero times. */
  lemma {:induction false} CountStatusAbsent(s: seq<WasteRecord>, st: RecordStatus)
    requires st !in StatusesOf(s)
    ensures CountStatus(s, st) == 0
  {
    if |s| > 0 {
      assert s[|s| - 1] in s;
      assert forall y :: y in s[..|s| - 1] ==> y in s;
      CountStatusAbsent(s[..|s| - 1], st);
    }
  }

  /** A category's figures after one record: grown when the record is of that category. */
  function Somar(c: CategoriaStats, x: WasteRecord, categoria: Categoria): CategoriaStats
  {
    if x.categoria == categoria then CategoriaStats(c.peso + x.peso, c.credito + x.credito, c.quantidade + 1) else c
  }

  /** `porStatus[status] = (porStatus[status] || 0) + 1`. */
  function Contar(m: map<RecordStatus, nat>, st: RecordStatus): map<RecordStatus, nat>
  {
    m[st := (if st in m then m[st] else 0) + 1]
  }

  /** Adding one record to the figures: the body of the `forEach` callback. */
  function Adicionar(stats: Estatisticas, x: WasteRecord): Estatisticas
  {
    Estatisticas(
      stats.totalPeso + x.peso, stats.totalCredito + x.credito,
      Somar(stats.reciclavel, x, RECICLAVEL), Somar(stats.organico, x, ORGANICO),
      Contar(stats.porStatus, x.status))
  }

  /** The callback keeps the figures equal to those of the records seen so far. */
  lemma AdicionarStep(s: seq<WasteRecord>, x: WasteRecord, stats: Estatisticas)
    requires StatsOf(s, stats)
    ensures StatsOf(s + [x], Adicionar(stats, x))
  {
    SumPush(s, x, Peso);
    SumPush(s, x, Credito);
    ReciclavelStep(s, x, stats.reciclavel);
    OrganicoStep(s, x, stats.organico);
    CountedStep(s, x, stats.porStatus);
  }

  /** Counting one more record under its status keeps every counter right. */
  lemma CountedStep(s: seq<WasteRecord>, x: WasteRecord, m: map<RecordStatus, nat>)
    requires StatusCounts(s, m)
    ensures StatusCounts(s + [x], Contar(m, x.status))
  {
    var next := Contar(m, x.status);
    StatusesSnoc(s, x);
    forall st | st in next
      ensures next[st] == CountStatus(s + [x], st)
    {
      CountStatusSnoc(s, x, st);
      if st != x.status {
        assert st in m && next[st] == m[st];
      } else if st !in m {
        CountStatusAbsent(s, st);
      }
    }
  }

  /** The loop of `obterEstatisticas` over the records it is given. */
  method Acumular(registros: seq<WasteRecord>) returns (stats: Estatisticas)
    ensures StatsOf(registros, stats)
  {
    stats := Estatisticas(0.0, 0.0, CategoriaStats(0.0, 0.0, 0), CategoriaStats(0.0, 0.0, 0),
                          map[VALIDADO := 0, PENDENTE_PAGAMENTO := 0, PAGO := 0]);
    var i := 0;
    while i < |registros|
      invariant 0 <= i <= |registros|
      invariant StatsOf(registros[..i], stats)
    {
      TakeSnoc(registros, i);
      AdicionarStep(registros[..i], registros[i], stats);
      stats := Adicionar(stats, registros[i]);
      i := i + 1;
    }
    assert registros[..i] == registros;
  }

  /** The three preset status counters, stated separately so that they hold on empty input. */
  lemma BaseStatusesPresent()
    ensures VALIDADO in BaseStatuses && PENDENTE_PAGAMENTO in BaseStatuses && PAGO in BaseStatuses
  {
  }

  /**
   * `obterEstatisticas(userId)`: one pass over the user's records adding each
   * weight and credit to the totals and to its category, and counting it
   * under its status; a status other than the three preset ones gets its own
   * counter the first time it occurs. Since the pass only adds, the figures
   * do not depend on the order the records come in.
   */
  method ObterEstatisticas(rows: seq<WasteRecord>, userId: UserId) returns (stats: Estatisticas)
    ensures stats.totalPeso == Sum(FilterUser(rows, userId), Peso)
    ensures stats.totalCredito == Sum(FilterUser(rows, userId), Credito)
    ensures stats.reciclavel.quantidade + stats.organico.quantidade == |FilterUser(rows, userId)|
    ensures stats.reciclavel.peso + stats.organico.peso == stats.totalPeso
    ensures stats.reciclavel.credito + stats.organico.credito == stats.totalCredito
    ensures stats.reciclavel == CategoriaStats(Sum(FilterUser(rows, userId), PesoReciclavel),
                                               Sum(FilterUser(rows, userId), CreditoReciclavel),
                                               Count(FilterUser(rows, userId), IsReciclavel))
    ensures stats.organico == CategoriaStats(Sum(FilterUser(rows, userId), PesoOrganico),
                                             Sum(FilterUser(rows, userId), CreditoOrganico),
                                             Count(FilterUser(rows, userId), IsOrganico))
    ensures stats.porStatus.Keys == BaseStatuses + StatusesOf(FilterUser(rows, userId))
    ensures forall st :: st in stats.porStatus ==> stats.porStatus[st] == CountStatus(FindByUserId(rows, userId), st)
  {
    var registros := FindByUserId(rows, userId);
    stats := Acumular(registros);
    ghost var mine := FilterUser(rows, userId);
    SumPermutation(registros, mine, Peso);
    SumPermutation(registros, mine, Credito);
    SumPermutation(registros, mine, PesoReciclavel);
    SumPermutation(registros, mine, PesoOrganico);
    SumPermutation(registros, mine, CreditoReciclavel);
    SumPermutation(registros, mine, CreditoOrganico);
    CountPermutation(registros, mine, IsReciclavel);
    CountPermutation(registros, mine, IsOrganico);
    CategoriaCountsPartition(mine);
    CategoriaSumsPartition(mine);
    MultisetMembers(registros, mine);
    assert StatusesOf(registros) == StatusesOf(mine);
  }

  /** A record with its depositor's name and CNPJ, or "Desconhecido" and "" for an unknown user. */
  datatype ComUsuario = ComUsuario(registro: WasteRecord, nomeEmpresa: string, cnpj: string)

  function ComUsuarioDe(w: WasteRecord, users: map<UserId, Usuario>): ComUsuario
  {
    ComUsuario(w, NomeEmpresa(users, w.userId), CnpjDe(users, w.userId))
  }

  function ComUsuarioOldestFirst(e: ComUsuario): int { e.registro.dataCriacao }

  /** The lookup loop of `listarDisponiveisParaLote`: each record joined with its depositor, in order. */
  method JuntarUsuarios(registros: seq<WasteRecord>, users: map<UserId, Usuario>) returns (out: seq<ComUsuario>)
    ensures |out| == |registros|
    ensures forall k :: 0 <= k < |registros| ==> out[k] == ComUsuarioDe(registros[k], users)
  {
    out := [];
    var i := 0;
    while i < |registros|
      invariant 0 <= i <= |registros|
      invariant |out| == i
      invariant forall k :: 0 <= k < i ==> out[k] == ComUsuarioDe(registros[k], users)
    {
      out := out + [ComUsuarioDe(registros[i], users)];
      i := i + 1;
    }
  }

  /** Joining keeps exactly the same records, each carrying its own depositor's data. */
  lemma JuntarMembers(registros: seq<WasteRecord>, out: seq<ComUsuario>, users: map<UserId, Usuario>)
    requires |out| == |registros|
    requires forall k :: 0 <= k < |registros| ==> out[k] == ComUsuarioDe(registros[k], users)
    ensures forall x :: x in registros <==> ComUsuarioDe(x, users) in out
    ensures forall e :: e in out ==> e == ComUsuarioDe(e.registro, users) && e.registro in registros
  {
    forall x | x in registros
      ensures ComUsuarioDe(x, users) in out
    {
      var k :| 0 <= k < |registros| && registros[k] == x;
      assert out[k] == ComUsuarioDe(x, users);
    }
    forall e | e in out
      ensures e == ComUsuarioDe(e.registro, users) && e.registro in registros
    {
      var k :| 0 <= k < |out| && out[k] == e;
      assert e.registro == registros[k];
    }
  }

  /**
   * `listarDisponiveisParaLote()`: the `VALIDADO` records, each joined with
   * its depositor, re-sorted oldest first; `total` is their number.
   */
  method ListarDisponiveisParaLote(rows: seq<WasteRecord>, users: map<UserId, Usuario>)
    returns (total: nat, registros: seq<ComUsuario>)
    ensures total == |registros| == |FilterStatus(rows, VALIDADO)|
    ensures forall x :: x in rows && x.status == VALIDADO <==> ComUsuarioDe(x, users) in registros
    ensures forall e :: e in registros ==> e == ComUsuarioDe(e.registro, users)
    ensures forall i, j :: 0 <= i < j < |registros| ==> registros[i].registro.dataCriacao <= registros[j].registro.dataCriacao
    ensures forall e :: multiset(registros)[e] ==
              (if e == ComUsuarioDe(e.registro, users) then multiset(FilterStatus(rows, VALIDADO))[e.registro] else 0)
  {
    var validados := FindByStatus(rows, VALIDADO);
    var comUsuario := JuntarUsuarios(validados, users);
    registros := SortBy(comUsuario, ComUsuarioOldestFirst);
    total := |registros|;
    PermutationLength(validados, FilterStatus(rows, VALIDADO));
    JuntarMembers(validados, comUsuario, users);
    forall e: ComUsuario
      ensures multiset(comUsuario)[e] ==
              (if e == ComUsuarioDe(e.registro, users) then multiset(validados)[e.registro] else 0)
    {
      JuntarCounts(validados, comUsuario, users, e);
    }
    MultisetMembers(registros, comUsuario);
    ComUsuarioOrder(registros);
  }

  /** The join pairs each record with its own depositor: a joined entry occurs as often as its record does. */
  lemma {:induction false} JuntarCounts(registros: seq<WasteRecord>, out: seq<ComUsuario>, users: map<UserId, Usuario>, e: ComUsuario)
    requires |out| == |registros|
    requires forall k :: 0 <= k < |registros| ==> out[k] == ComUsuarioDe(registros[k], users)
    ensures multiset(out)[e] == (if e == ComUsuarioDe(e.registro, users) then multiset(registros)[e.registro] else 0)
  {
    if |registros| > 0 {
      var n := |registros| - 1;
      var ri, oi, x := registros[..n], out[..n], registros[n];
      JuntarCounts(ri, oi, users, e);
      assert registros == ri + [x];
      assert out == oi + [ComUsuarioDe(x, users)];
      assert multiset(out)[e] == multiset(oi)[e] + (if e == ComUsuarioDe(x, users) then 1 else 0);
      assert multiset(registros)[e.registro] == multiset(ri)[e.registro] + (if e.registro == x then 1 else 0);
    }
  }

  /** Sorted by `ComUsuarioOldestFirst`: creation dates never decrease along the list. */
  lemma ComUsuarioOrder(r: seq<ComUsuario>)
    requires SortedBy(r, ComUsuarioOldestFirst)
    ensures forall i, j :: 0 <= i < j < |r| ==> r[i].registro.dataCriacao <= r[j].registro.dataCriacao
  {
    forall i, j | 0 <= i < j < |r| ensures r[i].registro.dataCriacao <= r[j].registro.dataCriacao {
      assert ComUsuarioOldestFirst(r[i]) <= ComUsuarioOldestFirst(r[j]);
    }
  }
}
