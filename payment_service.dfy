/**
 * The payment service: a depositor's view of its records by payment stage,
 * the administrator's list of payable records grouped by depositor, and the
 * processing that pays released records one by one.
 */
module PaymentService {
  import opened Wrappers
  import opened Domain
  import opened Collections
  import opened WasteRecords

  // ---------------------------------------------------------------------------
  // Payment stages of a depositor's records
  // ---------------------------------------------------------------------------

  /** Waiting for the validator: still unbatched, or batched and sent. */
  predicate IsPendente(r: WasteRecord) { r.status == VALIDADO || r.status == ENVIADO_VALIDADORA }
  /** Released: the payout is known and waits for the administrator. */
  predicate IsDisponivel(r: WasteRecord) { r.status == LIBERADO_PAGAMENTO }
  predicate IsPago(r: WasteRecord) { r.status == PAGO }
  /** The legacy status, which no stage shows. */
  predicate IsLegado(r: WasteRecord) { r.status == PENDENTE_PAGAMENTO }

  /** Every record is in exactly one stage, or in the legacy status. */
  lemma {:induction false} StagesPartition(s: seq<WasteRecord>)
    ensures Count(s, IsPendente) + Count(s, IsDisponivel) + Count(s, IsPago) + Count(s, IsLegado) == |s|
  {
    if |s| > 0 {
      StagesPartition(s[..|s| - 1]);
    }
  }

  datatype Etapa = Etapa(quantidade: nat, total: real, registros: seq<WasteRecord>)

  datatype Acompanhamento = Acompanhamento(pendentes: Etapa, disponiveis: Etapa, pagos: Etapa)

  const Vazio := Acompanhamento(Etapa(0, 0.0, []), Etapa(0, 0.0, []), Etapa(0, 0.0, []))

  /** One turn of the loop of `acompanhar`: the record joins the stage of its status, if any. */
  function Acrescentar(a: Acompanhamento, r: WasteRecord): Acompanhamento
  {
    if IsPendente(r) then
      a.(pendentes := Etapa(a.pendentes.quantidade + 1, a.pendentes.total + r.peso, a.pendentes.registros + [r]))
    else if IsDisponivel(r) then
      a.(disponiveis := Etapa(a.disponiveis.quantidade + 1, a.disponiveis.total + r.valorProporcional,
                              a.disponiveis.registros + [r]))
    else if IsPago(r) then
      a.(pagos := Etapa(a.pagos.quantidade + 1, a.pagos.total + r.valorProporcional, a.pagos.registros + [r]))
    else a
  }

  /** What the loop of `acompanhar` has built after the records `s`. */
  function Separado(s: seq<WasteRecord>): Acompanhamento
  {
    if |s| == 0 then Vazio else Acrescentar(Separado(s[..|s| - 1]), s[|s| - 1])
  }

  /** The pending stage the loop builds: the pending records in their order, with their count and weight. */
  lemma {:induction false} SeparadoPendentes(s: seq<WasteRecord>)
    ensures Separado(s).pendentes == Etapa(Count(s, IsPendente), Sum(Filter(s, IsPendente), Peso), Filter(s, IsPendente))
  {
    if |s| > 0 {
      var init, x := s[..|s| - 1], s[|s| - 1];
      SeparadoPendentes(init);
      AcrescentarPendentes(Separado(init), x);
      SumPush(Filter(init, IsPendente), x, Peso);
    }
  }

  /** The released stage the loop builds: the released records in their order, with their count and payout. */
  lemma {:induction false} SeparadoDisponiveis(s: seq<WasteRecord>)
    ensures Separado(s).disponiveis == Etapa(Count(s, IsDisponivel), Sum(Filter(s, IsDisponivel), Valor),
                                             Filter(s, IsDisponivel))
  {
    if |s| > 0 {
      var init, x := s[..|s| - 1], s[|s| - 1];
      SeparadoDisponiveis(init);
      AcrescentarDisponiveis(Separado(init), x);
      SumPush(Filter(init, IsDisponivel), x, Valor);
    }
  }

  /** The paid stage the loop builds: the paid records in their order, with their count and payout. */
  lemma {:induction false} SeparadoPagos(s: seq<WasteRecord>)
    ensures Separado(s).pagos == Etapa(Count(s, IsPago), Sum(Filter(s, IsPago), Valor), Filter(s, IsPago))
  {
    if |s| > 0 {
      var init, x := s[..|s| - 1], s[|s| - 1];
      SeparadoPagos(init);
      AcrescentarPagos(Separado(init), x);
      SumPush(Filter(init, IsPago), x, Valor);
    }
  }

  lemma AcrescentarPendentes(a: Acompanhamento, r: WasteRecord)
    ensures Acrescentar(a, r).pendentes ==
      (if IsPendente(r) then Etapa(a.pendentes.quantidade + 1, a.pendentes.total + r.peso, a.pendentes.registros + [r])
       else a.pendentes)
  {
  }

  lemma AcrescentarDisponiveis(a: Acompanhamento, r: WasteRecord)
    ensures Acrescentar(a, r).disponiveis ==
      (if IsDisponivel(r)
       then Etapa(a.disponiveis.quantidade + 1, a.disponiveis.total + r.valorProporcional, a.disponiveis.registros + [r])
       else a.disponiveis)
  {
  }

  lemma AcrescentarPagos(a: Acompanhamento, r: WasteRecord)
    ensures Acrescentar(a, r).pagos ==
      (if IsPago(r) then Etapa(a.pagos.quantidade + 1, a.pagos.total + r.valorProporcional, a.pagos.registros + [r])
       else a.pagos)
  {
  }

  lemma SumSnoc(s: seq<WasteRecord>, x: WasteRecord)
    ensures Sum(s + [x], Valor) == Sum(s, Valor) + x.valorProporcional
  {
    assert (s + [x])[..|s|] == s;
  }

  /** The loop of `acompanhar`: each record pushed to the stage of its status. */
  method Separar(registros: seq<WasteRecord>) returns (a: Acompanhamento)
    ensures a == Separado(registros)
    ensures a.pendentes == Etapa(Count(registros, IsPendente), Sum(Filter(registros, IsPendente), Peso),
                                 Filter(registros, IsPendente))
    ensures a.disponiveis == Etapa(Count(registros, IsDisponivel), Sum(Filter(registros, IsDisponivel), Valor),
                                   Filter(registros, IsDisponivel))
    ensures a.pagos == Etapa(Count(registros, IsPago), Sum(Filter(registros, IsPago), Valor),
                             Filter(registros, IsPago))
  {
    var pendentes, disponiveis, pagos: seq<WasteRecord> := [], [], [];
    var totalPendente, totalDisponivel, totalPago := 0.0, 0.0, 0.0;
    var i := 0;
    while i < |registros|
      invariant 0 <= i <= |registros|
      invariant Separado(registros[..i]) == Acompanhamento(Etapa(|pendentes|, totalPendente, pendentes),
                                                           Etapa(|disponiveis|, totalDisponivel, disponiveis),
                                                           Etapa(|pagos|, totalPago, pagos))
    {
      var r := registros[i];
      TakeSnoc(registros, i);
      if IsPendente(r) {
        pendentes := pendentes + [r];
        totalPendente := totalPendente + r.peso;
      } else if IsDisponivel(r) {
        disponiveis := disponiveis + [r];
        totalDisponivel := totalDisponivel + r.valorProporcional;
      } else if IsPago(r) {
        pagos := pagos + [r];
        totalPago := totalPago + r.valorProporcional;
      }
      i := i + 1;
    }
    assert registros[..i] == registros;
    a := Acompanhamento(Etapa(|pendentes|, totalPendente, pendentes),
                        Etapa(|disponiveis|, totalDisponivel, disponiveis),
                        Etapa(|pagos|, totalPago, pagos));
    SeparadoPendentes(registros);
    SeparadoDisponiveis(registros);
    SeparadoPagos(registros);
  }

  /** A stage's total depends only on which records there are, not on their order. */
  lemma StageSumPendente(a: seq<WasteRecord>, b: seq<WasteRecord>)
    requires multiset(a) == multiset(b)
    ensures Sum(Filter(a, IsPendente), Peso) == Sum(Filter(b, IsPendente), Peso)
  {
    FilterPermutation(a, b, IsPendente);
    SumPermutation(Filter(a, IsPendente), Filter(b, IsPendente), Peso);
  }

  /** Filtering by stage and by status pick the same released or paid records. */
  lemma StageSumStatus(a: seq<WasteRecord>, b: seq<WasteRecord>, p: WasteRecord -> bool, st: RecordStatus)
    requires multiset(a) == multiset(b)
    requires forall x :: p(x) <==> x.status == st
    ensures Sum(Filter(a, p), Valor) == Sum(FilterStatus(b, st), Valor)
  {
    FilterMultiset(a, p);
    FilterStatusMultiset(b, st);
    assert multiset(Filter(a, p)) == multiset(FilterStatus(b, st));
    SumPermutation(Filter(a, p), FilterStatus(b, st), Valor);
  }

  /**
   * `acompanhar(userId)`: the user's records, newest first, split into
   * pending (weights summed), released and paid (payouts summed); a record in
   * the legacy status lands in no stage. The totals do not depend on the
   * order of the records.
   */
  method Acompanhar(rows: seq<WasteRecord>, userId: UserId) returns (a: Acompanhamento)
    ensures a.pendentes.registros == Filter(FindByUserId(rows, userId), IsPendente)
    ensures a.disponiveis.registros == Filter(FindByUserId(rows, userId), IsDisponivel)
    ensures a.pagos.registros == Filter(FindByUserId(rows, userId), IsPago)
    ensures a.pendentes.quantidade == |a.pendentes.registros|
    ensures a.disponiveis.quantidade == |a.disponiveis.registros|
    ensures a.pagos.quantidade == |a.pagos.registros|
    ensures a.pendentes.total == Sum(Filter(FilterUser(rows, userId), IsPendente), Peso)
    ensures a.disponiveis.total == Sum(FilterStatus(FilterUser(rows, userId), LIBERADO_PAGAMENTO), Valor)
    ensures a.pagos.total == Sum(FilterStatus(FilterUser(rows, userId), PAGO), Valor)
    ensures (a.pendentes.quantidade + a.disponiveis.quantidade + a.pagos.quantidade +
             Count(FilterUser(rows, userId), IsLegado) == |FilterUser(rows, userId)|)
  {
    var registros := FindByUserId(rows, userId);
    a := Separar(registros);
    ghost var mine := FilterUser(rows, userId);
    StageSumPendente(registros, mine);
    StageSumStatus(registros, mine, IsDisponivel, LIBERADO_PAGAMENTO);
    StageSumStatus(registros, mine, IsPago, PAGO);
    StagesPartition(registros);
    CountPermutation(registros, mine, IsLegado);
  }

  datatype Resumo = Resumo(total: nat, totalValor: real, registros: seq<WasteRecord>)

  /** One user's records in one status, newest first, with their number and the sum of their payouts. */
  function ResumoStatus(rows: seq<WasteRecord>, userId: UserId, st: RecordStatus): (r: Resumo)
    ensures forall x :: x in r.registros <==> x in rows && x.userId == userId && x.status == st
    ensures r.total == |r.registros| == |FilterStatus(FilterUser(rows, userId), st)|
    ensures r.totalValor == Sum(FilterStatus(FilterUser(rows, userId), st), Valor)
  {
    var registros := FindByUserIdAndStatus(rows, userId, st);
    SumPermutation(registros, FilterStatus(FilterUser(rows, userId), st), Valor);
    assert |multiset(registros)| == |multiset(FilterStatus(FilterUser(rows, userId), st))|;
    Resumo(|registros|, Sum(registros, Valor), registros)
  }

  /** `listarDisponiveis(userId)`: the user's released records and what they will pay. */
  function ListarDisponiveis(rows: seq<WasteRecord>, userId: UserId): (r: Resumo)
    ensures forall x :: x in r.registros <==> x in rows && x.userId == userId && x.status == LIBERADO_PAGAMENTO
    ensures r.totalValor == Sum(FilterStatus(FilterUser(rows, userId), LIBERADO_PAGAMENTO), Valor)
    ensures r.total == |r.registros|
  {
    ResumoStatus(rows, userId, LIBERADO_PAGAMENTO)
  }

  /** `obterHistorico(userId)`: the user's paid records and what they paid. */
  function ObterHistorico(rows: seq<WasteRecord>, userId: UserId): (r: Resumo)
    ensures forall x :: x in r.registros <==> x in rows && x.userId == userId && x.status == PAGO
    ensures r.totalValor == Sum(FilterStatus(FilterUser(rows, userId), PAGO), Valor)
    ensures r.total == |r.registros|
  {
    ResumoStatus(rows, userId, PAGO)
  }

  // ---------------------------------------------------------------------------
  // Payable records grouped by depositor
  // ---------------------------------------------------------------------------

  /**
   * The distinct users of `s`, in order of first appearance: the key order of
   * the grouping object for non-integer-like ids such as uuids. JavaScript
   * lists integer-like keys first, in ascending order.
   */
  function Usuarios(s: seq<WasteRecord>): seq<UserId>
  {
    if |s| == 0 then []
    else
      var init := Usuarios(s[..|s| - 1]);
      if s[|s| - 1].userId in init then init else init + [s[|s| - 1].userId]
  }

  /** The records of one depositor, in list order. */
  function DoUsuario(s: seq<WasteRecord>, u: UserId): seq<WasteRecord>
  {
    if |s| == 0 then []
    else
      var init := DoUsuario(s[..|s| - 1], u);
      if s[|s| - 1].userId == u then init + [s[|s| - 1]] else init
  }

  /** The listed users are exactly those with a record in `s`. */
  lemma {:induction false} UsuariosMembers(s: seq<WasteRecord>)
    ensures forall u :: u in Usuarios(s) <==> exists x :: x in s && x.userId == u
  {
    if |s| > 0 {
      var init := s[..|s| - 1];
      assert s == init + [s[|s| - 1]];
      UsuariosMembers(init);
    }
  }

  /** No user is listed twice. */
  lemma {:induction false} UsuariosDistinct(s: seq<WasteRecord>)
    ensures forall i, j :: 0 <= i < j < |Usuarios(s)| ==> Usuarios(s)[i] != Usuarios(s)[j]
  {
    if |s| > 0 {
      UsuariosDistinct(s[..|s| - 1]);
    }
  }

  /** A depositor's records are the user filter of the list. */
  lemma {:induction false} DoUsuarioIsFilterUser(s: seq<WasteRecord>, u: UserId)
    ensures DoUsuario(s, u) == FilterUser(s, u)
  {
    if |s| > 0 {
      DoUsuarioIsFilterUser(s[..|s| - 1], u);
    }
  }

  /** A user not yet listed has no records. */
  lemma {:induction false} DoUsuarioEmpty(s: seq<WasteRecord>, u: UserId)
    requires u !in Usuarios(s)
    ensures DoUsuario(s, u) == []
  {
    if |s| > 0 {
      DoUsuarioEmpty(s[..|s| - 1], u);
    }
  }

  lemma DoUsuarioSnoc(s: seq<WasteRecord>, x: WasteRecord, u: UserId)
    ensures DoUsuario(s + [x], u) == if x.userId == u then DoUsuario(s, u) + [x] else DoUsuario(s, u)
  {
    assert (s + [x])[..|s|] == s;
  }

  lemma UsuariosSnoc(s: seq<WasteRecord>, x: WasteRecord)
    ensures Usuarios(s + [x]) == if x.userId in Usuarios(s) then Usuarios(s) else Usuarios(s) + [x.userId]
  {
    assert (s + [x])[..|s|] == s;
  }

  /** One depositor's group: its records, in list order, and the sum of their payouts. */
  datatype Grupo = Grupo(userId: UserId, nomeEmpresa: string, cnpj: string, registros: seq<WasteRecord>, totalValor: real)

  /** Sum of the payouts of the given users' records. */
  function SomaGrupos(s: seq<WasteRecord>, us: seq<UserId>): real
  {
    if |us| == 0 then 0.0 else SomaGrupos(s, us[..|us| - 1]) + Sum(DoUsuario(s, us[|us| - 1]), Valor)
  }

  /** Sum of the totals of the given groups. */
  function TotalGrupos(m: map<UserId, Grupo>, us: seq<UserId>): real
    requires forall u :: u in us ==> u in m
  {
    if |us| == 0 then 0.0 else TotalGrupos(m, us[..|us| - 1]) + m[us[|us| - 1]].totalValor
  }

  /** A record of a user already listed adds its payout to that user's group only. */
  lemma {:induction false} SomaGruposSnoc(s: seq<WasteRecord>, x: WasteRecord, us: seq<UserId>)
    requires forall i, j :: 0 <= i < j < |us| ==> us[i] != us[j]
    ensures SomaGrupos(s + [x], us) == SomaGrupos(s, us) + (if x.userId in us then x.valorProporcional else 0.0)
  {
    if |us| > 0 {
      var init, u := us[..|us| - 1], us[|us| - 1];
      assert us == init + [u];
      SomaGruposSnoc(s, x, init);
      DoUsuarioSnoc(s, x, u);
      if x.userId == u {
        SumSnoc(DoUsuario(s, u), x);
        assert x.userId !in init;
      }
    }
  }

  /** The groups of all users of `s` share out the whole sum: no payout is lost or counted twice. */
  lemma {:induction false} GruposSomam(s: seq<WasteRecord>)
    ensures SomaGrupos(s, Usuarios(s)) == Sum(s, Valor)
  {
    if |s| > 0 {
      var init, x := s[..|s| - 1], s[|s| - 1];
      assert s == init + [x];
      GruposSomam(init);
      UsuariosDistinct(init);
      SomaGruposSnoc(init, x, Usuarios(init));
      UsuariosSnoc(init, x);
      if x.userId !in Usuarios(init) {
        GrupoNovo(init, x);
      }
    }
  }

  /** A record of a user not yet listed opens a group holding just its payout. */
  lemma GrupoNovo(init: seq<WasteRecord>, x: WasteRecord)
    requires x.userId !in Usuarios(init)
    ensures SomaGrupos(init + [x], Usuarios(init) + [x.userId]) == SomaGrupos(init + [x], Usuarios(init)) + x.valorProporcional
  {
    var us := Usuarios(init) + [x.userId];
    assert us[..|us| - 1] == Usuarios(init);
    DoUsuarioEmpty(init, x.userId);
    DoUsuarioSnoc(init, x, x.userId);
    SumSnoc([], x);
  }

  /** Groups whose totals are their users' sums add up like those sums. */
  lemma {:induction false} TotalGruposSoma(m: map<UserId, Grupo>, s: seq<WasteRecord>, us: seq<UserId>)
    requires forall u :: u in us ==> u in m && m[u].totalValor == Sum(DoUsuario(s, u), Valor)
    ensures TotalGrupos(m, us) == SomaGrupos(s, us)
  {
    if |us| > 0 {
      assert forall u :: u in us[..|us| - 1] ==> u in us;
      TotalGruposSoma(m, s, us[..|us| - 1]);
    }
  }

  /** The groups with their contents, apart from the order they were opened in. */
  ghost predicate GroupsHold(s: seq<WasteRecord>, users: map<UserId, Usuario>, porUsuario: map<UserId, Grupo>)
  {
    forall u :: u in porUsuario ==>
      porUsuario[u] == Grupo(u, NomeEmpresa(users, u), CnpjDe(users, u), DoUsuario(s, u), Sum(DoUsuario(s, u), Valor))
  }

  /** The grouping of `s` as the loop leaves it. */
  ghost predicate GroupedAs(s: seq<WasteRecord>, users: map<UserId, Usuario>, porUsuario: map<UserId, Grupo>, ordem: seq<UserId>)
  {
    ordem == Usuarios(s) &&
    (forall u :: u in porUsuario <==> u in ordem) &&
    GroupsHold(s, users, porUsuario)
  }

  /** The group a record is pushed to: the depositor's group, opened with its lookup if there is none yet. */
  function GrupoAberto(porUsuario: map<UserId, Grupo>, users: map<UserId, Usuario>, u: UserId): Grupo
  {
    if u in porUsuario then porUsuario[u] else Grupo(u, NomeEmpresa(users, u), CnpjDe(users, u), [], 0.0)
  }

  /** The group a record is pushed to holds that depositor's earlier records. */
  lemma GrupoAbertoHolds(s: seq<WasteRecord>, u: UserId, users: map<UserId, Usuario>,
                         porUsuario: map<UserId, Grupo>, ordem: seq<UserId>)
    requires GroupedAs(s, users, porUsuario, ordem)
    ensures (GrupoAberto(porUsuario, users, u) ==
      Grupo(u, NomeEmpresa(users, u), CnpjDe(users, u), DoUsuario(s, u), Sum(DoUsuario(s, u), Valor)))
  {
    if u !in porUsuario {
      DoUsuarioEmpty(s, u);
    }
  }

  /** One turn of the grouping loop: the record is pushed to its depositor's group, opened if need be. */
  function Agregar(porUsuario: map<UserId, Grupo>, ordem: seq<UserId>, users: map<UserId, Usuario>, p: WasteRecord)
    : (map<UserId, Grupo>, seq<UserId>)
  {
    var g := GrupoAberto(porUsuario, users, p.userId);
    (porUsuario[p.userId := g.(registros := g.registros + [p], totalValor := g.totalValor + p.valorProporcional)],
     if p.userId in porUsuario then ordem else ordem + [p.userId])
  }

  /** The groups and their opening order after the grouping loop has seen `s`. */
  function Agrupado(s: seq<WasteRecord>, users: map<UserId, Usuario>): (map<UserId, Grupo>, seq<UserId>)
  {
    if |s| == 0 then (map[], [])
    else
      var prev := Agrupado(s[..|s| - 1], users);
      Agregar(prev.0, prev.1, users, s[|s| - 1])
  }

  /** One depositor's group after one more record: it grows exactly when the record is that depositor's. */
  lemma GrupoStepAt(s: seq<WasteRecord>, x: WasteRecord, users: map<UserId, Usuario>, g: Grupo, g': Grupo, u: UserId)
    requires g == Grupo(u, NomeEmpresa(users, u), CnpjDe(users, u), DoUsuario(s, u), Sum(DoUsuario(s, u), Valor))
    requires (g' ==
      if u == x.userId then g.(registros := g.registros + [x], totalValor := g.totalValor + x.valorProporcional) else g)
    ensures g' == Grupo(u, NomeEmpresa(users, u), CnpjDe(users, u), DoUsuario(s + [x], u), Sum(DoUsuario(s + [x], u), Valor))
  {
    DoUsuarioSnoc(s, x, u);
    if u == x.userId {
      SumSnoc(DoUsuario(s, u), x);
    }
  }

  lemma GroupsStep(s: seq<WasteRecord>, x: WasteRecord, users: map<UserId, Usuario>,
                   porUsuario: map<UserId, Grupo>, ordem: seq<UserId>, porUsuario': map<UserId, Grupo>)
    requires GroupedAs(s, users, porUsuario, ordem)
    requires porUsuario' == Agregar(porUsuario, ordem, users, x).0
    ensures GroupsHold(s + [x], users, porUsuario')
  {
    forall u | u in porUsuario'
      ensures porUsuario'[u] == Grupo(u, NomeEmpresa(users, u), CnpjDe(users, u), DoUsuario(s + [x], u), Sum(DoUsuario(s + [x], u), Valor))
    {
      GrupoAbertoHolds(s, u, users, porUsuario, ordem);
      GrupoStepAt(s, x, users, GrupoAberto(porUsuario, users, u), porUsuario'[u], u);
    }
  }

  /** One turn of the grouping loop keeps the grouping equal to that of the records seen so far. */
  lemma GroupedStep(s: seq<WasteRecord>, x: WasteRecord, s': seq<WasteRecord>, users: map<UserId, Usuario>,
                    porUsuario: map<UserId, Grupo>, ordem: seq<UserId>,
                    porUsuario': map<UserId, Grupo>, ordem': seq<UserId>)
    requires GroupedAs(s, users, porUsuario, ordem)
    requires s' == s + [x]
    requires (porUsuario', ordem') == Agregar(porUsuario, ordem, users, x)
    ensures GroupedAs(s', users, porUsuario', ordem')
  {
    UsuariosSnoc(s, x);
    GroupsStep(s, x, users, porUsuario, ordem, porUsuario');
  }

  /** The loop's groups hold each depositor's records and total, and open in first-record order. */
  lemma {:induction false} AgrupadoAs(s: seq<WasteRecord>, users: map<UserId, Usuario>)
    ensures GroupedAs(s, users, Agrupado(s, users).0, Agrupado(s, users).1)
  {
    if |s| > 0 {
      var init, x := s[..|s| - 1], s[|s| - 1];
      AgrupadoAs(init, users);
      var prev, cur := Agrupado(init, users), Agrupado(s, users);
      assert s == init + [x];
      GroupedStep(init, x, s, users, prev.0, prev.1, cur.0, cur.1);
    }
  }

  /** One turn of the grouping loop extends the grouping of the records seen so far by the next record. */
  lemma AgrupadoStep(s: seq<WasteRecord>, i: nat, users: map<UserId, Usuario>,
                     porUsuario: map<UserId, Grupo>, ordem: seq<UserId>, g: Grupo,
                     porUsuario': map<UserId, Grupo>, ordem': seq<UserId>)
    requires i < |s|
    requires (porUsuario, ordem) == Agrupado(s[..i], users)
    requires g == GrupoAberto(porUsuario, users, s[i].userId)
    requires porUsuario' == porUsuario[s[i].userId := g.(registros := g.registros + [s[i]], totalValor := g.totalValor + s[i].valorProporcional)]
    requires ordem' == if s[i].userId in porUsuario then ordem else ordem + [s[i].userId]
    ensures (porUsuario', ordem') == Agrupado(s[..i + 1], users)
  {
    AgrupadoSnoc(s, i, users);
    AgregarIs(porUsuario, ordem, users, s[i], g, porUsuario', ordem');
  }

  lemma AgregarIs(porUsuario: map<UserId, Grupo>, ordem: seq<UserId>, users: map<UserId, Usuario>, p: WasteRecord,
                  g: Grupo, porUsuario': map<UserId, Grupo>, ordem': seq<UserId>)
    requires g == GrupoAberto(porUsuario, users, p.userId)
    requires porUsuario' == porUsuario[p.userId := g.(registros := g.registros + [p], totalValor := g.totalValor + p.valorProporcional)]
    requires ordem' == if p.userId in porUsuario then ordem else ordem + [p.userId]
    ensures Agregar(porUsuario, ordem, users, p) == (porUsuario', ordem')
  {
  }

  lemma AgrupadoSnoc(s: seq<WasteRecord>, i: nat, users: map<UserId, Usuario>)
    requires i < |s|
    ensures Agrupado(s[..i + 1], users) == Agregar(Agrupado(s[..i], users).0, Agrupado(s[..i], users).1, users, s[i])
  {
    assert s[..i + 1][..i] == s[..i];
  }

  /** The grouping loop of `listarTodosDisponiveis`. */
  method Agrupar(disponiveis: seq<WasteRecord>, users: map<UserId, Usuario>)
    returns (porUsuario: map<UserId, Grupo>, ordem: seq<UserId>)
    ensures (porUsuario, ordem) == Agrupado(disponiveis, users)
  {
    porUsuario := map[];
    ordem := [];
    var i := 0;
    while i < |disponiveis|
      invariant 0 <= i <= |disponiveis|
      invariant (porUsuario, ordem) == Agrupado(disponiveis[..i], users)
    {
      var p := disponiveis[i];
      ghost var porUsuario0, ordem0 := porUsuario, ordem;
      var g := GrupoAberto(porUsuario, users, p.userId);
      if p.userId !in porUsuario {
        ordem := ordem + [p.userId];
      }
      porUsuario := porUsuario[p.userId := g.(registros := g.registros + [p], totalValor := g.totalValor + p.valorProporcional)];
      AgrupadoStep(disponiveis, i, users, porUsuario0, ordem0, g, porUsuario, ordem);
      i := i + 1;
    }
    assert disponiveis[..i] == disponiveis;
  }

  datatype Disponiveis = Disponiveis(
    total: nat,
    totalValor: real,
    porUsuario: map<UserId, Grupo>,
    ordem: seq<UserId>,
    todosDisponiveis: seq<WasteRecord>)

  /**
   * `listarTodosDisponiveis()`: the released records, newest first, grouped
   * by depositor (looked up once per depositor), with the grand total of
   * their payouts. `ordem` is the order in which the groups were opened.
   */
  method ListarTodosDisponiveis(rows: seq<WasteRecord>, users: map<UserId, Usuario>) returns (d: Disponiveis)
    ensures d.todosDisponiveis == FindByStatus(rows, LIBERADO_PAGAMENTO)
    ensures d.total == |d.todosDisponiveis| && d.totalValor == Sum(FilterStatus(rows, LIBERADO_PAGAMENTO), Valor)
    ensures forall u :: u in d.porUsuario <==> exists x :: x in rows && x.status == LIBERADO_PAGAMENTO && x.userId == u
    ensures (forall u :: u in d.porUsuario ==>
      d.porUsuario[u].userId == u && d.porUsuario[u].nomeEmpresa == NomeEmpresa(users, u) &&
      d.porUsuario[u].cnpj == CnpjDe(users, u) &&
      d.porUsuario[u].registros == FilterUser(d.todosDisponiveis, u) &&
      d.porUsuario[u].totalValor == Sum(d.porUsuario[u].registros, Valor))
    ensures forall u :: u in d.porUsuario <==> u in d.ordem
    ensures forall i, j :: 0 <= i < j < |d.ordem| ==> d.ordem[i] != d.ordem[j]
    ensures TotalGrupos(d.porUsuario, d.ordem) == d.totalValor
  {
    var disponiveis := FindByStatus(rows, LIBERADO_PAGAMENTO);
    var porUsuario, ordem := Agrupar(disponiveis, users);
    AgrupadoAs(disponiveis, users);
    var totalGeral := Sum(disponiveis, Valor);
    FindByStatusSums(rows, LIBERADO_PAGAMENTO);
    GruposSomam(disponiveis);
    TotalGruposSoma(porUsuario, disponiveis, ordem);
    UsuariosMembers(disponiveis);
    UsuariosDistinct(disponiveis);
    forall u | u in porUsuario
      ensures porUsuario[u].registros == FilterUser(disponiveis, u)
    {
      DoUsuarioIsFilterUser(disponiveis, u);
    }
    d := Disponiveis(|disponiveis|, totalGeral, porUsuario, ordem, disponiveis);
  }

  // ---------------------------------------------------------------------------
  // Processing payments
  // ---------------------------------------------------------------------------

  datatype PagamentoError =
    | NenhumRegistroSelecionado                          // "Nenhum registro selecionado"
    | RegistroNaoEncontrado(id: nat)                     // "Registro <id> não encontrado"
    | NaoDisponivel(id: nat, statusAtual: RecordStatus)  // "... não está disponível para pagamento. Status atual: ..."

  /** The row `updateStatus(id, 'PAGO', {dataPagamento: now})` writes. */
  function PagoEm(w: WasteRecord, now: Timestamp): (u: WasteRecord)
    ensures u == w.(status := PAGO, dataPagamento := Some(now))
  {
    StatusUpdated(w, PAGO, StatusDates(None, Some(now)), now)
  }

  /** The table once the rows with the given ids have been paid. */
  function PaidWhereIdIn(rows: seq<WasteRecord>, ids: set<nat>, now: Timestamp): (r: seq<WasteRecord>)
    ensures |r| == |rows|
    ensures forall i :: 0 <= i < |rows| && rows[i].id !in ids ==> r[i] == rows[i]
    ensures forall i :: 0 <= i < |rows| && rows[i].id in ids ==> r[i] == PagoEm(rows[i], now)
  {
    seq(|rows|, i requires 0 <= i < |rows| => if rows[i].id in ids then PagoEm(rows[i], now) else rows[i])
  }

  /**
   * Why the `k`-th id would be refused, given that every earlier one was
   * accepted: no such row; an id already paid earlier in the same list (it
   * is `PAGO` by now); or a row not released for payment.
   */
  function Recusa(rows: seq<WasteRecord>, ids: seq<nat>, k: nat): Option<PagamentoError>
    requires k < |ids|
  {
    var found := FindById(rows, ids[k]);
    if found.None? then Some(RegistroNaoEncontrado(ids[k]))
    else if ids[k] in ids[..k] then Some(NaoDisponivel(ids[k], PAGO))
    else if found.value.status != LIBERADO_PAGAMENTO then Some(NaoDisponivel(ids[k], found.value.status))
    else None
  }

  /** Index of the first refused id from `k` on, or `|ids|` when every one is accepted. */
  function PrimeiraRecusa(rows: seq<WasteRecord>, ids: seq<nat>, k: nat): (j: nat)
    requires k <= |ids|
    ensures k <= j <= |ids|
    ensures forall m :: k <= m < j ==> Recusa(rows, ids, m).None?
    ensures j < |ids| ==> Recusa(rows, ids, j).Some?
    decreases |ids| - k
  {
    if k == |ids| then k
    else if Recusa(rows, ids, k).Some? then k
    else PrimeiraRecusa(rows, ids, k + 1)
  }

  /** Every id accepted before the first refusal named a distinct released row. */
  lemma AceitosEramLiberados(rows: seq<WasteRecord>, ids: seq<nat>, k: nat)
    requires k < PrimeiraRecusa(rows, ids, 0)
    ensures FindById(rows, ids[k]).Some? && FindById(rows, ids[k]).value.status == LIBERADO_PAGAMENTO
    ensures ids[k] !in ids[..k]
  {
    assert Recusa(rows, ids, k).None?;
  }

  /** No double payment: an id listed twice is refused at its second occurrence at the latest. */
  lemma RepetidoRecusado(rows: seq<WasteRecord>, ids: seq<nat>, a: nat, b: nat)
    requires a < b < |ids| && ids[a] == ids[b]
    ensures PrimeiraRecusa(rows, ids, 0) <= b
  {
    assert ids[..b][a] == ids[b];
    assert Recusa(rows, ids, b).Some?;
  }

  /** No double payment: a row already paid is refused. */
  lemma JaPagoRecusado(rows: seq<WasteRecord>, ids: seq<nat>, k: nat)
    requires k < |ids| && FindById(rows, ids[k]).Some? && FindById(rows, ids[k]).value.status == PAGO
    ensures PrimeiraRecusa(rows, ids, 0) <= k
  {
    assert Recusa(rows, ids, k).Some?;
  }

  /** Paying a further id extends the set of paid ids. */
  lemma PaidStep(rows: seq<WasteRecord>, paid: set<nat>, id: nat, now: Timestamp)
    requires id !in paid
    ensures (UpdateWhereId(PaidWhereIdIn(rows, paid, now), id, PAGO, StatusDates(None, Some(now)), now) ==
             PaidWhereIdIn(rows, paid + {id}, now))
  {
  }

  /** What a lookup sees once some ids are paid. */
  lemma FindPaid(rows: seq<WasteRecord>, paid: set<nat>, now: Timestamp, id: nat)
    requires forall a, b :: 0 <= a < b < |rows| ==> rows[a].id != rows[b].id
    ensures FindById(PaidWhereIdIn(rows, paid, now), id).None? <==> FindById(rows, id).None?
    ensures (FindById(rows, id).Some? ==>
      (FindById(PaidWhereIdIn(rows, paid, now), id) ==
       Some(if id in paid then PagoEm(FindById(rows, id).value, now) else FindById(rows, id).value)))
  {
    var r := PaidWhereIdIn(rows, paid, now);
    assert forall i :: 0 <= i < |rows| ==> r[i].id == rows[i].id;
    if FindById(rows, id).Some? {
      var i :| 0 <= i < |rows| && rows[i] == FindById(rows, id).value;
      FindByIdAt(rows, i);
      FindByIdAt(r, i);
    }
  }

  /** The ids a list names. */
  function IdSet(ids: seq<nat>): (r: set<nat>)
    ensures forall x :: x in r <==> x in ids
  {
    set x | x in ids
  }

  lemma IdSetSnoc(ids: seq<nat>, x: nat)
    ensures IdSet(ids + [x]) == IdSet(ids) + {x}
  {
  }

  /** What the `i`-th lookup sees, after the ids before it were paid, decides its refusal. */
  lemma RecusaVista(rows: seq<WasteRecord>, ids: seq<nat>, i: nat, now: Timestamp)
    requires forall a, b :: 0 <= a < b < |rows| ==> rows[a].id != rows[b].id
    requires i < |ids|
    ensures (var cur := FindById(PaidWhereIdIn(rows, IdSet(ids[..i]), now), ids[i]);
      (cur.None? ==> Recusa(rows, ids, i) == Some(RegistroNaoEncontrado(ids[i]))) &&
      (cur.Some? && cur.value.status != LIBERADO_PAGAMENTO ==>
        Recusa(rows, ids, i) == Some(NaoDisponivel(ids[i], cur.value.status))) &&
      (cur.Some? && cur.value.status == LIBERADO_PAGAMENTO ==>
        Recusa(rows, ids, i).None? && ids[i] !in IdSet(ids[..i]) && FindById(rows, ids[i]) == cur))
  {
    FindPaid(rows, IdSet(ids[..i]), now, ids[i]);
  }

  /** The refusal the loop stops at is the first one. */
  lemma PrimeiraRecusaAt(rows: seq<WasteRecord>, ids: seq<nat>, i: nat)
    requires i <= |ids|
    requires forall m :: 0 <= m < i ==> Recusa(rows, ids, m).None?
    requires i < |ids| ==> Recusa(rows, ids, i).Some?
    ensures PrimeiraRecusa(rows, ids, 0) == i
  {
  }

  /**
   * What `processar` has done once the first `i` ids are through: each was
   * accepted, exactly those rows are paid, and the paid copies and their
   * payout total are collected in order.
   */
  ghost predicate ProcessadoAte(inicial: seq<WasteRecord>, ids: seq<nat>, i: nat, rows: seq<WasteRecord>,
                                processados: seq<WasteRecord>, total: real, now: Timestamp)
  {
    i <= |ids| &&
    (forall m :: 0 <= m < i ==> Recusa(inicial, ids, m).None?) &&
    rows == PaidWhereIdIn(inicial, IdSet(ids[..i]), now) &&
    |processados| == i &&
    (forall k :: 0 <= k < i ==>
      FindById(inicial, ids[k]).Some? && processados[k] == PagoEm(FindById(inicial, ids[k]).value, now)) &&
    total == Sum(processados, Valor)
  }

  lemma ProcessadoStep(inicial: seq<WasteRecord>, ids: seq<nat>, i: nat, processados: seq<WasteRecord>,
                       total: real, now: Timestamp, atualizado: WasteRecord)
    requires i < |ids|
    requires ProcessadoAte(inicial, ids, i, PaidWhereIdIn(inicial, IdSet(ids[..i]), now), processados, total, now)
    requires Recusa(inicial, ids, i).None?
    requires atualizado == PagoEm(FindById(inicial, ids[i]).value, now)
    ensures ProcessadoAte(inicial, ids, i + 1, PaidWhereIdIn(inicial, IdSet(ids[..i]) + {ids[i]}, now),
                          processados + [atualizado], total + atualizado.valorProporcional, now)
  {
    TakeSnoc(ids, i);
    IdSetSnoc(ids[..i], ids[i]);
    SumSnoc(processados, atualizado);
  }

  /** A refusal at `i` after `i` acceptances is the first refusal. */
  lemma ProcessadoRecusa(inicial: seq<WasteRecord>, ids: seq<nat>, i: nat, rows: seq<WasteRecord>,
                         processados: seq<WasteRecord>, total: real, now: Timestamp)
    requires i < |ids|
    requires ProcessadoAte(inicial, ids, i, rows, processados, total, now)
    requires Recusa(inicial, ids, i).Some?
    ensures PrimeiraRecusa(inicial, ids, 0) == i
    ensures rows == PaidWhereIdIn(inicial, IdSet(ids[..PrimeiraRecusa(inicial, ids, 0)]), now)
  {
    PrimeiraRecusaAt(inicial, ids, i);
  }

  /** Once every id is through, none was refused and all of them are paid. */
  lemma ProcessadoFim(inicial: seq<WasteRecord>, ids: seq<nat>, rows: seq<WasteRecord>,
                      processados: seq<WasteRecord>, total: real, now: Timestamp)
    requires ProcessadoAte(inicial, ids, |ids|, rows, processados, total, now)
    ensures PrimeiraRecusa(inicial, ids, 0) == |ids|
    ensures rows == PaidWhereIdIn(inicial, IdSet(ids[..PrimeiraRecusa(inicial, ids, 0)]), now)
    ensures |processados| == |ids| && total == Sum(processados, Valor)
    ensures (forall k :: 0 <= k < |ids| ==>
      FindById(inicial, ids[k]).Some? && processados[k] == PagoEm(FindById(inicial, ids[k]).value, now))
  {
    PrimeiraRecusaAt(inicial, ids, |ids|);
  }

  /** `updateStatus(id, 'PAGO', {dataPagamento: now})` on a released row not yet paid in this run. */
  method PagarRegistro(records: RecordTable, ghost inicial: seq<WasteRecord>, ghost paid: set<nat>, id: nat, now: Timestamp)
    returns (atualizado: WasteRecord)
    requires records.Valid()
    requires forall a, b :: 0 <= a < b < |inicial| ==> inicial[a].id != inicial[b].id
    requires records.rows == PaidWhereIdIn(inicial, paid, now)
    requires id !in paid && FindById(inicial, id).Some?
    modifies records
    ensures records.Valid()
    ensures records.rows == PaidWhereIdIn(inicial, paid + {id}, now)
    ensures atualizado == PagoEm(FindById(inicial, id).value, now)
  {
    FindPaid(inicial, paid, now, id);
    var updated := records.UpdateStatus(id, PAGO, StatusDates(None, Some(now)), now);
    PaidStep(inicial, paid, id, now);
    atualizado := updated.value;
  }

  datatype Processado = Processado(totalValor: real, quantidadeRegistros: nat, registros: seq<WasteRecord>)

  /**
   * `processar(registroIds)`: an empty or missing list is refused. Otherwise
   * each id in turn is looked up, checked to be released for payment and
   * marked `PAGO` at `now`, so a refusal leaves the ids before it paid. On
   * success the result lists the paid rows and the sum of their payouts.
   */
  method Processar(records: RecordTable, registroIds: Option<seq<nat>>, now: Timestamp)
    returns (r: Result<Processado, PagamentoError>)
    requires records.Valid()
    modifies records
    ensures records.Valid()
    ensures (registroIds.None? || |registroIds.value| == 0) ==>
      r == Err(NenhumRegistroSelecionado) && records.rows == old(records.rows)
    ensures (registroIds.Some? && |registroIds.value| > 0 ==>
      var ids := registroIds.value;
      var j := PrimeiraRecusa(old(records.rows), ids, 0);
      records.rows == PaidWhereIdIn(old(records.rows), IdSet(ids[..j]), now) &&
      (j < |ids| ==> r == Err(Recusa(old(records.rows), ids, j).value)) &&
      (j == |ids| <==> r.Ok?))
    ensures (r.Ok? ==>
      var ids := registroIds.value;
      r.value.quantidadeRegistros == |r.value.registros| == |ids| &&
      r.value.totalValor == Sum(r.value.registros, Valor) &&
      forall k :: 0 <= k < |ids| ==>
        FindById(old(records.rows), ids[k]).Some? &&
        r.value.registros[k] == PagoEm(FindById(old(records.rows), ids[k]).value, now))
  {
    if registroIds.None? || |registroIds.value| == 0 {
      return Err(NenhumRegistroSelecionado);
    }
    var ids := registroIds.value;
    ghost var inicial := records.rows;
    var processados: seq<WasteRecord> := [];
    var totalCredito := 0.0;
    var i := 0;
    while i < |ids|
      invariant records.Valid()
      invariant ProcessadoAte(inicial, ids, i, records.rows, processados, totalCredito, now)
    {
      var registroId := ids[i];
      ghost var paid := IdSet(ids[..i]);
      RecusaVista(inicial, ids, i, now);
      var registro := FindById(records.rows, registroId);
      if registro.None? {
        ProcessadoRecusa(inicial, ids, i, records.rows, processados, totalCredito, now);
        return Err(RegistroNaoEncontrado(registroId));
      }
      if registro.value.status != LIBERADO_PAGAMENTO {
        ProcessadoRecusa(inicial, ids, i, records.rows, processados, totalCredito, now);
        return Err(NaoDisponivel(registroId, registro.value.status));
      }
      var atualizado := PagarRegistro(records, inicial, paid, registroId, now);
      ProcessadoStep(inicial, ids, i, processados, totalCredito, now, atualizado);
      processados := processados + [atualizado];
      totalCredito := totalCredito + atualizado.valorProporcional;
      i := i + 1;
    }
    ProcessadoFim(inicial, ids, records.rows, processados, totalCredito, now);
    r := Ok(Processado(totalCredito, |processados|, processados));
  }
}
