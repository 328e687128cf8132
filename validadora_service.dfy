/**
 * The validator registry: create, update, look up, (de)activate and delete
 * validating companies, refusing incomplete data and a CNPJ already held by
 * another company.
 */
module ValidadoraService {
  import opened Wrappers
  import opened Collections
  import opened Validadoras

  datatype ValidadoraError =
    | CamposObrigatorios           // 'Nome da empresa, CNPJ e email são obrigatórios'
    | CnpjJaCadastrado             // 'CNPJ já cadastrado'
    | CnpjEmOutraValidadora        // 'CNPJ já cadastrado em outra validadora'
    | NaoEncontrada                // 'Validadora não encontrada'

  /** The request body; an absent field is `None`. */
  datatype Dados = Dados(
    nomeEmpresa: Option<string>,
    cnpj: Option<string>,
    email: Option<string>,
    telefone: Option<string>,
    endereco: Option<string>,
    responsavel: Option<string>,
    ativa: Option<bool>)

  /** A JavaScript-truthy text: present and not empty. */
  predicate Presente(o: Option<string>)
  {
    o.Some? && o.value != ""
  }

  predicate Completo(d: Dados)
  {
    Presente(d.nomeEmpresa) && Presente(d.cnpj) && Presente(d.email)
  }

  /**
   * `criar`: refuses data without name, CNPJ or email, and a CNPJ some company
   * already holds; otherwise inserts an active company with those fields.
   * Starting from unique CNPJs, they stay unique.
   */
  method Criar(t: ValidadoraTable, d: Dados) returns (r: Result<Validadora, ValidadoraError>)
    requires t.Valid()
    modifies t
    ensures t.Valid()
    ensures !Completo(d) ==> r == Err(CamposObrigatorios)
    ensures Completo(d) && old(FindByCnpj(t.rows, d.cnpj.value)).Some? ==> r == Err(CnpjJaCadastrado)
    ensures r.Ok? <==> Completo(d) && old(FindByCnpj(t.rows, d.cnpj.value)).None?
    ensures r.Err? ==> t.rows == old(t.rows) && t.nextId == old(t.nextId)
    ensures (r.Ok? ==>
      t.rows == old(t.rows) + [r.value] &&
      r.value.id == old(t.nextId) &&
      r.value.nomeEmpresa == d.nomeEmpresa.value && r.value.cnpj == d.cnpj.value && r.value.email == d.email.value &&
      r.value.telefone == OuNulo(d.telefone) && r.value.endereco == OuNulo(d.endereco) &&
      r.value.responsavel == OuNulo(d.responsavel) &&
      r.value.ativa)
    ensures old(CnpjsUnicos(t.rows)) ==> CnpjsUnicos(t.rows)
  {
    if !Completo(d) {
      return Err(CamposObrigatorios);
    }
    var existente := FindByCnpj(t.rows, d.cnpj.value);
    if existente.Some? {
      return Err(CnpjJaCadastrado);
    }
    ghost var before := t.rows;
    var v := t.Create(Campos(d.nomeEmpresa.value, d.cnpj.value, d.email.value, d.telefone, d.endereco, d.responsavel, None));
    if CnpjsUnicos(before) {
      CreatePreservesCnpjs(before, v);
    }
    r := Ok(v);
  }

  /**
   * `atualizar`: refuses incomplete data, an unknown id, and a CNPJ held by a
   * different company (a company keeps its own CNPJ freely); otherwise
   * rewrites that row, `ativa` defaulting to true. CNPJs stay unique.
   */
  method Atualizar(t: ValidadoraTable, id: nat, d: Dados) returns (r: Result<Validadora, ValidadoraError>)
    requires t.Valid()
    modifies t
    ensures t.Valid() && t.nextId == old(t.nextId)
    ensures !Completo(d) ==> r == Err(CamposObrigatorios)
    ensures Completo(d) && old(FindById(t.rows, id)).None? ==> r == Err(NaoEncontrada)
    ensures ((Completo(d) && old(FindById(t.rows, id)).Some? &&
              old(FindByCnpj(t.rows, d.cnpj.value)).Some? && old(FindByCnpj(t.rows, d.cnpj.value)).value.id != id) ==>
      r == Err(CnpjEmOutraValidadora))
    ensures (r.Ok? <==>
      Completo(d) && old(FindById(t.rows, id)).Some? &&
      (old(FindByCnpj(t.rows, d.cnpj.value)).None? || old(FindByCnpj(t.rows, d.cnpj.value)).value.id == id))
    ensures r.Err? ==> t.rows == old(t.rows)
    ensures (r.Ok? ==>
      t.rows == UpdatedWhereId(old(t.rows), id, Campos(d.nomeEmpresa.value, d.cnpj.value, d.email.value,
                                                       d.telefone, d.endereco, d.responsavel, d.ativa)) &&
      r.value.id == id &&
      r.value.nomeEmpresa == d.nomeEmpresa.value && r.value.cnpj == d.cnpj.value && r.value.email == d.email.value &&
      r.value.telefone == OuNulo(d.telefone) && r.value.endereco == OuNulo(d.endereco) &&
      r.value.responsavel == OuNulo(d.responsavel) &&
      r.value.ativa == (d.ativa != Some(false)) &&
      FindById(t.rows, id) == Some(r.value))
    ensures old(CnpjsUnicos(t.rows)) ==> CnpjsUnicos(t.rows)
  {
    if !Completo(d) {
      return Err(CamposObrigatorios);
    }
    var existente := FindById(t.rows, id);
    if existente.None? {
      return Err(NaoEncontrada);
    }
    var outra := FindByCnpj(t.rows, d.cnpj.value);
    if outra.Some? && outra.value.id != id {
      return Err(CnpjEmOutraValidadora);
    }
    ghost var before := t.rows;
    var c := Campos(d.nomeEmpresa.value, d.cnpj.value, d.email.value, d.telefone, d.endereco, d.responsavel, d.ativa);
    var v := t.Update(id, c);
    if CnpjsUnicos(before) {
      UpdatePreservesCnpjs(before, id, c);
    }
    r := Ok(v.value);
  }

  /** `buscarPorId`: the company with that id, or "não encontrada". */
  method BuscarPorId(t: ValidadoraTable, id: nat) returns (r: Result<Validadora, ValidadoraError>)
    ensures r.Err? <==> (forall i :: 0 <= i < |t.rows| ==> t.rows[i].id != id)
    ensures r.Err? ==> r.error == NaoEncontrada
    ensures r.Ok? ==> r.value in t.rows && r.value.id == id
  {
    var v := FindById(t.rows, id);
    if v.None? {
      return Err(NaoEncontrada);
    }
    r := Ok(v.value);
  }

  /** `toggleAtiva`: flips the active flag of that company only, or "não encontrada". */
  method ToggleAtiva(t: ValidadoraTable, id: nat) returns (r: Result<Validadora, ValidadoraError>)
    requires t.Valid()
    modifies t
    ensures t.Valid() && t.nextId == old(t.nextId)
    ensures r.Err? <==> old(FindById(t.rows, id)).None?
    ensures r.Err? ==> r.error == NaoEncontrada && t.rows == old(t.rows)
    ensures t.rows == ToggledWhereId(old(t.rows), id)
    ensures r.Ok? ==> r.value == old(FindById(t.rows, id)).value.(ativa := !old(FindById(t.rows, id)).value.ativa)
    ensures old(CnpjsUnicos(t.rows)) ==> CnpjsUnicos(t.rows)
  {
    ghost var before := t.rows;
    var v := t.ToggleAtiva(id);
    if CnpjsUnicos(before) {
      TogglePreservesCnpjs(before, id);
    }
    if v.None? {
      return Err(NaoEncontrada);
    }
    r := Ok(v.value);
  }

  /** Toggling a company twice leaves the registry as it was. */
  method ToggleDuasVezes(t: ValidadoraTable, id: nat) returns (a: Result<Validadora, ValidadoraError>, b: Result<Validadora, ValidadoraError>)
    requires t.Valid()
    modifies t
    ensures t.Valid()
    ensures t.rows == old(t.rows)
    ensures a.Ok? <==> b.Ok?
    ensures a.Ok? ==> b.value.ativa == !a.value.ativa && b.value == a.value.(ativa := !a.value.ativa)
  {
    ghost var before := t.rows;
    assert IdsBelow(before, t.nextId);
    a := ToggleAtiva(t, id);
    b := ToggleAtiva(t, id);
    ToggleTwice(before, id);
    ToggleFound(before, id);
  }

  /** `deletar`: removes that company, or "não encontrada". CNPJs stay unique. */
  method Deletar(t: ValidadoraTable, id: nat) returns (r: Result<bool, ValidadoraError>)
    requires t.Valid()
    modifies t
    ensures t.Valid() && t.nextId == old(t.nextId)
    ensures r.Err? <==> old(FindById(t.rows, id)).None?
    ensures r.Err? ==> r.error == NaoEncontrada
    ensures r.Ok? ==> r.value
    ensures t.rows == DeletedWhereId(old(t.rows), id)
    ensures FindById(t.rows, id).None?
    ensures old(CnpjsUnicos(t.rows)) ==> CnpjsUnicos(t.rows)
  {
    ghost var before := t.rows;
    var v := t.Delete(id);
    if CnpjsUnicos(before) {
      DeletePreservesCnpjs(before, id);
    }
    if v.None? {
      return Err(NaoEncontrada);
    }
    r := Ok(true);
  }

  /** `listar`: every company with the table's figures (the name order is not modelled). */
  method Listar(t: ValidadoraTable) returns (validadoras: seq<Validadora>, stats: Estatisticas)
    ensures validadoras == t.rows
    ensures stats.total == |t.rows|
    ensures |t.rows| == 0 ==> stats.ativas.None? && stats.inativas.None?
    ensures (|t.rows| > 0 ==>
      stats.ativas.Some? && stats.inativas.Some? && stats.ativas.value + stats.inativas.value == stats.total)
  {
    validadoras := t.rows;
    stats := GetStats(t.rows);
    if |t.rows| > 0 {
      StatsAddUp(t.rows);
    }
  }

  /** `listarAtivas`: the active companies. */
  method ListarAtivas(t: ValidadoraTable) returns (validadoras: seq<Validadora>)
    ensures forall x :: x in validadoras <==> x in t.rows && x.ativa
    ensures |validadoras| == Count(t.rows, EstaAtiva)
    ensures validadoras == FindActive(t.rows)
  {
    validadoras := FindActive(t.rows);
  }
}
