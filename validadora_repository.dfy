/**
 * The `validadoras` table: the auditing companies that pay for lots, each
 * with its CNPJ (company registration number) and an active flag.
 */
module Validadoras {
  import opened Wrappers
  import opened Collections

  datatype Validadora = Validadora(
    id: nat,
    nomeEmpresa: string,
    cnpj: string,
    email: string,
    telefone: Option<string>,
    endereco: Option<string>,
    responsavel: Option<string>,
    ativa: bool)

  /** The columns an insert or an update writes, as the service hands them over. */
  datatype Campos = Campos(
    nomeEmpresa: string,
    cnpj: string,
    email: string,
    telefone: Option<string>,
    endereco: Option<string>,
    responsavel: Option<string>,
    ativa: Option<bool>)

  /** `x || null`: an absent or empty optional text is stored as NULL. */
  function OuNulo(o: Option<string>): (r: Option<string>)
    ensures r.None? <==> o.None? || o == Some("")
    ensures r.Some? ==> r == o
  {
    if o == Some("") then None else o
  }

  /** `ativa !== undefined ? ativa : true`: only an explicit `false` deactivates. */
  function AtivaOuPadrao(o: Option<bool>): (b: bool)
    ensures b <==> o != Some(false)
  {
    o.GetOr(true)
  }

  /** The row an insert or update with these columns leaves under that id. */
  function Gravada(id: nat, c: Campos): Validadora
  {
    Validadora(id, c.nomeEmpresa, c.cnpj, c.email, OuNulo(c.telefone), OuNulo(c.endereco), OuNulo(c.responsavel),
               AtivaOuPadrao(c.ativa))
  }

  /** `findById`: the row with that id (the same first-match search each table has, over its own row type). */
  function FindById(rows: seq<Validadora>, id: nat): (r: Option<Validadora>)
    ensures r.Some? ==> r.value in rows && r.value.id == id
    ensures r.None? <==> forall i :: 0 <= i < |rows| ==> rows[i].id != id
  {
    if |rows| == 0 then None
    else if rows[0].id == id then Some(rows[0])
    else FindById(rows[1..], id)
  }

  /** `findByCnpj`: a row with that CNPJ (the first, when several share it; the first-match search keyed by CNPJ). */
  function FindByCnpj(rows: seq<Validadora>, cnpj: string): (r: Option<Validadora>)
    ensures r.Some? ==> r.value in rows && r.value.cnpj == cnpj
    ensures r.None? <==> forall i :: 0 <= i < |rows| ==> rows[i].cnpj != cnpj
  {
    if |rows| == 0 then None
    else if rows[0].cnpj == cnpj then Some(rows[0])
    else FindByCnpj(rows[1..], cnpj)
  }

  /** Ids are unique and below the allocation counter. */
  ghost predicate IdsBelow(rows: seq<Validadora>, nextId: nat)
  {
    (forall i :: 0 <= i < |rows| ==> rows[i].id < nextId) &&
    (forall i, j :: 0 <= i < j < |rows| ==> rows[i].id != rows[j].id)
  }

  /** No two companies are registered under the same CNPJ. */
  ghost predicate CnpjsUnicos(rows: seq<Validadora>)
  {
    forall i, j :: 0 <= i < j < |rows| ==> rows[i].cnpj != rows[j].cnpj
  }

  lemma FindByIdAt(rows: seq<Validadora>, i: nat)
    requires i < |rows|
    requires forall a, b :: 0 <= a < b < |rows| ==> rows[a].id != rows[b].id
    ensures FindById(rows, rows[i].id) == Some(rows[i])
  {
    if i > 0 {
      assert rows[0].id != rows[i].id;
      assert rows[1..][i - 1] == rows[i];
      FindByIdAt(rows[1..], i - 1);
    }
  }

  /** With unique CNPJs the row `findByCnpj` returns is the only one holding that CNPJ. */
  lemma {:induction false} FindByCnpjUnico(rows: seq<Validadora>, cnpj: string, i: nat)
    requires CnpjsUnicos(rows)
    requires i < |rows| && rows[i].cnpj == cnpj
    ensures FindByCnpj(rows, cnpj) == Some(rows[i])
  {
    if i > 0 {
      assert rows[0].cnpj != rows[i].cnpj;
      assert rows[1..][i - 1] == rows[i];
      assert CnpjsUnicos(rows[1..]) by {
        forall a, b | 0 <= a < b < |rows[1..]|
          ensures rows[1..][a].cnpj != rows[1..][b].cnpj
        {
          assert rows[1..][a] == rows[a + 1] && rows[1..][b] == rows[b + 1];
        }
      }
      FindByCnpjUnico(rows[1..], cnpj, i - 1);
    }
  }

  /** The table after `UPDATE … WHERE id = $8`: that row rewritten, every other row as it was. */
  function UpdatedWhereId(rows: seq<Validadora>, id: nat, c: Campos): (r: seq<Validadora>)
    ensures |r| == |rows|
    ensures forall i :: 0 <= i < |rows| && rows[i].id != id ==> r[i] == rows[i]
    ensures forall i :: 0 <= i < |rows| && rows[i].id == id ==> r[i] == Gravada(id, c)
  {
    seq(|rows|, i requires 0 <= i < |rows| => if rows[i].id == id then Gravada(id, c) else rows[i])
  }

  /** The table after `SET ativa = NOT ativa WHERE id = $1`. */
  function ToggledWhereId(rows: seq<Validadora>, id: nat): (r: seq<Validadora>)
    ensures |r| == |rows|
    ensures forall i :: 0 <= i < |rows| && rows[i].id != id ==> r[i] == rows[i]
    ensures forall i :: 0 <= i < |rows| && rows[i].id == id ==> r[i] == rows[i].(ativa := !rows[i].ativa)
  {
    seq(|rows|, i requires 0 <= i < |rows| => if rows[i].id == id then rows[i].(ativa := !rows[i].ativa) else rows[i])
  }

  /** The table after `DELETE … WHERE id = $1`, the other rows kept in order. */
  function DeletedWhereId(rows: seq<Validadora>, id: nat): (r: seq<Validadora>)
    ensures forall x :: x in r <==> x in rows && x.id != id
    ensures forall x :: multiset(r)[x] == if x.id == id then 0 else multiset(rows)[x]
    ensures |r| <= |rows|
  {
    if |rows| == 0 then []
    else
      assert rows == [rows[0]] + rows[1..];
      (if rows[0].id == id then [] else [rows[0]]) + DeletedWhereId(rows[1..], id)
  }

  /** An update keeps every id, so ids stay unique and allocated. */
  lemma UpdateKeepsIds(rows: seq<Validadora>, nextId: nat, id: nat, c: Campos)
    requires IdsBelow(rows, nextId)
    ensures IdsBelow(UpdatedWhereId(rows, id, c), nextId)
  {
    var r := UpdatedWhereId(rows, id, c);
    assert forall i :: 0 <= i < |rows| ==> r[i].id == rows[i].id;
  }

  /** After an update the id finds the rewritten row; an unknown id changes nothing. */
  lemma UpdateFound(rows: seq<Validadora>, id: nat, c: Campos)
    requires forall a, b :: 0 <= a < b < |rows| ==> rows[a].id != rows[b].id
    ensures FindById(rows, id).None? ==> UpdatedWhereId(rows, id, c) == rows
    ensures FindById(rows, id).Some? ==> FindById(UpdatedWhereId(rows, id, c), id) == Some(Gravada(id, c))
  {
    var r := UpdatedWhereId(rows, id, c);
    if FindById(rows, id).Some? {
      var i :| 0 <= i < |rows| && rows[i] == FindById(rows, id).value;
      assert forall k :: 0 <= k < |rows| ==> r[k].id == rows[k].id;
      FindByIdAt(r, i);
    } else {
      assert forall k :: 0 <= k < |rows| ==> r[k] == rows[k];
    }
  }

  /** Toggling keeps every id, so ids stay unique and allocated. */
  lemma ToggleKeepsIds(rows: seq<Validadora>, nextId: nat, id: nat)
    requires IdsBelow(rows, nextId)
    ensures IdsBelow(ToggledWhereId(rows, id), nextId)
  {
    var r := ToggledWhereId(rows, id);
    assert forall i :: 0 <= i < |rows| ==> r[i].id == rows[i].id;
  }

  /** After a toggle the id finds the flipped row; an unknown id changes nothing. */
  lemma ToggleFound(rows: seq<Validadora>, id: nat)
    requires forall a, b :: 0 <= a < b < |rows| ==> rows[a].id != rows[b].id
    ensures FindById(rows, id).None? ==> ToggledWhereId(rows, id) == rows
    ensures (FindById(rows, id).Some? ==>
      FindById(ToggledWhereId(rows, id), id) == Some(FindById(rows, id).value.(ativa := !FindById(rows, id).value.ativa)))
  {
    var r := ToggledWhereId(rows, id);
    if FindById(rows, id).Some? {
      var i :| 0 <= i < |rows| && rows[i] == FindById(rows, id).value;
      assert forall k :: 0 <= k < |rows| ==> r[k].id == rows[k].id;
      FindByIdAt(r, i);
    } else {
      assert forall k :: 0 <= k < |rows| ==> r[k] == rows[k];
    }
  }

  /** Toggling the same row twice restores the table. */
  lemma ToggleTwice(rows: seq<Validadora>, id: nat)
    ensures ToggledWhereId(ToggledWhereId(rows, id), id) == rows
  {
    var once := ToggledWhereId(rows, id);
    assert forall i :: 0 <= i < |rows| ==> once[i].id == rows[i].id;
  }

  /** Toggling touches no CNPJ, so uniqueness is kept. */
  lemma TogglePreservesCnpjs(rows: seq<Validadora>, id: nat)
    requires CnpjsUnicos(rows)
    ensures CnpjsUnicos(ToggledWhereId(rows, id))
  {
    var r := ToggledWhereId(rows, id);
    assert forall i :: 0 <= i < |rows| ==> r[i].cnpj == rows[i].cnpj;
  }

  /** Deleting keeps CNPJs unique. */
  lemma {:induction false} DeletePreservesCnpjs(rows: seq<Validadora>, id: nat)
    requires CnpjsUnicos(rows)
    ensures CnpjsUnicos(DeletedWhereId(rows, id))
  {
    if |rows| > 0 {
      var t := rows[1..];
      CnpjsTail(rows);
      DeletePreservesCnpjs(t, id);
      if rows[0].id != id {
        var rt := DeletedWhereId(t, id);
        HeadCnpjNotInRest(rows, rt);
        ConsCnpjs(rows[0], rt);
      }
    }
  }

  lemma CnpjsTail(rows: seq<Validadora>)
    requires |rows| > 0 && CnpjsUnicos(rows)
    ensures CnpjsUnicos(rows[1..])
    ensures forall k :: 1 <= k < |rows| ==> rows[0].cnpj != rows[k].cnpj
  {
    var t := rows[1..];
    forall a, b | 0 <= a < b < |t|
      ensures t[a].cnpj != t[b].cnpj
    {
      assert t[a] == rows[a + 1] && t[b] == rows[b + 1];
    }
  }

  lemma HeadCnpjNotInRest(rows: seq<Validadora>, rt: seq<Validadora>)
    requires |rows| > 0
    requires forall k :: 1 <= k < |rows| ==> rows[0].cnpj != rows[k].cnpj
    requires forall x :: x in rt ==> x in rows[1..]
    ensures forall k :: 0 <= k < |rt| ==> rows[0].cnpj != rt[k].cnpj
  {
    forall k | 0 <= k < |rt|
      ensures rows[0].cnpj != rt[k].cnpj
    {
      assert rt[k] in rows[1..];
      var m :| 0 <= m < |rows[1..]| && rows[1..][m] == rt[k];
      assert rows[m + 1] == rt[k];
    }
  }

  lemma ConsCnpjs(x: Validadora, rt: seq<Validadora>)
    requires CnpjsUnicos(rt)
    requires forall k :: 0 <= k < |rt| ==> x.cnpj != rt[k].cnpj
    ensures CnpjsUnicos([x] + rt)
  {
    var r := [x] + rt;
    forall a, b | 0 <= a < b < |r|
      ensures r[a].cnpj != r[b].cnpj
    {
      assert r[b] == rt[b - 1];
      if a > 0 {
        assert r[a] == rt[a - 1];
      }
    }
  }

  /** Deleting keeps ids unique and below the counter. */
  lemma {:induction false} DeletePreservesIds(rows: seq<Validadora>, id: nat, nextId: nat)
    requires IdsBelow(rows, nextId)
    ensures IdsBelow(DeletedWhereId(rows, id), nextId)
  {
    if |rows| > 0 {
      var t := rows[1..];
      IdsTail(rows, nextId);
      DeletePreservesIds(t, id, nextId);
      if rows[0].id != id {
        var rt := DeletedWhereId(t, id);
        HeadIdNotInRest(rows, rt);
        ConsIds(rows[0], rt, nextId);
      }
    }
  }

  lemma IdsTail(rows: seq<Validadora>, nextId: nat)
    requires |rows| > 0 && IdsBelow(rows, nextId)
    ensures IdsBelow(rows[1..], nextId)
    ensures rows[0].id < nextId
    ensures forall k :: 1 <= k < |rows| ==> rows[0].id != rows[k].id
  {
    var t := rows[1..];
    forall a, b | 0 <= a < b < |t|
      ensures t[a].id != t[b].id
    {
      assert t[a] == rows[a + 1] && t[b] == rows[b + 1];
    }
  }

  lemma HeadIdNotInRest(rows: seq<Validadora>, rt: seq<Validadora>)
    requires |rows| > 0
    requires forall k :: 1 <= k < |rows| ==> rows[0].id != rows[k].id
    requires forall x :: x in rt ==> x in rows[1..]
    ensures forall k :: 0 <= k < |rt| ==> rows[0].id != rt[k].id
  {
    forall k | 0 <= k < |rt|
      ensures rows[0].id != rt[k].id
    {
      assert rt[k] in rows[1..];
      var m :| 0 <= m < |rows[1..]| && rows[1..][m] == rt[k];
      assert rows[m + 1] == rt[k];
    }
  }

  lemma ConsIds(x: Validadora, rt: seq<Validadora>, nextId: nat)
    requires IdsBelow(rt, nextId) && x.id < nextId
    requires forall k :: 0 <= k < |rt| ==> x.id != rt[k].id
    ensures IdsBelow([x] + rt, nextId)
  {
    var r := [x] + rt;
    forall a, b | 0 <= a < b < |r|
      ensures r[a].id != r[b].id
    {
      assert r[b] == rt[b - 1];
      if a > 0 {
        assert r[a] == rt[a - 1];
      }
    }
    assert forall k :: 0 <= k < |rt| ==> r[k + 1] == rt[k];
  }

  /** Inserting a row whose CNPJ no row holds keeps CNPJs unique. */
  lemma CreatePreservesCnpjs(rows: seq<Validadora>, v: Validadora)
    requires CnpjsUnicos(rows) && FindByCnpj(rows, v.cnpj).None?
    ensures CnpjsUnicos(rows + [v])
  {
  }

  /**
   * Rewriting a row with a CNPJ held by no other row keeps CNPJs unique: the
   * CNPJ is either free or already that row's own.
   */
  lemma UpdatePreservesCnpjs(rows: seq<Validadora>, id: nat, c: Campos)
    requires CnpjsUnicos(rows)
    requires forall a, b :: 0 <= a < b < |rows| ==> rows[a].id != rows[b].id
    requires FindByCnpj(rows, c.cnpj).None? || FindByCnpj(rows, c.cnpj).value.id == id
    ensures CnpjsUnicos(UpdatedWhereId(rows, id, c))
  {
    var r := UpdatedWhereId(rows, id, c);
    forall i, j | 0 <= i < j < |r|
      ensures r[i].cnpj != r[j].cnpj
    {
      if rows[i].id == id {
        assert rows[j].id != id;
        if rows[j].cnpj == c.cnpj {
          FindByCnpjUnico(rows, c.cnpj, j);
        }
      } else if rows[j].id == id {
        if rows[i].cnpj == c.cnpj {
          FindByCnpjUnico(rows, c.cnpj, i);
        }
      }
    }
  }

  function EstaAtiva(v: Validadora): bool { v.ativa }
  function EstaInativa(v: Validadora): bool { !v.ativa }

  /**
   * `getStats`: `COUNT(*)` of the table and two `SUM(CASE …)` columns; over
   * an empty table SQL's `SUM` yields NULL, so both sums are absent then.
   */
  datatype Estatisticas = Estatisticas(total: nat, ativas: Option<nat>, inativas: Option<nat>)

  function GetStats(rows: seq<Validadora>): (s: Estatisticas)
    ensures s.total == |rows|
    ensures |rows| == 0 <==> s.ativas.None?
    ensures |rows| == 0 <==> s.inativas.None?
    ensures s.ativas.Some? ==> s.ativas.value == Count(rows, EstaAtiva)
    ensures s.inativas.Some? ==> s.inativas.value == Count(rows, EstaInativa)
  {
    if |rows| == 0 then Estatisticas(0, None, None)
    else Estatisticas(|rows|, Some(Count(rows, EstaAtiva)), Some(Count(rows, EstaInativa)))
  }

  /** Every company is either active or inactive. */
  lemma {:induction false} AtivasMaisInativas(rows: seq<Validadora>)
    ensures Count(rows, EstaAtiva) + Count(rows, EstaInativa) == |rows|
  {
    if |rows| > 0 {
      AtivasMaisInativas(rows[..|rows| - 1]);
    }
  }

  /** The figures `getStats` reports add up when the table is not empty. */
  lemma StatsAddUp(rows: seq<Validadora>)
    requires |rows| > 0
    ensures GetStats(rows).ativas.value + GetStats(rows).inativas.value == GetStats(rows).total
  {
    AtivasMaisInativas(rows);
  }

  /** `findActive`: the active companies (the name order is not modelled). */
  function FindActive(rows: seq<Validadora>): (r: seq<Validadora>)
    ensures forall x :: x in r <==> x in rows && x.ativa
    ensures |r| == Count(rows, EstaAtiva)
  {
    Filter(rows, EstaAtiva)
  }

  /** The table; `nextId` stands in for the generated id. */
  class ValidadoraTable {
    var rows: seq<Validadora>
    var nextId: nat

    ghost predicate Valid()
      reads this
    {
      IdsBelow(rows, nextId)
    }

    constructor ()
      ensures Valid() && rows == [] && nextId == 0
    {
      rows := [];
      nextId := 0;
    }

    /** `create`: inserts the row under a fresh id and returns it. */
    method Create(c: Campos) returns (v: Validadora)
      requires Valid()
      modifies this
      ensures Valid() && nextId == old(nextId) + 1
      ensures v == Gravada(old(nextId), c)
      ensures rows == old(rows) + [v]
      ensures FindById(rows, v.id) == Some(v)
    {
      v := Gravada(nextId, c);
      rows := rows + [v];
      nextId := nextId + 1;
      FindByIdAt(rows, |rows| - 1);
    }

    /** `update`: rewrites the row with that id; no row, no change and no result. */
    method Update(id: nat, c: Campos) returns (r: Option<Validadora>)
      requires Valid()
      modifies this
      ensures Valid() && nextId == old(nextId)
      ensures rows == UpdatedWhereId(old(rows), id, c)
      ensures r.None? <==> old(FindById(rows, id)).None?
      ensures r.None? ==> rows == old(rows)
      ensures r.Some? ==> r.value == Gravada(id, c) && FindById(rows, id) == r
    {
      var found := FindById(rows, id);
      UpdateKeepsIds(rows, nextId, id, c);
      UpdateFound(rows, id, c);
      rows := UpdatedWhereId(rows, id, c);
      if found.Some? {
        r := Some(Gravada(id, c));
      } else {
        r := None;
      }
    }

    /** `toggleAtiva`: flips the flag of the row with that id and returns it. */
    method ToggleAtiva(id: nat) returns (r: Option<Validadora>)
      requires Valid()
      modifies this
      ensures Valid() && nextId == old(nextId)
      ensures rows == ToggledWhereId(old(rows), id)
      ensures r.None? <==> old(FindById(rows, id)).None?
      ensures r.None? ==> rows == old(rows)
      ensures (r.Some? ==>
        r.value == old(FindById(rows, id)).value.(ativa := !old(FindById(rows, id)).value.ativa) &&
        FindById(rows, id) == r)
    {
      var found := FindById(rows, id);
      ToggleKeepsIds(rows, nextId, id);
      ToggleFound(rows, id);
      rows := ToggledWhereId(rows, id);
      if found.Some? {
        r := Some(found.value.(ativa := !found.value.ativa));
      } else {
        r := None;
      }
    }

    /** `delete`: removes the row with that id and returns what it held. */
    method Delete(id: nat) returns (r: Option<Validadora>)
      requires Valid()
      modifies this
      ensures Valid() && nextId == old(nextId)
      ensures rows == DeletedWhereId(old(rows), id)
      ensures r == old(FindById(rows, id))
      ensures FindById(rows, id).None?
    {
      r := FindById(rows, id);
      DeletePreservesIds(rows, id, nextId);
      rows := DeletedWhereId(rows, id);
    }
  }
}
