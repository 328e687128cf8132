/**
 * The `available_tokens` table: tokens issued by a totem, each a row
 * (code, categoria, peso, usado). A code may be issued more than once; a row
 * is redeemable while `usado` is false. Both the repository and the older
 * model class run the same statements against this table.
 */
module TokenLedger {
  import opened Wrappers
  import opened Domain

  /** One row of `available_tokens`; `usado` is the 0/1 column. */
  datatype TokenRow = TokenRow(
    id: nat,
    token: string,
    categoria: Categoria,
    peso: real,
    usado: bool,
    dataCriacao: Timestamp)

  /** The row a single-row `SELECT ... WHERE token = ?` yields: the first row with that code. */
  function FindByToken(rows: seq<TokenRow>, code: string): (r: Option<TokenRow>)
    ensures r.Some? ==> r.value in rows && r.value.token == code
    ensures r.None? <==> forall i :: 0 <= i < |rows| ==> rows[i].token != code
  {
    if |rows| == 0 then None
    else if rows[0].token == code then Some(rows[0])
    else FindByToken(rows[1..], code)
  }

  /** The first row with that code and `usado = 0`, as `findAvailable` selects it. */
  function FindAvailable(rows: seq<TokenRow>, code: string): (r: Option<TokenRow>)
    ensures r.Some? ==> r.value in rows && r.value.token == code && !r.value.usado
    ensures r.None? <==> forall i :: 0 <= i < |rows| ==> rows[i].token != code || rows[i].usado
  {
    if |rows| == 0 then None
    else if rows[0].token == code && !rows[0].usado then Some(rows[0])
    else FindAvailable(rows[1..], code)
  }

  /** The rows `findAllAvailable` returns: those with `usado = 0`, in table order. */
  function FindAllAvailable(rows: seq<TokenRow>): (r: seq<TokenRow>)
    ensures forall t :: t in r <==> t in rows && !t.usado
    ensures forall t :: multiset(r)[t] == if t.usado then 0 else multiset(rows)[t]
    ensures |r| <= |rows|
  {
    if |rows| == 0 then []
    else
      var init := FindAllAvailable(rows[..|rows| - 1]);
      var last := rows[|rows| - 1];
      assert forall t :: t in rows <==> t in rows[..|rows| - 1] || t == last by {
        assert rows == rows[..|rows| - 1] + [last];
      }
      if last.usado then init else init + [last]
  }

  /** Number of rows carrying `code`: the `changes` of an UPDATE or DELETE keyed by code. */
  function CountCode(rows: seq<TokenRow>, code: string): (n: nat)
    ensures n <= |rows|
    ensures n == 0 <==> FindByToken(rows, code).None?
  {
    if |rows| == 0 then 0
    else CountCode(rows[1..], code) + (if rows[0].token == code then 1 else 0)
  }

  /** Number of redeemable rows carrying `code`. */
  function CountAvailable(rows: seq<TokenRow>, code: string): (n: nat)
    ensures n <= CountCode(rows, code)
    ensures n == 0 <==> FindAvailable(rows, code).None?
  {
    if |rows| == 0 then 0
    else CountAvailable(rows[1..], code) + (if rows[0].token == code && !rows[0].usado then 1 else 0)
  }

  /** The table after `UPDATE available_tokens SET usado = 1 WHERE token = code`. */
  function MarkUsed(rows: seq<TokenRow>, code: string): (r: seq<TokenRow>)
    ensures |r| == |rows|
    ensures FindAvailable(r, code).None?
    ensures forall i :: 0 <= i < |rows| && rows[i].token != code ==> r[i] == rows[i]
    ensures forall i :: 0 <= i < |rows| && rows[i].token == code ==> r[i] == rows[i].(usado := true)
  {
    seq(|rows|, i requires 0 <= i < |rows| =>
      if rows[i].token == code then rows[i].(usado := true) else rows[i])
  }

  /** The table after `DELETE FROM available_tokens WHERE token = code`, order kept. */
  function Deleted(rows: seq<TokenRow>, code: string): (r: seq<TokenRow>)
    ensures forall t :: t in r <==> t in rows && t.token != code
    ensures forall t :: multiset(r)[t] == if t.token == code then 0 else multiset(rows)[t]
    ensures |r| == |rows| - CountCode(rows, code)
  {
    if |rows| == 0 then []
    else
      assert rows == [rows[0]] + rows[1..];
      (if rows[0].token == code then [] else [rows[0]]) + Deleted(rows[1..], code)
  }

  /** Appending a row changes the first match only when no earlier row matched. */
  lemma {:induction false} FindByTokenAppend(rows: seq<TokenRow>, x: TokenRow, code: string)
    ensures FindByToken(rows + [x], code) ==
      if FindByToken(rows, code).Some? then FindByToken(rows, code)
      else if x.token == code then Some(x) else None
  {
    if |rows| > 0 {
      assert (rows + [x])[1..] == rows[1..] + [x];
      FindByTokenAppend(rows[1..], x, code);
    }
  }

  lemma {:induction false} FindAvailableAppend(rows: seq<TokenRow>, x: TokenRow, code: string)
    ensures FindAvailable(rows + [x], code) ==
      if FindAvailable(rows, code).Some? then FindAvailable(rows, code)
      else if x.token == code && !x.usado then Some(x) else None
  {
    if |rows| > 0 {
      assert (rows + [x])[1..] == rows[1..] + [x];
      FindAvailableAppend(rows[1..], x, code);
    }
  }

  lemma {:induction false} CountAvailableAppend(rows: seq<TokenRow>, x: TokenRow, code: string)
    ensures CountAvailable(rows + [x], code) ==
      CountAvailable(rows, code) + (if x.token == code && !x.usado then 1 else 0)
  {
    if |rows| > 0 {
      assert (rows + [x])[1..] == rows[1..] + [x];
      CountAvailableAppend(rows[1..], x, code);
    }
  }

  /** Every row's id was allocated before `nextId`. */
  ghost predicate IdsBelow(rows: seq<TokenRow>, nextId: nat)
  {
    forall i :: 0 <= i < |rows| ==> rows[i].id < nextId
  }

  /** A row inserted under the next id keeps every id allocated. */
  lemma AppendKeepsIdsBelow(rows: seq<TokenRow>, row: TokenRow, nextId: nat)
    requires IdsBelow(rows, nextId) && row.id == nextId
    ensures IdsBelow(rows + [row], nextId + 1)
  {
    assert forall i :: 0 <= i < |rows| ==> (rows + [row])[i] == rows[i];
  }

  /** The `available_tokens` table, changed in place by insert, mark and delete. */
  class TokenTable {
    var rows: seq<TokenRow>
    /** The next value of the AUTOINCREMENT id column. */
    var nextId: nat

    ghost predicate Valid()
      reads this
    {
      IdsBelow(rows, nextId)
    }

    constructor ()
      ensures Valid() && rows == []
    {
      rows := [];
      nextId := 0;
    }

    /**
     * Repository `create`: inserts a row with `usado = 0` and returns it. No
     * check is made for an existing redeemable row with the same code, so
     * such rows can coexist.
     */
    method Create(token: string, categoria: Categoria, peso: real, now: Timestamp) returns (row: TokenRow)
      requires Valid()
      modifies this
      ensures Valid()
      ensures row == TokenRow(old(nextId), token, categoria, peso, false, now)
      ensures rows == old(rows) + [row]
      ensures FindAvailable(rows, token) ==
        if old(FindAvailable(rows, token)).Some? then old(FindAvailable(rows, token)) else Some(row)
      ensures CountAvailable(rows, token) == old(CountAvailable(rows, token)) + 1
    {
      row := TokenRow(nextId, token, categoria, peso, false, now);
      CountAvailableAppend(rows, row, token);
      FindAvailableAppend(rows, row, token);
      AppendKeepsIdsBelow(rows, row, nextId);
      rows := rows + [row];
      nextId := nextId + 1;
    }

    /**
     * Model-class `create`: inserts like `Create`, then returns
     * `findByToken(code)`, which is an older row whenever the code was issued
     * before (the first row with the code, redeemed or not).
     */
    method CreateAndRefetch(token: string, categoria: Categoria, peso: real, now: Timestamp)
      returns (r: Option<TokenRow>)
      requires Valid()
      modifies this
      ensures Valid()
      ensures rows == old(rows) + [TokenRow(old(nextId), token, categoria, peso, false, now)]
      ensures r.Some? && r.value.token == token
      ensures old(FindByToken(rows, token)).Some? ==> r == old(FindByToken(rows, token)) && r.value.id < old(nextId)
      ensures old(FindByToken(rows, token)).None? ==> r == Some(TokenRow(old(nextId), token, categoria, peso, false, now))
    {
      var inserted := Create(token, categoria, peso, now);
      FindByTokenAppend(old(rows), inserted, token);
      r := FindByToken(rows, token);
    }

    /** `markAsUsed`: every row with the code becomes used; `changes` counts them. */
    method MarkAsUsed(code: string) returns (changes: nat)
      requires Valid()
      modifies this
      ensures Valid() && nextId == old(nextId)
      ensures rows == MarkUsed(old(rows), code)
      ensures changes == CountCode(old(rows), code)
    {
      changes := CountCode(rows, code);
      rows := MarkUsed(rows, code);
    }

    /** `delete`: removes every row with the code and no other. */
    method Delete(code: string) returns (changes: nat)
      requires Valid()
      modifies this
      ensures Valid() && nextId == old(nextId)
      ensures rows == Deleted(old(rows), code)
      ensures changes == CountCode(old(rows), code)
    {
      changes := CountCode(rows, code);
      rows := Deleted(rows, code);
    }
  }
}
