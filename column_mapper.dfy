/**
 * Renaming of column keys between the database's lower-case names and the
 * camelCase names the services use. A row is an object: its entries in
 * insertion order, with pairwise distinct keys. Assigning a key that is
 * already present replaces its value in place, as a JavaScript object does.
 */
module ColumnMapper {
  import opened Wrappers

  /** An object as the list of its entries, in insertion order. */
  type Entries<V> = seq<(string, V)>

  function Keys<V>(o: Entries<V>): (ks: seq<string>)
    ensures |ks| == |o|
    ensures forall i :: 0 <= i < |o| ==> ks[i] == o[i].0
  {
    seq(|o|, i requires 0 <= i < |o| => o[i].0)
  }

  /** No key occurs twice: every object satisfies this. */
  ghost predicate DistinctKeys<V>(o: Entries<V>)
  {
    forall i, j :: 0 <= i < j < |o| ==> o[i].0 != o[j].0
  }

  /** The set of keys of `o`. */
  function KeySet<V>(o: Entries<V>): set<string>
  {
    set i | 0 <= i < |o| :: o[i].0
  }

  lemma KeySetCons<V>(x: (string, V), o: Entries<V>)
    ensures KeySet([x] + o) == {x.0} + KeySet(o)
  {
    var c := [x] + o;
    forall y | y in KeySet(c) ensures y in {x.0} + KeySet(o) {
      var i :| 0 <= i < |c| && c[i].0 == y;
      if i > 0 { assert o[i - 1].0 == y; }
    }
    forall y | y in KeySet(o) ensures y in KeySet(c) {
      var i :| 0 <= i < |o| && o[i].0 == y;
      assert c[i + 1].0 == y;
    }
    assert c[0].0 == x.0;
  }

  /** `o[k] = v`: replace the value of an existing key in place, or append a new entry. */
  function Put<V>(o: Entries<V>, k: string, v: V): (r: Entries<V>)
    requires DistinctKeys(o)
    ensures DistinctKeys(r)
    ensures KeySet(r) == KeySet(o) + {k}
    ensures k !in KeySet(o) ==> r == o + [(k, v)]
  {
    if |o| == 0 then
      KeySetCons((k, v), o);
      [(k, v)]
    else if o[0].0 == k then
      assert o == [o[0]] + o[1..];
      KeySetCons(o[0], o[1..]);
      KeySetCons((k, v), o[1..]);
      [(k, v)] + o[1..]
    else
      var rest := Put(o[1..], k, v);
      assert o == [o[0]] + o[1..];
      KeySetCons(o[0], o[1..]);
      KeySetCons(o[0], rest);
      assert o[0].0 !in KeySet(rest);
      [o[0]] + rest
  }

  /** ASCII lower-casing of one character. */
  function LowerChar(c: char): char
  {
    if 'A' <= c <= 'Z' then (c as int + 32) as char else c
  }

  /** `String.prototype.toLowerCase`, restricted to ASCII letters. */
  function ToLower(s: string): (r: string)
  {
    seq(|s|, i requires 0 <= i < |s| => LowerChar(s[i]))
  }

  /** The 17 entries of `columnMappings`, in declaration order. */
  const ColumnPairs: seq<(string, string)> := [
    ("pesomaximo", "pesoMaximo"),
    ("pesoutilizado", "pesoUtilizado"),
    ("quantidadetokens", "quantidadeTokens"),
    ("valorpago", "valorPago"),
    ("percentualempresa", "percentualEmpresa"),
    ("valordistribuido", "valorDistribuido"),
    ("datacriacao", "dataCriacao"),
    ("datapagamentovalidadora", "dataPagamentoValidadora"),
    ("userid", "userId"),
    ("loteid", "loteId"),
    ("valorproporcional", "valorProporcional"),
    ("datavalidacao", "dataValidacao"),
    ("datasolicitacaopagamento", "dataSolicitacaoPagamento"),
    ("datapagamento", "dataPagamento"),
    ("criadoem", "criadoEm"),
    ("nomeempresa", "nomeEmpresa"),
    ("datacadastro", "dataCadastro")
  ]

  /** A map built by assigning `m[p.0] = p.1` for each pair in order. */
  function PairsToMap(ps: seq<(string, string)>): map<string, string>
  {
    if |ps| == 0 then map[] else PairsToMap(ps[..|ps| - 1])[ps[|ps| - 1].0 := ps[|ps| - 1].1]
  }

  /** The map built by `reverseMapping[camelKey] = dbKey` for each pair in order. */
  function PairsToReverse(ps: seq<(string, string)>): map<string, string>
  {
    if |ps| == 0 then map[] else PairsToReverse(ps[..|ps| - 1])[ps[|ps| - 1].1 := ps[|ps| - 1].0]
  }

  /** `columnMappings`: database key -> camelCase key. */
  function ColumnMap(): map<string, string>
  {
    PairsToMap(ColumnPairs)
  }

  /** `reverseMapping`: camelCase key -> database key. */
  function ReverseMap(): map<string, string>
  {
    PairsToReverse(ColumnPairs)
  }

  /** `s` contains no upper-case ASCII letter. */
  ghost predicate NoUpper(s: string)
  {
    forall i :: 0 <= i < |s| ==> !('A' <= s[i] <= 'Z')
  }

  lemma ToLowerFacts(s: string)
    ensures NoUpper(ToLower(s))
    ensures NoUpper(s) ==> ToLower(s) == s
    ensures ToLower(ToLower(s)) == ToLower(s)
  {
  }

  lemma LowerPairs0()
    ensures ToLower("pesoMaximo") == "pesomaximo"
    ensures ToLower("pesoUtilizado") == "pesoutilizado"
    ensures ToLower("quantidadeTokens") == "quantidadetokens"
  {
  }

  lemma LowerPairs3()
    ensures ToLower("valorPago") == "valorpago"
    ensures ToLower("percentualEmpresa") == "percentualempresa"
    ensures ToLower("valorDistribuido") == "valordistribuido"
  {
  }

  lemma LowerPairs6()
    ensures ToLower("dataCriacao") == "datacriacao"
    ensures ToLower("dataPagamentoValidadora") == "datapagamentovalidadora"
    ensures ToLower("userId") == "userid"
  {
  }

  lemma LowerPairs9()
    ensures ToLower("loteId") == "loteid"
    ensures ToLower("valorProporcional") == "valorproporcional"
    ensures ToLower("dataValidacao") == "datavalidacao"
  {
  }

  lemma LowerPairs12()
    ensures ToLower("dataSolicitacaoPagamento") == "datasolicitacaopagamento"
    ensures ToLower("dataPagamento") == "datapagamento"
    ensures ToLower("criadoEm") == "criadoem"
  {
  }

  lemma LowerPairs15()
    ensures ToLower("nomeEmpresa") == "nomeempresa"
    ensures ToLower("dataCadastro") == "datacadastro"
  {
  }

  /** Each camelCase value of `columnMappings` lower-cases to its own key. */
  lemma PairsLowerToKeys()
    ensures forall i :: 0 <= i < |ColumnPairs| ==> ToLower(ColumnPairs[i].1) == ColumnPairs[i].0
  {
    LowerPairs0(); LowerPairs3(); LowerPairs6(); LowerPairs9(); LowerPairs12(); LowerPairs15();
  }

  /** The 17 database keys of `columnMappings` are pairwise distinct. */
  lemma PairKeysDistinct()
    ensures forall i, j :: 0 <= i < j < |ColumnPairs| ==> ColumnPairs[i].0 != ColumnPairs[j].0
  {
  }

  lemma {:induction false} PairsToMapAt(ps: seq<(string, string)>)
    requires forall i, j :: 0 <= i < j < |ps| ==> ps[i].0 != ps[j].0
    ensures forall k :: k in PairsToMap(ps) <==> exists i :: 0 <= i < |ps| && ps[i].0 == k
    ensures forall i :: 0 <= i < |ps| ==> ps[i].0 in PairsToMap(ps) && PairsToMap(ps)[ps[i].0] == ps[i].1
  {
    if |ps| > 0 {
      var init := ps[..|ps| - 1];
      PairsToMapAt(init);
      forall k | k in PairsToMap(ps) ensures exists i :: 0 <= i < |ps| && ps[i].0 == k {
        if k != ps[|ps| - 1].0 {
          var i :| 0 <= i < |init| && init[i].0 == k;
          assert ps[i].0 == k;
        }
      }
    }
  }

  lemma {:induction false} PairsToReverseAt(ps: seq<(string, string)>)
    requires forall i, j :: 0 <= i < j < |ps| ==> ps[i].1 != ps[j].1
    ensures forall k :: k in PairsToReverse(ps) <==> exists i :: 0 <= i < |ps| && ps[i].1 == k
    ensures forall i :: 0 <= i < |ps| ==> ps[i].1 in PairsToReverse(ps) && PairsToReverse(ps)[ps[i].1] == ps[i].0
  {
    if |ps| > 0 {
      var init := ps[..|ps| - 1];
      PairsToReverseAt(init);
      forall k | k in PairsToReverse(ps) ensures exists i :: 0 <= i < |ps| && ps[i].1 == k {
        if k != ps[|ps| - 1].1 {
          var i :| 0 <= i < |init| && init[i].1 == k;
          assert ps[i].1 == k;
        }
      }
    }
  }

  /** The 17 camelCase values of `columnMappings` are pairwise distinct too. */
  lemma PairValuesDistinct()
    ensures forall i, j :: 0 <= i < j < |ColumnPairs| ==> ColumnPairs[i].1 != ColumnPairs[j].1
  {
    var ps := ColumnPairs;
    PairsLowerToKeys();
    PairKeysDistinct();
    forall i, j | 0 <= i < j < |ps| ensures ps[i].1 != ps[j].1 {
      assert ToLower(ps[i].1) != ToLower(ps[j].1);
    }
  }

  /** Every database key is lower case and is what its camelCase value lower-cases to. */
  lemma ColumnMapLower()
    ensures forall k :: k in ColumnMap() ==> NoUpper(k) && ToLower(ColumnMap()[k]) == k
  {
    var ps := ColumnPairs;
    PairsLowerToKeys();
    PairKeysDistinct();
    PairsToMapAt(ps);
    forall k | k in ColumnMap() ensures NoUpper(k) && ToLower(ColumnMap()[k]) == k {
      var i :| 0 <= i < |ps| && ps[i].0 == k;
      ToLowerFacts(ps[i].1);
    }
  }

  /** Distinct database keys map to distinct camelCase keys. */
  lemma ColumnMapInjective()
    ensures forall k1, k2 :: k1 in ColumnMap() && k2 in ColumnMap() && k1 != k2 ==> ColumnMap()[k1] != ColumnMap()[k2]
  {
    ColumnMapLower();
  }

  /** The reverse mapping is keyed by exactly the camelCase values. */
  lemma ReverseMapDomain()
    ensures forall c :: c in ReverseMap() <==> c in ColumnMap().Values
  {
    var ps := ColumnPairs;
    PairKeysDistinct();
    PairValuesDistinct();
    PairsToMapAt(ps);
    PairsToReverseAt(ps);
    forall c | c in ColumnMap().Values ensures c in ReverseMap() {
      var k :| k in ColumnMap() && ColumnMap()[k] == c;
      var i :| 0 <= i < |ps| && ps[i].0 == k;
    }
    forall c | c in ReverseMap() ensures c in ColumnMap().Values {
      var i :| 0 <= i < |ps| && ps[i].1 == c;
      assert ColumnMap()[ps[i].0] == c;
    }
  }

  /** The reverse mapping undoes the forward one. */
  lemma ReverseMapInverse()
    ensures forall k :: k in ColumnMap() ==> ColumnMap()[k] in ReverseMap() && ReverseMap()[ColumnMap()[k]] == k
  {
    var ps := ColumnPairs;
    PairKeysDistinct();
    PairValuesDistinct();
    PairsToMapAt(ps);
    PairsToReverseAt(ps);
    forall k | k in ColumnMap() ensures ColumnMap()[k] in ReverseMap() && ReverseMap()[ColumnMap()[k]] == k {
      var i :| 0 <= i < |ps| && ps[i].0 == k;
    }
  }

  /**
   * The table facts the renaming relies on: keys and values are in one-to-one
   * correspondence, every value lower-cases to its key, and the reverse
   * mapping undoes the forward one.
   */
  lemma ColumnMapFacts()
    ensures forall k :: k in ColumnMap() ==> NoUpper(k) && ToLower(ColumnMap()[k]) == k
    ensures forall k1, k2 :: k1 in ColumnMap() && k2 in ColumnMap() && k1 != k2 ==> ColumnMap()[k1] != ColumnMap()[k2]
    ensures forall c :: c in ReverseMap() <==> c in ColumnMap().Values
    ensures forall k :: k in ColumnMap() ==> ColumnMap()[k] in ReverseMap() && ReverseMap()[ColumnMap()[k]] == k
  {
    ColumnMapLower();
    ColumnMapInjective();
    ReverseMapDomain();
    ReverseMapInverse();
  }

  /** The key `mapDbObjectToCamelCase` writes for `key`: its mapping when its lower-case form is mapped, otherwise `key` itself. */
  function Rename(key: string): string
  {
    var lowerKey := ToLower(key);
    if lowerKey in ColumnMap() then ColumnMap()[lowerKey] else key
  }

  /** The key `mapCamelCaseToDb` writes for `key`: its reverse mapping, otherwise `key` lower-cased. */
  function RenameBack(key: string): string
  {
    if key in ReverseMap() then ReverseMap()[key] else ToLower(key)
  }

  /** Renaming only changes letter case, and lands in the mapping's values exactly when the lower-cased key is mapped. */
  lemma RenameMeaning(key: string)
    ensures ToLower(Rename(key)) == ToLower(key)
    ensures Rename(key) in ColumnMap().Values <==> ToLower(key) in ColumnMap()
    ensures ToLower(key) !in ColumnMap() ==> Rename(key) == key
  {
    ColumnMapFacts();
    ToLowerFacts(key);
    if ToLower(key) !in ColumnMap() {
      forall k | k in ColumnMap() ensures ColumnMap()[k] != key {
        assert ToLower(ColumnMap()[k]) != ToLower(key);
      }
    }
  }

  /** Every key `mapCamelCaseToDb` writes is lower case. */
  lemma RenameBackIsLower(key: string)
    ensures NoUpper(RenameBack(key))
  {
    ColumnMapFacts();
    ToLowerFacts(key);
    if key in ReverseMap() {
      var k :| k in ColumnMap() && ColumnMap()[k] == key;
    }
  }

  /** On lower-case keys, `mapCamelCaseToDb`'s renaming undoes `mapDbObjectToCamelCase`'s. */
  lemma RenameRoundTrip(key: string)
    requires NoUpper(key)
    ensures RenameBack(Rename(key)) == key
  {
    ColumnMapFacts();
    ToLowerFacts(key);
    if key !in ColumnMap() {
      forall k | k in ColumnMap() ensures ColumnMap()[k] != key {
        assert ToLower(ColumnMap()[k]) != ToLower(key);
      }
      assert key !in ReverseMap();
    }
  }

  /** Write every entry of `o`, in order, under the key `g` gives it: the loop of both mappers. */
  function RenameAll<V>(o: Entries<V>, g: string -> string): (r: Entries<V>)
    ensures DistinctKeys(r)
  {
    if |o| == 0 then []
    else Put(RenameAll(o[..|o| - 1], g), g(o[|o| - 1].0), o[|o| - 1].1)
  }

  /** Every key renamed by `g`, values and positions kept. */
  function MapKeys<V>(o: Entries<V>, g: string -> string): (r: Entries<V>)
    ensures |r| == |o|
  {
    seq(|o|, i requires 0 <= i < |o| => (g(o[i].0), o[i].1))
  }

  /** `g` sends distinct keys of `o` to distinct keys. */
  ghost predicate InjectiveOn<V>(o: Entries<V>, g: string -> string)
  {
    forall i, j :: 0 <= i < j < |o| ==> g(o[i].0) != g(o[j].0)
  }

  /** Without collisions, renaming keeps every entry in place with its value. */
  lemma {:induction false} RenameAllNoCollision<V>(o: Entries<V>, g: string -> string)
    requires InjectiveOn(o, g)
    ensures RenameAll(o, g) == MapKeys(o, g)
  {
    if |o| > 0 {
      var init := o[..|o| - 1];
      InjectiveInit(o, g);
      RenameAllNoCollision(init, g);
      LastKeyNew(o, g);
      MapKeysSnoc(o, g);
    }
  }

  lemma InjectiveInit<V>(o: Entries<V>, g: string -> string)
    requires |o| > 0 && InjectiveOn(o, g)
    ensures InjectiveOn(o[..|o| - 1], g)
  {
    var init := o[..|o| - 1];
    forall i, j | 0 <= i < j < |init| ensures g(init[i].0) != g(init[j].0) {
      assert init[i] == o[i] && init[j] == o[j];
    }
  }

  /** Without collisions, the last key's new name is not among the earlier entries' new names. */
  lemma LastKeyNew<V>(o: Entries<V>, g: string -> string)
    requires |o| > 0 && InjectiveOn(o, g)
    ensures g(o[|o| - 1].0) !in KeySet(MapKeys(o[..|o| - 1], g))
  {
    var m := MapKeys(o[..|o| - 1], g);
    forall i | 0 <= i < |m| ensures m[i].0 != g(o[|o| - 1].0) {
      assert m[i].0 == g(o[i].0);
    }
  }

  lemma MapKeysSnoc<V>(o: Entries<V>, g: string -> string)
    requires |o| > 0
    ensures MapKeys(o[..|o| - 1], g) + [(g(o[|o| - 1].0), o[|o| - 1].1)] == MapKeys(o, g)
  {
  }

  /** `mapDbObjectToCamelCase`: null / undefined is returned unchanged. */
  function MapDbObjectToCamelCase<V>(o: Option<Entries<V>>): (r: Option<Entries<V>>)
    ensures r.None? <==> o.None?
    ensures r.Some? ==> DistinctKeys(r.value) && KeySet(r.value) == set k | k in KeySet(o.value) :: Rename(k)
  {
    match o
    case None => None
    case Some(entries) => RenameAllKeys(entries, Rename); Some(RenameAll(entries, Rename))
  }

  /** `mapCamelCaseToDb`: null / undefined is returned unchanged. */
  function MapCamelCaseToDb<V>(o: Option<Entries<V>>): (r: Option<Entries<V>>)
    ensures r.None? <==> o.None?
    ensures r.Some? ==> DistinctKeys(r.value) && forall k :: k in KeySet(r.value) ==> NoUpper(k)
  {
    match o
    case None => None
    case Some(entries) =>
      RenameAllKeys(entries, RenameBack);
      forall k | k in KeySet(o.value) ensures NoUpper(RenameBack(k)) { RenameBackIsLower(k); }
      Some(RenameAll(entries, RenameBack))
  }

  lemma {:induction false} RenameAllKeys<V>(o: Entries<V>, g: string -> string)
    ensures KeySet(RenameAll(o, g)) == set k | k in KeySet(o) :: g(k)
  {
    if |o| > 0 {
      var init := o[..|o| - 1];
      var last := o[|o| - 1];
      RenameAllKeys(init, g);
      assert o == init + [last];
      KeySetSnoc(init, last);
      ImageSnoc(KeySet(init), last.0, g);
    }
  }

  lemma KeySetSnoc<V>(o: Entries<V>, x: (string, V))
    ensures KeySet(o + [x]) == KeySet(o) + {x.0}
  {
    var c := o + [x];
    forall y | y in KeySet(c) ensures y in KeySet(o) + {x.0} {
      var i :| 0 <= i < |c| && c[i].0 == y;
      if i < |o| { assert o[i].0 == y; }
    }
    forall y | y in KeySet(o) ensures y in KeySet(c) {
      var i :| 0 <= i < |o| && o[i].0 == y;
      assert c[i].0 == y;
    }
    assert c[|o|].0 == x.0;
  }

  lemma ImageSnoc(ks: set<string>, k: string, g: string -> string)
    ensures (set y | y in ks + {k} :: g(y)) == (set y | y in ks :: g(y)) + {g(k)}
  {
  }

  /**
   * Round trip: an object whose keys are all lower case, as the database
   * returns them, comes back unchanged from `mapCamelCaseToDb` after
   * `mapDbObjectToCamelCase`, for mapped and unmapped keys alike.
   */
  lemma RoundTrip<V>(o: Entries<V>)
    requires DistinctKeys(o)
    requires forall i :: 0 <= i < |o| ==> NoUpper(o[i].0)
    ensures MapCamelCaseToDb(MapDbObjectToCamelCase(Some(o))) == Some(o)
  {
    ForwardOnLowerKeys(o);
    BackwardOnRenamed(o);
  }

  /** Lower-case distinct keys are renamed without collision. */
  lemma ForwardOnLowerKeys<V>(o: Entries<V>)
    requires forall i :: 0 <= i < |o| ==> NoUpper(o[i].0)
    requires DistinctKeys(o)
    ensures MapDbObjectToCamelCase(Some(o)) == Some(MapKeys(o, Rename))
  {
    forall i, j | 0 <= i < j < |o| ensures Rename(o[i].0) != Rename(o[j].0) {
      RenameMeaning(o[i].0);
      RenameMeaning(o[j].0);
      ToLowerFacts(o[i].0);
      ToLowerFacts(o[j].0);
    }
    RenameAllNoCollision(o, Rename);
  }

  lemma BackwardOnRenamed<V>(o: Entries<V>)
    requires forall i :: 0 <= i < |o| ==> NoUpper(o[i].0)
    requires DistinctKeys(o)
    ensures RenameAll(MapKeys(o, Rename), RenameBack) == o
  {
    var m := MapKeys(o, Rename);
    forall i | 0 <= i < |o| ensures RenameBack(m[i].0) == o[i].0 {
      RenameRoundTrip(o[i].0);
    }
    RenameAllNoCollision(m, RenameBack);
    assert MapKeys(m, RenameBack) == o;
  }

  /** The single-column case: every database key `k` of the mapping survives the round trip. */
  lemma RoundTripColumn<V>(k: string, v: V)
    requires k in ColumnMap()
    ensures MapDbObjectToCamelCase(Some([(k, v)])) == Some([(ColumnMap()[k], v)])
    ensures MapCamelCaseToDb(MapDbObjectToCamelCase(Some([(k, v)]))) == Some([(k, v)])
  {
    ColumnMapFacts();
    ToLowerFacts(k);
    assert RenameAll([(k, v)], Rename) == Put([], Rename(k), v);
    RoundTrip([(k, v)]);
  }

  /** `mapDbArrayToCamelCase`: maps every element; a non-array (null / undefined) comes back unchanged. */
  function MapDbArrayToCamelCase<V>(a: Option<seq<Option<Entries<V>>>>): (r: Option<seq<Option<Entries<V>>>>)
    ensures a.None? ==> r.None?
    ensures a.Some? ==> r.Some? && |r.value| == |a.value|
    ensures a.Some? ==> forall i :: 0 <= i < |a.value| ==> r.value[i] == MapDbObjectToCamelCase(a.value[i])
  {
    match a
    case None => None
    case Some(items) => Some(seq(|items|, i requires 0 <= i < |items| => MapDbObjectToCamelCase(items[i])))
  }
}
