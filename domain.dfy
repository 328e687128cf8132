/**
 * Vocabulary shared by the settlement pipeline: categories, the status values
 * that the `waste_records` and `lotes` tables admit, identifiers and time.
 */
module Domain {
  import opened Wrappers

  /** Waste category; the schema admits exactly these two values. */
  datatype Categoria = RECICLAVEL | ORGANICO

  /**
   * Status of a waste record. The intended path is
   * VALIDADO -> ENVIADO_VALIDADORA -> LIBERADO_PAGAMENTO -> PAGO;
   * PENDENTE_PAGAMENTO is a legacy value the schema still admits.
   */
  datatype RecordStatus = VALIDADO | ENVIADO_VALIDADORA | LIBERADO_PAGAMENTO | PENDENTE_PAGAMENTO | PAGO

  /** Status of a lot; PAGO_USUARIOS is admitted by the schema but never set. */
  datatype LoteStatus = PENDENTE_VALIDADORA | PAGO_VALIDADORA | PAGO_USUARIOS

  /** An instant, ordered as the ISO-8601 strings the tables store. */
  type Timestamp = int

  /** Identifier of a depositor (an opaque user id). */
  type UserId = string

  /** A depositor as the user lookup returns it. */
  datatype Usuario = Usuario(nome: string, cnpj: string)

  /** The name shown for a depositor: "Desconhecido" when the lookup finds nobody. */
  function NomeEmpresa(users: map<UserId, Usuario>, u: UserId): string
  {
    if u in users then users[u].nome else "Desconhecido"
  }

  /** The CNPJ shown for a depositor: empty when the lookup finds nobody. */
  function CnpjDe(users: map<UserId, Usuario>, u: UserId): string
  {
    if u in users then users[u].cnpj else ""
  }

  /**
   * `parseFloat(text) || fallback`: a driver value that is missing, unparseable
   * (None) or zero gives the fallback.
   */
  function ParseNumeric(raw: Option<real>, fallback: real): (r: real)
    ensures raw.Some? && raw.value != 0.0 ==> r == raw.value
    ensures raw.None? || raw.value == 0.0 ==> r == fallback
  {
    if raw.Some? && raw.value != 0.0 then raw.value else fallback
  }

  /** Position of a status on the intended forward path; the legacy value sits beside PAGO's predecessor. */
  function Rank(s: RecordStatus): nat
  {
    match s
    case VALIDADO => 0
    case ENVIADO_VALIDADORA => 1
    case LIBERADO_PAGAMENTO => 2
    case PENDENTE_PAGAMENTO => 2
    case PAGO => 3
  }
}
