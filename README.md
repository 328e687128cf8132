# lix-carbon waste-credit settlement, modelled in Dafny

lix-carbon lets depositors redeem totem tokens for waste records. Each record
earns a weight-based credit. An administrator batches the validated records
into lots under a weight ceiling. A validating company pays a lot, and the
payment is shared out among the lot's records in proportion to their
weights. The administrator then pays the released records to their
depositors. This project models that core: the stores it reads and writes,
and the services that drive it.

Modules, one per part of the program:

- `Wrappers`: `Option` and `Result`.
- `Collections`: sums, counts, filters and a stable insertion sort. Every
  SQL `ORDER BY dataCriacao` is modelled by this sort.
- `Domain`: the shared enumerations (category, record status, lot status)
  and the numeric parsing rule `parseFloat(x) || fallback`.
- `TokenLedger`: the `available_tokens` table (`TokenRepository.js`; `Token.js`
  repeats the same operations). The class `TokenTable` holds the rows and
  the id counter.
- `WasteRecords`: the `waste_records` store (`WasteRecord.js`), its queries as
  functions of the rows and its writes as methods of `RecordTable`.
- `WasteService`: the credit rule, redemption of a token, per-user
  statistics, and the list of records available for batching.
- `Lotes`: the `lotes` store (`LoteRepository.js`, `Lote.js`).
- `LoteBatching`: the greedy batcher and the proportional settlement. Both
  `Lote.js` and `LoteService.js` carry these.
- `LoteService`: the input checks `LoteService.js` adds in front of them.
- `PaymentService`: a depositor's payment stages, the administrator's
  payable records grouped by depositor, and payment processing.
- `ColumnMapper`: the lower-case ↔ camelCase column renaming.
- `Validadoras` and `ValidadoraService`: the registry of validating
  companies and its service checks.

The services call a `WasteRecordRepository` whose source is not part of this model. Its calls (`create`, `findByUserId`, `findByStatus`, `findByUserIdAndStatus`, `findAll`) are modelled by the `WasteRecords` operations built from `WasteRecord.js`, which runs the same statements.

Tables are classes. Each holds a sequence of rows (`rows`) and the next id to
hand out (`nextId`). Queries are functions of `rows`. Writes are methods with
`modifies` clauses whose `ensures` give the new table as a function of the
old one. The current time is a parameter `now`. Weights and money are `real`.

## Model

| member | source | states |
|---|---|---|
| TokenLedger.FindByToken | backend/repositories/TokenRepository.js:12-20 | A row found carries the code; none is found exactly when no row has that code, used or not |
| TokenLedger.FindAvailable | backend/repositories/TokenRepository.js:25-33 | A row found carries the code and is unused; none is found exactly when every row with that code is used |
| TokenLedger.FindAllAvailable | backend/repositories/TokenRepository.js:88-96 | Exactly the unused rows, each as often as in the table |
| TokenLedger.CountCode | backend/repositories/TokenRepository.js:63-70 | The number of rows with the code, zero exactly when `findByToken` finds none |
| TokenLedger.CountAvailable | backend/repositories/TokenRepository.js:25-33 | The unused rows with the code: at most all rows with it, zero exactly when `findAvailable` finds none |
| TokenLedger.MarkUsed | backend/repositories/TokenRepository.js:63-70 | Every row with the code becomes used, every other row is unchanged, and afterwards `findAvailable(code)` finds nothing |
| TokenLedger.Deleted | backend/repositories/TokenRepository.js:101-108 | Exactly the rows with another code remain, each as often as before; the count drops by the rows that had the code |
| TokenLedger.FindByTokenAppend | backend/models/Token.js:42 | An insert changes the first row found under a code only when the code had no row before |
| TokenLedger.FindAvailableAppend | backend/repositories/TokenRepository.js:38-53 | After an insert, the first available row is the old one if any, else the new row when it matches |
| TokenLedger.CountAvailableAppend | backend/repositories/TokenRepository.js:38-58 | An insert adds one available row with its code, even when one already exists (duplicates can coexist) |
| TokenLedger.TokenTable.constructor | backend/repositories/TokenRepository.js:8 | An empty table |
| TokenLedger.TokenTable.Create | backend/repositories/TokenRepository.js:38-58 | Appends an unused row under a fresh id; `findAvailable(code)` then finds a row (the older one if one existed); the available count for the code grows by one |
| TokenLedger.TokenTable.CreateAndRefetch | backend/models/Token.js:25-47 | Inserts the row, then returns `findByToken(code)`: this is an older row with that code when one exists, and the new row only otherwise |
| TokenLedger.TokenTable.MarkAsUsed | backend/models/Token.js:50-57 | The table becomes `MarkUsed(old rows, code)`; `changes` is the number of rows with the code |
| TokenLedger.TokenTable.Delete | backend/models/Token.js:80-87 | The table becomes `Deleted(old rows, code)`; `changes` is the number of rows removed |
| Domain.ParseNumeric | backend/models/WasteRecord.js:8-9 | `parseFloat(x) \|\| fallback`: a parsed non-zero value is kept; a missing, unparseable or zero value gives the fallback |
| WasteRecords.ParseNumericFields | backend/models/WasteRecord.js:5-12 | A missing row passes through; peso and credito are parsed with 0 as fallback; every other field is unchanged |
| WasteRecords.FindById | backend/models/WasteRecord.js:21-29 | A row found has that id; none is found exactly when no row has it |
| WasteRecords.FindByToken | backend/models/WasteRecord.js:32-40 | A row found has that code; none is found exactly when no row has it |
| WasteRecords.FindByUserId | backend/models/WasteRecord.js:43-55 | Exactly that user's rows (as a multiset), newest `dataCriacao` first |
| WasteRecords.FindByStatus | backend/models/WasteRecord.js:58-70 | Exactly the rows in that status (as a multiset), newest first |
| WasteRecords.FindByUserIdAndStatus | backend/models/WasteRecord.js:73-85 | Exactly one user's rows in one status (as a multiset), newest first |
| WasteRecords.FindAll | backend/models/WasteRecord.js:200-208 | A permutation of the table, newest first |
| WasteRecords.FindValidadosOldestFirst | backend/services/LoteService.js:22-31 | Exactly the `VALIDADO` rows (as a multiset), oldest first |
| WasteRecords.FindByStatusSums | backend/models/WasteRecord.js:58-70 | Sorting does not change the weight total, the payout total or the count of the rows in a status |
| WasteRecords.StatusUpdated | backend/models/WasteRecord.js:118-156 | The status is set unconditionally. `dataSolicitacaoPagamento` takes the supplied value, else now for `PENDENTE_PAGAMENTO`, else stays. `dataPagamento` takes the supplied value, else now for `PAGO`, else stays. Nothing else changes |
| WasteRecords.UpdateStatusMovesBackward | backend/models/WasteRecord.js:118-124 | No transition is refused: a paid record can be set back to `VALIDADO`, keeping its payment date |
| WasteRecords.UpdateWhereId | backend/models/WasteRecord.js:146-156 | Only the row with that id is rewritten; every other row and every id is kept |
| WasteRecords.BulkUpdated | backend/models/WasteRecord.js:159-172 | The status is set; dataPagamento becomes now for `PAGO` and null otherwise; nothing else changes |
| WasteRecords.UpdateWhereIdIn | backend/models/WasteRecord.js:159-177 | Every row whose id is listed is rewritten the same way; the others are kept |
| WasteRecords.CountIdsIn | backend/models/WasteRecord.js:170-172 | The number of matched rows, zero exactly when no row's id is listed |
| WasteRecords.FilterIdsIn | backend/models/WasteRecord.js:163-172 | Exactly the rows whose id is listed (the `RETURNING *` rows), as many as `changes` |
| WasteRecords.UpdateWhereIdInCount | backend/models/WasteRecord.js:159-177 | After a bulk update, the same number of rows match the ids, and all of them carry the new status |
| WasteRecords.SendWhereId | backend/services/LoteService.js:66-73 | The row with that id becomes `ENVIADO_VALIDADORA` in the lot; the others are kept |
| WasteRecords.ReleaseWhereId | backend/services/LoteService.js:123-136 | The row with that id becomes `LIBERADO_PAGAMENTO` with the payout; the others are kept |
| WasteRecords.WithoutId | backend/models/WasteRecord.js:211-218 | Exactly the rows whose id differs remain |
| WasteRecords.WithoutIdMultiset | backend/models/WasteRecord.js:211-218 | Deleting by id keeps every row with another id exactly as often as it occurred, and none with that id |
| WasteRecords.WithoutIdUnique | backend/models/WasteRecord.js:211-218 | Deleting a row keeps ids unique |
| WasteRecords.UpdateFound | backend/models/WasteRecord.js:146-156 | After the update, the id finds the updated row, or nothing when no row had the id |
| WasteRecords.RecordTable.constructor | backend/models/WasteRecord.js:19 | An empty table |
| WasteRecords.RecordTable.Create | backend/models/WasteRecord.js:88-115 | Fails, changing nothing, exactly when a record already carries the token: the column is UNIQUE (backend/database/db.js:75) and the insert error is rethrown. Otherwise it appends a row under a fresh id with the given fields. Status defaults to `VALIDADO` and dataValidacao to now. The payment dates are null unless supplied. There is no lot, the payout is 0 and dataCriacao is now. The new row is found under its id and under its token |
| WasteRecords.FindByTokenAppendNew | backend/database/db.js:75 | A record inserted under a code no record carries is the one found by that code |
| WasteRecords.RecordTable.UpdateStatus | backend/models/WasteRecord.js:118-156 | The table becomes `UpdateWhereId`; the result is the updated row, and null exactly when no row had the id |
| WasteRecords.RecordTable.UpdateMany | backend/models/WasteRecord.js:159-177 | An empty id list changes nothing. Otherwise every listed row is updated, `changes` counts the matched rows and the returned rows are those rows after the update |
| WasteRecords.RecordTable.SendToLote | backend/services/LoteService.js:66-73 | The table becomes `SendWhereId` |
| WasteRecords.RecordTable.Release | backend/services/LoteService.js:123-136 | The table becomes `ReleaseWhereId` |
| WasteRecords.RecordTable.Delete | backend/models/WasteRecord.js:211-218 | The table becomes `WithoutId`; `changes` is 1 when the row existed and 0 otherwise; the id then finds nothing |
| WasteService.CalcularCredito | backend/services/WasteService.js:13-18 | Recyclable earns a tenth of the weight and anything else a twentieth; for a non-negative weight the credit lies between 0 and a tenth of the weight |
| WasteService.ReciclavelRendeMais | backend/services/WasteService.js:16 | Recyclable waste never earns less than the same weight of organic waste |
| WasteService.CreditoMonotone | backend/services/WasteService.js:17 | More weight never earns less credit |
| WasteService.CreditoSamples | backend/services/WasteService.js:13-18 | 150.5 kg recyclable gives 15.05, 200 kg organic gives 10.0 and 180 kg recyclable gives 18.0 |
| WasteService.Registrar | backend/services/WasteService.js:35-65 | The checks run in order. A code that is missing or not 6 long is refused, then a code with no unused row, then a code some record already carries (the UNIQUE token insert fails), each with nothing changed. Otherwise a `VALIDADO` record is appended: category and weight come from the token, credit from `calcularCredito`, and dataValidacao is now. Only then is every row with the code marked used. When that mark fails, the redemption ends in the mark error, the record stays and the token table is unchanged |
| WasteService.RegistrarDuasVezes | backend/services/WasteService.js:41-62 | The first redemption succeeds exactly when the code is 6 long, has an unused row and no record yet; after it succeeds, an immediate second one with the same code is refused and creates no record |
| WasteService.RegistrarAposFalha | backend/services/WasteService.js:51-62 | For a 6-character code with an unused row and no record: the first redemption inserts its record and fails at the mark. The second is refused at the insert by the UNIQUE token column. One record exists for the code, the token table is unchanged and the code stays available, yet cannot be redeemed |
| WasteService.RegistrarReemitido | backend/services/WasteService.js:41-62 | A code issued again after its successful redemption is available in the token table, but redeeming it is refused at the insert and adds no record |
| WasteService.CategoriaCountsPartition | backend/services/WasteService.js:90-92 | The recyclable and organic counts make up all records |
| WasteService.CategoriaSumsPartition | backend/services/WasteService.js:88-91 | The per-category weights add up to the total weight, and the per-category credits to the total credit |
| WasteService.StatusCountsPartition | backend/services/WasteService.js:93 | The per-status counts add up to the number of records |
| WasteService.AdicionarStep | backend/services/WasteService.js:87-94 | One call of the `forEach` callback keeps the figures equal to those of the records seen so far |
| WasteService.Acumular | backend/services/WasteService.js:87-94 | The loop yields the figures of all the records |
| WasteService.ObterEstatisticas | backend/services/WasteService.js:70-97 | totalPeso and totalCredito are the sums over the user's records. Each category's weight, credit and quantity are those of the user's records in that category. The quantities add up to the record count, and the weights and credits to the totals. The status counters are the three preset ones plus each status that occurs, and each counts its records |
| WasteService.JuntarUsuarios | backend/services/WasteService.js:119-126 | Each record, in order, joined with its depositor's name and CNPJ, or 'Desconhecido' and '' when there is no such user |
| WasteService.JuntarMembers | backend/services/WasteService.js:119-126 | The join keeps exactly the same records, each with its own depositor's data |
| WasteService.ListarDisponiveisParaLote | backend/services/WasteService.js:114-137 | Exactly the `VALIDADO` records, each joined with its depositor, oldest `dataCriacao` first, each as often as it occurs in the table; `total` is their number |
| WasteService.JuntarCounts | backend/services/WasteService.js:119-126 | Each record occurs joined with its own depositor exactly as often as it occurs, and nothing else occurs |
| Lotes.ParseNumericFields | backend/repositories/LoteRepository.js:7-18 | A missing row passes through. The numeric columns are parsed with 0 as fallback, except that a missing or zero percentualEmpresa becomes 20. The other fields are unchanged |
| Lotes.FindById | backend/repositories/LoteRepository.js:44-50 | A lot found has that id; none is found exactly when no lot has it |
| Lotes.FindAll | backend/repositories/LoteRepository.js:33-39 | A permutation of the lots, newest first |
| Lotes.FindTokensByLoteId | backend/repositories/LoteRepository.js:89-106 | Exactly the records of that lot (as a multiset), oldest first |
| Lotes.Paid | backend/repositories/LoteRepository.js:74-84 | The lot becomes `PAGO_VALIDADORA` with both amounts and the payment date; nothing else changes |
| Lotes.PaidWhereId | backend/repositories/LoteRepository.js:74-84 | Only the lot with that id is rewritten, whatever its status was |
| Lotes.PaidFound | backend/repositories/LoteRepository.js:74-84 | After the update, the lot found under the id is the paid one |
| Lotes.PaidMissing | backend/repositories/LoteRepository.js:74-84 | Paying an id that no lot has changes nothing |
| Lotes.CreateKeepsIds | backend/repositories/LoteRepository.js:55-69 | A lot inserted under the next id keeps ids unique and is found under its id |
| Lotes.LoteTable.constructor | backend/repositories/LoteRepository.js:29 | An empty table |
| Lotes.LoteTable.Create | backend/repositories/LoteRepository.js:55-69 | Appends a `PENDENTE_VALIDADORA` lot under a fresh id with the given ceiling, weight and count, nothing paid, the default 20 percent and dataCriacao now; it is found under its id. The source returns only id, ceiling, weight, count and status; the model returns the whole stored row, whose other columns hold the defaults of backend/database/db.js:115-119 |
| Lotes.LoteTable.UpdatePagamento | backend/repositories/LoteRepository.js:74-84 | The table becomes `PaidWhereId`; an unknown id changes nothing |
| LoteBatching.SelectGreedy | backend/services/LoteService.js:41-56 | The selected records are a prefix of the candidates, non-empty when there is a candidate, and weigh the accumulated total. They stay within the ceiling unless they are a single first record that alone exceeds it. The stop rule holds |
| LoteBatching.GreedySelectionUnique | backend/services/LoteService.js:44-50 | The stop rule allows a single selection count |
| LoteBatching.StopsBeforeCeiling | backend/services/LoteService.js:44-56 | Weights 100, 100, 100 under a 250 kg ceiling select two records, 200 kg |
| LoteBatching.OversizedFirstTaken | backend/services/LoteService.js:44-56 | A single 500 kg record under a 100 kg ceiling is taken: a 500 kg lot |
| LoteBatching.NoSkippingAhead | backend/services/LoteService.js:45-50 | Weights 100, 300, 50 under 250 select only the first record: the loop stops and never skips to a lighter record |
| LoteBatching.AssignedToLote | backend/services/LoteService.js:66-73 | Each selected record becomes `ENVIADO_VALIDADORA` in the lot, and no other record changes |
| LoteBatching.SendAll | backend/models/Lote.js:79-86 | The per-record update loop leaves the table as `AssignedToLote` |
| LoteBatching.Create | backend/models/Lote.js:27-96 | Fails with no `VALIDADO` record, changing nothing; so the "no token selected" branch cannot be reached. Otherwise it selects greedily and stores a `PENDENTE_VALIDADORA` lot whose weight is the selection's sum and whose count its length. The selected records are sent to it, and they alone make up the lot, with that weight |
| LoteBatching.FreshLoteMembers | backend/services/LoteService.js:66-73 | Sending records to a lot no record pointed to makes exactly them its members, with their total weight |
| LoteBatching.CreatedLoteMembers | backend/services/LoteService.js:63-73 | After batching, the new lot's members weigh its pesoUtilizado and number its quantidadeTokens |
| LoteBatching.EffectivePercent | backend/models/Lote.js:12 | `percentualEmpresa \|\| 20`: a zero percentage counts as 20, any other is kept |
| LoteBatching.ReleasedLote | backend/services/LoteService.js:123-136 | Each record of the lot is `LIBERADO_PAGAMENTO` with its weight-proportional share; the other records are kept |
| LoteBatching.ReleaseMembers | backend/models/Lote.js:137-150 | The per-member update loop leaves the table as `ReleasedLote` and counts the lot's members |
| LoteBatching.MarcarComoPago | backend/models/Lote.js:101-170 | An unknown lot or one not `PENDENTE_VALIDADORA` is refused with nothing changed. Otherwise the company keeps valorPago × pct / 100, and it and the distributed part sum to valorPago. The members are released with their shares and the lot becomes `PAGO_VALIDADORA` with both amounts. The lot counter is unchanged, so a lot reference that was allocated stays allocated |
| LoteBatching.SharesSum | backend/services/LoteService.js:123-136 | The shares paid to some released members add up to the distributable amount times the fraction of the lot weight they hold |
| LoteBatching.ShareAdd | backend/services/LoteService.js:125 | The shares of two weights add up to the share of their sum |
| LoteBatching.FilterLoteReleased | backend/services/LoteService.js:110-136 | Reading a lot's members after release gives the old members, each with its share |
| LoteBatching.DistributionConserves | backend/services/LoteService.js:123-139 | When the lot weight is its members' total (and non-zero), the payouts written add up to exactly the distributable amount |
| LoteBatching.ReleasedMembersSum | backend/services/LoteService.js:123-136 | Members whose weights make up the lot weight receive the whole distributable amount |
| LoteBatching.DefaultSplitExample | backend/services/LoteService.js:105-136 | A payment of 100 at the default 20 percent over weights 300 and 700 leaves 20 to the company and pays 24 and 56 |
| LoteService.Criar | backend/services/LoteService.js:14-79 | A missing or non-positive ceiling is refused with nothing changed, and no `VALIDADO` record is refused too. Otherwise this is the greedy batching of `LoteBatching.Create`, with the same guarantees. The new lot takes the next id |
| LoteService.MarcarComoPago | backend/services/LoteService.js:84-148 | Refusals, in order: a missing lot id, a missing or non-positive payment, an unknown lot, a lot not `PENDENTE_VALIDADORA`; each changes nothing. Otherwise the split and release of `LoteBatching.MarcarComoPago`, and the lot ends `PAGO_VALIDADORA`. The lot counter is unchanged, so a lot reference that was allocated stays allocated |
| LoteService.CriarEPagar | backend/services/LoteService.js:14-148 | A lot created and then paid: the payouts of its records add up to the distributed amount, and paying it again is refused as already processed |
| LoteService.PagarECriar | backend/services/LoteService.js:14-148 | After a settlement, a new batch can still be made: the next lot takes the next id, which differs from the settled lot's, and every lot reference stays allocated |
| PaymentService.StagesPartition | backend/services/PaymentService.js:25-36 | Each record is in exactly one stage, or in the legacy status that no stage shows |
| PaymentService.SeparadoPendentes | backend/services/PaymentService.js:27-29 | The pending stage holds the `VALIDADO` and `ENVIADO_VALIDADORA` records in order, their count and their total weight |
| PaymentService.SeparadoDisponiveis | backend/services/PaymentService.js:30-32 | The released stage holds the `LIBERADO_PAGAMENTO` records in order, their count and their total payout |
| PaymentService.SeparadoPagos | backend/services/PaymentService.js:33-35 | The paid stage holds the `PAGO` records in order, their count and their total payout |
| PaymentService.Separar | backend/services/PaymentService.js:25-36 | The loop builds each stage out of exactly the records of its statuses |
| PaymentService.Acompanhar | backend/services/PaymentService.js:12-58 | Each stage contains the user's records with its statuses, newest first. Pending totals are weights; released and paid totals are payouts, and they equal the status sums however the rows are ordered. Stage counts plus legacy records make up the whole |
| PaymentService.ListarDisponiveis | backend/services/PaymentService.js:63-72 | Exactly the user's `LIBERADO_PAGAMENTO` records, their number and the sum of their payouts |
| PaymentService.ObterHistorico | backend/services/PaymentService.js:157-166 | Exactly the user's `PAGO` records, their number and the sum of their payouts |
| PaymentService.GruposSomam | backend/services/PaymentService.js:83-99 | The users' group totals add up to the total of all records: no payout is lost or counted twice |
| PaymentService.AgrupadoAs | backend/services/PaymentService.js:83-97 | Each group holds exactly its depositor's records, with their total and the depositor's name and CNPJ. Groups open in the order of their first record |
| PaymentService.Agrupar | backend/services/PaymentService.js:83-97 | The grouping loop builds exactly that grouping |
| PaymentService.ListarTodosDisponiveis | backend/services/PaymentService.js:77-107 | Lists all `LIBERADO_PAGAMENTO` records newest first, with their count and total. There is one group per user with such a record: it holds that user's records and their total, and no user is listed twice. The group totals add up to the overall total |
| PaymentService.PaidWhereIdIn | backend/services/PaymentService.js:135-137 | The rows with the given ids become `PAGO` with dataPagamento now; the others are kept |
| PaymentService.PrimeiraRecusa | backend/services/PaymentService.js:121-132 | The first refused position, where a refusal is an id not found or not `LIBERADO_PAGAMENTO` at the time of its own lookup; every earlier id was accepted |
| PaymentService.AceitosEramLiberados | backend/services/PaymentService.js:124-132 | Each id accepted before the first refusal named a released row, and no id accepted earlier |
| PaymentService.RepetidoRecusado | backend/services/PaymentService.js:128-132 | An id listed twice is refused at its second occurrence at the latest: no double payment |
| PaymentService.JaPagoRecusado | backend/services/PaymentService.js:128-132 | An id already `PAGO` is refused: no double payment |
| PaymentService.PagarRegistro | backend/services/PaymentService.js:135-137 | One accepted id becomes `PAGO` with dataPagamento now |
| PaymentService.Processar | backend/services/PaymentService.js:112-152 | A missing or empty list is refused with nothing changed. Otherwise, on a refusal, the ids before it are already `PAGO` and the error is that refusal's; the processing is not atomic. When every id passes, all are paid, and the count and payout total are over the paid records |
| ColumnMapper.ColumnMapLower | backend/utils/columnMapper.js:9-37 | Each of the 17 database keys is lower case and is what its camelCase value lower-cases to |
| ColumnMapper.ColumnMapInjective | backend/utils/columnMapper.js:9-37 | Distinct database keys map to distinct camelCase keys |
| ColumnMapper.ReverseMapDomain | backend/utils/columnMapper.js:79-82 | The reverse mapping is keyed by exactly the camelCase values |
| ColumnMapper.ReverseMapInverse | backend/utils/columnMapper.js:79-82 | The reverse mapping undoes the forward one |
| ColumnMapper.RenameMeaning | backend/utils/columnMapper.js:50-51 | Renaming changes only letter case. A key is renamed into the mapping's values exactly when its lower case is a mapped key; any other key keeps its spelling |
| ColumnMapper.RenameBackIsLower | backend/utils/columnMapper.js:85 | Every key `mapCamelCaseToDb` writes is lower case |
| ColumnMapper.RenameRoundTrip | backend/utils/columnMapper.js:44-90 | On a lower-case key, renaming back undoes renaming forward |
| ColumnMapper.Put | backend/utils/columnMapper.js:52 | `mapped[k] = v` keeps keys distinct and adds `k`, appending a new key at the end |
| ColumnMapper.RenameAllKeys | backend/utils/columnMapper.js:49-53 | The renamed object's keys are the images of the original keys |
| ColumnMapper.RenameAllNoCollision | backend/utils/columnMapper.js:49-53 | Without collisions, each entry keeps its position and value under its new key |
| ColumnMapper.MapDbObjectToCamelCase | backend/utils/columnMapper.js:44-56 | A null input is returned unchanged; otherwise the keys are exactly the renamed keys, and distinct |
| ColumnMapper.MapCamelCaseToDb | backend/utils/columnMapper.js:73-90 | A null input is returned unchanged; otherwise every key is lower case, and distinct |
| ColumnMapper.RoundTrip | backend/utils/columnMapper.js:44-90 | An object whose keys are distinct and lower case comes back unchanged from the forward and then the backward mapping |
| ColumnMapper.RoundTripColumn | backend/utils/columnMapper.js:44-90 | For each mapped key k, `{k: v}` maps to `{camelCase(k): v}` and back to `{k: v}` |
| ColumnMapper.MapDbArrayToCamelCase | backend/utils/columnMapper.js:63-66 | A non-array input is returned unchanged; otherwise the length is kept and each element is mapped |
| Validadoras.OuNulo | backend/repositories/ValidadoraRepository.js:24-26 | `x \|\| null`: an absent or empty text is stored as null, any other is kept |
| Validadoras.AtivaOuPadrao | backend/repositories/ValidadoraRepository.js:27 | An absent flag stores true, a given one is kept |
| Validadoras.FindById | backend/repositories/ValidadoraRepository.js:70-81 | A company found has that id; none is found exactly when none has it |
| Validadoras.FindByCnpj | backend/repositories/ValidadoraRepository.js:86-97 | A company found has that CNPJ; none is found exactly when none has it |
| Validadoras.UpdatedWhereId | backend/repositories/ValidadoraRepository.js:102-133 | Only the row with that id is rewritten with the new fields |
| Validadoras.ToggledWhereId | backend/repositories/ValidadoraRepository.js:138-153 | Only the row with that id has its flag negated |
| Validadoras.DeletedWhereId | backend/repositories/ValidadoraRepository.js:158-169 | Exactly the rows with another id remain, each as often as before |
| Validadoras.ToggleTwice | backend/repositories/ValidadoraRepository.js:138-153 | Toggling the same row twice restores the table |
| Validadoras.ToggleFound | backend/repositories/ValidadoraRepository.js:138-153 | After a toggle, the id finds the flipped row; an unknown id changes nothing |
| Validadoras.UpdateFound | backend/repositories/ValidadoraRepository.js:102-133 | After an update, the id finds the rewritten row; an unknown id changes nothing |
| Validadoras.CreatePreservesCnpjs | backend/services/ValidadoraService.js:54-57 | Inserting a CNPJ that no row holds keeps CNPJs unique |
| Validadoras.UpdatePreservesCnpjs | backend/services/ValidadoraService.js:89-92 | Rewriting a row with a CNPJ held by no other row keeps CNPJs unique |
| Validadoras.TogglePreservesCnpjs | backend/repositories/ValidadoraRepository.js:138-153 | Toggling keeps CNPJs unique |
| Validadoras.DeletePreservesCnpjs | backend/repositories/ValidadoraRepository.js:158-169 | Deleting keeps CNPJs unique |
| Validadoras.GetStats | backend/repositories/ValidadoraRepository.js:174-188 | total is the row count; an empty table gives null sums, since SQL's SUM of no rows is null |
| Validadoras.StatsAddUp | backend/repositories/ValidadoraRepository.js:174-188 | The active and inactive counts add up to the total when the table is not empty |
| Validadoras.FindActive | backend/repositories/ValidadoraRepository.js:55-65 | Exactly the active companies |
| Validadoras.ValidadoraTable.constructor | backend/repositories/ValidadoraRepository.js:7 | An empty table |
| Validadoras.ValidadoraTable.Create | backend/repositories/ValidadoraRepository.js:11-35 | Appends the row under a fresh id, with the optional texts `\|\| null` and the flag defaulting to true |
| Validadoras.ValidadoraTable.Update | backend/repositories/ValidadoraRepository.js:102-133 | The table becomes `UpdatedWhereId`; the result is the rewritten row, or null for an unknown id |
| Validadoras.ValidadoraTable.ToggleAtiva | backend/repositories/ValidadoraRepository.js:138-153 | The table becomes `ToggledWhereId`; the result is the flipped row, or null for an unknown id |
| Validadoras.ValidadoraTable.Delete | backend/repositories/ValidadoraRepository.js:158-169 | The table becomes `DeletedWhereId`; the result is the removed row, or null for an unknown id |
| ValidadoraService.Criar | backend/services/ValidadoraService.js:45-69 | Refused without name, CNPJ or email, then if some company holds the CNPJ, each time inserting nothing. Otherwise an active company with those fields is appended, and CNPJs stay unique |
| ValidadoraService.Atualizar | backend/services/ValidadoraService.js:74-105 | Refused without name, CNPJ or email, then for an unknown id, then for a CNPJ held by a different company; keeping one's own CNPJ is allowed. Otherwise the row is rewritten (the flag defaults to true), and CNPJs stay unique |
| ValidadoraService.BuscarPorId | backend/services/ValidadoraService.js:32-40 | The company with that id, or "não encontrada" exactly when none has it |
| ValidadoraService.ToggleAtiva | backend/services/ValidadoraService.js:110-118 | Negates that company's flag only, or "não encontrada" for an unknown id with nothing changed |
| ValidadoraService.ToggleDuasVezes | backend/services/ValidadoraService.js:110-118 | Toggling twice leaves the registry as it was, and the two results differ only in the flag |
| ValidadoraService.Deletar | backend/services/ValidadoraService.js:123-131 | Removes that company, or "não encontrada" for an unknown id; CNPJs stay unique |
| ValidadoraService.Listar | backend/services/ValidadoraService.js:11-19 | Every company, and figures whose active and inactive counts add up to the total |
| ValidadoraService.ListarAtivas | backend/services/ValidadoraService.js:24-27 | The `findActive` list: exactly the active companies, as many as the table holds |

Small helpers that compute one step (`ColumnMapper.Rename`, `RenameBack`, `RenameAll`, `WasteService.Adicionar`, `PaymentService.Recusa`, `ResumoStatus`, `ValidadoraService.Presente`, `Completo` and the like) have no row of their own. The rows of the members that state their properties cover them.

## Left out

- Validadoras.AtivaOuPadrao: `ativa !== undefined ? ativa : true` lets an explicit `null` through, which the source stores as SQL NULL. The flag is an `Option<bool>` here, so a `null` is taken as absent and stored as true.

- HTTP routes, controllers and status-code mapping, authentication, and console logging are not modelled. The routes' input checks for lots are the ones `LoteService` performs, which the model covers.
- The database is modelled as sequences of rows. Connection handling, the SQL text and the mismatch between the `db.pool` that the code calls and the SQLite module that the connection file exports are left out.
- Uuid and SERIAL ids are modelled as a counter `nextId` that each table advances.
- The clock is a parameter `now`. Dates are integers, never ISO strings.
- The users table is a map parameter. `UserRepository.findById` and authentication are not part of this model.
- IEEE-754 rounding and `parseFloat`'s string coercion are not modelled. Weights and money are exact reals. Unparseable numeric text is modelled as an absent value.
- LoteBatching.MarcarComoPago: when a lot weighs 0, JavaScript writes NaN or Infinity shares for its records. The model writes the share `valorDistribuir × peso / pesoUtilizado` and takes it to be 0 for a zero weight, since real division by zero is undefined.
- LoteBatching.DistributionConserves: conservation is proved only for a non-zero lot weight equal to the members' total. A lot whose records changed after batching has no such guarantee, in the source or in the model.
- PaymentService.AgrupadoAs: groups are listed in order of first appearance of their user. JavaScript objects list integer-like keys first, in ascending order, so for ids such as '1'..'4' the source's order can differ. Real ids are uuids, for which the orders agree.
- PaymentService.ListarTodosDisponiveis: groups are listed in order of first appearance of their user. JavaScript objects list integer-like keys first, in ascending order, so for ids such as '1'..'4' the source's order can differ. Real ids are uuids, for which the orders agree.
- WasteService.Registrar: the failure of `markAsUsed` after the insert is a parameter `marcacaoFalha`, standing for an exception from the store. The insert's UNIQUE(token) failure is modelled, as `TokenJaRegistrado`; other store failures are not.
- There is no concurrency and no transaction. Operations run one at a time, and the model never makes a sequence atomic where the source does not.
- Lotes.FindTokensByLoteId: the real query joins users. It drops records whose depositor does not exist and adds the depositor's name and CNPJ; neither is modelled. The model returns the lot's records parsed and ordered.
- Validadoras.FindActive, ValidadoraService.Listar and ValidadoraService.ListarAtivas: the `ORDER BY nomeEmpresa` is not modelled. The lists keep table order.
- Validadoras.FindByCnpj and FindById: SQL returns an arbitrary matching row. The model takes the first in table order, which is the only one when the key is unique.
- `getStatsByUserId` in `WasteRecord.js`, and `getStats` in `Lote.js` and `LoteRepository.js`, are SQL `GROUP BY` or `SUM` aggregates. They are not modelled.
- Also not modelled, because each only passes through a query the model already has:
  - in `TokenRepository.js`: `findAll` and the debug `findRecent`;
  - in `LoteService.js`: `listar`, `buscarPorId` and `obterEstatisticas`;
  - in `PaymentService.js`: `obterHistoricoCompleto`;
  - in `WasteService.js`: `listarMeusRegistros` and `listarTodos`.
- `DashboardService.js`, the totem token generator (random codes), the mock data files and the whole front end are not part of this model. The 180 kg sample appears in `WasteService.CreditoSamples`.
- ColumnMapper: objects are lists of entries with string keys, in insertion order. JavaScript's integer-like keys, which are enumerated first, and non-string values are not modelled. The `key.toLowerCase()` here covers ASCII letters only.
- ColumnMapper.MapDbObjectToCamelCase: the lookup `columnMappings[lowerKey]` in JavaScript also finds properties inherited from `Object.prototype`. A key whose lower case is `constructor` is renamed to the text of the `Object` function, and one whose lower case is `__proto__` to `[object Object]`. The model treats these keys like any unmapped key, which keeps its spelling. No column has such a name.
- ColumnMapper.MapCamelCaseToDb: likewise `reverseMapping[key]` finds inherited properties. A key such as `toString`, `valueOf`, `hasOwnProperty` or `constructor` is renamed to the text of a built-in function, which is not lower case. The model lower-cases these keys like any other.
- ColumnMapper.RenameMeaning: holds for the model's lookups, which see only the 17 mapped keys. In JavaScript it fails for the inherited-property keys of the two lines above; for instance `{constructor: v}` does not round-trip.
- ColumnMapper.RenameBackIsLower: holds for the model's lookups, which see only the 17 mapped keys. In JavaScript it fails for the inherited-property keys of the two lines above; for instance `{constructor: v}` does not round-trip.
- ColumnMapper.RenameRoundTrip: holds for the model's lookups, which see only the 17 mapped keys. In JavaScript it fails for the inherited-property keys of the two lines above; for instance `{constructor: v}` does not round-trip.
- ColumnMapper.RoundTrip: holds for the model's lookups, which see only the 17 mapped keys. In JavaScript it fails for the inherited-property keys of the two lines above; for instance `{constructor: v}` does not round-trip.
- ValidadoraService.Atualizar: ids are naturals on both sides of the "another company" test. In the source, `id` is the route parameter, a string, and `!==` compares it with the id the database returns for the CNPJ's holder. The source holds no schema for the validadoras table. If that column is numeric, `!==` is always true, and a company resubmitting its own CNPJ is refused as if another company held it. The model assumes both sides have the same type, so keeping one's own CNPJ is allowed.
- `WasteRecords.RecordTable.UpdateMany`: an empty id list would make the SQL `IN ()` invalid. The model returns no result and changes nothing in that case.
