# Vehicle catalog: a Dafny model

This project models the core of a Spring Boot vehicle catalog, `gerenciar-veiculos`.

- **Records.** Vehicles (`Veiculo`) are stored with a soft-delete flag.
- **Service.** `VeiculoService` creates, finds, updates, soft-deletes, counts by brand and searches them.
- **Search.** The search takes price bounds in Brazilian reais. It converts them to the stored US-dollar prices with a quote from `CambioService`.
- **Quote.** `CambioService` asks a primary provider. On any failure it asks a fallback provider once. A successful answer stays in a single cache slot, `'latest'`.

The modules follow the source files:

| module | file | models |
|---|---|---|
| `Wrappers` | `wrappers.dfy` | `Option` and `Result` |
| `Decimals` | `decimals.dfy` | the subset of `java.math.BigDecimal` the core uses: numbers as scaled integers, `compareTo`, `divide(x, scale, HALF_UP)`, `new BigDecimal(String)` and `toString` |
| `Model` | `veiculo.dfy` | `Veiculo.java`: the row value `Veiculo`, and the mutable entity `VeiculoEntity` with its setters and its `@PrePersist`/`@PreUpdate` hooks |
| `Repository` | `veiculo_repository.dfy` | `VeiculoRepository.java` over an in-memory table, with the `@SQLDelete`/`@Where` soft-delete semantics of the entity |
| `Cambio` | `cambio_service.dfy` | `CambioService.java`: provider replies as inputs, the call trace as an output, and the cache slot as a field |
| `Service` | `veiculo_service.dfy` | `VeiculoService.java` |

## Modelling choices

- **The table.** It is a sequence of rows.
  - Ids are `IDENTITY`-generated, and a delete never removes a row. So the row at index `i` carries id `i + 1`.
  - `Valid()` of the repository states that invariant.
  - Every query sees only rows with `deleted == false`, following `@Where`.
- **`save`.**
  - If the object's id names a live row, `save` replaces that row. The update hook moves `updated` only if the object differs from the stored row, as dirty checking does.
  - Otherwise `save` inserts under the next id. The persist hook sets `created` and `updated` to the same instant.
  - Either way, the passed object gets the hooks' timestamps and the generated id, and is handed back.
  - An object whose id names no live row, a soft-deleted one included, is inserted under a fresh id, because `@Where` hides the old row. This is the behaviour of Hibernate before 6.6. From 6.6 on, merging a detached object with a generated id and no matching row throws instead. The repository's Hibernate version is not part of this model.
- **Null.** A nullable column is an `Option`.
  - `existsByPlacaAndDeletedFalse(null)` matches rows whose plate is null, as Spring Data derives `IS NULL`.
  - In `getVeiculosCountByMarca`, a null brand makes `groupingBy` throw. This is the error `NullBrand`.
  - A clause comparing against a null column never holds, as in SQL.
- **Search.**
  - The Criteria API `Specification` is a list of typed clauses, combined by conjunction. The empty list is `Specification.where(null)`.
  - Each BRL bound becomes `bound.divide(cotacao, 2, HALF_UP)`. A tie rounds away from zero, and the sign is handled explicitly. A zero quote is the `ArithmeticException` `DivisionByZero`.
- **Caching enabled.** The `'latest'` slot exists only when caching is switched on by an `@EnableCaching` configuration, which none of the modelled files contains. The model assumes it is on. Without it, `@Cacheable` at `CambioService.java:22` does nothing, and every search calls the primary.
- **Provider replies.** A reply is `TransportError` or a JSON `Body`, possibly empty. The model returns the list of providers each lookup called.
- **Invariant on plates.** `UniquePlates` says no two live rows share a plate. `createVeiculo`, `updateVeiculo` and `deleteVeiculo` each preserve it. Create preserves it through its duplicate check; update preserves it because it never touches the plate.

### Behaviour of the code worth knowing

- **Quote fetched on every search.** `searchVeiculos` fetches the quote on every call, even when no price bound is given. A failed lookup therefore fails every search.
- **No check of amounts.** Negative amounts are not rejected. Negative bounds are divided like any other.
- **No expiry.** The cache has no expiry. The "10 minutes" in the comment at `CambioService.java:22` is not configured by any of the modelled code. An entry stays until the process ends.
- **Fallback result cached.** A quote obtained from the fallback is also cached, like one from the primary.
- **No timeout.** Neither provider call sets a response timeout. `WebClientConfig.java:11-14` and the ad hoc fallback client configure none, and `block()` is called without a duration. A provider that accepts the connection and never answers blocks `getCotacaoDolarBRL` for good, and with it every `searchVeiculos`; the fallback is never reached. A bounded wait per attempt, treated as a transport failure, would be the safer design.
- **Create can overwrite a record.** `save` merges any object with a non-null id. So when `createVeiculo` gets a body whose id names a live row, and whose plate is not live anywhere, the merge branch of `SaveRows` overwrites that row completely. That includes `created`, which takes whatever the body carries, possibly null. "`created` never changes after insert" therefore holds for `updateVeiculo` only.
- **Rounding bound.** Converting a bound to dollars and back does not always come within one cent. The guarantee the arithmetic gives is `IsHalfUpQuotient`: `|q - a/b|` is at most half a unit in the last place, in dollars. Multiplied back by the quote, that can exceed one cent whenever the quote is above 2.

## Model

| member | source | states |
|---|---|---|
| Decimals.DivHalfUp | src/main/java/com/tinnova/veiculos/service/VeiculoService.java:80 | the integer quotient is within half of the divisor of the exact one, and a tie lies away from zero (HALF_UP for either sign) |
| Decimals.Divide | src/main/java/com/tinnova/veiculos/service/VeiculoService.java:79-86 | `a.divide(b, scale, HALF_UP)`: there is no result exactly when the divisor is zero; otherwise the result has the requested scale and is the half-up nearest quotient |
| Decimals.ParseDecimal | src/main/java/com/tinnova/veiculos/service/CambioService.java:32 | an accepted numeral is non-empty and consists of digits and points after at most one leading sign |
| Decimals.ParsePointedNumeral | src/main/java/com/tinnova/veiculos/service/CambioService.java:32 | an optional sign, digits w, a point and digits f (either side possibly empty, not both) read as the value of w + f, negated for '-', at scale the length of f |
| Decimals.ParseWholeNumeral | src/main/java/com/tinnova/veiculos/service/CambioService.java:32 | an optional sign and a non-empty digit string read as its value, negated for '-', at scale 0 |
| Decimals.LessEq | src/main/java/com/tinnova/veiculos/service/VeiculoService.java:81-85 | defines the comparison of the price clauses: by value whatever the two scales, as `compareTo` and SQL compare |
| Decimals.Format | src/main/java/com/tinnova/veiculos/service/CambioService.java:48 | defines the plain `toString`: an optional '-', then the digits of the magnitude of `unscaled` with a point before the last `scale` of them, zero-padded so that a digit precedes the point |
| Decimals.ParseFormat | src/main/java/com/tinnova/veiculos/service/CambioService.java:48 | the string constructor reads back the plain `toString` of every decimal as the same value and scale |
| Model.NewVeiculo | src/main/java/com/tinnova/veiculos/model/Veiculo.java:18-31 | a new record is not deleted and not sold, and has no id and no timestamps |
| Model.VeiculoEntity.constructor | src/main/java/com/tinnova/veiculos/model/Veiculo.java:18-31 | `new Veiculo()` writes the row `NewVeiculo()`, so `deleted` starts false |
| Model.VeiculoEntity.Load | src/main/java/com/tinnova/veiculos/service/VeiculoService.java:49 | the entity materialised for a stored row writes exactly that row |
| Model.VeiculoEntity.SetMarca | src/main/java/com/tinnova/veiculos/service/VeiculoService.java:51 | only the brand column changes |
| Model.VeiculoEntity.SetVendido | src/main/java/com/tinnova/veiculos/service/VeiculoService.java:52 | only the sold flag changes |
| Model.VeiculoEntity.AssignId | src/main/java/com/tinnova/veiculos/model/Veiculo.java:18-20 | the generated id is written into the object and nothing else changes |
| Model.VeiculoEntity.OnCreate | src/main/java/com/tinnova/veiculos/model/Veiculo.java:33-37 | `@PrePersist` sets both timestamps to the insert instant and nothing else |
| Model.VeiculoEntity.OnUpdate | src/main/java/com/tinnova/veiculos/model/Veiculo.java:39-42 | `@PreUpdate` moves only `updated`; `created` is kept |
| Repository.Holds | src/main/java/com/tinnova/veiculos/service/VeiculoService.java:75-85 | defines one clause in SQL terms: equality on brand, year or colour, or a bound on the price, and a NULL column never matches |
| Repository.SatisfiesAll | src/main/java/com/tinnova/veiculos/service/VeiculoService.java:70-85 | defines `Specification.where(null).and(...)` as the conjunction of the clauses; the empty one holds of every row |
| Repository.SatisfiesAllAnd | src/main/java/com/tinnova/veiculos/service/VeiculoService.java:75-85 | `spec.and(c)` holds of a record exactly when `spec` and `c` both hold |
| Repository.FindAll | src/main/java/com/tinnova/veiculos/model/Veiculo.java:15 | `findAll(spec)` returns exactly the live rows that satisfy every clause, and never more rows than the table holds |
| Repository.FindAllAppend | src/main/java/com/tinnova/veiculos/repository/VeiculoRepository.java:11 | in the model's id order, a row appended by an insert appears after all earlier results, and only if it is live and matches |
| Repository.ExistsByPlacaAndDeletedFalse | src/main/java/com/tinnova/veiculos/repository/VeiculoRepository.java:12 | true exactly when some live row has that plate (a null plate matches null plates) |
| Repository.FindByIdAndDeletedFalse | src/main/java/com/tinnova/veiculos/repository/VeiculoRepository.java:13 | a record is returned exactly when a live row has that id, and it is that row |
| Repository.SaveRows | src/main/java/com/tinnova/veiculos/repository/VeiculoRepository.java:11 | merge of a live id: only that row changes, it receives the passed record, and `updated` moves only if something changed. Otherwise an insert: one row is appended under a fresh id, `created == updated == now`, and the other columns are as passed. Ids stay `index + 1` |
| Repository.SoftDelete | src/main/java/com/tinnova/veiculos/model/Veiculo.java:14 | a live row gets `deleted = true` and keeps every other column; other rows and non-live ids are untouched; the id is not live afterwards |
| Repository.SoftDeleteHides | src/main/java/com/tinnova/veiculos/model/Veiculo.java:14-15 | after a soft delete the id is no longer found by id, and no query returns a row with it |
| Repository.SaveThenFind | src/main/java/com/tinnova/veiculos/repository/VeiculoRepository.java:11-13 | a saved non-deleted record is found by the id save returns, and its plate then counts as taken |
| Repository.SavePreservesUniquePlates | src/main/java/com/tinnova/veiculos/service/VeiculoService.java:28-33 | saving a plate that is not live anywhere, or re-saving a live row with its own plate, keeps the live plates distinct |
| Repository.SoftDeletePreservesUniquePlates | src/main/java/com/tinnova/veiculos/model/Veiculo.java:14 | a soft delete keeps the live plates distinct |
| Repository.VeiculoRepository.constructor | src/main/java/com/tinnova/veiculos/repository/VeiculoRepository.java:11 | the store starts empty and well formed |
| Repository.VeiculoRepository.Save | src/main/java/com/tinnova/veiculos/repository/VeiculoRepository.java:11 | the new table and the passed object's new row are those `SaveRows` gives; the object handed back is the one passed |
| Repository.VeiculoRepository.DeleteById | src/main/java/com/tinnova/veiculos/model/Veiculo.java:14 | the new table is `SoftDelete` of the old one |
| Cambio.ToText | src/main/java/com/tinnova/veiculos/service/CambioService.java:48 | defines the `.toString()` of a deserialised JSON value: text as is, a number as its numeral, a boolean as true/false, null as the NullPointerException (None) |
| Cambio.IsMapArray | src/main/java/com/tinnova/veiculos/service/CambioService.java:26-29 | defines which bodies `bodyToMono(Map[].class)` decodes: a JSON array whose elements are all objects or null |
| Cambio.PrimaryQuote | src/main/java/com/tinnova/veiculos/service/CambioService.java:26-32 | a quote exists exactly when the reply is a non-empty array of maps whose first element has a string `bid` that reads as a decimal, and it is that decimal |
| Cambio.FallbackQuote | src/main/java/com/tinnova/veiculos/service/CambioService.java:41-49 | a quote exists exactly when the body is a map with a map `rates` holding a non-null `BRL` whose `toString` reads as a decimal, and it is that decimal; a transport error is `Unreachable`, and an empty or non-map body is `NotAMap` |
| Cambio.Fetch | src/main/java/com/tinnova/veiculos/service/CambioService.java:23-38 | the primary is called once, first; the fallback is called once, exactly when the primary path failed; the result is the primary's quote or else the fallback's result, failure included |
| Cambio.Lookup | src/main/java/com/tinnova/veiculos/service/CambioService.java:22-38 | a filled slot answers with no call; an empty slot runs `Fetch`; a returned quote fills the slot, whichever provider gave it; a failure leaves the slot as it was |
| Cambio.LookupStable | src/main/java/com/tinnova/veiculos/service/CambioService.java:22 | after one successful lookup, every later lookup returns the same quote with no call, whatever the providers would answer |
| Cambio.LookupCallsBounded | src/main/java/com/tinnova/veiculos/service/CambioService.java:23-38 | a lookup makes at most two calls; a miss calls the primary first, and any further call is the fallback |
| Cambio.PrimaryBidSample | src/main/java/com/tinnova/veiculos/service/CambioService.java:31-32 | the reply `[{"bid": "5.25"}]` gives 5.25 at scale 2 |
| Cambio.PrimaryFailuresUseFallback | src/main/java/com/tinnova/veiculos/service/CambioService.java:24-37 | transport error, empty body, empty array, null element, missing `bid`, non-string `bid` and non-numeric text each leave the result to the fallback |
| Cambio.FallbackReadsBrl | src/main/java/com/tinnova/veiculos/service/CambioService.java:47-48 | from any body whose `rates` is a map holding `BRL` = x, whatever other keys either level has, the result is the decimal that `x.toString()` spells, `NoBrlRate` for null and `NotNumeric` otherwise |
| Cambio.FallbackAcceptsNumberOrText | src/main/java/com/tinnova/veiculos/service/CambioService.java:48 | a numeric `BRL` and the same numeral as text both give that rate |
| Cambio.FallbackSample | src/main/java/com/tinnova/veiculos/service/CambioService.java:23-49 | with the primary down and the fallback answering "5.50", the result is 5.50 after calls to the primary and then the fallback |
| Cambio.CambioService.constructor | src/main/java/com/tinnova/veiculos/service/CambioService.java:18-20 | the cache slot starts empty |
| Cambio.CambioService.GetCotacaoDolarBRL | src/main/java/com/tinnova/veiculos/service/CambioService.java:22-38 | the result, the calls made and the new slot are those of `Lookup` on the old slot |
| Service.UsdBound | src/main/java/com/tinnova/veiculos/service/VeiculoService.java:79-86 | a null bound gives no clause; a bound over a zero quote is `DivisionByZero`; otherwise the dollar bound has scale 2 and is the half-up quotient |
| Service.AndIf | src/main/java/com/tinnova/veiculos/service/VeiculoService.java:75-85 | defines one guarded `spec = spec.and(c)`: the clause is appended when present, and the specification is kept otherwise |
| Service.SpecFor | src/main/java/com/tinnova/veiculos/service/VeiculoService.java:70-86 | composing fails exactly when the quote is zero and a price bound is given; otherwise there is one clause per non-null parameter |
| Service.SpecForMeaning | src/main/java/com/tinnova/veiculos/service/VeiculoService.java:70-88 | the composed specification holds of a record exactly when every non-null parameter's condition holds, with both bounds converted at the same quote |
| Service.SearchResult | src/main/java/com/tinnova/veiculos/service/VeiculoService.java:69-89 | a failed lookup fails every search; a zero quote fails exactly the searches with a price bound, with `DivisionByZero`; otherwise the result holds exactly the live records the filter asks for |
| Service.SearchWithoutFilters | src/main/java/com/tinnova/veiculos/service/VeiculoService.java:70-88 | with every parameter null the search returns every live record, for any quote, zero included |
| Service.SearchSample | src/main/java/com/tinnova/veiculos/service/VeiculoService.java:79-86 | "Toyota", 2022, BRL 100000 to 150000 at quote 5 compose brand, year, `>= 20000.00` and `<= 30000.00` |
| Service.CountByMarca | src/main/java/com/tinnova/veiculos/service/VeiculoService.java:63-66 | fails exactly when some record has a null brand; otherwise the keys are exactly the brands that occur, and each maps to its number of records |
| Service.CountsSumToTotal | src/main/java/com/tinnova/veiculos/service/VeiculoService.java:63-66 | the counts add up to the number of records counted |
| Service.BrandCountIsBrandSearch | src/main/java/com/tinnova/veiculos/service/VeiculoService.java:63-66 | a brand's count among live records equals the size of a search on that brand |
| Service.VeiculoService.constructor | src/main/java/com/tinnova/veiculos/service/VeiculoService.java:21-25 | the service is wired to the given repository and exchange-rate service |
| Service.VeiculoService.CreateVeiculo | src/main/java/com/tinnova/veiculos/service/VeiculoService.java:28-33 | a duplicate live plate gives `ValidationException`, and neither the table nor the object changes; otherwise the outcome is `SaveRows`; the live plates stay distinct |
| Service.VeiculoService.FindAllVeiculos | src/main/java/com/tinnova/veiculos/service/VeiculoService.java:35-37 | exactly the live records |
| Service.VeiculoService.FindVeiculoById | src/main/java/com/tinnova/veiculos/service/VeiculoService.java:43-46 | success exactly when the id is live, giving that row; otherwise `ResourceNotFoundException` for that id |
| Service.VeiculoService.UpdateVeiculo | src/main/java/com/tinnova/veiculos/service/VeiculoService.java:48-54 | a non-live id is not found and nothing changes; otherwise only that row changes, it takes `marca` and `vendido` from the details and keeps every other column, `updated` moves exactly when one of the two changed, and the live plates stay distinct |
| Service.VeiculoService.DeleteVeiculo | src/main/java/com/tinnova/veiculos/service/VeiculoService.java:57-60 | a non-live id is not found and nothing changes; otherwise the table becomes `SoftDelete` of that id; the live plates stay distinct |
| Service.VeiculoService.GetVeiculosCountByMarca | src/main/java/com/tinnova/veiculos/service/VeiculoService.java:63-66 | the result is `CountByMarca` of the live records |
| Service.VeiculoService.SearchVeiculos | src/main/java/com/tinnova/veiculos/service/VeiculoService.java:69-89 | one lookup through the cache, first, whatever the filter; the slot and the calls are `Lookup`'s, and the result is `SearchResult` at that lookup's outcome |

## Left out

- `findVeiculosWithPaginationAndSorting` (`VeiculoService.java:39-41`): `Page` and `Pageable` belong to Spring Data. It delegates to the store, so it is not modelled.
- HTTP routing, the exception handler's status mapping, and authentication with JWT are not part of this model. Neither is the browser front end.
- Provider calls that never answer: every call returns a `Reply`. The source sets no timeout, so a stalled provider hangs the lookup and every search; the model does not capture that hang.
- Network I/O is not modelled. That covers `WebClient`, `Mono.block()`, the base URLs and the ad hoc fallback client. Each provider's reply is an input; the calls made are an output.
- The clock: `LocalDateTime.now()` becomes a `now` parameter. `onCreate` reads the clock twice, so the two timestamps may differ by a few nanoseconds; the model uses one instant.
- Concurrent requests: `UniquePlates` is preserved only when calls run one after another. `createVeiculo` checks and then saves, the code takes no lock, and `Veiculo` declares no unique constraint on `placa`. Two concurrent creates with the same plate can both pass `existsByPlacaAndDeletedFalse`.
- Result order: `findAll()` and `findAll(spec)` run a query with no ORDER BY, so the source leaves the order unspecified. The model returns rows in id order (`FindAllAppend`). The membership contracts hold for any order.
- The price column's scale: `precoDolar` has no `@Column(scale = ...)`. A generated schema would round stored prices to the column's scale, and the price clauses would then compare against the rounded value. `SaveRows` stores the price exactly as passed, and the column's scale is not modelled.
- Cache concurrency and eviction are not modelled. The code has no expiry to model.
- Entity identity:
  - A merge of a detached object returns a managed copy, so the object the caller passed is not updated. The model applies the hooks to the passed object on both paths.
  - `findVeiculoById` returns the row value; `updateVeiculo` loads a fresh entity from it.
  - The Lombok getters and setters that the core does not call are not modelled, nor `equals` and `hashCode`.
- Transactions and flush timing are not modelled. Each operation changes the table when it returns.
- Integer widths: `Long` ids, `Integer` years and `Long` counts are unbounded integers. No overflow is reachable at the sizes a catalog holds.
- String equality in the search follows the database collation in the source. The model uses exact equality.
- Decimals.ParseDecimal: accepts only plain numerals of ASCII digits. `new BigDecimal(String)` also accepts exponent notation (`"5.25E+1"`) and any character `Character.isDigit` accepts, such as non-ASCII decimal digits; the model reads both as not numeric.
- Decimals.Format: produces only the plain notation. `toString` switches to exponent notation for a negative scale or a very small value.
- Cambio.ToText: a JSON number carries the decimal it spells. Jackson's `Double` rendering (`5.5` for `5.50`, exponents for large values) is not modelled. Lists and maps print as fixed placeholder text that is never numeric.
