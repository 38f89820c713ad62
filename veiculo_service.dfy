/**
 * VeiculoService: catalog operations over the repository, and the search whose price bounds,
 * given in BRL, are converted to the stored USD with the quote that CambioService supplies.
 */
module Service {
  import opened Wrappers
  import opened Decimals
  import opened Model
  import opened Repository
  import opened Cambio

  /** What the service methods throw. */
  datatype ServiceError =
    | ValidationException(placa: Option<string>)   // duplicate live plate
    | ResourceNotFoundException(id: int)         // no live vehicle with that id
    | RateLookupFailed(cause: RateError)         // the fallback quote threw
    | DivisionByZero                             // BigDecimal.divide by a zero quote
    | NullBrand                                  // groupingBy met a null marca

  /** Fractional digits of a converted price bound. */
  const PriceScale: nat := 2

  /** The five optional parameters of searchVeiculos; None stands for null. */
  datatype SearchFilter = SearchFilter(
    marca: Option<string>,
    ano: Option<int>,
    cor: Option<string>,
    minPrecoBRL: Option<Decimal>,
    maxPrecoBRL: Option<Decimal>)

  /** How many of the filter's parameters are non-null. */
  function FilterCount(f: SearchFilter): nat
  {
    (if f.marca.Some? then 1 else 0) + (if f.ano.Some? then 1 else 0) + (if f.cor.Some? then 1 else 0)
    + (if f.minPrecoBRL.Some? then 1 else 0) + (if f.maxPrecoBRL.Some? then 1 else 0)
  }

  /** A BRL bound in USD: amount.divide(cotacao, 2, HALF_UP), nothing for a null bound. */
  function UsdBound(amount: Option<Decimal>, cotacao: Decimal): (r: Result<Option<Decimal>, ServiceError>)
    ensures r.Failure? <==> amount.Some? && IsZero(cotacao)
    ensures r.Failure? ==> r.error == DivisionByZero
    ensures r.Success? ==> (r.value.Some? <==> amount.Some?)
    ensures r.Success? && amount.Some? ==>
      r.value.value.scale == PriceScale && IsHalfUpQuotient(r.value.value, amount.value, cotacao)
  {
    match amount
    case None => Success(None)
    case Some(a) =>
      match Divide(a, cotacao, PriceScale)
      case None => Failure(DivisionByZero)
      case Some(b) => Success(Some(b))
  }

  /** spec.and(c) for a present clause, spec for an absent one. */
  function AndIf(spec: seq<Clause>, c: Option<Clause>): seq<Clause>
  {
    if c.Some? then spec + [c.value] else spec
  }

  function MarcaClause(f: SearchFilter): Option<Clause>
  {
    if f.marca.Some? then Some(MarcaEquals(f.marca.value)) else None
  }

  function AnoClause(f: SearchFilter): Option<Clause>
  {
    if f.ano.Some? then Some(AnoEquals(f.ano.value)) else None
  }

  function CorClause(f: SearchFilter): Option<Clause>
  {
    if f.cor.Some? then Some(CorEquals(f.cor.value)) else None
  }

  function MinClause(lo: Option<Decimal>): Option<Clause>
  {
    if lo.Some? then Some(PrecoAtLeast(lo.value)) else None
  }

  function MaxClause(hi: Option<Decimal>): Option<Clause>
  {
    if hi.Some? then Some(PrecoAtMost(hi.value)) else None
  }

  /** The Specification searchVeiculos composes from the filter at quote cotacao, clause by clause. */
  function SpecFor(f: SearchFilter, cotacao: Decimal): (r: Result<seq<Clause>, ServiceError>)
    ensures r.Failure? <==> IsZero(cotacao) && (f.minPrecoBRL.Some? || f.maxPrecoBRL.Some?)
    ensures r.Failure? ==> r.error == DivisionByZero
    ensures r.Success? ==> |r.value| == FilterCount(f)
  {
    var spec := AndIf(AndIf(AndIf([], MarcaClause(f)), AnoClause(f)), CorClause(f));
    match UsdBound(f.minPrecoBRL, cotacao)
    case Failure(e) => Failure(e)
    case Success(lo) =>
      var spec := AndIf(spec, MinClause(lo));
      match UsdBound(f.maxPrecoBRL, cotacao)
      case Failure(e) => Failure(e)
      case Success(hi) => Success(AndIf(spec, MaxClause(hi)))
  }

  /**
   * What a search asks of a record, written field by field: each non-null parameter is one
   * condition, and both price bounds are converted with the same quote.
   */
  predicate Wanted(f: SearchFilter, cotacao: Decimal, v: Veiculo)
  {
    && (f.marca.Some? ==> v.marca == f.marca)
    && (f.ano.Some? ==> v.ano == f.ano)
    && (f.cor.Some? ==> v.cor == f.cor)
    && (f.minPrecoBRL.Some? ==>
          var lo := Divide(f.minPrecoBRL.value, cotacao, PriceScale);
          lo.Some? && v.precoDolar.Some? && LessEq(lo.value, v.precoDolar.value))
    && (f.maxPrecoBRL.Some? ==>
          var hi := Divide(f.maxPrecoBRL.value, cotacao, PriceScale);
          hi.Some? && v.precoDolar.Some? && LessEq(v.precoDolar.value, hi.value))
  }

  /** The composed Specification holds of exactly the records the filter asks for. */
  lemma SpecForMeaning(f: SearchFilter, cotacao: Decimal, v: Veiculo)
    requires SpecFor(f, cotacao).Success?
    ensures SatisfiesAll(SpecFor(f, cotacao).value, v) <==> Wanted(f, cotacao, v)
  {
    var s1 := AndIf([], MarcaClause(f));
    var s2 := AndIf(s1, AnoClause(f));
    var s3 := AndIf(s2, CorClause(f));
    var lo := UsdBound(f.minPrecoBRL, cotacao).value;
    var hi := UsdBound(f.maxPrecoBRL, cotacao).value;
    var s4 := AndIf(s3, MinClause(lo));
    var s5 := AndIf(s4, MaxClause(hi));
    assert SpecFor(f, cotacao).value == s5;
    if f.marca.Some? { SatisfiesAllAnd([], MarcaEquals(f.marca.value), v); }
    if f.ano.Some? { SatisfiesAllAnd(s1, AnoEquals(f.ano.value), v); }
    if f.cor.Some? { SatisfiesAllAnd(s2, CorEquals(f.cor.value), v); }
    if lo.Some? { SatisfiesAllAnd(s3, PrecoAtLeast(lo.value), v); }
    if hi.Some? { SatisfiesAllAnd(s4, PrecoAtMost(hi.value), v); }
  }

  /**
   * The outcome of searchVeiculos once the quote lookup has produced rate: a failed lookup
   * fails every search, a zero quote fails only a search with a price bound, and otherwise
   * the result is findAll of the composed Specification.
   */
  function SearchResult(rows: seq<Veiculo>, f: SearchFilter, rate: Result<Decimal, RateError>)
    : (r: Result<seq<Veiculo>, ServiceError>)
    ensures rate.Failure? ==> r == Failure(RateLookupFailed(rate.error))
    ensures rate.Success? ==>
      (r.Failure? <==> IsZero(rate.value) && (f.minPrecoBRL.Some? || f.maxPrecoBRL.Some?))
    ensures rate.Success? && r.Failure? ==> r.error == DivisionByZero
    ensures r.Success? ==>
      forall v :: v in r.value <==> v in rows && !v.deleted && Wanted(f, rate.value, v)
  {
    match rate
    case Failure(e) => Failure(RateLookupFailed(e))
    case Success(cotacao) =>
      match SpecFor(f, cotacao)
      case Failure(e) => Failure(e)
      case Success(spec) =>
        assert forall v :: SatisfiesAll(spec, v) <==> Wanted(f, cotacao, v) by {
          forall v ensures SatisfiesAll(spec, v) <==> Wanted(f, cotacao, v) {
            SpecForMeaning(f, cotacao, v);
          }
        }
        Success(FindAll(rows, spec))
  }

  /** With every parameter null the search returns every live record, whatever the quote. */
  lemma SearchWithoutFilters(rows: seq<Veiculo>, cotacao: Decimal)
    ensures SearchResult(rows, SearchFilter(None, None, None, None, None), Success(cotacao))
         == Success(FindAll(rows, []))
  {
    assert SpecFor(SearchFilter(None, None, None, None, None), cotacao) == Success([]);
  }

  /**
   * Brand "Toyota", year 2022 and BRL 100000 to 150000 at a quote of 5 compose
   * marca = 'Toyota' AND ano = 2022 AND precoDolar >= 20000.00 AND precoDolar <= 30000.00.
   */
  lemma SearchSample()
    ensures SpecFor(SearchFilter(Some("Toyota"), Some(2022), None, Some(Decimal(100000, 0)), Some(Decimal(150000, 0))),
                    Decimal(5, 0))
         == Success([MarcaEquals("Toyota"), AnoEquals(2022),
                     PrecoAtLeast(Decimal(2000000, 2)), PrecoAtMost(Decimal(3000000, 2))])
  {
    assert Pow10(0) == 1 && Pow10(2) == 100 by {
      assert Pow10(1) == 10;
    }
    assert HalfUpNat(10000000, 5) == 2000000;
    assert HalfUpNat(15000000, 5) == 3000000;
    assert Divide(Decimal(100000, 0), Decimal(5, 0), 2) == Some(Decimal(2000000, 2));
    assert Divide(Decimal(150000, 0), Decimal(5, 0), 2) == Some(Decimal(3000000, 2));
    var f := SearchFilter(Some("Toyota"), Some(2022), None, Some(Decimal(100000, 0)), Some(Decimal(150000, 0)));
    var c := Decimal(5, 0);
    assert UsdBound(f.minPrecoBRL, c) == Success(Some(Decimal(2000000, 2)));
    assert UsdBound(f.maxPrecoBRL, c) == Success(Some(Decimal(3000000, 2)));
    assert AndIf(AndIf(AndIf([], MarcaClause(f)), AnoClause(f)), CorClause(f)) == [MarcaEquals("Toyota"), AnoEquals(2022)];
    assert [MarcaEquals("Toyota"), AnoEquals(2022)] + [PrecoAtLeast(Decimal(2000000, 2))] + [PrecoAtMost(Decimal(3000000, 2))]
        == [MarcaEquals("Toyota"), AnoEquals(2022), PrecoAtLeast(Decimal(2000000, 2)), PrecoAtMost(Decimal(3000000, 2))];
  }

  /** How many of the records have brand b. */
  function BrandCount(live: seq<Veiculo>, b: string): nat
  {
    if live == [] then 0 else (if live[0].marca == Some(b) then 1 else 0) + BrandCount(live[1..], b)
  }

  /**
   * getVeiculosCountByMarca's groupingBy(getMarca, counting()): each brand maps to its number
   * of records, only brands that occur are keys, and a null brand throws.
   */
  function CountByMarca(live: seq<Veiculo>): (r: Result<map<string, nat>, ServiceError>)
    ensures r.Failure? <==> exists i :: 0 <= i < |live| && live[i].marca.None?
    ensures r.Failure? ==> r.error == NullBrand
    ensures r.Success? ==> forall b :: b in r.value <==> BrandCount(live, b) > 0
    ensures r.Success? ==> forall b :: b in r.value ==> r.value[b] == BrandCount(live, b)
  {
    if live == [] then Success(map[])
    else
      var rest := CountByMarca(live[1..]);
      assert rest.Failure? <==> exists i :: 1 <= i < |live| && live[i].marca.None? by {
        if rest.Failure? {
          var j :| 0 <= j < |live[1..]| && live[1..][j].marca.None?;
          assert live[j + 1] == live[1..][j];
        }
        if exists i :: 1 <= i < |live| && live[i].marca.None? {
          var i :| 1 <= i < |live| && live[i].marca.None?;
          assert live[1..][i - 1] == live[i];
        }
      }
      match live[0].marca
      case None => Failure(NullBrand)
      case Some(b) =>
        match rest
        case Failure(e) => Failure(e)
        case Success(m) => Success(m[b := (if b in m then m[b] else 0) + 1])
  }

  /** The sum of a map's values. */
  ghost function SumValues(m: map<string, nat>): nat
    decreases |m|
  {
    if m == map[] then 0
    else
      var k :| k in m;
      assert |m - {k}| < |m| by { assert (m - {k}).Keys == m.Keys - {k}; }
      m[k] + SumValues(m - {k})
  }

  /** Any key can be taken out first. */
  lemma {:induction false} SumValuesRemove(m: map<string, nat>, k: string)
    requires k in m
    ensures SumValues(m) == m[k] + SumValues(m - {k})
    decreases |m|
  {
    var k' :| k' in m && SumValues(m) == m[k'] + SumValues(m - {k'});
    if k' != k {
      assert |m - {k'}| < |m| by { assert (m - {k'}).Keys == m.Keys - {k'}; }
      assert |m - {k}| < |m| by { assert (m - {k}).Keys == m.Keys - {k}; }
      SumValuesRemove(m - {k'}, k);
      SumValuesRemove(m - {k}, k');
      assert m - {k'} - {k} == m - {k} - {k'};
    }
  }

  /** The counts add up to the number of records counted. */
  lemma {:induction false} CountsSumToTotal(live: seq<Veiculo>)
    requires CountByMarca(live).Success?
    ensures SumValues(CountByMarca(live).value) == |live|
  {
    if live != [] {
      var m := CountByMarca(live[1..]).value;
      CountsSumToTotal(live[1..]);
      var b := live[0].marca.value;
      var m' := m[b := (if b in m then m[b] else 0) + 1];
      assert CountByMarca(live).value == m';
      SumValuesRemove(m', b);
      assert m' - {b} == m - {b};
      if b in m {
        SumValuesRemove(m, b);
      } else {
        assert m - {b} == m;
      }
    }
  }

  /** A brand's count is the size of a search on that brand. */
  lemma {:induction false} BrandCountIsBrandSearch(rows: seq<Veiculo>, b: string)
    ensures BrandCount(FindAll(rows, []), b) == |FindAll(rows, [MarcaEquals(b)])|
  {
    if rows != [] {
      BrandCountIsBrandSearch(rows[1..], b);
      var v := rows[0];
      assert SatisfiesAll([], v);
      SatisfiesAllAnd([], MarcaEquals(b), v);
      assert SatisfiesAll([MarcaEquals(b)], v) <==> v.marca == Some(b);
      var head := if !v.deleted then [v] else [];
      assert FindAll(rows, []) == head + FindAll(rows[1..], []);
      BrandCountAppend(head, FindAll(rows[1..], []), b);
    }
  }

  /** Counting over a concatenation adds the counts. */
  lemma {:induction false} BrandCountAppend(a: seq<Veiculo>, c: seq<Veiculo>, b: string)
    ensures BrandCount(a + c, b) == BrandCount(a, b) + BrandCount(c, b)
  {
    if a != [] {
      assert (a + c)[0] == a[0];
      assert (a + c)[1..] == a[1..] + c;
      BrandCountAppend(a[1..], c, b);
    } else {
      assert a + c == c;
    }
  }

  /** The service bean over its two collaborators. */
  class VeiculoService {
    const veiculoRepository: VeiculoRepository
    const cambioService: CambioService

    constructor (veiculoRepository: VeiculoRepository, cambioService: CambioService)
      ensures this.veiculoRepository == veiculoRepository && this.cambioService == cambioService
    {
      this.veiculoRepository := veiculoRepository;
      this.cambioService := cambioService;
    }

    ghost predicate Valid()
      reads veiculoRepository
    {
      veiculoRepository.Valid()
    }

    /**
     * createVeiculo: a live record with the same plate is a ValidationException and nothing
     * changes; otherwise the object is saved, which gives it its id and timestamps.
     */
    method CreateVeiculo(veiculo: VeiculoEntity, now: Time) returns (r: Result<Veiculo, ServiceError>)
      requires Valid()
      modifies veiculoRepository, veiculo
      ensures Valid()
      ensures ExistsByPlacaAndDeletedFalse(old(veiculoRepository.rows), old(veiculo.placa)) ==>
        && r == Failure(ValidationException(veiculo.placa))
        && veiculoRepository.rows == old(veiculoRepository.rows) && veiculo.Row() == old(veiculo.Row())
      ensures !ExistsByPlacaAndDeletedFalse(old(veiculoRepository.rows), old(veiculo.placa)) ==>
        var s := SaveRows(old(veiculoRepository.rows), old(veiculo.Row()), now);
        r == Success(s.entity) && veiculoRepository.rows == s.rows && veiculo.Row() == s.entity
      ensures UniquePlates(old(veiculoRepository.rows)) ==> UniquePlates(veiculoRepository.rows)
    {
      if ExistsByPlacaAndDeletedFalse(veiculoRepository.rows, veiculo.placa) {
        return Failure(ValidationException(veiculo.placa));
      }
      if UniquePlates(veiculoRepository.rows) {
        SavePreservesUniquePlates(veiculoRepository.rows, veiculo.Row(), now);
      }
      var saved := veiculoRepository.Save(veiculo, now);
      return Success(saved.Row());
    }

    /** findAllVeiculos: every live record (the model lists them by id; the query fixes no order). */
    method FindAllVeiculos() returns (r: seq<Veiculo>)
      requires Valid()
      ensures forall v :: v in r <==> v in veiculoRepository.rows && !v.deleted
    {
      r := FindAll(veiculoRepository.rows, []);
    }

    /** findVeiculoById: the live record with that id, or ResourceNotFoundException. */
    method FindVeiculoById(id: int) returns (r: Result<Veiculo, ServiceError>)
      requires Valid()
      ensures r.Success? <==> IsLive(veiculoRepository.rows, id)
      ensures r.Success? ==> r.value == veiculoRepository.rows[id - 1] && r.value.id == Some(id)
      ensures r.Failure? ==> r.error == ResourceNotFoundException(id)
    {
      var found := FindByIdAndDeletedFalse(veiculoRepository.rows, id);
      if found.None? {
        return Failure(ResourceNotFoundException(id));
      }
      return Success(found.value);
    }

    /**
     * updateVeiculo: copies marca and vendido from the details onto the live record and saves it;
     * every other column is kept, and the update timestamp moves only when something changed.
     */
    method UpdateVeiculo(id: int, veiculoDetails: VeiculoEntity, now: Time) returns (r: Result<Veiculo, ServiceError>)
      requires Valid()
      modifies veiculoRepository
      ensures Valid()
      ensures !IsLive(old(veiculoRepository.rows), id) ==>
        r == Failure(ResourceNotFoundException(id)) && veiculoRepository.rows == old(veiculoRepository.rows)
      ensures IsLive(old(veiculoRepository.rows), id) ==>
        var before := old(veiculoRepository.rows)[id - 1];
        && r.Success?
        && veiculoRepository.rows == old(veiculoRepository.rows)[id - 1 := r.value]
        && r.value.marca == veiculoDetails.marca && r.value.vendido == veiculoDetails.vendido
        && r.value.(marca := before.marca, vendido := before.vendido, updated := before.updated) == before
        && (before.marca == veiculoDetails.marca && before.vendido == veiculoDetails.vendido ==> r.value == before)
        && (before.marca != veiculoDetails.marca || before.vendido != veiculoDetails.vendido ==> r.value.updated == Some(now))
      ensures UniquePlates(old(veiculoRepository.rows)) ==> UniquePlates(veiculoRepository.rows)
    {
      var found := FindVeiculoById(id);
      if found.Failure? {
        return found;
      }
      var veiculo := new VeiculoEntity.Load(found.value);
      veiculo.SetMarca(veiculoDetails.marca);
      veiculo.SetVendido(veiculoDetails.vendido);
      if UniquePlates(veiculoRepository.rows) {
        SavePreservesUniquePlates(veiculoRepository.rows, veiculo.Row(), now);
      }
      var saved := veiculoRepository.Save(veiculo, now);
      return Success(saved.Row());
    }

    /** deleteVeiculo: ResourceNotFoundException unless live; then a soft delete of that row only. */
    method DeleteVeiculo(id: int) returns (r: Result<(), ServiceError>)
      requires Valid()
      modifies veiculoRepository
      ensures Valid()
      ensures !IsLive(old(veiculoRepository.rows), id) ==>
        r == Failure(ResourceNotFoundException(id)) && veiculoRepository.rows == old(veiculoRepository.rows)
      ensures IsLive(old(veiculoRepository.rows), id) ==>
        r == Success(()) && veiculoRepository.rows == SoftDelete(old(veiculoRepository.rows), id)
      ensures UniquePlates(old(veiculoRepository.rows)) ==> UniquePlates(veiculoRepository.rows)
    {
      if UniquePlates(veiculoRepository.rows) {
        SoftDeletePreservesUniquePlates(veiculoRepository.rows, id);
      }
      var found := FindVeiculoById(id);
      if found.Failure? {
        return Failure(found.error);
      }
      veiculoRepository.DeleteById(id);
      return Success(());
    }

    /** getVeiculosCountByMarca: the brand counts of the live records. */
    method GetVeiculosCountByMarca() returns (r: Result<map<string, nat>, ServiceError>)
      requires Valid()
      ensures r == CountByMarca(FindAll(veiculoRepository.rows, []))
    {
      r := CountByMarca(FindAll(veiculoRepository.rows, []));
    }

    /**
     * searchVeiculos: the quote is looked up once, first, whatever the filter; then each
     * non-null parameter adds its clause, both price bounds converted with that one quote.
     */
    method SearchVeiculos(f: SearchFilter, primary: Reply, fallback: Reply)
      returns (r: Result<seq<Veiculo>, ServiceError>, calls: seq<Provider>)
      requires Valid()
      modifies cambioService
      ensures Valid()
      ensures var o := Lookup(old(cambioService.latest), primary, fallback);
        && cambioService.latest == o.slot && calls == o.calls
        && r == SearchResult(veiculoRepository.rows, f, o.result)
    {
      var cotacao;
      cotacao, calls := cambioService.GetCotacaoDolarBRL(primary, fallback);
      if cotacao.Failure? {
        return Failure(RateLookupFailed(cotacao.error)), calls;
      }
      var rate := cotacao.value;
      var spec: seq<Clause> := [];
      if f.marca.Some? {
        spec := spec + [MarcaEquals(f.marca.value)];
      }
      if f.ano.Some? {
        spec := spec + [AnoEquals(f.ano.value)];
      }
      if f.cor.Some? {
        spec := spec + [CorEquals(f.cor.value)];
      }
      if f.minPrecoBRL.Some? {
        var minPrecoDolar := Divide(f.minPrecoBRL.value, rate, PriceScale);
        if minPrecoDolar.None? {
          return Failure(DivisionByZero), calls;
        }
        spec := spec + [PrecoAtLeast(minPrecoDolar.value)];
      }
      if f.maxPrecoBRL.Some? {
        var maxPrecoDolar := Divide(f.maxPrecoBRL.value, rate, PriceScale);
        if maxPrecoDolar.None? {
          return Failure(DivisionByZero), calls;
        }
        spec := spec + [PrecoAtMost(maxPrecoDolar.value)];
      }
      r := Success(FindAll(veiculoRepository.rows, spec));
    }
  }
}
