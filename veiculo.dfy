/**
 * The Veiculo entity. Veiculo is one row of the vehicle table, as a value; VeiculoEntity is
 * the mutable object whose setters and lifecycle hooks change it in place. Every
 * reference-typed column may be null in Java, so it is an Option here; vendido and deleted
 * are primitives.
 */
module Model {
  import opened Wrappers
  import opened Decimals

  /** A LocalDateTime; the clock is read by the caller and handed in. */
  type Time = int

  datatype Veiculo = Veiculo(
    id: Option<int>,
    veiculo: Option<string>,
    marca: Option<string>,
    modelo: Option<string>,
    ano: Option<int>,
    cor: Option<string>,
    placa: Option<string>,
    precoDolar: Option<Decimal>,   // stored in US dollars
    vendido: bool,
    created: Option<Time>,
    updated: Option<Time>,
    deleted: bool)                 // the soft-delete flag
  {
    /** @PrePersist: both timestamps are set to the insert instant. */
    function OnCreate(now: Time): Veiculo
    {
      this.(created := Some(now), updated := Some(now))
    }

    /** @PreUpdate: only the last-update timestamp moves. */
    function OnUpdate(now: Time): Veiculo
    {
      this.(updated := Some(now))
    }
  }

  /** a and b hold the same data: they agree on every column except the id and the two timestamps. */
  predicate SameColumns(a: Veiculo, b: Veiculo)
  {
    a.(id := b.id, created := b.created, updated := b.updated) == b
  }

  /** new Veiculo(): every reference field null, vendido false and, by its initialiser, deleted false. */
  function NewVeiculo(): (v: Veiculo)
    ensures !v.deleted && !v.vendido
    ensures v.id.None? && v.created.None? && v.updated.None?
  {
    Veiculo(None, None, None, None, None, None, None, None, false, None, None, false)
  }

  /** The entity object; Row() is the row it would write. */
  class VeiculoEntity {
    var id: Option<int>
    var veiculo: Option<string>
    var marca: Option<string>
    var modelo: Option<string>
    var ano: Option<int>
    var cor: Option<string>
    var placa: Option<string>
    var precoDolar: Option<Decimal>
    var vendido: bool
    var created: Option<Time>
    var updated: Option<Time>
    var deleted: bool

    function Row(): Veiculo
      reads this
    {
      Veiculo(id, veiculo, marca, modelo, ano, cor, placa, precoDolar, vendido, created, updated, deleted)
    }

    /** new Veiculo(). */
    constructor ()
      ensures Row() == NewVeiculo()
    {
      id, veiculo, marca, modelo, ano, cor, placa := None, None, None, None, None, None, None;
      precoDolar, vendido, created, updated := None, false, None, None;
      deleted := false;
    }

    /** The object the persistence layer materialises for a stored row. */
    constructor Load(r: Veiculo)
      ensures Row() == r
    {
      id, veiculo, marca, modelo, ano, cor, placa := r.id, r.veiculo, r.marca, r.modelo, r.ano, r.cor, r.placa;
      precoDolar, vendido, created, updated := r.precoDolar, r.vendido, r.created, r.updated;
      deleted := r.deleted;
    }

    method SetMarca(marca: Option<string>)
      modifies this
      ensures Row() == old(Row()).(marca := marca)
    {
      this.marca := marca;
    }

    method SetVendido(vendido: bool)
      modifies this
      ensures Row() == old(Row()).(vendido := vendido)
    {
      this.vendido := vendido;
    }

    /** The IDENTITY value the insert generated, written back into the object. */
    method AssignId(id: int)
      modifies this
      ensures Row() == old(Row()).(id := Some(id))
    {
      this.id := Some(id);
    }

    /** @PrePersist. */
    method OnCreate(now: Time)
      modifies this
      ensures Row() == old(Row()).OnCreate(now)
    {
      created := Some(now);
      updated := Some(now);
    }

    /** @PreUpdate. */
    method OnUpdate(now: Time)
      modifies this
      ensures Row() == old(Row()).OnUpdate(now)
    {
      updated := Some(now);
    }
  }
}
