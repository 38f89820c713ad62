/**
 * VeiculoRepository over an in-memory table. Because ids are IDENTITY-generated and deletion
 * is soft (@SQLDelete never removes a row), the table is an append-only sequence: the row at
 * index i carries id i + 1. Every read goes through @Where(deleted = false), so a
 * soft-deleted row is invisible to every query below.
 */
module Repository {
  import opened Wrappers
  import opened Decimals
  import opened Model

  /** One Specification clause, in the typed forms the catalog search builds. */
  datatype Clause =
    | MarcaEquals(marca: string)      // cb.equal(root.get("marca"), marca)
    | AnoEquals(ano: int)             // cb.equal(root.get("ano"), ano)
    | CorEquals(cor: string)          // cb.equal(root.get("cor"), cor)
    | PrecoAtLeast(bound: Decimal)    // cb.greaterThanOrEqualTo(root.get("precoDolar"), bound)
    | PrecoAtMost(bound: Decimal)     // cb.lessThanOrEqualTo(root.get("precoDolar"), bound)

  /** SQL semantics of one clause: a comparison against a NULL column is never true. */
  predicate Holds(c: Clause, v: Veiculo)
  {
    match c
    case MarcaEquals(m) => v.marca == Some(m)
    case AnoEquals(a) => v.ano == Some(a)
    case CorEquals(k) => v.cor == Some(k)
    case PrecoAtLeast(b) => v.precoDolar.Some? && LessEq(b, v.precoDolar.value)
    case PrecoAtMost(b) => v.precoDolar.Some? && LessEq(v.precoDolar.value, b)
  }

  /** Specification.where(null).and(c1).and(c2)...: the conjunction; the empty one holds of every row. */
  predicate SatisfiesAll(spec: seq<Clause>, v: Veiculo)
  {
    forall i :: 0 <= i < |spec| ==> Holds(spec[i], v)
  }

  /** Adding one clause with and() narrows the conjunction by exactly that clause. */
  lemma SatisfiesAllAnd(spec: seq<Clause>, c: Clause, v: Veiculo)
    ensures SatisfiesAll(spec + [c], v) <==> SatisfiesAll(spec, v) && Holds(c, v)
  {
    if SatisfiesAll(spec, v) && Holds(c, v) {
      forall i | 0 <= i < |spec + [c]| ensures Holds((spec + [c])[i], v) {
        if i < |spec| { assert (spec + [c])[i] == spec[i]; }
      }
    }
    if SatisfiesAll(spec + [c], v) {
      forall i | 0 <= i < |spec| ensures Holds(spec[i], v) {
        assert (spec + [c])[i] == spec[i];
      }
      assert (spec + [c])[|spec|] == c;
    }
  }

  /** IDENTITY ids: the row at index i has id i + 1. */
  predicate WellFormed(rows: seq<Veiculo>)
  {
    forall i :: 0 <= i < |rows| ==> rows[i].id == Some(i + 1)
  }

  /** The row with this id exists and has not been soft-deleted. */
  predicate IsLive(rows: seq<Veiculo>, id: int)
  {
    1 <= id <= |rows| && !rows[id - 1].deleted
  }

  /**
   * findAll(spec) (and findAll() for the empty spec): the live rows satisfying spec. The query
   * has no ORDER BY; the model lists them by id.
   */
  function FindAll(rows: seq<Veiculo>, spec: seq<Clause>): (r: seq<Veiculo>)
    ensures forall v :: v in r <==> v in rows && !v.deleted && SatisfiesAll(spec, v)
    ensures |r| <= |rows|
  {
    if rows == [] then []
    else
      (if !rows[0].deleted && SatisfiesAll(spec, rows[0]) then [rows[0]] else [])
      + FindAll(rows[1..], spec)
  }

  /** In the model's id order, FindAll of a longer table extends FindAll of its prefix. */
  lemma {:induction false} FindAllAppend(rows: seq<Veiculo>, v: Veiculo, spec: seq<Clause>)
    ensures FindAll(rows + [v], spec)
         == FindAll(rows, spec) + (if !v.deleted && SatisfiesAll(spec, v) then [v] else [])
  {
    if rows == [] {
      assert [v][1..] == [];
    } else {
      assert (rows + [v])[1..] == rows[1..] + [v];
      FindAllAppend(rows[1..], v, spec);
    }
  }

  /** existsByPlacaAndDeletedFalse: a null plate is matched by IS NULL, so it finds null-plate rows. */
  function ExistsByPlacaAndDeletedFalse(rows: seq<Veiculo>, placa: Option<string>): (b: bool)
    ensures b <==> exists i :: 0 <= i < |rows| && rows[i].placa == placa && !rows[i].deleted
  {
    if rows == [] then false
    else if rows[0].placa == placa && !rows[0].deleted then true
    else
      var rest := ExistsByPlacaAndDeletedFalse(rows[1..], placa);
      assert rest ==> exists i :: 0 <= i < |rows| && rows[i].placa == placa && !rows[i].deleted by {
        if rest {
          var j :| 0 <= j < |rows| - 1 && rows[1..][j].placa == placa && !rows[1..][j].deleted;
          assert rows[j + 1] == rows[1..][j];
        }
      }
      assert (exists i :: 0 <= i < |rows| && rows[i].placa == placa && !rows[i].deleted) ==> rest by {
        if exists i :: 0 <= i < |rows| && rows[i].placa == placa && !rows[i].deleted {
          var i :| 0 <= i < |rows| && rows[i].placa == placa && !rows[i].deleted;
          assert i != 0;
          assert rows[1..][i - 1] == rows[i];
        }
      }
      rest
  }

  /** findByIdAndDeletedFalse: the row with that id if it is live, and nothing otherwise. */
  function FindByIdAndDeletedFalse(rows: seq<Veiculo>, id: int): (r: Option<Veiculo>)
    requires WellFormed(rows)
    ensures r.Some? <==> exists i :: 0 <= i < |rows| && rows[i].id == Some(id) && !rows[i].deleted
    ensures r.Some? ==> r.value in rows && r.value.id == Some(id) && !r.value.deleted
  {
    if IsLive(rows, id) then Some(rows[id - 1]) else None
  }

  /** What save leaves behind: the new table and the entity it hands back. */
  datatype Saved = Saved(rows: seq<Veiculo>, entity: Veiculo)

  /**
   * save(v): with the id of a live row, a merge that replaces that row (the @PreUpdate hook
   * runs only if something changed); otherwise a persist under the next IDENTITY id, with
   * the @PrePersist hook setting both timestamps.
   */
  function SaveRows(rows: seq<Veiculo>, v: Veiculo, now: Time): (s: Saved)
    requires WellFormed(rows)
    ensures WellFormed(s.rows)
    ensures v.id.Some? && IsLive(rows, v.id.value) ==>
      var i := v.id.value - 1;
      && |s.rows| == |rows| && s.rows[i] == s.entity
      && (forall k :: 0 <= k < |rows| && k != i ==> s.rows[k] == rows[k])
      && s.entity.(updated := v.updated) == v
      && s.entity.updated == (if v == rows[i] then v.updated else Some(now))
    ensures !(v.id.Some? && IsLive(rows, v.id.value)) ==>
      && s.rows == rows + [s.entity]
      && s.entity.id == Some(|rows| + 1)
      && (forall k :: 0 <= k < |rows| ==> rows[k].id != s.entity.id)
      && s.entity.created == Some(now) && s.entity.updated == Some(now)
      && SameColumns(s.entity, v)
  {
    if v.id.Some? && IsLive(rows, v.id.value) then
      var i := v.id.value - 1;
      var e := if v == rows[i] then v else v.OnUpdate(now);
      Saved(rows[i := e], e)
    else
      var e := v.(id := Some(|rows| + 1)).OnCreate(now);
      Saved(rows + [e], e)
  }

  /**
   * The @SQLDelete statement of deleteById: the live row with that id gets deleted = true and
   * keeps all its other columns; without such a row nothing happens.
   */
  function SoftDelete(rows: seq<Veiculo>, id: int): (r: seq<Veiculo>)
    ensures |r| == |rows|
    ensures forall k :: 0 <= k < |rows| && k != id - 1 ==> r[k] == rows[k]
    ensures IsLive(rows, id) ==> r[id - 1].deleted && r[id - 1].(deleted := false) == rows[id - 1]
    ensures !IsLive(rows, id) ==> r == rows
    ensures !IsLive(r, id)
  {
    if IsLive(rows, id) then rows[id - 1 := rows[id - 1].(deleted := true)] else rows
  }

  /** After a soft delete the id is no longer found, and no query returns that row any more. */
  lemma SoftDeleteHides(rows: seq<Veiculo>, id: int, spec: seq<Clause>)
    requires WellFormed(rows) && IsLive(rows, id)
    ensures WellFormed(SoftDelete(rows, id))
    ensures FindByIdAndDeletedFalse(SoftDelete(rows, id), id).None?
    ensures forall v :: v in FindAll(SoftDelete(rows, id), spec) ==> v.id != Some(id)
  {
    var r := SoftDelete(rows, id);
    forall v | v in FindAll(r, spec) ensures v.id != Some(id) {
      var k :| 0 <= k < |r| && r[k] == v;
      assert r[k].id == Some(k + 1);
    }
  }

  /** No two live rows carry the same plate (two null plates count as the same). */
  predicate UniquePlates(rows: seq<Veiculo>)
  {
    forall i, j :: 0 <= i < j < |rows| && !rows[i].deleted && !rows[j].deleted ==> rows[i].placa != rows[j].placa
  }

  /** A saved live record is found again by the id save hands back, and its plate is then taken. */
  lemma SaveThenFind(rows: seq<Veiculo>, v: Veiculo, now: Time)
    requires WellFormed(rows) && !v.deleted
    ensures SaveRows(rows, v, now).entity.id.Some?
    ensures FindByIdAndDeletedFalse(SaveRows(rows, v, now).rows, SaveRows(rows, v, now).entity.id.value)
         == Some(SaveRows(rows, v, now).entity)
    ensures ExistsByPlacaAndDeletedFalse(SaveRows(rows, v, now).rows, v.placa)
  {
    var s := SaveRows(rows, v, now);
    var k := s.entity.id.value - 1;
    assert s.rows[k] == s.entity;
    assert s.entity.placa == v.placa && !s.entity.deleted;
  }

  /**
   * save keeps the plates of live rows distinct when the saved plate is not live anywhere,
   * or when it replaces a live row without changing that row's plate.
   */
  lemma SavePreservesUniquePlates(rows: seq<Veiculo>, v: Veiculo, now: Time)
    requires WellFormed(rows) && UniquePlates(rows)
    requires || !ExistsByPlacaAndDeletedFalse(rows, v.placa)
             || (v.id.Some? && IsLive(rows, v.id.value) && rows[v.id.value - 1].placa == v.placa)
    ensures UniquePlates(SaveRows(rows, v, now).rows)
  {
    var s := SaveRows(rows, v, now);
    assert s.entity.placa == v.placa;
    forall i, j | 0 <= i < j < |s.rows| && !s.rows[i].deleted && !s.rows[j].deleted
      ensures s.rows[i].placa != s.rows[j].placa
    {
      if i < |rows| && j < |rows| && s.rows[i] != rows[i] {
        assert s.rows[i] == s.entity && s.rows[j] == rows[j];
      } else if i < |rows| && j < |rows| && s.rows[j] != rows[j] {
        assert s.rows[j] == s.entity && s.rows[i] == rows[i];
      } else if j == |rows| {
        assert s.rows[j] == s.entity && s.rows[i] == rows[i];
      }
    }
  }

  /** A soft delete keeps the plates of live rows distinct. */
  lemma SoftDeletePreservesUniquePlates(rows: seq<Veiculo>, id: int)
    requires UniquePlates(rows)
    ensures UniquePlates(SoftDelete(rows, id))
  {
    var r := SoftDelete(rows, id);
    forall i, j | 0 <= i < j < |r| && !r[i].deleted && !r[j].deleted
      ensures r[i].placa != r[j].placa
    {
      assert r[i] == rows[i] && r[j] == rows[j];
    }
  }

  /** The table itself, changed in place by save and deleteById. */
  class VeiculoRepository {
    var rows: seq<Veiculo>

    ghost predicate Valid()
      reads this
    {
      WellFormed(rows)
    }

    constructor ()
      ensures Valid() && rows == []
    {
      rows := [];
    }

    /**
     * save(e): the hooks and the generated id are applied to e itself, and e's row is
     * written; the object handed back is e.
     */
    method Save(e: VeiculoEntity, now: Time) returns (saved: VeiculoEntity)
      requires Valid()
      modifies this, e
      ensures Valid()
      ensures saved == e
      ensures Saved(rows, e.Row()) == SaveRows(old(rows), old(e.Row()), now)
    {
      var v := e.Row();
      if v.id.Some? && 1 <= v.id.value <= |rows| && !rows[v.id.value - 1].deleted {
        var i := v.id.value - 1;
        if v != rows[i] {
          e.OnUpdate(now);
        }
        rows := rows[i := e.Row()];
      } else {
        e.OnCreate(now);
        e.AssignId(|rows| + 1);
        rows := rows + [e.Row()];
      }
      saved := e;
    }

    method DeleteById(id: int)
      requires Valid()
      modifies this
      ensures Valid()
      ensures rows == SoftDelete(old(rows), id)
    {
      if 1 <= id <= |rows| && !rows[id - 1].deleted {
        rows := rows[id - 1 := rows[id - 1].(deleted := true)];
      }
    }
  }
}
