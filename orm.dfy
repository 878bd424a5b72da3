/**
 * The active-record side of the legacy model
 * (Main/Core/Model/Traits/ObjectRelationalMappingTrait.php).
 *
 * Assignments to undeclared properties are collected in `orm`. `save` and
 * `create` keep the collected values whose names are columns of the table,
 * in column order, and hand them to the query builder as a data clause of
 * named placeholders `:column` together with the placeholder bindings.
 * The builder itself is not part of this model: its calls are recorded in
 * order and the row count or success flag it would report is a parameter.
 */
module Orm {
  import opened Wrappers
  import opened PhpArray

  /** A primary-key value: the int passed to save, or the string taken from the collected values. */
  datatype KeyValue = IntKey(i: int) | StringKey(s: string)

  /** The builder calls save and create make, in the order they make them. */
  datatype BuilderCall =
    | Data(param: OrderedMap<string>)
    | Where(column: string, value: KeyValue)
    | Update(bind: OrderedMap<string>)
    | Insert(bind: OrderedMap<string>)

  /** The named placeholder of a column. */
  function Placeholder(column: string): (p: string)
    ensures |p| == |column| + 1 && p[0] == ':' && p[1..] == column
  {
    ":" + column
  }

  /** Whether the collected values hold this name (array_key_exists). */
  predicate Has(orm: OrderedMap<string>, name: string) {
    Lookup(orm, name).Some?
  }

  /** The data clause: column => placeholder, for each collected column, in column order. */
  function Param(fields: seq<string>, orm: OrderedMap<string>): OrderedMap<string> {
    if fields == [] then []
    else
      var p := Param(fields[..|fields| - 1], orm);
      var f := fields[|fields| - 1];
      if Has(orm, f) then Put(p, f, Placeholder(f)) else p
  }

  /** The bindings: placeholder => collected value, for each collected column, in column order. */
  function Bind(fields: seq<string>, orm: OrderedMap<string>): OrderedMap<string> {
    if fields == [] then []
    else
      var b := Bind(fields[..|fields| - 1], orm);
      var f := fields[|fields| - 1];
      if Has(orm, f) then Put(b, Placeholder(f), Lookup(orm, f).value) else b
  }

  /** The collected columns, in column order. */
  function Present(fields: seq<string>, orm: OrderedMap<string>): seq<string> {
    if fields == [] then []
    else
      var ps := Present(fields[..|fields| - 1], orm);
      var f := fields[|fields| - 1];
      if Has(orm, f) then ps + [f] else ps
  }

  ghost predicate NoDuplicates(fields: seq<string>) {
    forall i, j :: 0 <= i < j < |fields| ==> fields[i] != fields[j]
  }

  /** A column is in the data clause exactly when it is a table column with a collected value; its entry is its placeholder. */
  lemma {:induction false} ParamLookup(fields: seq<string>, orm: OrderedMap<string>, k: string)
    ensures Lookup(Param(fields, orm), k) == if k in fields && Has(orm, k) then Some(Placeholder(k)) else None
  {
    if fields != [] {
      var init := fields[..|fields| - 1];
      var f := fields[|fields| - 1];
      ParamLookup(init, orm, k);
      assert fields == init + [f];
      assert k in fields <==> k in init || k == f;
    }
  }

  /**
   * A key is bound exactly when it is the placeholder of a table column with
   * a collected value, and it is bound to that value.
   */
  lemma {:induction false} BindLookup(fields: seq<string>, orm: OrderedMap<string>, p: string)
    ensures Lookup(Bind(fields, orm), p) ==
      if p != [] && p[0] == ':' && p[1..] in fields && Has(orm, p[1..]) then Lookup(orm, p[1..]) else None
  {
    if fields != [] {
      var init := fields[..|fields| - 1];
      var f := fields[|fields| - 1];
      BindLookup(init, orm, p);
      assert fields == init + [f];
      if p != [] && p[0] == ':' && p[1..] == f {
        assert p == Placeholder(f);
      }
    }
  }

  /** Every placeholder of the data clause is bound, and every binding belongs to a placeholder of the data clause. */
  lemma PlaceholdersBound(fields: seq<string>, orm: OrderedMap<string>, k: string, p: string)
    ensures Lookup(Param(fields, orm), k).Some? ==> Lookup(Bind(fields, orm), Placeholder(k)) == Lookup(orm, k)
    ensures Lookup(Bind(fields, orm), p).Some? ==> p != [] && p[0] == ':' && Lookup(Param(fields, orm), p[1..]) == Some(p)
  {
    ParamLookup(fields, orm, k);
    BindLookup(fields, orm, Placeholder(k));
    BindLookup(fields, orm, p);
    if p != [] && p[0] == ':' {
      ParamLookup(fields, orm, p[1..]);
      assert Placeholder(p[1..]) == p;
    }
  }

  /** With the table's columns listed once each, the data clause lists the collected columns in column order. */
  lemma {:induction false} ParamOrder(fields: seq<string>, orm: OrderedMap<string>)
    requires NoDuplicates(fields)
    ensures Keys(Param(fields, orm)) == Present(fields, orm)
    ensures DistinctKeys(Param(fields, orm))
  {
    if fields != [] {
      var init := fields[..|fields| - 1];
      var f := fields[|fields| - 1];
      ParamOrder(init, orm);
      var p := Param(init, orm);
      if Has(orm, f) {
        ParamLookup(init, orm, f);
        assert f !in init;
        assert Put(p, f, Placeholder(f)) == p + [(f, Placeholder(f))];
        assert Keys(p + [(f, Placeholder(f))]) == Keys(p) + [f];
      }
    }
  }

  /**
   * A model instance with its table's column names (`field`), its primary
   * key name, the values collected by property assignment, and the builder
   * calls made so far.
   */
  class OrmRecord {
    const fields: seq<string>
    const key: string
    var orm: OrderedMap<string>
    var calls: seq<BuilderCall>

    constructor (fields: seq<string>, key: string)
      ensures this.fields == fields && this.key == key
      ensures orm == [] && calls == []
    {
      this.fields := fields;
      this.key := key;
      orm := [];
      calls := [];
    }

    /** __set: collects the value under the property name, replacing an earlier one in place. */
    method Set(name: string, value: string)
      modifies this`orm
      ensures orm == Put(old(orm), name, value)
    {
      orm := Put(orm, name, value);
    }

    /** The loop save and create share: the data clause and the bindings for the collected columns. */
    method CollectBindings() returns (param: OrderedMap<string>, bind: OrderedMap<string>)
      ensures param == Param(fields, orm) && bind == Bind(fields, orm)
    {
      param, bind := [], [];
      var i := 0;
      while i < |fields|
        invariant 0 <= i <= |fields|
        invariant param == Param(fields[..i], orm) && bind == Bind(fields[..i], orm)
      {
        var f := fields[i];
        assert fields[..i + 1][..i] == fields[..i];
        if Lookup(orm, f).Some? {
          var placeholder := ":" + f;
          param := Put(param, f, placeholder);
          bind := Put(bind, placeholder, Lookup(orm, f).value);
        }
        i := i + 1;
      }
      assert fields[..i] == fields;
    }

    /**
     * save: without an explicit key the collected primary-key value is used,
     * and without either the save fails. Otherwise the data clause, a where
     * on the primary key and an update with the bindings are issued, and
     * the update's affected-row count is returned.
     */
    method Save(explicitKey: Option<int>, affectedRows: int) returns (r: Result<int>)
      modifies this`calls
      ensures r.Failure? <==> explicitKey.None? && !Has(orm, key)
      ensures r.Failure? ==> r.message == "model ORM save without key" && calls == old(calls)
      ensures r.Success? ==> r.value == affectedRows
      ensures r.Success? ==>
        var k := if explicitKey.Some? then IntKey(explicitKey.value) else StringKey(Lookup(orm, key).value);
        calls == old(calls) + [Data(Param(fields, orm)), Where(key, k), Update(Bind(fields, orm))]
    {
      var param, bind := CollectBindings();
      var k: KeyValue;
      if explicitKey.None? && Lookup(orm, key).Some? {
        k := StringKey(Lookup(orm, key).value);
      } else if explicitKey.None? {
        return Failure("model ORM save without key");
      } else {
        k := IntKey(explicitKey.value);
      }
      calls := calls + [Data(param), Where(key, k), Update(bind)];
      r := Success(affectedRows);
    }

    /** create: the data clause and an insert with the bindings; the insert's result is returned. */
    method Create(inserted: bool) returns (ok: bool)
      modifies this`calls
      ensures ok == inserted
      ensures calls == old(calls) + [Data(Param(fields, orm)), Insert(Bind(fields, orm))]
    {
      var param, bind := CollectBindings();
      calls := calls + [Data(param), Insert(bind)];
      ok := inserted;
    }
  }
}
