/**
 * Objects as the reflective mapper sees them, and the mapper itself.
 *
 * A class is its list of declared fields with their types, whether it has a
 * no-argument constructor, and the values that constructor leaves in the fields.
 * An object's state maps each non-null field to its value; a field missing from
 * the map is null.
 */
module Beans {
  import opened Wrappers

  datatype JType = JString | JLong | JInteger | JDouble | JBytes | JDateTime

  datatype Value =
    | VString(s: string)
    | VLong(n: int)
    | VInteger(n: int)
    | VDouble(x: real)
    | VBytes(bytes: seq<int>)
    | VDateTime(instant: int)

  function TypeOf(v: Value): JType
  {
    match v
    case VString(_) => JString
    case VLong(_) => JLong
    case VInteger(_) => JInteger
    case VDouble(_) => JDouble
    case VBytes(_) => JBytes
    case VDateTime(_) => JDateTime
  }

  datatype Field = Field(name: string, jtype: JType)

  /** The non-null fields of an object. */
  type Record = map<string, Value>

  datatype ClassDecl = ClassDecl(fields: seq<Field>, hasNoArgConstructor: bool, defaults: Record)

  /** The field declared under `name`, scanning the declarations in order. */
  function FieldIn(fs: seq<Field>, name: string): (r: Option<Field>)
    ensures r.Some? ==> r.value.name == name && r.value in fs
    ensures r.None? <==> forall i :: 0 <= i < |fs| ==> fs[i].name != name
  {
    if fs == [] then None
    else if FieldIn(fs[..|fs| - 1], name).Some? then FieldIn(fs[..|fs| - 1], name)
    else if fs[|fs| - 1].name == name then Some(fs[|fs| - 1])
    else None
  }

  predicate DistinctNames(fs: seq<Field>)
  {
    forall i, j :: 0 <= i < j < |fs| ==> fs[i].name != fs[j].name
  }

  /** Every non-null value sits in a declared field of its own type. */
  predicate Conforms(fs: seq<Field>, rec: Record)
  {
    forall k :: k in rec ==> FieldIn(fs, k).Some? && TypeOf(rec[k]) == FieldIn(fs, k).value.jtype
  }

  predicate WellFormed(c: ClassDecl)
  {
    DistinctNames(c.fields) && Conforms(c.fields, c.defaults)
  }

  /** The non-null string in field `k`, or null. */
  function Str(rec: Record, k: string): (r: Option<string>)
    ensures r.Some? <==> k in rec && rec[k].VString?
    ensures r.Some? ==> rec[k] == VString(r.value)
  {
    if k in rec && rec[k].VString? then Some(rec[k].s) else None
  }

  /** Put `v` in field `k` when it is non-null; leave the record alone otherwise. */
  function SetIfPresent(rec: Record, k: string, v: Option<string>): (r: Record)
    ensures v.Some? ==> r == rec[k := VString(v.value)]
    ensures v.None? ==> r == rec
  {
    if v.Some? then rec[k := VString(v.value)] else rec
  }

  /**
   * `isAssignableFrom` between the field types used here. They are all final
   * library classes, so a target accepts a source exactly when the classes agree.
   */
  predicate Assignable(target: JType, source: JType)
  {
    target == source
  }

  /**
   * The value of `name` is copied from the source: the source declares the field
   * (among `fs`) and holds a non-null value there, and the target declares a
   * field of that name whose type accepts the source field's type.
   */
  predicate Transfers(fs: seq<Field>, src: Record, target: seq<Field>, name: string)
  {
    name in src && FieldIn(fs, name).Some? && FieldIn(target, name).Some?
    && Assignable(FieldIn(target, name).value.jtype, FieldIn(fs, name).value.jtype)
  }

  /** The target state after copying the fields `fs` of the source. */
  function Merged(fs: seq<Field>, src: Record, target: seq<Field>, tgt: Record): Record
  {
    map k | k in src.Keys + tgt.Keys && (k in tgt || Transfers(fs, src, target, k)) ::
      if Transfers(fs, src, target, k) then src[k] else tgt[k]
  }

  /**
   * The copy rules: a null source value never overwrites, a source field with no
   * same-named target field is ignored, a value moves only when the types are
   * compatible, and every other target field keeps its value.
   */
  lemma MergeFieldwise(fs: seq<Field>, src: Record, target: seq<Field>, tgt: Record, k: string)
    ensures k !in src ==> (k in Merged(fs, src, target, tgt) <==> k in tgt)
    ensures k !in src && k in tgt ==> Merged(fs, src, target, tgt)[k] == tgt[k]
    ensures FieldIn(target, k).None? && k in tgt ==> Merged(fs, src, target, tgt)[k] == tgt[k]
    ensures FieldIn(target, k).None? ==> (k in Merged(fs, src, target, tgt) <==> k in tgt)
    ensures Transfers(fs, src, target, k) ==> k in Merged(fs, src, target, tgt) && Merged(fs, src, target, tgt)[k] == src[k]
    ensures !Transfers(fs, src, target, k) ==> (k in Merged(fs, src, target, tgt) <==> k in tgt)
    ensures !Transfers(fs, src, target, k) && k in tgt ==> Merged(fs, src, target, tgt)[k] == tgt[k]
  {
  }

  /** Copying the same source twice is the same as copying it once. */
  lemma MergeIdempotent(fs: seq<Field>, src: Record, target: seq<Field>, tgt: Record)
    ensures Merged(fs, src, target, Merged(fs, src, target, tgt)) == Merged(fs, src, target, tgt)
  {
    var once := Merged(fs, src, target, tgt);
    var twice := Merged(fs, src, target, once);
    forall k ensures (k in twice <==> k in once) && (k in once ==> twice[k] == once[k]) {
      MergeFieldwise(fs, src, target, once, k);
      MergeFieldwise(fs, src, target, tgt, k);
    }
  }

  /** The merge keeps a conforming target conforming. */
  lemma MergeConforms(fs: seq<Field>, src: Record, target: seq<Field>, tgt: Record)
    requires Conforms(fs, src) && Conforms(target, tgt)
    ensures Conforms(target, Merged(fs, src, target, tgt))
  {
  }

  lemma FieldInAppend(fs: seq<Field>, f: Field, name: string)
    ensures FieldIn(fs + [f], name)
         == if FieldIn(fs, name).Some? then FieldIn(fs, name) else if f.name == name then Some(f) else None
  {
    assert (fs + [f])[..|fs|] == fs;
  }

  lemma TransfersAppend(fs: seq<Field>, f: Field, src: Record, target: seq<Field>, name: string)
    requires DistinctNames(fs + [f])
    ensures Transfers(fs + [f], src, target, name)
         == if name == f.name then Transfers([f], src, target, name) else Transfers(fs, src, target, name)
  {
    FieldInAppend(fs, f, name);
    FieldInAppend([], f, name);
    assert [] + [f] == [f];
  }

  /** Copying one declared field: it moves when the source holds it and the target accepts its type. */
  lemma TransfersSingle(f: Field, src: Record, target: seq<Field>)
    ensures Transfers([f], src, target, f.name)
        <==> f.name in src && FieldIn(target, f.name).Some? && Assignable(FieldIn(target, f.name).value.jtype, f.jtype)
  {
    assert FieldIn([f], f.name) == Some(f) by { assert [f][..0] == []; }
  }

  lemma MergedStep(fs: seq<Field>, f: Field, src: Record, target: seq<Field>, tgt: Record)
    requires DistinctNames(fs + [f])
    ensures Merged(fs + [f], src, target, tgt)
         == if Transfers([f], src, target, f.name)
            then Merged(fs, src, target, tgt)[f.name := src[f.name]]
            else Merged(fs, src, target, tgt)
  {
    var after := Merged(fs + [f], src, target, tgt);
    var before := Merged(fs, src, target, tgt);
    var expected := if Transfers([f], src, target, f.name) then before[f.name := src[f.name]] else before;
    forall k ensures (k in after <==> k in expected) && (k in after ==> after[k] == expected[k]) {
      TransfersAppend(fs, f, src, target, k);
    }
  }

  /** Copying every field of `fs` one by one ends in the merge of `fs`. */
  lemma MergedAll(fs: seq<Field>, src: Record, target: seq<Field>, tgt: Record)
    ensures Merged(fs[..|fs|], src, target, tgt) == Merged(fs, src, target, tgt)
  {
    assert fs[..|fs|] == fs;
  }

  /** Copying none of the fields `fs` leaves the target as it is. */
  lemma MergedNone(fs: seq<Field>, src: Record, target: seq<Field>, tgt: Record)
    ensures Merged(fs[..0], src, target, tgt) == tgt
  {
    assert fs[..0] == [];
    forall k | k in src.Keys + tgt.Keys ensures !Transfers([], src, target, k) {
      assert FieldIn([], k).None?;
    }
  }

  /** Copying the fields up to and including `fs[i]`: the copy of the earlier ones, then that field. */
  lemma MergedPrefixStep(fs: seq<Field>, i: int, src: Record, target: seq<Field>, tgt: Record)
    requires DistinctNames(fs) && 0 <= i < |fs|
    ensures Merged(fs[..i + 1], src, target, tgt)
         == if Transfers([fs[i]], src, target, fs[i].name)
            then Merged(fs[..i], src, target, tgt)[fs[i].name := src[fs[i].name]]
            else Merged(fs[..i], src, target, tgt)
  {
    assert fs[..i + 1] == fs[..i] + [fs[i]];
    MergedStep(fs[..i], fs[i], src, target, tgt);
  }

  /** With distinct names, the field found under a declared name is that declaration. */
  lemma FieldAt(fs: seq<Field>, i: int)
    requires DistinctNames(fs) && 0 <= i < |fs|
    ensures FieldIn(fs, fs[i].name) == Some(fs[i])
  {
    var f := FieldIn(fs, fs[i].name);
    var j :| 0 <= j < |fs| && fs[j] == f.value;
  }

  /** A record conforming to some declarations conforms to any distinct superset of them. */
  lemma ConformsAcross(fs: seq<Field>, gs: seq<Field>, rec: Record)
    requires DistinctNames(gs) && (forall f :: f in fs ==> f in gs) && Conforms(fs, rec)
    ensures Conforms(gs, rec)
  {
    forall k | k in rec ensures FieldIn(gs, k) == FieldIn(fs, k) {
      var f := FieldIn(fs, k).value;
      var j :| 0 <= j < |gs| && gs[j] == f;
      FieldAt(gs, j);
    }
  }

  /** Setting a declared field to a value of its type keeps a record conforming. */
  lemma ConformsSet(fs: seq<Field>, rec: Record, k: string, v: Value)
    requires Conforms(fs, rec) && FieldIn(fs, k).Some? && TypeOf(v) == FieldIn(fs, k).value.jtype
    ensures Conforms(fs, rec[k := v])
  {
  }

  /** Setting a text field, when a value is given, keeps a record conforming. */
  lemma ConformsSetText(fs: seq<Field>, rec: Record, k: string, v: Option<string>)
    requires Conforms(fs, rec) && FieldIn(fs, k) == Some(Field(k, JString))
    ensures Conforms(fs, SetIfPresent(rec, k, v))
  {
    if v.Some? {
      ConformsSet(fs, rec, k, VString(v.value));
    }
  }

  /** Rows drawn from conforming rows and one conforming record all conform. */
  lemma AllConform(fs: seq<Field>, before: seq<Record>, after: seq<Record>, added: Record)
    requires forall i :: 0 <= i < |before| ==> Conforms(fs, before[i])
    requires Conforms(fs, added)
    requires forall x :: x in after ==> x in before || x == added
    ensures forall i :: 0 <= i < |after| ==> Conforms(fs, after[i])
  {
    forall i | 0 <= i < |after| ensures Conforms(fs, after[i]) {
      assert after[i] in after;
      if after[i] != added {
        var j :| 0 <= j < |before| && before[j] == after[i];
      }
    }
  }

  /**
   * A save that stamps a conforming record with a long id, and keeps every
   * other row, leaves every row conforming.
   */
  lemma SaveConforms(fs: seq<Field>, before: seq<Record>, after: seq<Record>, rec: Record, saved: Record)
    requires forall i :: 0 <= i < |before| ==> Conforms(fs, before[i])
    requires Conforms(fs, rec) && FieldIn(fs, "id") == Some(Field("id", JLong))
    requires "id" in saved && saved["id"].VLong? && saved == rec["id" := saved["id"]]
    requires forall x :: x in after ==> x in before || x == saved
    ensures forall i :: 0 <= i < |after| ==> Conforms(fs, after[i])
  {
    ConformsSet(fs, rec, "id", saved["id"]);
    AllConform(fs, before, after, saved);
  }

  /** The names of the declared fields. */
  function Names(fs: seq<Field>): (r: seq<string>)
    ensures |r| == |fs| && forall i :: 0 <= i < |fs| ==> r[i] == fs[i].name
  {
    if fs == [] then [] else [fs[0].name] + Names(fs[1..])
  }

  /** An object: its class never changes, its field values do. */
  class Instance {
    const decl: ClassDecl
    var vals: Record

    ghost predicate Valid()
      reads this
    {
      WellFormed(decl) && Conforms(decl.fields, vals)
    }

    /** The no-argument constructor: fields hold the class defaults. */
    constructor (c: ClassDecl)
      requires WellFormed(c)
      ensures decl == c && vals == c.defaults && Valid()
    {
      decl := c;
      vals := c.defaults;
    }

    /** An object the persistence layer materialises from a stored record. */
    constructor Loaded(c: ClassDecl, rec: Record)
      requires WellFormed(c) && Conforms(c.fields, rec)
      ensures decl == c && vals == rec && Valid()
    {
      decl := c;
      vals := rec;
    }
  }

  /**
   * `copyFields`: walk the source's declared fields and write each compatible,
   * non-null value into the target's same-named field.
   */
  method CopyFields(source: Instance, target: Instance)
    requires source.Valid() && target.Valid()
    modifies target
    ensures target.Valid()
    ensures target.vals == Merged(source.decl.fields, old(source.vals), target.decl.fields, old(target.vals))
  {
    CopyAll(source.decl.fields, source.vals, target);
  }

  /** The loop of `copyFields` over the source's declared fields `fs` and values `src`. */
  method CopyAll(fs: seq<Field>, src: Record, target: Instance)
    requires DistinctNames(fs) && Conforms(fs, src)
    requires Conforms(target.decl.fields, target.vals)
    modifies target
    ensures target.vals == Merged(fs, src, target.decl.fields, old(target.vals))
    ensures Conforms(target.decl.fields, target.vals)
  {
    ghost var tgt, fields := target.vals, target.decl.fields;
    MergedNone(fs, src, fields, tgt);
    var i := 0;
    while i < |fs|
      invariant 0 <= i <= |fs|
      invariant target.vals == Merged(fs[..i], src, fields, tgt)
      invariant Conforms(fields, target.vals)
    {
      CopyNext(fs, i, src, tgt, target);
      i := i + 1;
    }
    MergedAll(fs, src, fields, tgt);
  }

  /** The loop body of `copyFields`: after the `i`-th field the target holds the merge of the first `i + 1`. */
  method CopyNext(fs: seq<Field>, i: int, src: Record, ghost tgt: Record, target: Instance)
    requires DistinctNames(fs) && Conforms(fs, src) && 0 <= i < |fs|
    requires target.vals == Merged(fs[..i], src, target.decl.fields, tgt)
    requires Conforms(target.decl.fields, target.vals)
    modifies target
    ensures target.vals == Merged(fs[..i + 1], src, target.decl.fields, tgt)
    ensures Conforms(target.decl.fields, target.vals)
  {
    MergedPrefixStep(fs, i, src, target.decl.fields, tgt);
    FieldAt(fs, i);
    CopyField(fs[i], src, target);
  }

  /** One step of `copyFields`: the source field `f` is written when the target accepts it. */
  method CopyField(f: Field, src: Record, target: Instance)
    requires Conforms(target.decl.fields, target.vals)
    requires f.name in src ==> TypeOf(src[f.name]) == f.jtype
    modifies target
    ensures Conforms(target.decl.fields, target.vals)
    ensures target.vals == if Transfers([f], src, target.decl.fields, f.name)
      then old(target.vals)[f.name := src[f.name]] else old(target.vals)
  {
    TransfersSingle(f, src, target.decl.fields);
    var targetField := FieldIn(target.decl.fields, f.name);
    if targetField.None? {
      return;
    }
    if Assignable(targetField.value.jtype, f.jtype) {
      if f.name in src {
        ConformsSet(target.decl.fields, target.vals, f.name, src[f.name]);
        target.vals := target.vals[f.name := src[f.name]];
      }
    }
  }

  /** `update`: copy the source's fields onto an existing object. */
  method Update(source: Instance, target: Instance)
    requires source.Valid() && target.Valid()
    modifies target
    ensures target.Valid()
    ensures target.vals == Merged(source.decl.fields, old(source.vals), target.decl.fields, old(target.vals))
  {
    CopyFields(source, target);
  }

  /**
   * `map`: construct the target class with its no-argument constructor and copy
   * the source onto it; a class without that constructor fails with "Mapping failed".
   */
  method Map(source: Instance, targetClass: ClassDecl) returns (r: Result<Instance, string>)
    requires source.Valid() && WellFormed(targetClass)
    ensures r.Err? <==> !targetClass.hasNoArgConstructor
    ensures r.Err? ==> r.error == "Mapping failed"
    ensures r.Ok? ==> fresh(r.value) && r.value.Valid() && r.value.decl == targetClass
    ensures r.Ok? ==> r.value.vals == MapOf(source.decl.fields, source.vals, targetClass)
  {
    if !targetClass.hasNoArgConstructor {
      return Err("Mapping failed");
    }
    var target := new Instance(targetClass);
    CopyFields(source, target);
    return Ok(target);
  }

  /** The state `map` produces: the source merged onto a default-constructed target. */
  function MapOf(fs: seq<Field>, src: Record, targetClass: ClassDecl): Record
  {
    Merged(fs, src, targetClass.fields, targetClass.defaults)
  }

  /**
   * What `map` keeps: a field the target lacks is dropped, a field the source
   * leaves null takes the target's default, and a compatible non-null value is copied.
   */
  lemma MapFieldwise(fs: seq<Field>, src: Record, targetClass: ClassDecl, k: string)
    requires Conforms(targetClass.fields, targetClass.defaults)
    ensures FieldIn(targetClass.fields, k).None? ==> k !in MapOf(fs, src, targetClass)
    ensures k !in src ==> (k in MapOf(fs, src, targetClass) <==> k in targetClass.defaults)
    ensures Transfers(fs, src, targetClass.fields, k) ==> k in MapOf(fs, src, targetClass) && MapOf(fs, src, targetClass)[k] == src[k]
  {
    MergeFieldwise(fs, src, targetClass.fields, targetClass.defaults, k);
  }

  /**
   * Mapping onto a class with no defaults that declares every non-null source
   * field with the same type reproduces the source exactly.
   */
  lemma MapSameFields(fs: seq<Field>, src: Record, targetClass: ClassDecl)
    requires Conforms(fs, src) && Conforms(targetClass.fields, src) && targetClass.defaults == map[]
    ensures MapOf(fs, src, targetClass) == src
  {
    var m := MapOf(fs, src, targetClass);
    forall k ensures (k in m <==> k in src) && (k in m ==> m[k] == src[k]) {
      MergeFieldwise(fs, src, targetClass.fields, map[], k);
    }
  }
}
