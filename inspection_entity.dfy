/**
 * The inspection entity: its declared fields, the builder's defaults and the
 * generation of the human-readable inspection number from the database id.
 */
module InspectionEntity {
  import opened Wrappers
  import opened Text
  import opened Beans

  /** The persisted fields of an inspection, in declaration order. */
  const InspectionFields: seq<Field> := [
    Field("id", JLong), Field("branch", JString), Field("inspectionNo", JString),
    Field("transformerNo", JString), Field("inspectedDate", JString), Field("maintenanceDate", JString),
    Field("status", JString), Field("inspectorName", JString), Field("engineerStatus", JString),
    Field("voltage", JString), Field("current", JString), Field("recommendedAction", JString),
    Field("additionalRemarks", JString)]

  const InspectionEntityClass: ClassDecl := ClassDecl(InspectionFields, true, map[])

  lemma NamesDistinct()
    ensures DistinctNames(InspectionFields)
  {
    forall i, j | 0 <= i < j < |InspectionFields|
      ensures InspectionFields[i].name != InspectionFields[j].name
    {
      var a, b := InspectionFields[i].name, InspectionFields[j].name;
      assert |a| != |b| || a[|a| - 1] != b[|b| - 1] || a[0] != b[0] || (|a| > 7 && a[7] != b[7]);
    }
  }

  lemma EntityClassWellFormed()
    ensures WellFormed(InspectionEntityClass)
    ensures FieldIn(InspectionFields, "inspectionNo") == Some(Field("inspectionNo", JString))
  {
    NamesDistinct();
    FieldAt(InspectionFields, 2);
  }

  /** The entity's text fields: every field except the id. */
  const TextFields: set<string> := {
    "branch", "inspectionNo", "transformerNo", "inspectedDate", "maintenanceDate", "status",
    "inspectorName", "engineerStatus", "voltage", "current", "recommendedAction", "additionalRemarks"}

  lemma TextFieldsAfterId()
    ensures forall k :: k in TextFields ==> exists i :: 1 <= i < |InspectionFields| && InspectionFields[i] == Field(k, JString)
  {
    forall k | k in TextFields
      ensures exists i :: 1 <= i < |InspectionFields| && InspectionFields[i] == Field(k, JString)
    {
      if k == "branch" { assert InspectionFields[1] == Field(k, JString); }
      else if k == "inspectionNo" { assert InspectionFields[2] == Field(k, JString); }
      else if k == "transformerNo" { assert InspectionFields[3] == Field(k, JString); }
      else if k == "inspectedDate" { assert InspectionFields[4] == Field(k, JString); }
      else if k == "maintenanceDate" { assert InspectionFields[5] == Field(k, JString); }
      else if k == "status" { assert InspectionFields[6] == Field(k, JString); }
      else if k == "inspectorName" { assert InspectionFields[7] == Field(k, JString); }
      else if k == "engineerStatus" { assert InspectionFields[8] == Field(k, JString); }
      else if k == "voltage" { assert InspectionFields[9] == Field(k, JString); }
      else if k == "current" { assert InspectionFields[10] == Field(k, JString); }
      else if k == "recommendedAction" { assert InspectionFields[11] == Field(k, JString); }
      else { assert InspectionFields[12] == Field(k, JString); }
    }
  }

  lemma TextField(k: string)
    requires k in TextFields
    ensures FieldIn(InspectionFields, k) == Some(Field(k, JString))
  {
    TextFieldsAfterId();
    NamesDistinct();
    var i :| 1 <= i < |InspectionFields| && InspectionFields[i] == Field(k, JString);
    FieldAt(InspectionFields, i);
  }

  lemma IdField()
    ensures FieldIn(InspectionFields, "id") == Some(Field("id", JLong))
  {
    NamesDistinct();
    assert InspectionFields[0] == Field("id", JLong);
    FieldAt(InspectionFields, 0);
  }

  lemma ValueConforms(k: string, v: Value)
    requires (k in TextFields && v.VString?) || (k == "id" && v.VLong?)
    ensures FieldIn(InspectionFields, k).Some? && TypeOf(v) == FieldIn(InspectionFields, k).value.jtype
  {
    if k == "id" && v.VLong? {
      IdField();
    } else {
      TextField(k);
    }
  }

  /** A record of text values in text fields, plus possibly an id, is an inspection. */
  lemma TextRecordConforms(rec: Record)
    requires forall k :: k in rec ==> (k in TextFields && rec[k].VString?) || (k == "id" && rec[k].VLong?)
    ensures Conforms(InspectionFields, rec)
  {
    forall k | k in rec
      ensures FieldIn(InspectionFields, k).Some? && TypeOf(rec[k]) == FieldIn(InspectionFields, k).value.jtype
    {
      ValueConforms(k, rec[k]);
    }
  }

  /** The stored id of an entity, or null. */
  function IdValue(rec: Record): Option<int>
  {
    if "id" in rec && rec["id"].VLong? then Some(rec["id"].n) else None
  }

  /**
   * `String.format("INSP-%03d", id)`: the prefix, then the id in decimal padded
   * with zeros to at least three characters. A null id is printed as "null".
   */
  function InspectionNumber(id: Option<int>): (r: string)
    ensures |r| >= 8 && StartsWith(r, "INSP-")
    ensures id.None? ==> r == "INSP-null"
    ensures id.Some? && id.value >= 0 ==> ParseNat(r[5..]) == Some(id.value)
  {
    "INSP-" + if id.Some? then FormatZeroPadded(id.value, 3) else "null"
  }

  /** Ids below 1000 take exactly three digits; larger ids are printed in full. */
  lemma InspectionNumberWidth(id: nat)
    ensures id < 1000 ==> |InspectionNumber(Some(id))| == 8
    ensures id >= 1000 ==> InspectionNumber(Some(id)) == "INSP-" + NatToString(id)
  {
    ThreeDigits(id);
  }

  /** A small id is zero-padded: 7 gives "INSP-007". */
  lemma SmallIdPadded()
    ensures InspectionNumber(Some(7)) == "INSP-007"
  {
    assert NatToString(7) == "7";
    assert PadZeros("7", 3) == "007" by { assert Zeros(2) == "00"; }
    assert FormatZeroPadded(7, 3) == "007";
  }

  /** A four-digit id is printed in full: 1234 gives "INSP-1234". */
  lemma LargeIdInFull()
    ensures InspectionNumber(Some(1234)) == "INSP-1234"
  {
    assert NatToString(1) == "1";
    assert NatToString(12) == "12";
    assert NatToString(123) == "123";
    assert NatToString(1234) == "1234";
    assert FormatZeroPadded(1234, 3) == "1234";
  }

  /** Distinct non-negative ids never share an inspection number. */
  lemma InspectionNumberInjective(a: nat, b: nat)
    requires InspectionNumber(Some(a)) == InspectionNumber(Some(b))
    ensures a == b
  {
    assert InspectionNumber(Some(a))[5..] == InspectionNumber(Some(b))[5..];
  }

  /**
   * `generateInspectionNo`: set the inspection number from the entity's own id;
   * every other field keeps its value.
   */
  method GenerateInspectionNo(entity: Instance)
    requires entity.Valid() && entity.decl == InspectionEntityClass
    modifies entity
    ensures entity.Valid()
    ensures entity.vals == old(entity.vals)["inspectionNo" := VString(InspectionNumber(IdValue(old(entity.vals))))]
  {
    EntityClassWellFormed();
    var no := InspectionNumber(IdValue(entity.vals));
    ConformsSet(InspectionFields, entity.vals, "inspectionNo", VString(no));
    entity.vals := entity.vals["inspectionNo" := VString(no)];
  }

  /**
   * The builder: the fields given explicitly, with the two builder defaults
   * filled in where not given: the maintenance date is the current time as
   * rendered by the entity (`now`), and the status is "Pending".
   */
  function Build(given: Record, now: string): (r: Record)
    ensures r.Keys == given.Keys + {"maintenanceDate", "status"}
    ensures forall k :: k in given ==> r[k] == given[k]
    ensures "status" !in given ==> r["status"] == VString("Pending")
    ensures "maintenanceDate" !in given ==> r["maintenanceDate"] == VString(now)
  {
    var withDate := if "maintenanceDate" in given then given else given["maintenanceDate" := VString(now)];
    if "status" in withDate then withDate else withDate["status" := VString("Pending")]
  }
}
