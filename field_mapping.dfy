/**
 * From ShotGrid elements to FileMaker records: each fetched element gives
 * one `{"fieldData": ...}` record built from a fixed table of thirteen
 * FileMaker field names, with the empty values left out.
 */
module FieldMapping {
  import opened Wrappers
  import opened Values

  /** One row of the ShotGrid query result: field code to value. */
  type Element = map<string, RawValue>

  /** Where a FileMaker field takes its value from. */
  datatype Source =
    | Field(code: string)               // el.get(code)
    | RefKey(code: string, key: string) // el.get(code, {}).get(key), on an entity reference

  /** One FileMaker field and its source. */
  datatype Entry = Entry(target: string, source: Source)

  /** The table of `mapped_fields`, in the order the record lists its keys. */
  const Table: seq<Entry> := [
    Entry("Plate Name", RefKey("sg_latest_version", "name")),
    Entry("Slate", Field("sg_slate")),
    Entry("Source File Name", Field("sg_camera_file_name")),
    Entry("Timecode In", Field("sg_source_in")),
    Entry("Timecode Out", Field("sg_source_out")),
    Entry("Turnover Package", Field("sg_turnover")),
    Entry("Head In", Field("sg_head_in")),
    Entry("Cut In", Field("sg_cut_in")),
    Entry("Cut Out", Field("sg_cut_out")),
    Entry("Tail Out", Field("sg_tail_out")),
    Entry("LUT", Field("sg_lut")),
    Entry("Notes", Field("description")),
    Entry("ForeignKey", RefKey("shot", "id"))
  ]

  /** `name` is one of the thirteen FileMaker field names of the table. */
  predicate IsTargetName(name: string)
  {
    exists k :: 0 <= k < |Table| && Table[k].target == name
  }

  /**
   * `.get` called on something that is not a dict: Python raises
   * AttributeError, which nothing in the endpoint catches.
   */
  datatype MapError = NotADict(code: string, found: RawValue)

  /**
   * The value one table entry reads from an element. It fails exactly when
   * the entry reads through a reference and the element holds something
   * other than a dict there, and the error carries what it found.
   */
  function Lookup(el: Element, src: Source): (r: Result<RawValue, MapError>)
    ensures r.Err? <==> src.RefKey? && src.code in el && !el[src.code].Dict?
    ensures r.Err? ==> r.error == NotADict(src.code, el[src.code])
  {
    match src
    case Field(code) => Ok(Get(el, code))
    case RefKey(code, key) =>
      if code !in el then Ok(Null)     // the default {} answers None
      else match el[code]
        case Dict(fields) => Ok(Get(fields, key))
        case other => Err(NotADict(code, other))
  }

  /** An ordered dict of FileMaker field name to value. */
  type FieldData = seq<(string, RawValue)>

  /** `mapped_fields`: every table entry with its value, or the first failing lookup. */
  function MappedFields(el: Element, entries: seq<Entry>): (r: Result<FieldData, MapError>)
    ensures r.Ok? ==> |r.value| == |entries|
    ensures r.Ok? ==> forall k :: 0 <= k < |entries| ==>
      Lookup(el, entries[k].source).Ok? && r.value[k] == (entries[k].target, Lookup(el, entries[k].source).value)
    ensures r.Err? <==> exists k :: 0 <= k < |entries| && Lookup(el, entries[k].source).Err?
  {
    if entries == [] then Ok([])
    else match Lookup(el, entries[0].source)
      case Err(e) => Err(e)
      case Ok(v) =>
        match MappedFields(el, entries[1..])
        case Err(e) =>
          assert exists k :: 1 <= k < |entries| && Lookup(el, entries[k].source).Err? by {
            var k :| 0 <= k < |entries[1..]| && Lookup(el, entries[1..][k].source).Err?;
            assert entries[1..][k] == entries[k + 1];
          }
          Err(e)
        case Ok(rest) =>
          assert forall k :: 1 <= k < |entries| ==> entries[k] == entries[1..][k - 1];
          Ok([(entries[0].target, v)] + rest)
  }

  /**
   * The values the record keeps: `v not in (None, "", [])`. Every truthy
   * value is kept, and so are the falsy False, 0 and {}.
   */
  predicate Kept(v: RawValue): (k: bool)
    ensures !k <==> v in {Null, Str(""), List([])}
    ensures Truthy(v) ==> k
  {
    v != Null && v != Str("") && v != List([])
  }

  /** The dict comprehension: the entries whose value is kept, in order. */
  function KeepFilled(fields: FieldData): (r: FieldData)
    ensures |r| <= |fields|
    ensures forall k :: 0 <= k < |r| ==> Kept(r[k].1) && r[k] in fields
  {
    if fields == [] then []
    else (if Kept(fields[0].1) then [fields[0]] else []) + KeepFilled(fields[1..])
  }

  /** The `fieldData` of one element, or the failure that aborts the request. */
  function ElementFieldData(el: Element): (r: Result<FieldData, MapError>)
    ensures r.Ok? ==> forall k :: 0 <= k < |r.value| ==>
      IsTargetName(r.value[k].0) && Kept(r.value[k].1)
  {
    match MappedFields(el, Table)
    case Err(e) => Err(e)
    case Ok(fields) =>
      assert forall k :: 0 <= k < |fields| ==> IsTargetName(fields[k].0) by {
        forall k | 0 <= k < |fields| ensures IsTargetName(fields[k].0) {
          assert Table[k].target == fields[k].0;
        }
      }
      Ok(KeepFilled(fields))
  }

  // ---------------------------------------------------------------
  // Reading a field back from `fieldData`
  // ---------------------------------------------------------------

  /** `fieldData.get(name)` on the ordered dict. */
  function FieldValue(fields: FieldData, name: string): (r: Option<RawValue>)
    ensures r.Some? <==> exists k :: 0 <= k < |fields| && fields[k].0 == name
    ensures r.Some? ==> (name, r.value) in fields
  {
    if fields == [] then None
    else if fields[0].0 == name then Some(fields[0].1)
    else
      var r := FieldValue(fields[1..], name);
      assert forall k :: 1 <= k < |fields| ==> fields[k] == fields[1..][k - 1];
      r
  }

  predicate DistinctKeys(fields: FieldData)
  {
    forall i, j :: 0 <= i < j < |fields| ==> fields[i].0 != fields[j].0
  }

  predicate DistinctTargets(entries: seq<Entry>)
  {
    forall i, j :: 0 <= i < j < |entries| ==> entries[i].target != entries[j].target
  }

  /** No two table entries write the same FileMaker field. */
  lemma TableTargetsDistinct()
    ensures DistinctTargets(Table)
  {
    forall i, j | 0 <= i < j < |Table| ensures Table[i].target != Table[j].target {
      assert |Table[i].target| != |Table[j].target| || Table[i].target[0] != Table[j].target[0];
    }
  }

  lemma {:induction false} FieldValueAt(fields: FieldData, k: nat)
    requires DistinctKeys(fields) && k < |fields|
    ensures FieldValue(fields, fields[k].0) == Some(fields[k].1)
  {
    if k > 0 {
      assert fields[1..][k - 1] == fields[k];
      FieldValueAt(fields[1..], k - 1);
    }
  }

  /** Filtering keeps the value under a key exactly when that value is kept. */
  lemma {:induction false} KeepFilledValue(fields: FieldData, name: string)
    requires DistinctKeys(fields)
    ensures FieldValue(KeepFilled(fields), name) ==
      match FieldValue(fields, name)
      case Some(v) => if Kept(v) then Some(v) else None
      case None => None
  {
    if fields != [] {
      var rest := fields[1..];
      assert forall k :: 0 <= k < |rest| ==> rest[k] == fields[k + 1];
      assert DistinctKeys(rest);
      KeepFilledValue(rest, name);
      var tail := KeepFilled(rest);
      assert KeepFilled(fields) == if Kept(fields[0].1) then [fields[0]] + tail else tail;
      if fields[0].0 == name {
        if !Kept(fields[0].1) {
          assert forall k :: 0 <= k < |rest| ==> rest[k].0 != name;
          assert FieldValue(rest, name) == None;
        }
      } else {
        assert FieldValue(fields, name) == FieldValue(rest, name);
        if Kept(fields[0].1) {
          assert ([fields[0]] + tail)[1..] == tail;
        }
      }
    }
  }

  /** The value a table entry contributes to the record: its looked-up value, if kept. */
  lemma FieldDataEntry(el: Element, k: nat)
    requires k < |Table| && ElementFieldData(el).Ok?
    ensures Lookup(el, Table[k].source).Ok?
    ensures FieldValue(ElementFieldData(el).value, Table[k].target) ==
      var v := Lookup(el, Table[k].source).value; if Kept(v) then Some(v) else None
  {
    var fields := MappedFields(el, Table).value;
    TableTargetsDistinct();
    assert DistinctKeys(fields);
    FieldValueAt(fields, k);
    KeepFilledValue(fields, Table[k].target);
  }

  /** A field copied straight from the element keeps its value, and is absent when that is missing or empty. */
  lemma DirectFieldUnchanged(el: Element, k: nat, code: string)
    requires k < |Table| && Table[k].source == Field(code) && ElementFieldData(el).Ok?
    ensures FieldValue(ElementFieldData(el).value, Table[k].target) ==
      if code in el && Kept(el[code]) then Some(el[code]) else None
  {
    FieldDataEntry(el, k);
  }

  /** `Slate` is `sg_slate` unchanged. */
  lemma SlateIsSourceSlate(el: Element)
    requires ElementFieldData(el).Ok?
    ensures FieldValue(ElementFieldData(el).value, "Slate") ==
      if "sg_slate" in el && Kept(el["sg_slate"]) then Some(el["sg_slate"]) else None
  {
    DirectFieldUnchanged(el, 1, "sg_slate");
  }

  /** `ForeignKey` is the `id` of the `shot` reference, never its name; absent when `shot` is absent. */
  lemma ForeignKeyIsShotId(el: Element)
    requires ElementFieldData(el).Ok?
    ensures "shot" !in el ==> FieldValue(ElementFieldData(el).value, "ForeignKey") == None
    ensures "shot" in el ==> (el["shot"].Dict? &&
      FieldValue(ElementFieldData(el).value, "ForeignKey") ==
        (var id := Get(el["shot"].fields, "id"); if Kept(id) then Some(id) else None))
  {
    FieldDataEntry(el, 12);
  }

  /** `Plate Name` is the `name` of the `sg_latest_version` reference; absent when that is absent. */
  lemma PlateNameIsVersionName(el: Element)
    requires ElementFieldData(el).Ok?
    ensures "sg_latest_version" !in el ==> FieldValue(ElementFieldData(el).value, "Plate Name") == None
    ensures "sg_latest_version" in el ==> (el["sg_latest_version"].Dict? &&
      FieldValue(ElementFieldData(el).value, "Plate Name") ==
        (var name := Get(el["sg_latest_version"].fields, "name"); if Kept(name) then Some(name) else None))
  {
    FieldDataEntry(el, 0);
  }

  /** The mapping fails with the error of the first entry whose lookup fails. */
  lemma {:induction false} MappedFieldsFirstError(el: Element, entries: seq<Entry>, k: nat)
    requires k < |entries| && Lookup(el, entries[k].source).Err?
    requires forall j :: 0 <= j < k ==> Lookup(el, entries[j].source).Ok?
    ensures MappedFields(el, entries) == Err(Lookup(el, entries[k].source).error)
  {
    if k > 0 {
      assert forall j :: 0 <= j < |entries| - 1 ==> entries[1..][j] == entries[j + 1];
      MappedFieldsFirstError(el, entries[1..], k - 1);
    }
  }

  /** The reference field `code` is present but holds no dict, so `.get` on it raises. */
  predicate BrokenRef(el: Element, code: string)
  {
    code in el && !el[code].Dict?
  }

  /**
   * An element is mapped unless one of its two reference fields holds a
   * non-dict (a null reference included); `sg_latest_version` is read first.
   */
  lemma ElementFieldDataFails(el: Element)
    ensures ElementFieldData(el).Err? <==> BrokenRef(el, "sg_latest_version") || BrokenRef(el, "shot")
    ensures BrokenRef(el, "sg_latest_version") ==>
      ElementFieldData(el) == Err(NotADict("sg_latest_version", el["sg_latest_version"]))
    ensures !BrokenRef(el, "sg_latest_version") && BrokenRef(el, "shot") ==>
      ElementFieldData(el) == Err(NotADict("shot", el["shot"]))
  {
    assert Table[0].source == RefKey("sg_latest_version", "name");
    assert Table[12].source == RefKey("shot", "id");
    assert forall k :: 1 <= k < 12 ==> Table[k].source.Field?;
    if BrokenRef(el, "sg_latest_version") {
      MappedFieldsFirstError(el, Table, 0);
    } else if BrokenRef(el, "shot") {
      MappedFieldsFirstError(el, Table, 12);
    }
  }

  lemma {:induction false} KeepFilledDistinct(fields: FieldData)
    requires DistinctKeys(fields)
    ensures DistinctKeys(KeepFilled(fields))
  {
    if fields != [] {
      var rest := fields[1..];
      assert forall k :: 0 <= k < |rest| ==> rest[k] == fields[k + 1];
      KeepFilledDistinct(rest);
      var tail := KeepFilled(rest);
      forall k | 0 <= k < |tail| ensures tail[k].0 != fields[0].0 {
        var m :| 0 <= m < |rest| && rest[m] == tail[k];
      }
    }
  }

  /** Each FileMaker field name occurs at most once in a record. */
  lemma FieldDataDistinct(el: Element)
    requires ElementFieldData(el).Ok?
    ensures DistinctKeys(ElementFieldData(el).value)
  {
    TableTargetsDistinct();
    KeepFilledDistinct(MappedFields(el, Table).value);
  }

  /** An element holding none of the fields still yields a record, with empty `fieldData`. */
  lemma EmptyElementGivesEmptyRecord(el: Element)
    requires el == map[]
    ensures ElementFieldData(el) == Ok([])
  {
    assert MappedFields(el, Table).Ok? by {
      ElementFieldDataFails(el);
    }
    var fields := MappedFields(el, Table).value;
    assert forall k :: 0 <= k < |fields| ==> fields[k].1 == Null by {
      forall k | 0 <= k < |Table| ensures Lookup(el, Table[k].source) == Ok(Null) {
      }
    }
    KeepFilledNone(fields);
  }

  lemma {:induction false} KeepFilledNone(fields: FieldData)
    requires forall k :: 0 <= k < |fields| ==> !Kept(fields[k].1)
    ensures KeepFilled(fields) == []
  {
    if fields != [] {
      assert forall k :: 0 <= k < |fields| - 1 ==> fields[1..][k] == fields[k + 1];
      KeepFilledNone(fields[1..]);
    }
  }

  /** A zero slate is kept. */
  lemma ExampleZeroKept(el: Element)
    requires "sg_slate" in el && el["sg_slate"] == Int(0)
    requires ElementFieldData(el).Ok?
    ensures FieldValue(ElementFieldData(el).value, "Slate") == Some(Int(0))
  {
    SlateIsSourceSlate(el);
  }

  /** A false LUT is kept. */
  lemma ExampleFalseKept(el: Element)
    requires "sg_lut" in el && el["sg_lut"] == Bool(false)
    requires ElementFieldData(el).Ok?
    ensures FieldValue(ElementFieldData(el).value, "LUT") == Some(Bool(false))
  {
    DirectFieldUnchanged(el, 10, "sg_lut");
  }

  /** Empty notes are dropped. */
  lemma ExampleEmptyStringDropped(el: Element)
    requires "description" in el && el["description"] == Str("")
    requires ElementFieldData(el).Ok?
    ensures FieldValue(ElementFieldData(el).value, "Notes") == None
  {
    DirectFieldUnchanged(el, 11, "description");
  }

  /** A shot reference contributes its id, not its name. */
  lemma ExampleShotIdNotName(el: Element)
    requires "shot" in el && el["shot"] == Dict(map["id" := Int(42), "name" := Str("SH010")])
    requires ElementFieldData(el).Ok?
    ensures FieldValue(ElementFieldData(el).value, "ForeignKey") == Some(Int(42))
  {
    ForeignKeyIsShotId(el);
  }

  /** A null `shot` (or `sg_latest_version`) makes `.get` raise: the request fails. */
  lemma ExampleNullReferenceFails(el: Element)
    requires "shot" in el && el["shot"] == Null
    requires "sg_latest_version" !in el
    ensures ElementFieldData(el) == Err(NotADict("shot", Null))
  {
    ElementFieldDataFails(el);
  }

  /** One FileMaker record: `{"fieldData": ...}`. */
  datatype FmRecord = FmRecord(fieldData: FieldData)

  /** Every element maps to a fieldData without error. */
  predicate AllMapped(elements: seq<Element>)
  {
    forall i :: 0 <= i < |elements| ==> ElementFieldData(elements[i]).Ok?
  }

  /** `e` is the error of the first element that does not map. */
  predicate FirstFailure(elements: seq<Element>, e: MapError)
  {
    exists i :: 0 <= i < |elements| && ElementFieldData(elements[i]) == Err(e) &&
      forall j :: 0 <= j < i ==> ElementFieldData(elements[j]).Ok?
  }

  /** `records` holds one record per element, in order, each with that element's fieldData. */
  predicate RecordsFor(elements: seq<Element>, records: seq<FmRecord>)
  {
    |records| == |elements| &&
    forall i :: 0 <= i < |elements| ==> ElementFieldData(elements[i]) == Ok(records[i].fieldData)
  }

  /**
   * The mapping loop: one record per element, in element order. The first
   * element whose reference field holds something other than a dict stops
   * the loop with that error.
   */
  method BuildRecords(elements: seq<Element>) returns (r: Result<seq<FmRecord>, MapError>)
    ensures r.Ok? <==> AllMapped(elements)
    ensures r.Ok? ==> RecordsFor(elements, r.value)
    ensures r.Err? ==> FirstFailure(elements, r.error)
  {
    var fmRecords: seq<FmRecord> := [];
    var i := 0;
    while i < |elements|
      invariant 0 <= i <= |elements|
      invariant |fmRecords| == i
      invariant forall k :: 0 <= k < i ==> ElementFieldData(elements[k]) == Ok(fmRecords[k].fieldData)
    {
      var fieldData := ElementFieldData(elements[i]);
      if fieldData.Err? {
        return Err(fieldData.error);
      }
      fmRecords := fmRecords + [FmRecord(fieldData.value)];
      i := i + 1;
    }
    return Ok(fmRecords);
  }
}
