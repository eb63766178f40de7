/**
 * The demographic breakdown of a report, computed from the feedback rows
 * themselves: for every demographic column that has a value somewhere, how
 * many rows hold each distinct value.
 */
module Demographics {
  import opened FeedbackTypes
  import opened SeqUtil

  const DemographicFields: seq<string> := ["age", "location", "device_type", "user_segment"]

  const ZeroMetrics: SentimentMetrics := SentimentMetrics(0, 0, 0, 0, 0, 0)

  /**
   * The property names every plain object inherits from `Object.prototype`
   * in ECMAScript. Looking one of them up in a value table `{}` finds the
   * inherited member (a function, or the prototype itself for `__proto__`),
   * which is truthy.
   */
  const InheritedNames: set<string> := {
    "constructor", "hasOwnProperty", "isPrototypeOf", "propertyIsEnumerable",
    "toLocaleString", "toString", "valueOf", "__proto__",
    "__defineGetter__", "__defineSetter__", "__lookupGetter__", "__lookupSetter__"}

  /** `entry[field]` for a demographic column name. */
  function FieldValue(e: FeedbackEntry, field: string): Option<string> {
    if field == "age" then e.age
    else if field == "location" then e.location
    else if field == "device_type" then e.deviceType
    else if field == "user_segment" then e.userSegment
    else None
  }

  /** The truthy values of `field`, in row order. */
  function PresentValues(data: seq<FeedbackEntry>, field: string): seq<string> {
    if data == [] then []
    else
      var v := FieldValue(data[|data| - 1], field);
      PresentValues(data[..|data| - 1], field) + (if Truthy(v) then [v.value] else [])
  }

  /** Number of rows whose `field` is exactly `Some(v)`. */
  function Holding(data: seq<FeedbackEntry>, field: string, v: string): nat {
    if data == [] then 0
    else Holding(data[..|data| - 1], field, v) + (if FieldValue(data[|data| - 1], field) == Some(v) then 1 else 0)
  }

  /**
   * One occurrence of `v` counted into the value table `m`. The lookup
   * `!m[v]` fails both for an own record and for an inherited name, so a
   * record starting at 0 is created only for a value that is neither; the
   * increment then goes to the own record, or, for an inherited name, to
   * the inherited member outside the table.
   */
  function CountOne(m: map<string, DemographicValue>, v: string): (r: map<string, DemographicValue>)
    ensures r.Keys == if v in InheritedNames && v !in m then m.Keys else m.Keys + {v}
    ensures v in m ==> r[v] == m[v].(count := m[v].count + 1)
    ensures v !in m && v !in InheritedNames ==> r[v] == DemographicValue(1, 0, ZeroMetrics)
    ensures forall u :: u in m && u != v ==> r[u] == m[u]
  {
    var found := v in m || v in InheritedNames;
    var m' := if !found then m[v := DemographicValue(0, 0, ZeroMetrics)] else m;
    if v in m' then m'[v := m'[v].(count := m'[v].count + 1)] else m'
  }

  /** The value table after counting `values` in order. */
  function ValueCounts(values: seq<string>): map<string, DemographicValue> {
    if values == [] then map[]
    else CountOne(ValueCounts(values[..|values| - 1]), values[|values| - 1])
  }

  /** The breakdown after visiting the columns `fields` in order. */
  function DemographicsFor(data: seq<FeedbackEntry>, fields: seq<string>): DemographicData {
    if fields == [] then map[]
    else
      var m := DemographicsFor(data, fields[..|fields| - 1]);
      var f := fields[|fields| - 1];
      if PresentValues(data, f) != [] then m[f := ValueCounts(PresentValues(data, f))] else m
  }

  function DemographicsOf(data: seq<FeedbackEntry>): DemographicData {
    DemographicsFor(data, DemographicFields)
  }

  lemma PresentValuesSnoc(data: seq<FeedbackEntry>, j: nat, field: string)
    requires j < |data|
    ensures PresentValues(data[..j + 1], field)
      == PresentValues(data[..j], field) + (if Truthy(FieldValue(data[j], field)) then [FieldValue(data[j], field).value] else [])
  {
    assert data[..j + 1][..j] == data[..j];
  }

  lemma DemographicsForSnoc(data: seq<FeedbackEntry>, fields: seq<string>, field: string)
    ensures DemographicsFor(data, fields + [field])
      == if PresentValues(data, field) != []
         then DemographicsFor(data, fields)[field := ValueCounts(PresentValues(data, field))]
         else DemographicsFor(data, fields)
  {
    assert (fields + [field])[..|fields|] == fields;
  }

  /** A visited column is listed exactly when it has a truthy value, with its value counts. */
  lemma {:induction false} DemographicsForSpec(data: seq<FeedbackEntry>, fields: seq<string>)
    ensures forall f :: f in DemographicsFor(data, fields) <==> f in fields && PresentValues(data, f) != []
    ensures forall f :: f in DemographicsFor(data, fields) ==> DemographicsFor(data, fields)[f] == ValueCounts(PresentValues(data, f))
  {
    if fields != [] {
      var p := fields[..|fields| - 1];
      DemographicsForSpec(data, p);
      assert fields == p + [fields[|fields| - 1]];
    }
  }

  /**
   * Each distinct value that does not name an inherited member is listed
   * with the number of times it occurs; an inherited name is never listed.
   */
  lemma {:induction false} ValueCountsAt(values: seq<string>)
    ensures forall v :: v in ValueCounts(values) <==> v in values && v !in InheritedNames
    ensures forall v :: v in values && v !in InheritedNames ==>
      ValueCounts(values)[v] == DemographicValue(multiset(values)[v], 0, ZeroMetrics)
  {
    if values != [] {
      var p := values[..|values| - 1];
      assert values == p + [values[|values| - 1]];
      ValueCountsAt(p);
    }
  }

  /**
   * `buildDemographicsBreakdown`: for each demographic column that some row
   * has a truthy value for, count the rows per distinct value.
   */
  method BuildDemographicsBreakdown(data: seq<FeedbackEntry>) returns (demographics: DemographicData)
    ensures demographics == DemographicsOf(data)
  {
    demographics := map[];
    for i := 0 to |DemographicFields|
      invariant demographics == DemographicsFor(data, DemographicFields[..i])
    {
      var field := DemographicFields[i];
      assert DemographicFields[..i + 1] == DemographicFields[..i] + [field];
      DemographicsForSnoc(data, DemographicFields[..i], field);
      if PresentValues(data, field) != [] {
        var counts := CountValues(data, field);
        demographics := demographics[field := counts];
      }
    }
    assert DemographicFields[..|DemographicFields|] == DemographicFields;
  }

  lemma ValueCountsSnoc(values: seq<string>, v: string)
    ensures ValueCounts(values + [v]) == CountOne(ValueCounts(values), v)
  {
    assert (values + [v])[..|values|] == values;
  }

  /** The body of the inner loop for one truthy value: `if (!counts[v]) counts[v] = {...}; counts[v].count++`. */
  method CountValue(counts: map<string, DemographicValue>, v: string) returns (r: map<string, DemographicValue>)
    ensures r == CountOne(counts, v)
  {
    r := counts;
    if v !in r && v !in InheritedNames {
      r := r[v := DemographicValue(0, 0, ZeroMetrics)];
    }
    if v in r {
      var current := r[v];
      r := r[v := current.(count := current.count + 1)];
    }
  }

  /** The inner loop of `buildDemographicsBreakdown` for one column. */
  method CountValues(data: seq<FeedbackEntry>, field: string) returns (counts: map<string, DemographicValue>)
    ensures counts == ValueCounts(PresentValues(data, field))
  {
    counts := map[];
    for j := 0 to |data|
      invariant counts == ValueCounts(PresentValues(data[..j], field))
    {
      PresentValuesSnoc(data, j, field);
      var value := FieldValue(data[j], field);
      if value.Some? && value.value != "" {
        ValueCountsSnoc(PresentValues(data[..j], field), value.value);
        counts := CountValue(counts, value.value);
      } else {
        assert PresentValues(data[..j], field) + [] == PresentValues(data[..j], field);
      }
    }
    assert data[..|data|] == data;
  }

  // ---------------------------------------------------------------------------
  // Properties of the breakdown
  // ---------------------------------------------------------------------------

  lemma {:induction false} PresentValuesSpec(data: seq<FeedbackEntry>, field: string)
    ensures forall v :: (v in PresentValues(data, field)
      <==> v != "" && exists k :: 0 <= k < |data| && FieldValue(data[k], field) == Some(v))
    ensures forall v :: v != "" ==> multiset(PresentValues(data, field))[v] == Holding(data, field, v)
  {
    if data != [] {
      var p := data[..|data| - 1];
      PresentValuesSpec(p, field);
      forall v | v != "" && (exists k :: 0 <= k < |data| && FieldValue(data[k], field) == Some(v))
        ensures v in PresentValues(data, field)
      {
        var k :| 0 <= k < |data| && FieldValue(data[k], field) == Some(v);
        if k < |data| - 1 {
          assert p[k] == data[k];
        }
      }
      forall v | v in PresentValues(data, field)
        ensures exists k :: 0 <= k < |data| && FieldValue(data[k], field) == Some(v)
      {
        if v in PresentValues(p, field) {
          var k :| 0 <= k < |p| && FieldValue(p[k], field) == Some(v);
          assert data[k] == p[k];
        } else {
          assert FieldValue(data[|data| - 1], field) == Some(v);
        }
      }
    }
  }

  /** A column is in the breakdown exactly when some row has a truthy value for it. */
  lemma DemographicsPresence(data: seq<FeedbackEntry>, field: string)
    ensures field in DemographicsOf(data)
      <==> (field in DemographicFields
        && exists k :: 0 <= k < |data| && Truthy(FieldValue(data[k], field)))
  {
    PresentValuesSpec(data, field);
    DemographicsForSpec(data, DemographicFields);
    if exists k :: 0 <= k < |data| && Truthy(FieldValue(data[k], field)) {
      var k :| 0 <= k < |data| && Truthy(FieldValue(data[k], field));
      assert FieldValue(data[k], field).value in PresentValues(data, field);
    }
    if PresentValues(data, field) != [] {
      var v := PresentValues(data, field)[0];
      assert v in PresentValues(data, field);
    }
  }

  /**
   * The values listed for a column are exactly its truthy values that do not
   * name an inherited member; each one counts the rows holding it; the
   * average score and the sentiment figures are left at 0.
   */
  lemma DemographicValueCounts(data: seq<FeedbackEntry>, field: string, v: string)
    requires field in DemographicsOf(data)
    ensures v in DemographicsOf(data)[field]
      <==> (v != "" && v !in InheritedNames && exists k :: 0 <= k < |data| && FieldValue(data[k], field) == Some(v))
    ensures v in DemographicsOf(data)[field]
      ==> DemographicsOf(data)[field][v] == DemographicValue(Holding(data, field, v), 0, ZeroMetrics)
  {
    var values := PresentValues(data, field);
    DemographicsForSpec(data, DemographicFields);
    assert DemographicsOf(data)[field] == ValueCounts(values);
    PresentValuesSpec(data, field);
    ValueCountsAt(values);
  }

  /** Sum of the counts listed under `keys`. */
  function SumCounts(m: map<string, DemographicValue>, keys: seq<string>): int {
    if keys == [] then 0
    else
      var k := keys[|keys| - 1];
      SumCounts(m, keys[..|keys| - 1]) + (if k in m then m[k].count else 0)
  }

  /** The values that get a record: those not naming an inherited member, in order. */
  function Listed(values: seq<string>): (r: seq<string>)
    ensures forall v :: v in r <==> v in values && v !in InheritedNames
    ensures forall v :: v !in InheritedNames ==> multiset(r)[v] == multiset(values)[v]
    ensures (forall v :: v in values ==> v !in InheritedNames) ==> r == values
  {
    if values == [] then []
    else
      var p := values[..|values| - 1];
      var v := values[|values| - 1];
      assert values == p + [v];
      assert forall u :: u in p ==> u in values;
      Listed(p) + (if v in InheritedNames then [] else [v])
  }

  lemma {:induction false} SumCountsOfValueCounts(values: seq<string>, keys: seq<string>)
    requires forall k :: k in keys ==> k in values
    ensures SumCounts(ValueCounts(values), keys) == SumOccurrences(keys, Listed(values))
  {
    ValueCountsAt(values);
    if keys != [] {
      SumCountsOfValueCounts(values, keys[..|keys| - 1]);
    }
  }

  /**
   * The counts of one column add up to the number of rows with a truthy
   * value for it that does not name an inherited member: every such row is
   * counted under exactly one value, and no other row is counted.
   */
  lemma DemographicCountsSum(data: seq<FeedbackEntry>, field: string)
    requires field in DemographicsOf(data)
    ensures var values := PresentValues(data, field);
      SumCounts(DemographicsOf(data)[field], Dedup(values)) == |Listed(values)|
  {
    var values := PresentValues(data, field);
    DemographicsForSpec(data, DemographicFields);
    SumCountsOfValueCounts(values, Dedup(values));
    SumOccurrencesCovering(Dedup(values), Listed(values));
  }

  /**
   * A row from the location `constructor` leaves the location table empty:
   * the lookup finds the inherited `Object` constructor, so no record is made.
   */
  lemma ConstructorLocation()
    ensures DemographicsOf([FeedbackEntry("Great", 9.0, None, Some("constructor"), None, None, None)])
      == map["location" := map[]]
  {
    var data := [FeedbackEntry("Great", 9.0, None, Some("constructor"), None, None, None)];
    assert data[..0] == [];
    assert PresentValues(data, "age") == [];
    assert PresentValues(data, "location") == ["constructor"];
    assert PresentValues(data, "device_type") == [];
    assert PresentValues(data, "user_segment") == [];
    assert ValueCounts(["constructor"]) == map[] by {
      assert ["constructor"][..0] == [];
    }
    DemographicsForSnoc(data, [], "age");
    DemographicsForSnoc(data, ["age"], "location");
    DemographicsForSnoc(data, ["age", "location"], "device_type");
    DemographicsForSnoc(data, ["age", "location", "device_type"], "user_segment");
    assert [] + ["age"] == ["age"];
    assert ["age"] + ["location"] == ["age", "location"];
    assert ["age", "location"] + ["device_type"] == ["age", "location", "device_type"];
    assert ["age", "location", "device_type"] + ["user_segment"] == DemographicFields;
  }
}
