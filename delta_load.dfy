/**
 * The delta (upsert) load: per-entity transforms stamped with
 * `updated_date`/`updated_by`, conversion of rows to items that leave out
 * missing values, the put-only synchronisation, and the per-entity step
 * with its short cut for an empty frame (a file with a header and no data
 * rows; a file with no header at all makes `read_csv` raise).
 */
module DeltaLoad {
  import opened Wrappers
  import opened Frames
  import opened Store
  import opened Outcomes
  import opened Entities
  import Text
  import FullLoad

  const UpdatedDate := "updated_date"
  const UpdatedBy := "updated_by"

  /** The column assignments of the five delta transforms, in order. */
  function DeltaRules(e: Entity): (r: seq<Rule>)
    ensures DistinctColumns(r)
    ensures UpdatedDate !in RuleColumns(r) && UpdatedBy !in RuleColumns(r)
    ensures PrimaryKey(e) !in RuleColumns(r)
    ensures forall j :: 0 <= j < |r| ==> !r[j].op.ToInt? && !r[j].op.ToFloat?
    ensures e != Appointments ==> AllText(r)
  {
    match e
    case Patients =>
      [Rule("first_name", Strip), Rule("last_name", Strip),
       Rule("gender", FillUpper(UnknownGender)), Rule("email", Lower),
       Rule("insurance_provider", Upper)]
    case Doctors =>
      [Rule("specialization", Upper), Rule("email", Lower)]
    case Appointments =>
      [Rule("appointment_date", ParseDate), Rule("status", Upper)]
    case Treatments =>
      [Rule("treatment_type", Upper)]
    case Billing =>
      [Rule("payment_method", Upper), Rule("payment_status", Upper)]
  }

  /**
   * The delta transforms: the entity's column rules, then `updated_date`
   * and `updated_by`. `TransformOk` states when this raises, and
   * `TransformShape` that it keeps every row and column and stamps every
   * row with the run timestamp and "ETL_USER".
   */
  function DeltaTransform(e: Entity, f: Frame, ts: string, p: Parsers): Result<Frame>
    requires WellFormed(f)
  {
    Transform(f, DeltaRules(e), UpdatedDate, UpdatedBy, ts, p)
  }

  /**
   * Every delta rule is also a rule of the full load for the same entity:
   * the delta transforms are the full ones without the date and number
   * conversions (the appointment date is parsed by both).
   */
  lemma DeltaRulesWithinFull(e: Entity)
    ensures forall j :: 0 <= j < |DeltaRules(e)| ==> DeltaRules(e)[j] in FullLoad.FullRules(e)
  {
  }

  /**
   * Apart from the appointment date, the delta transforms only strip and
   * change case, so they raise exactly when one of their columns is
   * missing from the file.
   */
  lemma DeltaTransformFailsOnlyOnMissingColumn(e: Entity, f: Frame, ts: string, p: Parsers)
    requires WellFormed(f) && e != Appointments
    ensures DeltaTransform(e, f, ts, p).Ok? <==> RuleColumns(DeltaRules(e)) <= f.columns
  {
    var rules := DeltaRules(e);
    TransformOk(f, rules, UpdatedDate, UpdatedBy, ts, p);
    if RuleColumns(rules) <= f.columns {
      forall i, j | 0 <= i < |f.rows| && 0 <= j < |rules|
        ensures ApplyCell(rules[j].op, f.rows[i][rules[j].column], p).Ok?
      {
        assert rules[j].column in RuleColumns(rules);
        assert IsTextOp(rules[j].op);
      }
    }
  }

  /**
   * The delta transforms other than the appointments one are idempotent:
   * applied to their own output they return it unchanged (the stamps are
   * rewritten with the same values).
   */
  lemma DeltaTransformIdempotent(e: Entity, f: Frame, ts: string, p: Parsers)
    requires WellFormed(f) && e != Appointments
    requires DeltaTransform(e, f, ts, p).Ok?
    ensures var g := DeltaTransform(e, f, ts, p).value;
            DeltaTransform(e, g, ts, p) == Ok(g)
  {
    TransformIdempotent(f, DeltaRules(e), UpdatedDate, UpdatedBy, ts, p);
  }

  /**
   * A transform that succeeds keeps every row and every column and adds
   * `updated_date` holding the run timestamp and `updated_by` holding "ETL_USER"
   * to every row.
   */
  lemma DeltaTransformStamps(e: Entity, f: Frame, ts: string, p: Parsers)
    requires WellFormed(f)
    requires DeltaTransform(e, f, ts, p).Ok?
    ensures var out := DeltaTransform(e, f, ts, p).value;
            && |out.rows| == |f.rows|
            && out.columns == f.columns + {UpdatedDate, UpdatedBy}
            && forall i :: 0 <= i < |out.rows| ==>
                 out.rows[i][UpdatedDate] == Some(ts) && out.rows[i][UpdatedBy] == Some(Actor)
  {
    TransformShape(f, DeltaRules(e), UpdatedDate, UpdatedBy, ts, p);
  }

  /** Every column the delta transform does not assign keeps its value. */
  lemma DeltaTransformKeepsOtherColumns(e: Entity, f: Frame, ts: string, p: Parsers)
    requires WellFormed(f)
    requires DeltaTransform(e, f, ts, p).Ok?
    ensures var out := DeltaTransform(e, f, ts, p).value;
            forall i, c :: 0 <= i < |f.rows| && c in f.columns && c !in RuleColumns(DeltaRules(e))
                           && c != UpdatedDate && c != UpdatedBy ==>
              out.rows[i][c] == f.rows[i][c]
  {
    TransformEffect(f, DeltaRules(e), UpdatedDate, UpdatedBy, ts, p);
  }

  /** Delta `patients_transform`: first and last names are stripped. */
  lemma DeltaPatientsNames(f: Frame, ts: string, p: Parsers)
    requires WellFormed(f)
    requires DeltaTransform(Patients, f, ts, p).Ok?
    ensures {"first_name", "last_name"} <= f.columns
    ensures var out := DeltaTransform(Patients, f, ts, p).value;
            forall i :: 0 <= i < |f.rows| ==>
              && out.rows[i]["first_name"] == MapText(Text.Strip, f.rows[i]["first_name"])
              && out.rows[i]["last_name"] == MapText(Text.Strip, f.rows[i]["last_name"])
  {
    var rules := DeltaRules(Patients);
    TransformTextColumn(f, rules, UpdatedDate, UpdatedBy, ts, p, 0, "first_name", Strip);
    TransformTextColumn(f, rules, UpdatedDate, UpdatedBy, ts, p, 1, "last_name", Strip);
  }

  /** Delta `patients_transform`: the email is lower-cased. */
  lemma DeltaPatientsEmail(f: Frame, ts: string, p: Parsers)
    requires WellFormed(f)
    requires DeltaTransform(Patients, f, ts, p).Ok?
    ensures "email" in f.columns
    ensures var out := DeltaTransform(Patients, f, ts, p).value;
            forall i :: 0 <= i < |f.rows| ==> out.rows[i]["email"] == MapText(Text.Lower, f.rows[i]["email"])
  {
    TransformTextColumn(f, DeltaRules(Patients), UpdatedDate, UpdatedBy, ts, p, 3, "email", Lower);
  }

  /** Delta `patients_transform`: the insurer is upper-cased. */
  lemma DeltaPatientsInsurer(f: Frame, ts: string, p: Parsers)
    requires WellFormed(f)
    requires DeltaTransform(Patients, f, ts, p).Ok?
    ensures "insurance_provider" in f.columns
    ensures var out := DeltaTransform(Patients, f, ts, p).value;
            forall i :: 0 <= i < |f.rows| ==> out.rows[i]["insurance_provider"] == MapText(Text.Upper, f.rows[i]["insurance_provider"])
  {
    TransformTextColumn(f, DeltaRules(Patients), UpdatedDate, UpdatedBy, ts, p, 4, "insurance_provider", Upper);
  }

  /**
   * Delta `patients_transform`: a missing gender becomes "UNKNOWN" and a
   * present one is upper-cased, so the gender is never missing afterwards.
   */
  lemma DeltaPatientsGender(f: Frame, ts: string, p: Parsers)
    requires WellFormed(f)
    requires DeltaTransform(Patients, f, ts, p).Ok?
    ensures "gender" in f.columns
    ensures var out := DeltaTransform(Patients, f, ts, p).value;
            forall i :: 0 <= i < |f.rows| ==>
              && (f.rows[i]["gender"].Some? ==> out.rows[i]["gender"] == Some(Text.Upper(f.rows[i]["gender"].value)))
              && (f.rows[i]["gender"].None? ==> out.rows[i]["gender"] == Some(UnknownGender))
  {
    var rules := DeltaRules(Patients);
    TransformFillColumn(f, rules, UpdatedDate, UpdatedBy, ts, p, 2, "gender", UnknownGender);
    UnknownGenderIsUpper();
  }

  /**
   * `build_dynamodb_item` as a value: one attribute per column whose value
   * is present, holding that value's text; missing values are left out.
   */
  function NonNullItem(row: Row): (item: Item)
    ensures forall c :: c in item <==> c in row && row[c].Some?
    ensures forall c :: c in item ==> item[c] == row[c].value
  {
    map c | c in row && row[c].Some? :: row[c].value
  }

  function NonNullItems(rows: seq<Row>): (items: seq<Item>)
    ensures |items| == |rows| && forall i :: 0 <= i < |rows| ==> items[i] == NonNullItem(rows[i])
  {
    seq(|rows|, i requires 0 <= i < |rows| => NonNullItem(rows[i]))
  }

  /**
   * `build_dynamodb_item`: walks the row's columns, skips the missing
   * values and copies the others.
   */
  method BuildItem(row: Row) returns (item: Item)
    ensures item == NonNullItem(row)
  {
    item := map[];
    var rest := row.Keys;
    while rest != {}
      invariant rest <= row.Keys
      invariant forall c :: c in item <==> c in row && c !in rest && row[c].Some?
      invariant forall c :: c in item ==> item[c] == row[c].value
      decreases rest
    {
      var c :| c in rest;
      if row[c].Some? {
        item := item[c := row[c].value];
      }
      rest := rest - {c};
    }
  }

  /**
   * The two loads store the same text for every present value; their items
   * differ exactly when the row has a missing value, which the full load
   * stores as "nan" and the delta load leaves out.
   */
  lemma DeltaItemWithinFullItem(row: Row)
    ensures forall c :: c in NonNullItem(row) ==> c in FullLoad.FullItem(row) && FullLoad.FullItem(row)[c] == NonNullItem(row)[c]
    ensures NonNullItem(row) == FullLoad.FullItem(row) <==> forall c :: c in row ==> row[c].Some?
  {
    if forall c :: c in row ==> row[c].Some? {
      assert NonNullItem(row) == FullLoad.FullItem(row);
    } else {
      var c :| c in row && row[c].None?;
      assert c !in NonNullItem(row) && c in FullLoad.FullItem(row);
    }
  }

  /**
   * The upsert loop: puts the item of each row in order. A put of an item
   * without the key attribute raises, so the puts before it stay and the
   * rest are not made.
   */
  method UpsertRows(table: Table, rows: seq<Row>) returns (ok: bool)
    requires table.Valid()
    modifies table
    ensures table.Valid()
    ensures var n := KeyedPrefix(NonNullItems(rows), table.pk);
            ok == (n == |rows|) &&
            table.items == PutAll(old(table.items), NonNullItems(rows)[..n], table.pk)
  {
    ghost var items := NonNullItems(rows);
    var i := 0;
    while i < |rows|
      invariant 0 <= i <= |rows|
      invariant table.Valid()
      invariant AllHaveKey(items[..i], table.pk)
      invariant table.items == PutAll(old(table.items), items[..i], table.pk)
    {
      var item := BuildItem(rows[i]);
      var put := table.PutItem(item);
      if !put {
        KeyedPrefixStops(items, table.pk, i);
        return false;
      }
      PutAllSnoc(old(table.items), items, i, table.pk);
      i := i + 1;
    }
    assert items[..i] == items;
    KeyedPrefixStops(items, table.pk, i);
    return true;
  }

  /**
   * What one entity's run depends on besides the table: the frame the
   * download and CSV parse produced (or the error they raised) and whether
   * the archive upload succeeded.
   */
  datatype DeltaInput = DeltaInput(download: Result<Frame>, uploadOk: bool)

  predicate InputWellFormed(input: DeltaInput) {
    input.download.Ok? ==> WellFormed(input.download.value)
  }

  /** `df.empty`: no rows or no columns, as for a file with a header and no data rows. */
  predicate IsEmpty(f: Frame) {
    |f.rows| == 0 || f.columns == {}
  }

  /** The steps that can raise before anything is written. */
  predicate FailsBeforeWrite(e: Entity, input: DeltaInput, ts: string, p: Parsers)
    requires InputWellFormed(input)
  {
    || input.download.Failed?
    || (!IsEmpty(input.download.value) &&
        (DeltaTransform(e, input.download.value, ts, p).Failed? || !input.uploadOk))
  }

  /**
   * The items the upsert loop writes for a transformed frame: those of the
   * leading rows up to the first row without a key value.
   */
  function WrittenItems(e: Entity, t: Frame): (batch: seq<Item>)
    ensures |batch| <= |t.rows|
    ensures AllHaveKey(batch, PrimaryKey(e))
    ensures forall i :: 0 <= i < |batch| ==> batch[i] == NonNullItem(t.rows[i])
    ensures |batch| < |t.rows| ==> PrimaryKey(e) !in NonNullItem(t.rows[|batch|])
  {
    var items := NonNullItems(t.rows);
    items[..KeyedPrefix(items, PrimaryKey(e))]
  }

  /**
   * `process_entity_delta`: the table afterwards and the value recorded
   * for the entity. An empty frame records 0 and writes nothing; a failure
   * before the first put records "FAILED" and writes nothing; otherwise the
   * rows are put in order and the row count is recorded when every put
   * succeeds. Nothing is ever deleted.
   */
  function DeltaLoadEntity(e: Entity, input: DeltaInput, ts: string, p: Parsers, before: map<string, Item>)
    : (r: (map<string, Item>, Outcome))
    requires InputWellFormed(input)
  {
    if input.download.Failed? then (before, FailedMarker)
    else if IsEmpty(input.download.value) then (before, Count(0))
    else if FailsBeforeWrite(e, input, ts, p) then (before, FailedMarker)
    else
      var t := DeltaTransform(e, input.download.value, ts, p).value;
      var batch := WrittenItems(e, t);
      (PutAll(before, batch, PrimaryKey(e)), if |batch| == |t.rows| then Count(|t.rows|) else FailedMarker)
  }

  /**
   * An empty frame records 0 and writes nothing; a failure before the
   * first put records "FAILED" and writes nothing; a recorded count is 0
   * for an empty frame and the row count otherwise; no stored key is
   * ever removed.
   */
  lemma DeltaLoadOutcome(e: Entity, input: DeltaInput, ts: string, p: Parsers, before: map<string, Item>)
    requires InputWellFormed(input)
    ensures var r := DeltaLoadEntity(e, input, ts, p, before);
            && (input.download.Ok? && IsEmpty(input.download.value) ==> r == (before, Count(0)))
            && (FailsBeforeWrite(e, input, ts, p) ==> r == (before, FailedMarker))
            && (r.1.Count? ==>
                  input.download.Ok? &&
                  r.1.n == (if IsEmpty(input.download.value) then 0 else |input.download.value.rows|))
            && before.Keys <= r.0.Keys
  {
    if input.download.Ok? && !IsEmpty(input.download.value) && !FailsBeforeWrite(e, input, ts, p) {
      var t := DeltaTransform(e, input.download.value, ts, p).value;
      PutAllKeys(before, WrittenItems(e, t), PrimaryKey(e));
    }
  }

  /**
   * Upsert semantics, whether or not every put succeeds: a key that no
   * written item carries keeps its old item, and the key of a written item
   * holds the last written item with that key.
   */
  lemma DeltaLoadMerges(e: Entity, input: DeltaInput, ts: string, p: Parsers, before: map<string, Item>)
    requires InputWellFormed(input)
    requires !FailsBeforeWrite(e, input, ts, p) && !IsEmpty(input.download.value)
    ensures var batch := WrittenItems(e, DeltaTransform(e, input.download.value, ts, p).value);
            var after := DeltaLoadEntity(e, input, ts, p, before).0;
            && after.Keys == before.Keys + KeysOf(batch, PrimaryKey(e))
            && (forall k :: k in before && k !in KeysOf(batch, PrimaryKey(e)) ==> after[k] == before[k])
            && (forall i :: 0 <= i < |batch| && (forall j :: i < j < |batch| ==> batch[j][PrimaryKey(e)] != batch[i][PrimaryKey(e)]) ==>
                  after[batch[i][PrimaryKey(e)]] == batch[i])
  {
    var batch := WrittenItems(e, DeltaTransform(e, input.download.value, ts, p).value);
    assert DeltaLoadEntity(e, input, ts, p, before).0 == PutAll(before, batch, PrimaryKey(e));
    PutAllMerges(before, batch, PrimaryKey(e));
  }

  /**
   * A non-empty delta that succeeds writes the item of every one of its
   * rows.
   */
  lemma DeltaLoadSucceeds(e: Entity, input: DeltaInput, ts: string, p: Parsers, before: map<string, Item>)
    requires InputWellFormed(input)
    requires input.download.Ok? && !IsEmpty(input.download.value)
    requires DeltaLoadEntity(e, input, ts, p, before).1.Count?
    ensures var t := DeltaTransform(e, input.download.value, ts, p).value;
            WrittenItems(e, t) == NonNullItems(t.rows)
  {
  }

  /**
   * A row whose key value is missing gives an item without the key
   * attribute, which the table rejects, so the entity records "FAILED".
   */
  lemma DeltaMissingKeyFails(e: Entity, input: DeltaInput, ts: string, p: Parsers, before: map<string, Item>, i: nat)
    requires InputWellFormed(input)
    requires !FailsBeforeWrite(e, input, ts, p) && !IsEmpty(input.download.value)
    requires i < |input.download.value.rows|
    requires PrimaryKey(e) in input.download.value.rows[i] && input.download.value.rows[i][PrimaryKey(e)].None?
    ensures DeltaLoadEntity(e, input, ts, p, before).1 == FailedMarker
  {
    var f := input.download.value;
    var t := DeltaTransform(e, f, ts, p).value;
    DeltaTransformKeepsOtherColumns(e, f, ts, p);
    assert t.rows[i][PrimaryKey(e)].None?;
    assert PrimaryKey(e) !in NonNullItem(t.rows[i]);
  }

  /** The delta-load job: the run timestamp, the library conversions and the results dictionary. */
  class DeltaLoadJob {
    const timestamp: string
    const parsers: Parsers
    var results: Results<Entity>

    constructor (timestamp: string, parsers: Parsers)
      ensures this.timestamp == timestamp && this.parsers == parsers && results == []
    {
      this.timestamp := timestamp;
      this.parsers := parsers;
      results := [];
    }

    /**
     * `process_entity_delta`: download; an empty frame records 0; otherwise
     * transform, archive and upsert the rows; any exception is caught and
     * recorded as "FAILED".
     */
    method ProcessEntity(e: Entity, input: DeltaInput, table: Table) returns (outcome: Outcome)
      requires table.Valid() && table.pk == PrimaryKey(e)
      requires InputWellFormed(input)
      modifies this, table
      ensures table.Valid()
      ensures table.items == DeltaLoadEntity(e, input, timestamp, parsers, old(table.items)).0
      ensures outcome == DeltaLoadEntity(e, input, timestamp, parsers, old(table.items)).1
      ensures results == Record(old(results), e, outcome)
    {
      if input.download.Failed? {
        outcome := FailedMarker;
        results := Record(results, e, outcome);
        return;
      }
      var df := input.download.value;
      if |df.rows| == 0 || df.columns == {} {
        outcome := Count(0);
        results := Record(results, e, outcome);
        return;
      }
      var transformed := DeltaTransform(e, df, timestamp, parsers);
      if transformed.Failed? || !input.uploadOk {
        outcome := FailedMarker;
        results := Record(results, e, outcome);
        return;
      }
      var ok := UpsertRows(table, transformed.value.rows);
      outcome := if ok then Count(|df.rows|) else FailedMarker;
      results := Record(results, e, outcome);
    }

    /**
     * The five calls, in the order of `Order`, each on the table of its
     * entity. Every entity is processed whatever happened to the ones
     * before it, and the results list the entities in that order.
     */
    method Run(patients: Table, doctors: Table, appointments: Table, treatments: Table, billing: Table, inputs: seq<DeltaInput>)
      requires results == []
      requires |inputs| == |Order| && forall i :: 0 <= i < |Order| ==> InputWellFormed(inputs[i])
      requires patients.Valid() && patients.pk == PrimaryKey(Patients)
      requires doctors.Valid() && doctors.pk == PrimaryKey(Doctors)
      requires appointments.Valid() && appointments.pk == PrimaryKey(Appointments)
      requires treatments.Valid() && treatments.pk == PrimaryKey(Treatments)
      requires billing.Valid() && billing.pk == PrimaryKey(Billing)
      requires patients != doctors && patients != appointments && patients != treatments && patients != billing
      requires doctors != appointments && doctors != treatments && doctors != billing
      requires appointments != treatments && appointments != billing && treatments != billing
      modifies this, patients, doctors, appointments, treatments, billing
      ensures NamedPrefix(results, |Order|)
      ensures (patients.items, results[0].1) == DeltaLoadEntity(Patients, inputs[0], timestamp, parsers, old(patients.items))
      ensures (doctors.items, results[1].1) == DeltaLoadEntity(Doctors, inputs[1], timestamp, parsers, old(doctors.items))
      ensures (appointments.items, results[2].1) == DeltaLoadEntity(Appointments, inputs[2], timestamp, parsers, old(appointments.items))
      ensures (treatments.items, results[3].1) == DeltaLoadEntity(Treatments, inputs[3], timestamp, parsers, old(treatments.items))
      ensures (billing.items, results[4].1) == DeltaLoadEntity(Billing, inputs[4], timestamp, parsers, old(billing.items))
    {
      ghost var before0 := results;
      ghost var load0 := DeltaLoadEntity(Patients, inputs[0], timestamp, parsers, patients.items);
      var o0 := ProcessEntity(Patients, inputs[0], patients);
      RecordNext(before0, 0, o0);
      assert (patients.items, o0) == load0;
      ghost var before1 := results;
      ghost var load1 := DeltaLoadEntity(Doctors, inputs[1], timestamp, parsers, doctors.items);
      var o1 := ProcessEntity(Doctors, inputs[1], doctors);
      RecordNext(before1, 1, o1);
      assert (doctors.items, o1) == load1;
      ghost var before2 := results;
      ghost var load2 := DeltaLoadEntity(Appointments, inputs[2], timestamp, parsers, appointments.items);
      var o2 := ProcessEntity(Appointments, inputs[2], appointments);
      RecordNext(before2, 2, o2);
      assert (appointments.items, o2) == load2;
      ghost var before3 := results;
      ghost var load3 := DeltaLoadEntity(Treatments, inputs[3], timestamp, parsers, treatments.items);
      var o3 := ProcessEntity(Treatments, inputs[3], treatments);
      RecordNext(before3, 3, o3);
      assert (treatments.items, o3) == load3;
      ghost var before4 := results;
      ghost var load4 := DeltaLoadEntity(Billing, inputs[4], timestamp, parsers, billing.items);
      var o4 := ProcessEntity(Billing, inputs[4], billing);
      RecordNext(before4, 4, o4);
      assert (billing.items, o4) == load4;
    }
  }
}
