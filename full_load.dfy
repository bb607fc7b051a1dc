/**
 * The full (replace-all) load: per-entity transforms stamped with
 * `created_date`/`created_by`, conversion of rows to stored items, the
 * delete-then-insert synchronisation, the per-entity step that records a
 * row count or "FAILED", and the summary message.
 */
module FullLoad {
  import opened Wrappers
  import opened Frames
  import opened Store
  import opened Outcomes
  import opened Entities
  import Text

  const CreatedDate := "created_date"
  const CreatedBy := "created_by"

  /** The column assignments of `patients_transform` … `billing_transform`, in order. */
  function FullRules(e: Entity): (r: seq<Rule>)
    ensures DistinctColumns(r)
    ensures CreatedDate !in RuleColumns(r) && CreatedBy !in RuleColumns(r)
    ensures PrimaryKey(e) !in RuleColumns(r)
  {
    match e
    case Patients =>
      [Rule("first_name", Strip), Rule("last_name", Strip),
       Rule("gender", FillUpper(UnknownGender)), Rule("email", Lower),
       Rule("insurance_provider", Upper),
       Rule("date_of_birth", ParseDate), Rule("registration_date", ParseDate)]
    case Doctors =>
      [Rule("specialization", Upper), Rule("email", Lower), Rule("years_experience", ToInt)]
    case Appointments =>
      [Rule("appointment_date", ParseDate), Rule("status", Upper)]
    case Treatments =>
      [Rule("treatment_type", Upper), Rule("treatment_date", ParseDate), Rule("cost", ToFloat)]
    case Billing =>
      [Rule("bill_date", ParseDate), Rule("payment_method", Upper),
       Rule("payment_status", Upper), Rule("amount", ToFloat)]
  }

  /**
   * `patients_transform` … `billing_transform`: the entity's column rules,
   * then `created_date` and `created_by`. `TransformOk` states when this
   * raises, and `TransformShape` that it keeps every row and column and
   * stamps every row with the run timestamp and "ETL_USER".
   */
  function FullTransform(e: Entity, f: Frame, ts: string, p: Parsers): Result<Frame>
    requires WellFormed(f)
  {
    Transform(f, FullRules(e), CreatedDate, CreatedBy, ts, p)
  }

  /**
   * A transform that succeeds keeps every row and every column and adds
   * `created_date` holding the run timestamp and `created_by` holding "ETL_USER"
   * to every row.
   */
  lemma FullTransformStamps(e: Entity, f: Frame, ts: string, p: Parsers)
    requires WellFormed(f)
    requires FullTransform(e, f, ts, p).Ok?
    ensures var out := FullTransform(e, f, ts, p).value;
            && |out.rows| == |f.rows|
            && out.columns == f.columns + {CreatedDate, CreatedBy}
            && forall i :: 0 <= i < |out.rows| ==>
                 out.rows[i][CreatedDate] == Some(ts) && out.rows[i][CreatedBy] == Some(Actor)
  {
    TransformShape(f, FullRules(e), CreatedDate, CreatedBy, ts, p);
  }

  /**
   * Every input column that the transform does not assign keeps its value
   * (only the two audit columns are overwritten).
   */
  lemma FullTransformKeepsOtherColumns(e: Entity, f: Frame, ts: string, p: Parsers)
    requires WellFormed(f)
    requires FullTransform(e, f, ts, p).Ok?
    ensures var out := FullTransform(e, f, ts, p).value;
            forall i, c :: 0 <= i < |f.rows| && c in f.columns && c !in RuleColumns(FullRules(e))
                           && c != CreatedDate && c != CreatedBy ==>
              out.rows[i][c] == f.rows[i][c]
  {
    TransformEffect(f, FullRules(e), CreatedDate, CreatedBy, ts, p);
  }

  /** `patients_transform`: first and last names are stripped. */
  lemma FullPatientsNames(f: Frame, ts: string, p: Parsers)
    requires WellFormed(f)
    requires FullTransform(Patients, f, ts, p).Ok?
    ensures {"first_name", "last_name"} <= f.columns
    ensures var out := FullTransform(Patients, f, ts, p).value;
            forall i :: 0 <= i < |f.rows| ==>
              && out.rows[i]["first_name"] == MapText(Text.Strip, f.rows[i]["first_name"])
              && out.rows[i]["last_name"] == MapText(Text.Strip, f.rows[i]["last_name"])
  {
    var rules := FullRules(Patients);
    TransformTextColumn(f, rules, CreatedDate, CreatedBy, ts, p, 0, "first_name", Strip);
    TransformTextColumn(f, rules, CreatedDate, CreatedBy, ts, p, 1, "last_name", Strip);
  }

  /** `patients_transform`: the email is lower-cased. */
  lemma FullPatientsEmail(f: Frame, ts: string, p: Parsers)
    requires WellFormed(f)
    requires FullTransform(Patients, f, ts, p).Ok?
    ensures "email" in f.columns
    ensures var out := FullTransform(Patients, f, ts, p).value;
            forall i :: 0 <= i < |f.rows| ==> out.rows[i]["email"] == MapText(Text.Lower, f.rows[i]["email"])
  {
    TransformTextColumn(f, FullRules(Patients), CreatedDate, CreatedBy, ts, p, 3, "email", Lower);
  }

  /** `patients_transform`: the insurer is upper-cased. */
  lemma FullPatientsInsurer(f: Frame, ts: string, p: Parsers)
    requires WellFormed(f)
    requires FullTransform(Patients, f, ts, p).Ok?
    ensures "insurance_provider" in f.columns
    ensures var out := FullTransform(Patients, f, ts, p).value;
            forall i :: 0 <= i < |f.rows| ==> out.rows[i]["insurance_provider"] == MapText(Text.Upper, f.rows[i]["insurance_provider"])
  {
    TransformTextColumn(f, FullRules(Patients), CreatedDate, CreatedBy, ts, p, 4, "insurance_provider", Upper);
  }

  /**
   * `patients_transform`: a missing gender becomes "UNKNOWN", a present
   * one is upper-cased, so the gender is never missing afterwards.
   */
  lemma FullPatientsGender(f: Frame, ts: string, p: Parsers)
    requires WellFormed(f)
    requires FullTransform(Patients, f, ts, p).Ok?
    ensures "gender" in f.columns
    ensures var out := FullTransform(Patients, f, ts, p).value;
            forall i :: 0 <= i < |f.rows| ==>
              && (f.rows[i]["gender"].Some? ==> out.rows[i]["gender"] == Some(Text.Upper(f.rows[i]["gender"].value)))
              && (f.rows[i]["gender"].None? ==> out.rows[i]["gender"] == Some(UnknownGender))
  {
    var rules := FullRules(Patients);
    TransformFillColumn(f, rules, CreatedDate, CreatedBy, ts, p, 2, "gender", UnknownGender);
    UnknownGenderIsUpper();
  }

  /**
   * Running a full-load transform on its own output leaves every
   * string-normalised column (names, gender, email, categorical codes) as
   * it was.
   */
  lemma FullTransformTwice(e: Entity, f: Frame, ts: string, p: Parsers)
    requires WellFormed(f)
    requires FullTransform(e, f, ts, p).Ok?
    requires FullTransform(e, FullTransform(e, f, ts, p).value, ts, p).Ok?
    ensures var g := FullTransform(e, f, ts, p).value;
            var h := FullTransform(e, g, ts, p).value;
            forall i, j :: 0 <= i < |f.rows| && 0 <= j < |FullRules(e)| && IsTextOp(FullRules(e)[j].op) ==>
              FullRules(e)[j].column in g.columns &&
              h.rows[i][FullRules(e)[j].column] == g.rows[i][FullRules(e)[j].column]
  {
    TransformTwice(f, FullRules(e), CreatedDate, CreatedBy, ts, p);
  }

  /** `str(v)` of a cell: a missing value (NaN) is written as the text "nan". */
  function CellText(v: Option<string>): string {
    if v.Some? then v.value else "nan"
  }

  /**
   * `{k: str(r[k]) for k in df.columns}`: every column becomes an
   * attribute, missing values included (as "nan").
   */
  function FullItem(row: Row): (item: Item)
    ensures item.Keys == row.Keys
    ensures forall c :: c in row && row[c].Some? ==> item[c] == row[c].value
    ensures forall c :: c in row && row[c].None? ==> item[c] == "nan"
  {
    map c | c in row :: CellText(row[c])
  }

  function FullItems(rows: seq<Row>): (items: seq<Item>)
    ensures |items| == |rows| && forall i :: 0 <= i < |rows| ==> items[i] == FullItem(rows[i])
  {
    if rows == [] then [] else [FullItem(rows[0])] + FullItems(rows[1..])
  }

  function KeySet(keys: seq<string>): set<string> {
    set k | k in keys
  }

  /**
   * `delete_all_items`: deletes the keys of one scan response, and only
   * those (a scan returns one page; there is no pagination loop).
   */
  method DeleteAllItems(table: Table, scanned: seq<string>)
    requires table.Valid()
    modifies table
    ensures table.Valid()
    ensures table.items == old(table.items) - KeySet(scanned)
  {
    var i := 0;
    while i < |scanned|
      invariant 0 <= i <= |scanned|
      invariant table.Valid()
      invariant table.items == old(table.items) - KeySet(scanned[..i])
    {
      assert KeySet(scanned[..i + 1]) == KeySet(scanned[..i]) + {scanned[i]} by {
        assert scanned[..i + 1] == scanned[..i] + [scanned[i]];
      }
      table.DeleteItem(scanned[i]);
      i := i + 1;
    }
    assert scanned[..i] == scanned;
  }

  /**
   * The insert loop: puts the item of each row in order. A put of an item
   * without the key attribute raises, so the puts before it stay and the
   * rest are not made.
   */
  method InsertRows(table: Table, rows: seq<Row>) returns (ok: bool)
    requires table.Valid()
    modifies table
    ensures table.Valid()
    ensures var n := KeyedPrefix(FullItems(rows), table.pk);
            ok == (n == |rows|) &&
            table.items == PutAll(old(table.items), FullItems(rows)[..n], table.pk)
  {
    ghost var items := FullItems(rows);
    var i := 0;
    while i < |rows|
      invariant 0 <= i <= |rows|
      invariant table.Valid()
      invariant AllHaveKey(items[..i], table.pk)
      invariant table.items == PutAll(old(table.items), items[..i], table.pk)
    {
      var item := FullItem(rows[i]);
      assert item == items[i];
      var put := table.PutItem(item);
      if !put {
        KeyedPrefixStops(items, table.pk, i);
        return false;
      }
      PutAllSnoc(old(table.items), items, i, table.pk);
      i := i + 1;
    }
    assert items[..i] == items;
    KeyedPrefixStops(items, table.pk, i);
    return true;
  }

  /**
   * The items the insert loop puts for a transformed frame: those of the
   * leading rows up to the first row without a key value.
   */
  function InsertedItems(e: Entity, t: Frame): (batch: seq<Item>)
    ensures |batch| <= |t.rows|
    ensures AllHaveKey(batch, PrimaryKey(e))
    ensures forall i :: 0 <= i < |batch| ==> batch[i] == FullItem(t.rows[i])
    ensures |batch| < |t.rows| ==> PrimaryKey(e) !in FullItem(t.rows[|batch|])
  {
    var items := FullItems(t.rows);
    items[..KeyedPrefix(items, PrimaryKey(e))]
  }

  /**
   * What one entity's run depends on besides the table: the frame the
   * download and CSV parse produced (or the error they raised), whether
   * the archive upload succeeded, and the scan response (or its error).
   */
  datatype FullInput = FullInput(download: Result<Frame>, uploadOk: bool, scan: Result<seq<string>>)

  predicate InputWellFormed(input: FullInput) {
    input.download.Ok? ==> WellFormed(input.download.value)
  }

  /** The steps that can raise before anything is deleted. */
  predicate FailsBeforeDelete(e: Entity, input: FullInput, ts: string, p: Parsers)
    requires InputWellFormed(input)
  {
    || input.download.Failed?
    || FullTransform(e, input.download.value, ts, p).Failed?
    || !input.uploadOk
    || input.scan.Failed?
  }

  /**
   * `process_entity`: the table afterwards and the value recorded for the
   * entity. A failure before the delete leaves the table as it was and
   * records "FAILED"; a success records the frame's row count.
   */
  function LoadEntity(e: Entity, input: FullInput, ts: string, p: Parsers, before: map<string, Item>)
    : (r: (map<string, Item>, Outcome))
    requires InputWellFormed(input)
  {
    if FailsBeforeDelete(e, input, ts, p) then (before, FailedMarker)
    else
      var t := FullTransform(e, input.download.value, ts, p).value;
      var cleared := before - KeySet(input.scan.value);
      var batch := InsertedItems(e, t);
      (PutAll(cleared, batch, PrimaryKey(e)), if |batch| == |t.rows| then Count(|t.rows|) else FailedMarker)
  }

  /**
   * A failure before the delete changes nothing and records "FAILED"; a
   * recorded count is the downloaded frame's row count.
   */
  lemma LoadEntityOutcome(e: Entity, input: FullInput, ts: string, p: Parsers, before: map<string, Item>)
    requires InputWellFormed(input)
    ensures var r := LoadEntity(e, input, ts, p, before);
            && (FailsBeforeDelete(e, input, ts, p) ==> r == (before, FailedMarker))
            && (r.1.Count? ==> !FailsBeforeDelete(e, input, ts, p) && r.1.n == |input.download.value.rows|)
  {
    if !FailsBeforeDelete(e, input, ts, p) {
      var t := FullTransform(e, input.download.value, ts, p).value;
      assert |FullItems(t.rows)| == |input.download.value.rows|;
    }
  }

  /**
   * Replace semantics: when the entity succeeds and the scan returned every
   * stored key, the table's keys are exactly the new rows' key values and
   * every stored item is the item of one of the new rows.
   */
  lemma FullLoadReplaces(e: Entity, input: FullInput, ts: string, p: Parsers, before: map<string, Item>)
    requires InputWellFormed(input)
    requires LoadEntity(e, input, ts, p, before).1.Count?
    requires forall k :: k in before ==> k in input.scan.value
    ensures var items := FullItems(FullTransform(e, input.download.value, ts, p).value.rows);
            var after := LoadEntity(e, input, ts, p, before).0;
            && AllHaveKey(items, PrimaryKey(e))
            && after.Keys == KeysOf(items, PrimaryKey(e))
            && forall k :: k in after ==> after[k] in items
  {
    var t := FullTransform(e, input.download.value, ts, p).value;
    var items := FullItems(t.rows);
    var n := KeyedPrefix(items, PrimaryKey(e));
    var r := LoadEntity(e, input, ts, p, before);
    assert r == (PutAll(before - KeySet(input.scan.value), items[..n], PrimaryKey(e)), if n == |items| then Count(|t.rows|) else FailedMarker);
    assert n == |items|;
    assert items[..n] == items;
    ReplaceAll(before, KeySet(input.scan.value), items, PrimaryKey(e));
  }

  /**
   * The success condition: once nothing fails before the delete, the
   * entity succeeds exactly when every row carries the key attribute,
   * which holds whenever the frame has the key column.
   */
  lemma FullLoadSucceedsWithKeyColumn(e: Entity, input: FullInput, ts: string, p: Parsers, before: map<string, Item>)
    requires InputWellFormed(input)
    requires !FailsBeforeDelete(e, input, ts, p)
    requires PrimaryKey(e) in input.download.value.columns
    ensures LoadEntity(e, input, ts, p, before).1 == Count(|input.download.value.rows|)
  {
    var t := FullTransform(e, input.download.value, ts, p).value;
    var items := FullItems(t.rows);
    assert AllHaveKey(items, PrimaryKey(e));
    assert KeyedPrefix(items, PrimaryKey(e)) == |items|;
  }

  /**
   * Without the key column every put is rejected: the scanned keys are
   * already deleted and nothing is inserted, so a non-empty entity records
   * "FAILED" and leaves a table emptied of the scanned keys.
   */
  lemma FullLoadWithoutKeyColumn(e: Entity, input: FullInput, ts: string, p: Parsers, before: map<string, Item>)
    requires InputWellFormed(input)
    requires !FailsBeforeDelete(e, input, ts, p)
    requires PrimaryKey(e) !in input.download.value.columns
    requires |input.download.value.rows| > 0
    ensures LoadEntity(e, input, ts, p, before) == (before - KeySet(input.scan.value), FailedMarker)
  {
    var t := FullTransform(e, input.download.value, ts, p).value;
    var items := FullItems(t.rows);
    assert t.rows[0].Keys == input.download.value.columns + {CreatedDate, CreatedBy};
    assert PrimaryKey(e) != CreatedDate && PrimaryKey(e) != CreatedBy by {
      match e
      case Patients =>
      case Doctors =>
      case Appointments =>
      case Treatments =>
      case Billing =>
    }
    assert PrimaryKey(e) !in items[0];
    assert KeyedPrefix(items, PrimaryKey(e)) == 0;
    assert items[..0] == [];
  }

  /**
   * Rows whose key value is missing are all stored under the key text
   * "nan": when the whole frame is put, the item under "nan" is that of
   * the last such row, so the earlier ones are overwritten.
   */
  lemma MissingKeysCollide(before: map<string, Item>, rows: seq<Row>, pk: string, i: nat, j: nat)
    requires i < j < |rows|
    requires forall k :: 0 <= k < |rows| ==> pk in rows[k]
    requires rows[i][pk].None? && rows[j][pk].None?
    requires forall k :: j < k < |rows| ==> CellText(rows[k][pk]) != "nan"
    ensures AllHaveKey(FullItems(rows), pk)
    ensures FullItem(rows[i])[pk] == "nan" && FullItem(rows[j])[pk] == "nan"
    ensures "nan" in PutAll(before, FullItems(rows), pk)
    ensures PutAll(before, FullItems(rows), pk)["nan"] == FullItem(rows[j])
  {
    var items := FullItems(rows);
    PutAllLastWins(before, items, pk, j);
  }

  /** The full-load job: the run timestamp, the library conversions and the results dictionary. */
  class FullLoadJob {
    const timestamp: string
    const parsers: Parsers
    var results: Results<Entity>

    constructor (timestamp: string, parsers: Parsers)
      ensures this.timestamp == timestamp && this.parsers == parsers && results == []
    {
      this.timestamp := timestamp;
      this.parsers := parsers;
      results := [];
    }

    /**
     * `process_entity`: download, transform, archive, delete the scanned
     * keys, insert the rows; any exception is caught and recorded as
     * "FAILED".
     */
    method ProcessEntity(e: Entity, input: FullInput, table: Table) returns (outcome: Outcome)
      requires table.Valid() && table.pk == PrimaryKey(e)
      requires InputWellFormed(input)
      modifies this, table
      ensures table.Valid()
      ensures table.items == LoadEntity(e, input, timestamp, parsers, old(table.items)).0
      ensures outcome == LoadEntity(e, input, timestamp, parsers, old(table.items)).1
      ensures results == Record(old(results), e, outcome)
    {
      if input.download.Failed? {
        outcome := FailedMarker;
        results := Record(results, e, outcome);
        return;
      }
      var df := input.download.value;
      var transformed := FullTransform(e, df, timestamp, parsers);
      if transformed.Failed? || !input.uploadOk || input.scan.Failed? {
        outcome := FailedMarker;
        results := Record(results, e, outcome);
        return;
      }
      DeleteAllItems(table, input.scan.value);
      var ok := InsertRows(table, transformed.value.rows);
      outcome := if ok then Count(|transformed.value.rows|) else FailedMarker;
      results := Record(results, e, outcome);
    }

    /**
     * The five calls, in the order of `Order`, each on the table of its
     * entity. Every entity is processed whatever happened to the ones
     * before it, and the results list the entities in that order.
     */
    method Run(patients: Table, doctors: Table, appointments: Table, treatments: Table, billing: Table, inputs: seq<FullInput>)
      requires results == []
      requires |inputs| == |Order| && forall i :: 0 <= i < |Order| ==> InputWellFormed(inputs[i])
      requires patients.Valid() && patients.pk == PrimaryKey(Patients)
      requires doctors.Valid() && doctors.pk == PrimaryKey(Doctors)
      requires appointments.Valid() && appointments.pk == PrimaryKey(Appointments)
      requires treatments.Valid() && treatments.pk == PrimaryKey(Treatments)
      requires billing.Valid() && billing.pk == PrimaryKey(Billing)
      requires patients != doctors && patients != appointments && patients != treatments && patients != billing
      requires doctors != appointments && doctors != treatments && doctors != billing
      requires appointments != treatments && appointments != billing && treatments != billing
      modifies this, patients, doctors, appointments, treatments, billing
      ensures NamedPrefix(results, |Order|)
      ensures (patients.items, results[0].1) == LoadEntity(Patients, inputs[0], timestamp, parsers, old(patients.items))
      ensures (doctors.items, results[1].1) == LoadEntity(Doctors, inputs[1], timestamp, parsers, old(doctors.items))
      ensures (appointments.items, results[2].1) == LoadEntity(Appointments, inputs[2], timestamp, parsers, old(appointments.items))
      ensures (treatments.items, results[3].1) == LoadEntity(Treatments, inputs[3], timestamp, parsers, old(treatments.items))
      ensures (billing.items, results[4].1) == LoadEntity(Billing, inputs[4], timestamp, parsers, old(billing.items))
    {
      ghost var before0 := results;
      ghost var load0 := LoadEntity(Patients, inputs[0], timestamp, parsers, patients.items);
      var o0 := ProcessEntity(Patients, inputs[0], patients);
      RecordNext(before0, 0, o0);
      assert (patients.items, o0) == load0;
      ghost var before1 := results;
      ghost var load1 := LoadEntity(Doctors, inputs[1], timestamp, parsers, doctors.items);
      var o1 := ProcessEntity(Doctors, inputs[1], doctors);
      RecordNext(before1, 1, o1);
      assert (doctors.items, o1) == load1;
      ghost var before2 := results;
      ghost var load2 := LoadEntity(Appointments, inputs[2], timestamp, parsers, appointments.items);
      var o2 := ProcessEntity(Appointments, inputs[2], appointments);
      RecordNext(before2, 2, o2);
      assert (appointments.items, o2) == load2;
      ghost var before3 := results;
      ghost var load3 := LoadEntity(Treatments, inputs[3], timestamp, parsers, treatments.items);
      var o3 := ProcessEntity(Treatments, inputs[3], treatments);
      RecordNext(before3, 3, o3);
      assert (treatments.items, o3) == load3;
      ghost var before4 := results;
      ghost var load4 := LoadEntity(Billing, inputs[4], timestamp, parsers, billing.items);
      var o4 := ProcessEntity(Billing, inputs[4], billing);
      RecordNext(before4, 4, o4);
      assert (billing.items, o4) == load4;
    }
  }

  /**
   * `f"{k.upper()}: {v}"` for one results entry: `k.upper()` is the
   * entity's `Label` (see `LabelIsUpperName`).
   */
  function EntityLine(entry: (Entity, Outcome)): string {
    Label(entry.0) + ": " + (match entry.1 case Count(n) => Text.NatToString(n) case FailedMarker => "FAILED")
  }

  /** The fixed lines around the entity lines of the summary message. */
  function Heading(): string { "Full Load Completed\n" }
  function TotalLine(total: nat): string { "\nTotal Records: " + Text.NatToString(total) }
  function SuccessLine(success: nat): string { "Successful: " + Text.NatToString(success) + "/5" }
  function CompletedLine(ts: string): string { "Completed: " + ts }

  /** One line per element of `xs`, in order; the summary renders its results entries this way. */
  function Lines<T>(xs: seq<T>, line: T -> string): seq<string>
    decreases |xs|
  {
    if xs == [] then [] else Lines(xs[..|xs| - 1], line) + [line(xs[|xs| - 1])]
  }

  /** There is one line per element, and line `i` renders element `i`. */
  lemma {:induction false} LinesRender<T>(xs: seq<T>, line: T -> string)
    ensures |Lines(xs, line)| == |xs|
    ensures forall i :: 0 <= i < |xs| ==> Lines(xs, line)[i] == line(xs[i])
    decreases |xs|
  {
    if xs != [] {
      var init := xs[..|xs| - 1];
      LinesRender(init, line);
      assert forall i :: 0 <= i < |init| ==> init[i] == xs[i];
    }
  }

  /**
   * The summary message lines: a heading, one line per entity in the
   * order the entities were recorded, then the total of the recorded row
   * counts, the number of entities that did not fail out of 5, and the
   * run timestamp.
   */
  method SummaryLines(results: Results<Entity>, ts: string) returns (lines: seq<string>)
    ensures lines == [Heading()] + Lines(results, EntityLine)
                     + [TotalLine(TotalRecords(results)), SuccessLine(Successes(results)), CompletedLine(ts)]
  {
    var success := Successes(results);
    var total := TotalRecords(results);
    lines := [Heading()];
    var i := 0;
    while i < |results|
      invariant 0 <= i <= |results|
      invariant lines == [Heading()] + Lines(results[..i], EntityLine)
    {
      assert results[..i + 1][..i] == results[..i];
      lines := lines + [EntityLine(results[i])];
      i := i + 1;
    }
    assert results[..i] == results;
    lines := lines + [TotalLine(total), SuccessLine(success), CompletedLine(ts)];
  }

  /** After a run the summary counts at most the five entities as successful. */
  lemma RunSummaryBounded(results: Results<Entity>)
    requires |results| == |Order|
    ensures Successes(results) <= 5
  {
    SuccessesBounded(results);
  }
}
