/**
 * Data frames over abstract rows, and the column-wise normalisation rules
 * that the per-entity transforms apply.
 *
 * A row maps each column name to a cell that is text or missing; a frame
 * is a set of columns and a sequence of rows, every row having exactly
 * the frame's columns. A transform assigns whole columns one after the
 * other (`df['c'] = df['c'].str.upper()`); `Normalise` follows that
 * column-major order, and `NormaliseRow` is the row-at-a-time reference
 * that `ColumnMajorIsRowMajor` proves it equal to.
 */
module Frames {
  import opened Wrappers
  import Text

  type Row = map<string, Option<string>>

  datatype Frame = Frame(columns: set<string>, rows: seq<Row>)

  /** Every row has exactly the frame's columns (a rectangular table). */
  predicate WellFormed(f: Frame) {
    forall i :: 0 <= i < |f.rows| ==> f.rows[i].Keys == f.columns
  }

  /**
   * The library conversions whose behaviour is not part of this model:
   * `pd.to_datetime(..).dt.strftime('%Y-%m-%d')`, `astype(int)` and
   * `astype(float)` followed by `str`, each on one present value.
   * `None` means the conversion raises.
   */
  datatype Parsers = Parsers(
    date: string -> Option<string>,
    toInt: string -> Option<string>,
    toFloat: string -> Option<string>)

  /** What a transform does to one column. */
  datatype CellOp =
    | Strip                   // .str.strip()
    | Upper                   // .str.upper()
    | Lower                   // .str.lower()
    | FillUpper(fill: string) // .fillna(fill).str.upper()
    | ParseDate               // pd.to_datetime(..).dt.strftime('%Y-%m-%d')
    | ToInt                   // .astype(int)
    | ToFloat                 // .astype(float)

  /** One column assignment `df[column] = <op applied to df[column]>`. */
  datatype Rule = Rule(column: string, op: CellOp)

  /** The string operations, which never raise and are idempotent. */
  predicate IsTextOp(op: CellOp) {
    op.Strip? || op.Upper? || op.Lower? || op.FillUpper?
  }

  predicate AllText(rules: seq<Rule>) {
    forall j :: 0 <= j < |rules| ==> IsTextOp(rules[j].op)
  }

  /** No column is assigned twice. */
  predicate DistinctColumns(rules: seq<Rule>) {
    forall i, j :: 0 <= i < j < |rules| ==> rules[i].column != rules[j].column
  }

  function RuleColumns(rules: seq<Rule>): set<string> {
    set j | 0 <= j < |rules| :: rules[j].column
  }

  function MapText(f: string -> string, v: Option<string>): Option<string> {
    match v
    case None => None
    case Some(s) => Some(f(s))
  }

  /**
   * One cell under one operation. The pandas string methods leave a
   * missing value missing; `fillna` replaces it first; a missing date
   * stays missing (NaT formats to NaN); `astype(int)` raises on a missing
   * value, `astype(float)` keeps it missing.
   */
  function ApplyCell(op: CellOp, v: Option<string>, p: Parsers): (r: Result<Option<string>>)
    ensures IsTextOp(op) ==> r.Ok?
    ensures op.FillUpper? ==> r.Ok? && r.value.Some?
    ensures r.Ok? && !op.FillUpper? ==> (r.value.None? <==> v.None?)
    ensures op.ToInt? && v.None? ==> r.Failed?
  {
    match op
    case Strip => Ok(MapText(Text.Strip, v))
    case Upper => Ok(MapText(Text.Upper, v))
    case Lower => Ok(MapText(Text.Lower, v))
    case FillUpper(fill) => Ok(Some(Text.Upper(if v.Some? then v.value else fill)))
    case ParseDate =>
      if v.None? then Ok(None)
      else (match p.date(v.value) case Some(d) => Ok(Some(d)) case None => Failed)
    case ToInt =>
      if v.None? then Failed
      else (match p.toInt(v.value) case Some(n) => Ok(Some(n)) case None => Failed)
    case ToFloat =>
      if v.None? then Ok(None)
      else (match p.toFloat(v.value) case Some(x) => Ok(Some(x)) case None => Failed)
  }

  /** Applying a string operation a second time changes nothing. */
  lemma ApplyCellIdempotent(op: CellOp, v: Option<string>, p: Parsers)
    requires IsTextOp(op)
    ensures ApplyCell(op, ApplyCell(op, v, p).value, p) == ApplyCell(op, v, p)
  {
    match op
    case Strip => if v.Some? { Text.StripIdempotent(v.value); }
    case Upper => if v.Some? { Text.UpperIdempotent(v.value); }
    case Lower => if v.Some? { Text.LowerIdempotent(v.value); }
    case FillUpper(fill) =>
      Text.UpperIdempotent(if v.Some? then v.value else fill);
  }

  /**
   * One column assignment over all rows: it succeeds exactly when the
   * operation succeeds on every row, and then only that column changes.
   */
  function ApplyColumn(rows: seq<Row>, c: string, op: CellOp, p: Parsers): (r: Result<seq<Row>>)
    requires forall i :: 0 <= i < |rows| ==> c in rows[i]
    ensures r.Ok? <==> forall i :: 0 <= i < |rows| ==> ApplyCell(op, rows[i][c], p).Ok?
    ensures r.Ok? ==> |r.value| == |rows|
    ensures r.Ok? ==> forall i :: 0 <= i < |rows| ==>
                        r.value[i] == rows[i][c := ApplyCell(op, rows[i][c], p).value]
  {
    if rows == [] then Ok([])
    else
      var v :- ApplyCell(op, rows[0][c], p);
      var rest :- ApplyColumn(rows[1..], c, op, p);
      Ok([rows[0][c := v]] + rest)
  }

  /**
   * The rules applied column by column, as the transform's statements run.
   * A rule on a column the frame lacks raises (`KeyError`).
   */
  function Normalise(f: Frame, rules: seq<Rule>, p: Parsers): (r: Result<Frame>)
    requires WellFormed(f)
    ensures r.Ok? ==> WellFormed(r.value) && r.value.columns == f.columns
    ensures r.Ok? ==> |r.value.rows| == |f.rows|
    decreases |rules|
  {
    if rules == [] then Ok(f)
    else if rules[0].column !in f.columns then Failed
    else
      var rows :- ApplyColumn(f.rows, rules[0].column, rules[0].op, p);
      Normalise(Frame(f.columns, rows), rules[1..], p)
  }

  /** The same rules applied to one row on its own. */
  function NormaliseRow(row: Row, rules: seq<Rule>, p: Parsers): (r: Result<Row>)
    decreases |rules|
  {
    if rules == [] then Ok(row)
    else if rules[0].column !in row then Failed
    else
      var v :- ApplyCell(rules[0].op, row[rules[0].column], p);
      NormaliseRow(row[rules[0].column := v], rules[1..], p)
  }

  lemma RuleColumnsCons(rules: seq<Rule>)
    requires |rules| > 0
    ensures RuleColumns(rules) == {rules[0].column} + RuleColumns(rules[1..])
  {
    var tail := rules[1..];
    forall c | c in RuleColumns(tail) ensures c in RuleColumns(rules) {
      var j :| 0 <= j < |tail| && tail[j].column == c;
      assert rules[j + 1].column == c;
    }
  }

  /**
   * Column-major and row-major application agree: the frame is normalised
   * exactly when every rule's column exists and every row normalises, and
   * then each row of the result is that row normalised on its own.
   */
  lemma {:induction false} ColumnMajorIsRowMajor(f: Frame, rules: seq<Rule>, p: Parsers)
    requires WellFormed(f)
    ensures Normalise(f, rules, p).Ok? <==>
              RuleColumns(rules) <= f.columns &&
              forall i :: 0 <= i < |f.rows| ==> NormaliseRow(f.rows[i], rules, p).Ok?
    ensures Normalise(f, rules, p).Ok? ==>
              forall i :: 0 <= i < |f.rows| ==>
                Normalise(f, rules, p).value.rows[i] == NormaliseRow(f.rows[i], rules, p).value
    decreases |rules|
  {
    if rules != [] {
      RuleColumnsCons(rules);
      var c, op := rules[0].column, rules[0].op;
      if c in f.columns {
        var col := ApplyColumn(f.rows, c, op, p);
        if col.Failed? {
          var i :| 0 <= i < |f.rows| && ApplyCell(op, f.rows[i][c], p).Failed?;
          assert NormaliseRow(f.rows[i], rules, p).Failed?;
        } else {
          var g := Frame(f.columns, col.value);
          ColumnMajorIsRowMajor(g, rules[1..], p);
          forall i | 0 <= i < |f.rows|
            ensures NormaliseRow(f.rows[i], rules, p) == NormaliseRow(g.rows[i], rules[1..], p)
          {
          }
        }
      }
    }
  }

  /**
   * What one row becomes: the same columns; a column no rule names is
   * untouched; a column a rule names holds that rule's operation applied
   * to the original value.
   */
  lemma {:induction false} NormaliseRowEffect(row: Row, rules: seq<Rule>, p: Parsers)
    requires DistinctColumns(rules)
    requires NormaliseRow(row, rules, p).Ok?
    ensures NormaliseRow(row, rules, p).value.Keys == row.Keys
    ensures forall c :: c in row && c !in RuleColumns(rules) ==>
              NormaliseRow(row, rules, p).value[c] == row[c]
    ensures forall j :: 0 <= j < |rules| ==>
              rules[j].column in row &&
              ApplyCell(rules[j].op, row[rules[j].column], p).Ok? &&
              NormaliseRow(row, rules, p).value[rules[j].column]
                == ApplyCell(rules[j].op, row[rules[j].column], p).value
    decreases |rules|
  {
    if rules != [] {
      RuleColumnsCons(rules);
      var c := rules[0].column;
      var next := row[c := ApplyCell(rules[0].op, row[c], p).value];
      var tail := rules[1..];
      assert DistinctColumns(tail);
      NormaliseRowEffect(next, tail, p);
      var out := NormaliseRow(row, rules, p).value;
      assert out == NormaliseRow(next, tail, p).value;
      assert c !in RuleColumns(tail);
      forall j | 0 <= j < |rules|
        ensures rules[j].column in row
        ensures ApplyCell(rules[j].op, row[rules[j].column], p).Ok?
        ensures out[rules[j].column] == ApplyCell(rules[j].op, row[rules[j].column], p).value
      {
        if j > 0 {
          assert tail[j - 1] == rules[j];
          assert rules[j].column != c;
        }
      }
    }
  }

  /**
   * A row normalises exactly when every rule's column is present and every
   * rule's operation succeeds on that column's original value.
   */
  lemma {:induction false} NormaliseRowOk(row: Row, rules: seq<Rule>, p: Parsers)
    requires DistinctColumns(rules)
    ensures NormaliseRow(row, rules, p).Ok? <==>
              RuleColumns(rules) <= row.Keys &&
              forall j :: 0 <= j < |rules| ==> ApplyCell(rules[j].op, row[rules[j].column], p).Ok?
    decreases |rules|
  {
    if rules != [] {
      RuleColumnsCons(rules);
      var c := rules[0].column;
      var tail := rules[1..];
      assert DistinctColumns(tail);
      assert forall j :: 1 <= j < |rules| ==> rules[j] == tail[j - 1] && rules[j].column != c;
      if c in row && ApplyCell(rules[0].op, row[c], p).Ok? {
        var next := row[c := ApplyCell(rules[0].op, row[c], p).value];
        NormaliseRowOk(next, tail, p);
      }
    }
  }

  /**
   * A frame normalises exactly when every rule's column exists and every
   * rule's operation succeeds on every row's original value.
   */
  lemma NormaliseOk(f: Frame, rules: seq<Rule>, p: Parsers)
    requires WellFormed(f) && DistinctColumns(rules)
    ensures Normalise(f, rules, p).Ok? <==>
              RuleColumns(rules) <= f.columns &&
              forall i, j :: 0 <= i < |f.rows| && 0 <= j < |rules| ==>
                ApplyCell(rules[j].op, f.rows[i][rules[j].column], p).Ok?
  {
    ColumnMajorIsRowMajor(f, rules, p);
    forall i | 0 <= i < |f.rows| {
      NormaliseRowOk(f.rows[i], rules, p);
    }
  }

  /** `ColumnMajorIsRowMajor` and `NormaliseRowEffect` read on a whole frame. */
  lemma NormaliseEffect(f: Frame, rules: seq<Rule>, p: Parsers)
    requires WellFormed(f) && DistinctColumns(rules)
    requires Normalise(f, rules, p).Ok?
    ensures RuleColumns(rules) <= f.columns
    ensures forall i, c :: 0 <= i < |f.rows| && c in f.columns && c !in RuleColumns(rules) ==>
              Normalise(f, rules, p).value.rows[i][c] == f.rows[i][c]
    ensures forall i, j :: 0 <= i < |f.rows| && 0 <= j < |rules| ==>
              ApplyCell(rules[j].op, f.rows[i][rules[j].column], p).Ok? &&
              Normalise(f, rules, p).value.rows[i][rules[j].column]
                == ApplyCell(rules[j].op, f.rows[i][rules[j].column], p).value
  {
    ColumnMajorIsRowMajor(f, rules, p);
    forall i | 0 <= i < |f.rows| {
      NormaliseRowEffect(f.rows[i], rules, p);
    }
  }

  /** Every row already holds, in each rule's column, a value the rule leaves as it is. */
  predicate IsNormal(f: Frame, rules: seq<Rule>, p: Parsers) {
    forall i, j :: 0 <= i < |f.rows| && 0 <= j < |rules| ==>
      rules[j].column in f.rows[i] &&
      ApplyCell(rules[j].op, f.rows[i][rules[j].column], p) == Ok(f.rows[i][rules[j].column])
  }

  /** A row whose rule columns are all fixed points normalises to itself. */
  lemma {:induction false} NormalRowFixed(row: Row, rules: seq<Rule>, p: Parsers)
    requires DistinctColumns(rules)
    requires forall j :: 0 <= j < |rules| ==>
               rules[j].column in row && ApplyCell(rules[j].op, row[rules[j].column], p) == Ok(row[rules[j].column])
    ensures NormaliseRow(row, rules, p) == Ok(row)
    decreases |rules|
  {
    if rules != [] {
      var c := rules[0].column;
      assert row[c := row[c]] == row;
      var tail := rules[1..];
      assert DistinctColumns(tail);
      forall j | 0 <= j < |tail|
        ensures tail[j].column in row && ApplyCell(tail[j].op, row[tail[j].column], p) == Ok(row[tail[j].column])
      {
        assert tail[j] == rules[j + 1];
      }
      NormalRowFixed(row, tail, p);
    }
  }

  /** Normalising a frame that is already normal gives the same frame back. */
  lemma NormalFrameFixed(f: Frame, rules: seq<Rule>, p: Parsers)
    requires WellFormed(f) && DistinctColumns(rules)
    requires RuleColumns(rules) <= f.columns
    requires IsNormal(f, rules, p)
    ensures Normalise(f, rules, p) == Ok(f)
  {
    forall i | 0 <= i < |f.rows| ensures NormaliseRow(f.rows[i], rules, p) == Ok(f.rows[i]) {
      NormalRowFixed(f.rows[i], rules, p);
    }
    ColumnMajorIsRowMajor(f, rules, p);
    var g := Normalise(f, rules, p).value;
    assert g.rows == f.rows;
  }

  /** After string-only rules the frame is normal for those rules. */
  lemma NormalisedIsNormal(f: Frame, rules: seq<Rule>, p: Parsers)
    requires WellFormed(f) && DistinctColumns(rules) && AllText(rules)
    requires Normalise(f, rules, p).Ok?
    ensures IsNormal(Normalise(f, rules, p).value, rules, p)
  {
    NormaliseEffect(f, rules, p);
    var g := Normalise(f, rules, p).value;
    forall i, j | 0 <= i < |g.rows| && 0 <= j < |rules|
      ensures rules[j].column in g.rows[i]
      ensures ApplyCell(rules[j].op, g.rows[i][rules[j].column], p) == Ok(g.rows[i][rules[j].column])
    {
      ApplyCellIdempotent(rules[j].op, f.rows[i][rules[j].column], p);
    }
  }

  /**
   * Normalising twice gives the same value as once in every column whose
   * rule is a string operation, whatever the other rules do.
   */
  lemma NormaliseTwiceTextColumn(f: Frame, rules: seq<Rule>, p: Parsers)
    requires WellFormed(f) && DistinctColumns(rules)
    requires Normalise(f, rules, p).Ok?
    requires Normalise(Normalise(f, rules, p).value, rules, p).Ok?
    ensures RuleColumns(rules) <= f.columns
    ensures var g := Normalise(f, rules, p).value;
            var h := Normalise(g, rules, p).value;
            forall i, j :: 0 <= i < |f.rows| && 0 <= j < |rules| && IsTextOp(rules[j].op) ==>
              h.rows[i][rules[j].column] == g.rows[i][rules[j].column]
  {
    var g := Normalise(f, rules, p).value;
    NormaliseEffect(f, rules, p);
    NormaliseEffect(g, rules, p);
    forall i, j | 0 <= i < |f.rows| && 0 <= j < |rules| && IsTextOp(rules[j].op) {
      ApplyCellIdempotent(rules[j].op, f.rows[i][rules[j].column], p);
    }
  }

  /** `df[column] = value` for every row: the column is added or overwritten. */
  function SetColumn(f: Frame, column: string, value: string): (r: Frame)
    requires WellFormed(f)
    ensures WellFormed(r) && r.columns == f.columns + {column} && |r.rows| == |f.rows|
    ensures forall i :: 0 <= i < |r.rows| ==> r.rows[i][column] == Some(value)
    ensures forall i, c :: 0 <= i < |r.rows| && c in f.columns && c != column ==>
              r.rows[i][c] == f.rows[i][c]
  {
    Frame(f.columns + {column}, SetEach(f.rows, column, value))
  }

  /** `rows` with `column` set to `value` in every row. */
  function SetEach(rows: seq<Row>, column: string, value: string): (r: seq<Row>)
    ensures |r| == |rows|
    ensures forall i :: 0 <= i < |rows| ==> r[i] == rows[i][column := Some(value)]
  {
    if rows == [] then [] else [rows[0][column := Some(value)]] + SetEach(rows[1..], column, value)
  }

  /** The fixed actor written into the audit columns. */
  const Actor := "ETL_USER"

  /** The two audit assignments that end every transform: the run timestamp, then the actor. */
  function StampAudit(f: Frame, dateColumn: string, byColumn: string, ts: string): Frame
    requires WellFormed(f)
  {
    SetColumn(SetColumn(f, dateColumn, ts), byColumn, Actor)
  }

  /** The audit columns are two different columns that no rule assigns. */
  predicate AuditApart(rules: seq<Rule>, dateColumn: string, byColumn: string) {
    dateColumn != byColumn && dateColumn !in RuleColumns(rules) && byColumn !in RuleColumns(rules)
  }

  /** A whole transform: the column rules, then the audit stamp. */
  function Transform(f: Frame, rules: seq<Rule>, dateColumn: string, byColumn: string, ts: string, p: Parsers)
    : (r: Result<Frame>)
    requires WellFormed(f)
    ensures r.Ok? ==> WellFormed(r.value) && |r.value.rows| == |f.rows|
  {
    var g :- Normalise(f, rules, p);
    Ok(StampAudit(g, dateColumn, byColumn, ts))
  }

  /**
   * A transform raises exactly when a column a rule assigns is missing or
   * a rule's operation raises on some row.
   */
  lemma TransformOk(f: Frame, rules: seq<Rule>, dateColumn: string, byColumn: string, ts: string, p: Parsers)
    requires WellFormed(f) && DistinctColumns(rules)
    ensures Transform(f, rules, dateColumn, byColumn, ts, p).Ok? <==>
              RuleColumns(rules) <= f.columns &&
              forall i, j :: 0 <= i < |f.rows| && 0 <= j < |rules| ==>
                ApplyCell(rules[j].op, f.rows[i][rules[j].column], p).Ok?
  {
    NormaliseOk(f, rules, p);
  }

  /**
   * A transform that succeeds keeps every column and adds the two audit
   * columns, holding the timestamp and the actor in every row.
   */
  lemma TransformShape(f: Frame, rules: seq<Rule>, dateColumn: string, byColumn: string, ts: string, p: Parsers)
    requires WellFormed(f) && dateColumn != byColumn
    requires Transform(f, rules, dateColumn, byColumn, ts, p).Ok?
    ensures var out := Transform(f, rules, dateColumn, byColumn, ts, p).value;
            && out.columns == f.columns + {dateColumn, byColumn}
            && forall i :: 0 <= i < |out.rows| ==>
                 out.rows[i][dateColumn] == Some(ts) && out.rows[i][byColumn] == Some(Actor)
  {
  }

  /**
   * Column by column: a column a rule assigns holds the rule's operation
   * applied to the input value; every other input column is unchanged.
   */
  lemma TransformEffect(f: Frame, rules: seq<Rule>, dateColumn: string, byColumn: string, ts: string, p: Parsers)
    requires WellFormed(f) && DistinctColumns(rules) && AuditApart(rules, dateColumn, byColumn)
    requires Transform(f, rules, dateColumn, byColumn, ts, p).Ok?
    ensures RuleColumns(rules) <= f.columns
    ensures var out := Transform(f, rules, dateColumn, byColumn, ts, p).value;
            forall i, c :: 0 <= i < |f.rows| && c in f.columns && c !in RuleColumns(rules)
                           && c != dateColumn && c != byColumn ==>
              out.rows[i][c] == f.rows[i][c]
    ensures var out := Transform(f, rules, dateColumn, byColumn, ts, p).value;
            forall i, j :: 0 <= i < |f.rows| && 0 <= j < |rules| ==>
              ApplyCell(rules[j].op, f.rows[i][rules[j].column], p).Ok? &&
              out.rows[i][rules[j].column] == ApplyCell(rules[j].op, f.rows[i][rules[j].column], p).value
  {
    NormaliseEffect(f, rules, p);
    var n := Normalise(f, rules, p).value;
    var out := StampAudit(n, dateColumn, byColumn, ts);
    assert Transform(f, rules, dateColumn, byColumn, ts, p) == Ok(out);
    forall i, c | 0 <= i < |f.rows| && c in f.columns && c != dateColumn && c != byColumn
      ensures out.rows[i][c] == n.rows[i][c]
    {
    }
  }

  /** `TransformEffect` for the column `c` of rule `j`. */
  lemma TransformColumn(f: Frame, rules: seq<Rule>, dateColumn: string, byColumn: string, ts: string, p: Parsers,
                        j: nat, c: string, op: CellOp)
    requires WellFormed(f) && DistinctColumns(rules) && AuditApart(rules, dateColumn, byColumn)
    requires Transform(f, rules, dateColumn, byColumn, ts, p).Ok?
    requires j < |rules| && rules[j] == Rule(c, op)
    ensures c in f.columns
    ensures forall i :: 0 <= i < |f.rows| ==>
              ApplyCell(op, f.rows[i][c], p).Ok? &&
              Transform(f, rules, dateColumn, byColumn, ts, p).value.rows[i][c] == ApplyCell(op, f.rows[i][c], p).value
  {
    TransformEffect(f, rules, dateColumn, byColumn, ts, p);
    assert c in RuleColumns(rules);
  }

  /** The string function behind each of the three plain string operations. */
  function TextOf(op: CellOp): string -> string
    requires op.Strip? || op.Upper? || op.Lower?
  {
    if op.Strip? then Text.Strip else if op.Upper? then Text.Upper else Text.Lower
  }

  /** A column under `Strip`, `Upper` or `Lower` holds the string function of its old value, and stays missing where it was missing. */
  lemma TransformTextColumn(f: Frame, rules: seq<Rule>, dateColumn: string, byColumn: string, ts: string, p: Parsers,
                            j: nat, c: string, op: CellOp)
    requires WellFormed(f) && DistinctColumns(rules) && AuditApart(rules, dateColumn, byColumn)
    requires Transform(f, rules, dateColumn, byColumn, ts, p).Ok?
    requires j < |rules| && rules[j] == Rule(c, op) && (op.Strip? || op.Upper? || op.Lower?)
    ensures c in f.columns
    ensures forall i :: 0 <= i < |f.rows| ==>
              Transform(f, rules, dateColumn, byColumn, ts, p).value.rows[i][c] == MapText(TextOf(op), f.rows[i][c])
  {
    TransformColumn(f, rules, dateColumn, byColumn, ts, p, j, c, op);
    forall i | 0 <= i < |f.rows|
      ensures ApplyCell(op, f.rows[i][c], p) == Ok(MapText(TextOf(op), f.rows[i][c]))
    {
    }
  }

  /**
   * A fill-then-upper-case column holds the upper-cased value, or the
   * upper-cased fill where the value was missing.
   */
  lemma TransformFillColumn(f: Frame, rules: seq<Rule>, dateColumn: string, byColumn: string, ts: string, p: Parsers,
                            j: nat, c: string, fill: string)
    requires WellFormed(f) && DistinctColumns(rules) && AuditApart(rules, dateColumn, byColumn)
    requires Transform(f, rules, dateColumn, byColumn, ts, p).Ok?
    requires j < |rules| && rules[j] == Rule(c, FillUpper(fill))
    ensures c in f.columns
    ensures forall i :: 0 <= i < |f.rows| ==>
              Transform(f, rules, dateColumn, byColumn, ts, p).value.rows[i][c]
                == Some(Text.Upper(if f.rows[i][c].Some? then f.rows[i][c].value else fill))
  {
    TransformColumn(f, rules, dateColumn, byColumn, ts, p, j, c, FillUpper(fill));
    forall i | 0 <= i < |f.rows|
      ensures ApplyCell(FillUpper(fill), f.rows[i][c], p).value
                == Some(Text.Upper(if f.rows[i][c].Some? then f.rows[i][c].value else fill))
    {
    }
  }

  /**
   * Running a transform on its own output leaves every column assigned by
   * a string rule as it was, whatever the other rules do.
   */
  lemma TransformTwice(f: Frame, rules: seq<Rule>, dateColumn: string, byColumn: string, ts: string, p: Parsers)
    requires WellFormed(f) && DistinctColumns(rules) && AuditApart(rules, dateColumn, byColumn)
    requires Transform(f, rules, dateColumn, byColumn, ts, p).Ok?
    requires Transform(Transform(f, rules, dateColumn, byColumn, ts, p).value, rules, dateColumn, byColumn, ts, p).Ok?
    ensures RuleColumns(rules) <= f.columns
    ensures var g := Transform(f, rules, dateColumn, byColumn, ts, p).value;
            var h := Transform(g, rules, dateColumn, byColumn, ts, p).value;
            forall i, j :: 0 <= i < |f.rows| && 0 <= j < |rules| && IsTextOp(rules[j].op) ==>
              h.rows[i][rules[j].column] == g.rows[i][rules[j].column]
  {
    var g := Transform(f, rules, dateColumn, byColumn, ts, p).value;
    var h := Transform(g, rules, dateColumn, byColumn, ts, p).value;
    TransformEffect(f, rules, dateColumn, byColumn, ts, p);
    TransformEffect(g, rules, dateColumn, byColumn, ts, p);
    forall i, j | 0 <= i < |f.rows| && 0 <= j < |rules| && IsTextOp(rules[j].op)
      ensures h.rows[i][rules[j].column] == g.rows[i][rules[j].column]
    {
      var c, op := rules[j].column, rules[j].op;
      var once := ApplyCell(op, f.rows[i][c], p).value;
      assert g.rows[i][c] == once;
      assert h.rows[i][c] == ApplyCell(op, once, p).value;
      ApplyCellIdempotent(op, f.rows[i][c], p);
    }
  }

  /** Stamping the audit columns does not disturb the rule columns. */
  lemma StampKeepsNormal(n: Frame, rules: seq<Rule>, dateColumn: string, byColumn: string, ts: string, p: Parsers)
    requires WellFormed(n) && AuditApart(rules, dateColumn, byColumn)
    requires IsNormal(n, rules, p)
    ensures IsNormal(StampAudit(n, dateColumn, byColumn, ts), rules, p)
  {
    var g := StampAudit(n, dateColumn, byColumn, ts);
    forall i, j | 0 <= i < |g.rows| && 0 <= j < |rules|
      ensures rules[j].column in g.rows[i]
      ensures ApplyCell(rules[j].op, g.rows[i][rules[j].column], p) == Ok(g.rows[i][rules[j].column])
    {
      var c := rules[j].column;
      assert c in RuleColumns(rules);
      assert c in n.rows[i];
      assert g.rows[i][c] == n.rows[i][c];
    }
  }

  /** Stamping a frame that already carries the stamp changes nothing. */
  lemma StampAgain(g: Frame, dateColumn: string, byColumn: string, ts: string)
    requires WellFormed(g) && dateColumn != byColumn
    requires dateColumn in g.columns && byColumn in g.columns
    requires forall i :: 0 <= i < |g.rows| ==> g.rows[i][dateColumn] == Some(ts) && g.rows[i][byColumn] == Some(Actor)
    ensures StampAudit(g, dateColumn, byColumn, ts) == g
  {
    var h := StampAudit(g, dateColumn, byColumn, ts);
    assert h.columns == g.columns;
    forall i | 0 <= i < |g.rows| ensures h.rows[i] == g.rows[i] {
      assert g.rows[i][dateColumn := Some(ts)] == g.rows[i];
      assert g.rows[i][dateColumn := Some(ts)][byColumn := Some(Actor)] == g.rows[i];
    }
    assert h.rows == g.rows;
  }

  /** A transform made only of string rules is idempotent. */
  lemma TransformIdempotent(f: Frame, rules: seq<Rule>, dateColumn: string, byColumn: string, ts: string, p: Parsers)
    requires WellFormed(f) && DistinctColumns(rules) && AuditApart(rules, dateColumn, byColumn)
    requires AllText(rules)
    requires Transform(f, rules, dateColumn, byColumn, ts, p).Ok?
    ensures var g := Transform(f, rules, dateColumn, byColumn, ts, p).value;
            Transform(g, rules, dateColumn, byColumn, ts, p) == Ok(g)
  {
    var n := Normalise(f, rules, p).value;
    var g := StampAudit(n, dateColumn, byColumn, ts);
    assert Transform(f, rules, dateColumn, byColumn, ts, p) == Ok(g);
    NormalisedIsNormal(f, rules, p);
    StampKeepsNormal(n, rules, dateColumn, byColumn, ts, p);
    NormaliseEffect(f, rules, p);
    NormalFrameFixed(g, rules, p);
    StampAgain(g, dateColumn, byColumn, ts);
  }
}
