# Healthcare ETL: full load and delta load

This project models the two AWS Glue jobs of a healthcare data pipeline. Each job moves five
entities (patients, doctors, appointments, treatments, billing) from CSV files into one
DynamoDB table per entity.

- **Full load** (`healthcare_full_load.py`) transforms each file and archives it. It then
  deletes the keys returned by one scan of the entity's table and inserts every row, with
  every column stringified. A missing value becomes the text `"nan"`. Each entity's row count,
  or `"FAILED"`, goes into a results dictionary. The summary message counts the successes and
  adds up the row counts.
- **Delta load** (`healthcare_delta_load.py`) records 0 for an empty frame (a file with a
  header and no data rows). Otherwise it transforms and archives the file, then upserts each
  row as an item that leaves out its missing values. It never deletes.

The model is organised as follows.

- `Text`: ASCII versions of `str.strip`, `str.upper` and `str.lower`, and the decimal form of
  a count.
- `Frames`: a frame is a set of columns and a sequence of rows. A row maps each column to a
  text value or a missing value. A transform is a list of column rules applied column after
  column, followed by the two audit stamps: the run timestamp and `"ETL_USER"`.
  `ColumnMajorIsRowMajor` relates the column-at-a-time computation to a row-at-a-time
  reference. The lemmas state when a transform raises, what each column becomes, that the
  stamps are added, and that the string rules are idempotent.
- `Store`: a DynamoDB table as a class holding a `map` from key value to item, with
  `PutItem` and `DeleteItem`. `PutAll` is the specification of a sequence of puts; its
  lemmas give replace semantics (after a delete) and merge semantics (put only).
- `Outcomes`: the insertion-ordered results dictionary, and the two summary figures.
- `Entities`: the five entities, their run order, primary keys and upper-case labels.
- `FullLoad` and `DeltaLoad`: the rule lists of the ten transforms, and the item
  conversions. Each also has the synchronisation loops as methods on a `Table`, the
  per-entity step as a function (`LoadEntity`, `DeltaLoadEntity`), and a job class.
  The job's `ProcessEntity` and `Run` methods update the tables and the results and are
  proved against that function.

The run timestamp and the library conversions (`pd.to_datetime`, `astype`) are fields of
the job. The outcomes of the downloads, the upload and the scan are inputs to each entity's
step.

## Model

| member | source | states |
|---|---|---|
| Text.Strip | src/full_load/healthcare_full_load.py:90-91 | the result is a slice of the input with only whitespace removed on either side, and it neither starts nor ends with whitespace |
| Text.Upper | src/full_load/healthcare_full_load.py:94 | same length, no lower-case letter left, each lower-case letter moved to its upper-case code, every other character kept |
| Text.Lower | src/full_load/healthcare_full_load.py:93 | same length, no upper-case letter left, each upper-case letter moved to its lower-case code, every other character kept |
| Text.StripIdempotent | src/full_load/healthcare_full_load.py:90-91 | stripping twice equals stripping once |
| Text.UpperIdempotent | src/full_load/healthcare_full_load.py:94 | upper-casing twice equals upper-casing once |
| Text.LowerIdempotent | src/full_load/healthcare_full_load.py:93 | lower-casing twice equals lower-casing once |
| Text.UpperOfUpper | src/full_load/healthcare_full_load.py:92 | a string with no lower-case letter is its own upper-case form |
| Text.NatToString | src/full_load/healthcare_full_load.py:184 | the decimal text of a count is non-empty, all digits, without a leading zero |
| Text.NatToStringValue | src/full_load/healthcare_full_load.py:184 | the decimal text of `n`, read back digit by digit with `DecimalValue`, denotes `n` |
| Text.DecimalValue | src/full_load/healthcare_full_load.py:186-187 | the number a digit string denotes; `NatToStringValue` states that `str(n)` reads back as `n` |
| Frames.ApplyCell | src/full_load/healthcare_full_load.py:90-96 | string operations never raise; fill-then-upper always gives a value; other operations keep a missing value missing and a present one present; `astype(int)` raises on a missing value |
| Frames.ApplyCellIdempotent | src/delta_load/healthcare_delta_load.py:95-99 | a string operation applied to its own result returns that result |
| Frames.ApplyColumn | src/full_load/healthcare_full_load.py:90 | one column assignment succeeds exactly when the operation succeeds on every row, and then changes only that column of each row |
| Frames.Normalise | src/full_load/healthcare_full_load.py:89-96 | a frame that normalises keeps its columns, its row count and its rectangular shape |
| Frames.ColumnMajorIsRowMajor | src/full_load/healthcare_full_load.py:89-96 | applying the rules column after column succeeds exactly when every rule column exists and every row normalises on its own, and then row `i` of the result is row `i` normalised on its own |
| Frames.NormaliseRowEffect | src/full_load/healthcare_full_load.py:89-96 | a normalised row keeps its columns, leaves columns no rule names as they were, and holds each rule's operation applied to the original value |
| Frames.NormaliseRowOk | src/full_load/healthcare_full_load.py:89-96 | a row normalises exactly when every rule column is present and every rule's operation succeeds on it |
| Frames.NormaliseOk | src/full_load/healthcare_full_load.py:89-96 | a frame normalises exactly when every rule column exists and every operation succeeds on every row |
| Frames.NormaliseEffect | src/full_load/healthcare_full_load.py:89-96 | after normalising, columns no rule names are unchanged and each rule column holds its operation applied to the original value |
| Frames.NormalFrameFixed | src/delta_load/healthcare_delta_load.py:94-102 | a frame whose rule columns are already fixed points normalises to itself |
| Frames.NormalisedIsNormal | src/delta_load/healthcare_delta_load.py:94-102 | after string-only rules every rule column is a fixed point of its rule |
| Frames.NormaliseTwiceTextColumn | src/full_load/healthcare_full_load.py:89-99 | normalising twice leaves every string-rule column as one normalisation left it |
| Frames.StampAudit | src/full_load/healthcare_full_load.py:97-98 | `created_date` then `created_by` (or the `updated_` pair) assigned to every row; `TransformShape` states the columns and stamps it adds, `StampAgain` that re-stamping changes nothing, `StampKeepsNormal` that it leaves rule columns alone |
| Frames.SetColumn | src/full_load/healthcare_full_load.py:97 | `df[c] = v` adds or overwrites column `c` with `v` in every row, keeps the row count, and leaves every other column unchanged |
| Frames.Transform | src/full_load/healthcare_full_load.py:89-99 | a transform that succeeds keeps the row count and a rectangular frame |
| Frames.TransformOk | src/full_load/healthcare_full_load.py:89-99 | a transform raises exactly when a column a rule assigns is missing or a rule's operation raises on some row |
| Frames.TransformShape | src/full_load/healthcare_full_load.py:97-98 | a successful transform has the input's columns plus the two audit columns, holding the timestamp and `"ETL_USER"` in every row |
| Frames.TransformEffect | src/full_load/healthcare_full_load.py:89-99 | columns that neither a rule nor the stamps assign keep their values; each rule column holds its operation applied to the input value |
| Frames.TransformColumn | src/full_load/healthcare_full_load.py:90-96 | the column of one rule holds that rule's operation applied to the input value in every row |
| Frames.TransformTextColumn | src/full_load/healthcare_full_load.py:90-94 | a strip, upper or lower column holds the string function of the input value and stays missing where it was missing |
| Frames.TransformFillColumn | src/full_load/healthcare_full_load.py:92 | a fill-then-upper column holds the upper-cased value, or the upper-cased fill where it was missing |
| Frames.TransformTwice | src/full_load/healthcare_full_load.py:89-131 | running a transform on its own output leaves every string-rule column unchanged, whatever the date and number rules do |
| Frames.StampKeepsNormal | src/delta_load/healthcare_delta_load.py:100-101 | the audit stamps do not disturb rule columns that are already fixed points |
| Frames.StampAgain | src/delta_load/healthcare_delta_load.py:100-101 | stamping a frame that already carries the same stamps changes nothing |
| Frames.TransformIdempotent | src/delta_load/healthcare_delta_load.py:94-129 | a transform made only of string rules returns its own output unchanged when run on it |
| Store.PutAll | src/delta_load/healthcare_delta_load.py:80-82 | the table after a sequence of puts; `PutAllMerges` states merge semantics, `ReplaceAll` replace semantics after a covering delete, `PutAllKeyed` that items stay under their own key |
| Store.KeyedPrefix | src/full_load/healthcare_full_load.py:74-78 | the number of leading items that carry the key attribute: every item before it has the key, and the item at it does not |
| Store.PutAllKeys | src/delta_load/healthcare_delta_load.py:80-82 | after the puts the key set is the old keys plus the batch's keys |
| Store.PutAllUntouched | src/delta_load/healthcare_delta_load.py:80-82 | a key the batch does not write is present afterwards exactly when it was before, with the same item |
| Store.PutAllLastWins | src/delta_load/healthcare_delta_load.py:80-82 | a written key holds the last item of the batch with that key |
| Store.PutAllStoresBatchItems | src/full_load/healthcare_full_load.py:74-78 | every key the batch writes holds one of the batch's items |
| Store.ReplaceAll | src/full_load/healthcare_full_load.py:71-78 | after deleting a key set that covers the whole table and putting a batch, the keys are exactly the batch's keys and every item comes from the batch |
| Store.PutAllMerges | src/delta_load/healthcare_delta_load.py:80-82 | put-only writes keep every old key and its item unless the batch writes it, and a written key holds the batch's last item for it |
| Store.PutAllKeyed | src/delta_load/healthcare_delta_load.py:80-82 | puts keep every stored item under its own key value |
| Store.Table.constructor | src/full_load/healthcare_full_load.py:68 | a table handle with its key attribute and contents |
| Store.Table.PutItem | src/delta_load/healthcare_delta_load.py:82 | an item with the key attribute replaces whatever is stored under its key; an item without it is rejected and the table is unchanged |
| Store.Table.DeleteItem | src/full_load/healthcare_full_load.py:54 | the key is removed; deleting an absent key changes nothing |
| Outcomes.Lookup | src/full_load/healthcare_full_load.py:80 | a key reads as absent exactly when no entry carries it |
| Outcomes.Record | src/full_load/healthcare_full_load.py:80 | assigning an existing key keeps the key order; a new key is appended as the last entry |
| Outcomes.RecordLookup | src/full_load/healthcare_full_load.py:84 | after `results[k] = v`, `k` reads as `v` and every other key reads as before |
| Outcomes.RecordFresh | src/full_load/healthcare_full_load.py:80 | recording a key no entry carries appends one entry |
| Outcomes.Successes | src/full_load/healthcare_full_load.py:179 | the number of results that are not "FAILED"; `SuccessesBounded` bounds it by the number of entries, with equality exactly when nothing failed, and `SummaryAppend` shows it adds up entry by entry |
| Outcomes.TotalRecords | src/full_load/healthcare_full_load.py:180 | the sum of the integer results; `TotalNeedsSuccess` states it is 0 without a success, and `SummaryAppend` shows it adds up entry by entry |
| Outcomes.SuccessesBounded | src/full_load/healthcare_full_load.py:179 | the success count is at most the number of entries, and equals it exactly when no entry is "FAILED" |
| Outcomes.TotalNeedsSuccess | src/full_load/healthcare_full_load.py:180 | with no success, the total of the integer results is 0 |
| Outcomes.SummaryAppend | src/full_load/healthcare_full_load.py:179-180 | the success count and the record total add up over any split of the results |
| Entities.LabelIsUpperName | src/full_load/healthcare_full_load.py:184 | the label printed for an entity is its name upper-cased |
| Entities.UnknownGenderIsUpper | src/full_load/healthcare_full_load.py:92 | the fill value "UNKNOWN" is already upper case |
| Entities.OrderCoversEntities | src/full_load/healthcare_full_load.py:136-174 | the run order visits every entity, and the entities' names are pairwise different |
| Entities.RecordNext | src/full_load/healthcare_full_load.py:136-174 | recording the next entity of the run order appends one entry and extends the ordered prefix |
| FullLoad.FullRules | src/full_load/healthcare_full_load.py:89-131 | no column is assigned twice, and no rule touches an audit column or the entity's primary key |
| FullLoad.FullTransform | src/full_load/healthcare_full_load.py:89-131 | the entity's rules then the `created_` stamps; `TransformOk` states when it raises, `FullTransformStamps` its shape, `FullTransformKeepsOtherColumns` and the `FullPatients` lemmas its effect on each column |
| FullLoad.FullTransformStamps | src/full_load/healthcare_full_load.py:89-131 | every full transform keeps the row count and the columns, and adds `created_date` = timestamp and `created_by` = "ETL_USER" to every row |
| FullLoad.FullTransformKeepsOtherColumns | src/full_load/healthcare_full_load.py:89-131 | every input column the transform does not assign keeps its value |
| FullLoad.FullPatientsNames | src/full_load/healthcare_full_load.py:90-91 | `first_name` and `last_name` exist and are stripped, and missing names stay missing |
| FullLoad.FullPatientsEmail | src/full_load/healthcare_full_load.py:93 | `email` exists and is lower-cased |
| FullLoad.FullPatientsInsurer | src/full_load/healthcare_full_load.py:94 | `insurance_provider` exists and is upper-cased |
| FullLoad.FullPatientsGender | src/full_load/healthcare_full_load.py:92 | a missing gender becomes "UNKNOWN" and a present one is upper-cased, so no gender is missing |
| FullLoad.FullTransformTwice | src/full_load/healthcare_full_load.py:89-131 | transforming the output again leaves every stripped or case-changed column as it was |
| FullLoad.CellText | src/full_load/healthcare_full_load.py:77 | `str(v)` of a cell, "nan" for a missing value; `FullItem` states what the items hold |
| FullLoad.FullItem | src/full_load/healthcare_full_load.py:77 | the item has exactly the row's columns; a present value is stored as its text and a missing one as "nan" |
| FullLoad.FullItems | src/full_load/healthcare_full_load.py:75-77 | one item per row, in row order |
| FullLoad.DeleteAllItems | src/full_load/healthcare_full_load.py:50-54 | exactly the scanned keys are removed; all other keys keep their items |
| FullLoad.InsertRows | src/full_load/healthcare_full_load.py:74-78 | the table receives the puts of the leading rows up to the first row without a key value, and success means every row was put |
| FullLoad.InsertedItems | src/full_load/healthcare_full_load.py:74-78 | the items put are the leading rows' items, all carrying the key; the next row's item, if any, lacks it |
| FullLoad.LoadEntity | src/full_load/healthcare_full_load.py:59-84 | the table and result after one entity; `LoadEntityOutcome`, `FullLoadReplaces`, `FullLoadSucceedsWithKeyColumn` and `FullLoadWithoutKeyColumn` state its failure, replace and success cases, and `FullLoadJob.ProcessEntity` is proved equal to it |
| FullLoad.LoadEntityOutcome | src/full_load/healthcare_full_load.py:59-84 | a failure in download, transform, archive or scan leaves the table as it was and records "FAILED"; a recorded count is the frame's row count |
| FullLoad.FullLoadReplaces | src/full_load/healthcare_full_load.py:71-78 | when the scan covered every stored key and the entity succeeds, the table's keys are exactly the new rows' key values and every item is a new row's item |
| FullLoad.FullLoadSucceedsWithKeyColumn | src/full_load/healthcare_full_load.py:74-80 | once nothing fails before the delete, a frame with the key column records its row count |
| FullLoad.FullLoadWithoutKeyColumn | src/full_load/healthcare_full_load.py:71-84 | without the key column a non-empty entity records "FAILED" and the table is left with the scanned keys deleted |
| FullLoad.MissingKeysCollide | src/full_load/healthcare_full_load.py:74-78 | rows whose key value is missing are all stored under the key text "nan", and after the puts that key holds the last such row's item, so the earlier ones are overwritten |
| FullLoad.FullLoadJob.constructor | src/full_load/healthcare_full_load.py:30-31 | a job with the run timestamp and an empty results dictionary |
| FullLoad.FullLoadJob.ProcessEntity | src/full_load/healthcare_full_load.py:59-84 | the table ends as `LoadEntity` says, the returned outcome is its outcome, and the outcome is recorded under the entity |
| FullLoad.FullLoadJob.Run | src/full_load/healthcare_full_load.py:136-174 | the results hold the five entities in run order, and each table and result is that entity's `LoadEntity`, whatever happened to the entities before it |
| FullLoad.EntityLine | src/full_load/healthcare_full_load.py:184 | `f"{k.upper()}: {v}"`; `LabelIsUpperName` states the label is the upper-cased name, `NatToStringValue` that the count is printed in decimal, `SummaryLines` where the line appears |
| FullLoad.LinesRender | src/full_load/healthcare_full_load.py:183-184 | one line per results entry, line `i` rendering entry `i` |
| FullLoad.SummaryLines | src/full_load/healthcare_full_load.py:182-188 | the message is the heading, the entity lines in recorded order, then the record total, the successes out of 5, and the timestamp |
| FullLoad.RunSummaryBounded | src/full_load/healthcare_full_load.py:187 | after a run of the five entities at most 5 are successful |
| DeltaLoad.DeltaRules | src/delta_load/healthcare_delta_load.py:94-129 | no column is assigned twice; no rule touches an audit column or the primary key; there is no number conversion; every transform except appointments only strips or changes case |
| DeltaLoad.DeltaTransform | src/delta_load/healthcare_delta_load.py:94-129 | the entity's rules then the `updated_` stamps; `DeltaTransformFailsOnlyOnMissingColumn` and `TransformOk` state when it raises, `DeltaTransformStamps` its shape, `DeltaTransformIdempotent` and the `DeltaPatients` lemmas its effect |
| DeltaLoad.DeltaRulesWithinFull | src/delta_load/healthcare_delta_load.py:94-129 | every delta rule is also a full-load rule for the same entity |
| DeltaLoad.DeltaTransformFailsOnlyOnMissingColumn | src/delta_load/healthcare_delta_load.py:94-129 | apart from appointments, a delta transform raises exactly when one of its columns is missing |
| DeltaLoad.DeltaTransformIdempotent | src/delta_load/healthcare_delta_load.py:94-129 | apart from appointments, a delta transform returns its own output unchanged when run on it |
| DeltaLoad.DeltaTransformStamps | src/delta_load/healthcare_delta_load.py:94-129 | every delta transform keeps the row count and the columns, and adds `updated_date` = timestamp and `updated_by` = "ETL_USER" to every row |
| DeltaLoad.DeltaTransformKeepsOtherColumns | src/delta_load/healthcare_delta_load.py:94-129 | every input column the transform does not assign keeps its value |
| DeltaLoad.DeltaPatientsNames | src/delta_load/healthcare_delta_load.py:95-96 | `first_name` and `last_name` exist and are stripped |
| DeltaLoad.DeltaPatientsEmail | src/delta_load/healthcare_delta_load.py:98 | `email` exists and is lower-cased |
| DeltaLoad.DeltaPatientsInsurer | src/delta_load/healthcare_delta_load.py:99 | `insurance_provider` exists and is upper-cased |
| DeltaLoad.DeltaPatientsGender | src/delta_load/healthcare_delta_load.py:97 | a missing gender becomes "UNKNOWN" and a present one is upper-cased |
| DeltaLoad.NonNullItem | src/delta_load/healthcare_delta_load.py:53-59 | the item's keys are exactly the row's present columns, each holding the row's text |
| DeltaLoad.NonNullItems | src/delta_load/healthcare_delta_load.py:81-82 | one item per row, in row order |
| DeltaLoad.BuildItem | src/delta_load/healthcare_delta_load.py:53-59 | the loop that skips missing values builds exactly `NonNullItem` of the row |
| DeltaLoad.DeltaItemWithinFullItem | src/delta_load/healthcare_delta_load.py:53-59 | a delta item agrees with the full-load item on every attribute it has, and equals it exactly when the row has no missing value |
| DeltaLoad.UpsertRows | src/delta_load/healthcare_delta_load.py:80-82 | the table receives the puts of the leading rows up to the first row without a key value, and success means every row was put |
| DeltaLoad.WrittenItems | src/delta_load/healthcare_delta_load.py:80-82 | the items written are the leading rows' items, all carrying the key; the next row's item, if any, lacks it |
| DeltaLoad.IsEmpty | src/delta_load/healthcare_delta_load.py:70 | `df.empty`: no rows or no columns; `DeltaLoadOutcome` states that such a frame records 0 and writes nothing |
| DeltaLoad.DeltaLoadEntity | src/delta_load/healthcare_delta_load.py:64-89 | the table and result after one entity; `DeltaLoadOutcome`, `DeltaLoadMerges`, `DeltaLoadSucceeds` and `DeltaMissingKeyFails` state its cases, and `DeltaLoadJob.ProcessEntity` is proved equal to it |
| DeltaLoad.DeltaLoadOutcome | src/delta_load/healthcare_delta_load.py:64-89 | an empty frame records 0 and writes nothing; a failure before the first put records "FAILED" and writes nothing; a recorded count is the row count; no key is ever removed |
| DeltaLoad.DeltaLoadMerges | src/delta_load/healthcare_delta_load.py:80-82 | upsert: the keys afterwards are the old keys plus the written ones; an unwritten key keeps its item; a written key holds its last written item |
| DeltaLoad.DeltaLoadSucceeds | src/delta_load/healthcare_delta_load.py:80-84 | a non-empty delta that records a count has written the item of every row |
| DeltaLoad.DeltaMissingKeyFails | src/delta_load/healthcare_delta_load.py:80-89 | a row whose key value is missing makes the entity record "FAILED" |
| DeltaLoad.DeltaLoadJob.constructor | src/delta_load/healthcare_delta_load.py:30-31 | a job with the run timestamp and an empty results dictionary |
| DeltaLoad.DeltaLoadJob.ProcessEntity | src/delta_load/healthcare_delta_load.py:64-89 | the table ends as `DeltaLoadEntity` says, the returned outcome is its outcome, and the outcome is recorded under the entity |
| DeltaLoad.DeltaLoadJob.Run | src/delta_load/healthcare_delta_load.py:134-172 | the results hold the five entities in run order, and each table and result is that entity's `DeltaLoadEntity`, whatever happened to the entities before it |

## Left out

- S3 `download_file`/`upload_file`, the `/tmp` paths, and `pd.read_csv`/`to_csv` are file and network I/O. The downloaded frame (or the error it raised) and the upload's success are inputs to each entity's step.
- `getResolvedOptions`, the boto3 clients and the table names built from the environment are job plumbing. A job receives one `Table` per entity.
- The SNS `publish` calls and the `print` calls are not modelled. For the full load the message lines are modelled. For the delta load the text of `str(results)` is not; the results themselves are.
- `datetime.now()`/`utcnow()`: the run timestamp is a parameter of the job.
- `pd.to_datetime(..).dt.strftime`, `astype(int)` and `astype(float)` are partial functions supplied by the caller (`Frames.Parsers`). Their date, integer and float semantics, and Python's `str` of a float, are not modelled. Only what pandas does with a missing value is fixed: a date stays missing, `int` raises, `float` stays missing.
- pandas dtype inference is not modelled: every present value is treated as text. A `.str` accessor on a numeric column, which raises in pandas, therefore succeeds in the model.
- Text.Strip, Text.Upper, Text.Lower: ASCII only; Python's Unicode whitespace and case mappings are not modelled.
- DeltaLoad.DeltaTransformFailsOnlyOnMissingColumn: pandas reads a column that is blank in every row as float64. `.str.strip()`, `.str.upper()` and `.str.lower()` then raise on it, but the model succeeds, for example on a delta file whose `insurance_provider` is blank in every row. "Raises exactly when a column is missing" holds only under the model's all-text reading.
- Frames.TransformOk: `Parsers.date` converts one value at a time, but `pd.to_datetime` infers one format for the whole column. So "a rule raises on some row" is per row only in the model, and a date column can raise in pandas even where every value parses on its own.
- A zero-byte file makes `read_csv` raise, which the delta load records as "FAILED"; in the model that is a failed download. Only a file with a header and no data rows gives the empty frame that records 0.
- `batch_writer` buffering is not modelled: puts and deletes happen one item at a time. An item without the key attribute is rejected and stops the loop, with the earlier puts kept. The service may instead lose the whole pending batch of up to 25 items.
- Other service-side rejections are not modelled: type mismatches, size limits, throttling, and a delete failing after some deletes. Neither are retries or duplicate keys within one batch.
- Scan paging is not modelled. The scan response is an input holding the keys of one page (or an error), as the job makes one `scan` call. `FullLoad.FullLoadReplaces` therefore assumes that page held every stored key.
- The transforms assign columns of the `df` argument in place. The model computes a new frame instead; the caller only uses the returned frame, so nothing observable changes.
- The results dictionary is keyed by `Entity` rather than by the entity's name. `Entities.OrderCoversEntities` shows the names are distinct, so the two keyings agree.
