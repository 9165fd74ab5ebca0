# dvf_etl transform stage in Dafny

A model of the transform stage of the dvf_etl pipeline. The pipeline takes
the French land-value ("demandes de valeurs foncières") transaction file for
one year and cleans it.

The current version (`transform/transform.py`) runs these steps:

1. Drop rows that miss a mandatory field, or that miss all of the optional ones.
2. Lowercase `typeOfBuilding` and `typeOfSearch`, and rename the search type "vente" to "achat".
3. Keep the rows whose price lies strictly between 4999 and 1999999.
4. Keep the rows whose surface lies strictly between 9 and 1001.
5. Collapse the lots of one transaction into one row. The `surface` and `nbRoom` of that row are the sums over the lots; every other column takes the first value present.
6. Save the result if the `save` argument is set.

The older version (`2_transform/transform_dvf.py`) has the same null filter
and normalisation. It adds an allowlist of building types ("appartement",
"maison") and fixed price, surface and search-type criteria. Its driver
saves its one mutable frame.

Modules:

- `Wrappers`: `Option` and `Result`.
- `Sequences`: the subsequence order and `Filter`, the order-preserving selection every pandas boolean mask becomes.
- `Text`: ASCII lowercasing, case-insensitive equality, and the code-point order on strings that pandas sorts group keys by.
- `Schema`: the row record (`NaN`/`None` as `Option.None`), the columns, their dtypes, and the typed cell view `Cell` of a row.
- `Aggregation`: `groupby(...).agg(...)`, with the "first" and "sum" aggregations.
- `Transform`: the current stages, the `Table` class for the stages that mutate the frame in place, and the `transform` driver (`Run`). It also holds the properties of the whole run.
- `TransformDvf`: the older stages, the `DvfTable` class, and the older driver, both as written (`RunMain`) and as intended (`RunIntended`).

Choices in the model:

- Comparisons with a missing value are false, as in pandas.
- `dropna`, `isin` and range masks keep the surviving rows unchanged and in order.
- `validation_int` looks its column up by name. An unknown name gives `KeyError`.
- Comparing a column with a number can also fail. A date column always gives `TypeError`. A text column gives `TypeError` as soon as one of its cells is present.
- Group keys are emitted in ascending order. Rows without an id are dropped by the grouping.
- The "sum" of a group whose cells are all missing is 0.

Two consequences of the current code that a reader might not expect:

- Unlike the older `validation`, the current `transform` applies neither the building-type allowlist nor the `typeOfSearch == "achat"` filter.
- The current `transform` checks the surface bounds before grouping and sums the surfaces afterwards. A saved surface can therefore exceed 1001 (`Transform.SurfaceBoundNotKept`).

## Model

| member | source | states |
|---|---|---|
| Schema.RenameIsPositional | transform/transform.py:24-40 | the loaded and canonical column lists have one name per field; the i-th canonical name names the i-th field and is found again by name |
| Schema.FieldNamed | transform/transform.py:39-40 | a name found by the column lookup is that field's canonical name; a name not found is not a canonical column |
| Schema.Cell | transform/transform.py:28-29 | every cell is missing or of its column's declared dtype |
| Sequences.Filter | transform/transform.py:120 | a boolean-mask selection keeps exactly the rows that pass, as an order-preserving subsequence, and is never longer |
| Sequences.FilterCount | transform/transform.py:120 | a selected row is kept as many times as it occurs in the input |
| Sequences.FilterCommutes | transform/transform.py:192-194 | two selections applied one after the other give the same rows in either order |
| Transform.Dropna | transform/transform.py:68-69 | one `dropna` with `how="any"` or `how="all"` keeps exactly the rows with all (any) subset cells present, each as often as in the input, in order |
| Transform.NullRules | transform/transform.py:64-69 | passing both null rules is the same as mandatory fields present and at least one optional field present |
| Transform.DropNaRows | transform/transform.py:64-69 | the table after `drop_na` is exactly the complete rows, unchanged and each as often as in the input, as an order-preserving subsequence; each has `typeOfSearch` and `price` |
| Transform.Table.DropNa | transform/transform.py:67-71 | the two in-place `dropna` calls leave the frame holding `DropNaRows` of its old rows |
| Transform.NullRuleExamples | transform/transform.py:64-69 | a row without building type, surface and room count is dropped, and so is a row without `typeOfSearch` |
| Transform.NormalizeSearch | transform/transform.py:95-97 | missing stays missing; "vente" in any case becomes "achat"; any other value is lowercased; the result is lowercase and never "vente" |
| Transform.NormalizeBuilding | transform/transform.py:92 | missing stays missing; a present value becomes its lowercase, equal to it ignoring case |
| Transform.NormalizeRow | transform/transform.py:91-97 | only `typeOfBuilding` and `typeOfSearch` change, each by its column rule |
| Transform.NormalizedRows | transform/transform.py:91-97 | the row count is kept and row i becomes the normalised row i |
| Transform.Table.UpdateFieldsValues | transform/transform.py:90-99 | the in-place column assignments leave the frame holding `NormalizedRows` of its old rows |
| Transform.NormalizeRowIdempotent | transform/transform.py:92-97 | normalising a normalised row changes nothing |
| Transform.NormalizedRowsIdempotent | transform/transform.py:92-97 | `update_fields_values` applied twice gives the table it gives once |
| Transform.NormalizeSearchExamples | transform/transform.py:94-97 | "VENTE", "Vente" and "Achat" all become "achat" |
| Transform.InRange | transform/transform.py:120 | the mask keeps exactly the rows whose cell lies strictly between the bounds (missing is outside), each as often as in the input, in order |
| Transform.ValidationInt | transform/transform.py:105-125 | an unknown column fails with `KeyError`, and only then; a numeric column always succeeds; a date column fails with `TypeError`; a success keeps exactly the in-range rows, each as often as in the input, in order |
| Transform.NumericValidation | transform/transform.py:120 | on a numeric column the validation is the strict range selection |
| Transform.PriceBoundaries | transform/transform.py:192 | with the driver's price bounds, 4999, 1999999 and a missing price are dropped; 5000 and 1999998 are kept |
| Transform.ValidationsCommute | transform/transform.py:192-194 | both validations of the driver succeed, and price then surface gives the same table as surface then price |
| Transform.SaveDf | transform/transform.py:165-169 | a file is written exactly when `save` is given, to `data/dvf_<year>_updated.csv`, holding the table |
| Transform.Run | transform/transform.py:176-200 | the driver fails with the error of the first stage that raises; otherwise it returns the save of the staged table |
| Transform.ValidationsSucceed | transform/transform.py:192-194 | the two validations of the driver never raise and compose into the two range selections |
| Transform.StagesSucceed | transform/transform.py:186-196 | `transform` never raises on a loaded table: it groups the validated rows |
| Transform.ValidatedRows | transform/transform.py:188-194 | a row reaches the grouping exactly when it is the normalised form of a loaded row that is complete and within both bounds; the order is kept |
| Transform.ValidatedBounded | transform/transform.py:188-194 | every row that reaches the grouping has a lowercase `typeOfSearch` other than "vente" and a price and surface within the bounds |
| Transform.GroupRowSaved | transform/transform.py:145-148 | the output row of a group of such rows has an id, a normalised `typeOfSearch`, a price within the bounds, and a surface and room count |
| Transform.SavedTable | transform/transform.py:186-200 | the saved table has one row per id that reaches the grouping and only those ids; ids ascend and none repeats; every row has a normalised `typeOfSearch` and a price within the bounds |
| Transform.SurfaceBoundNotKept | transform/transform.py:194-196 | two lots of 600 pass the surface validation, yet the saved row of their transaction has surface 1200, outside the bounds |
| Transform.EndToEnd | transform/transform.py:186-196 | two in-bound lots of one transaction plus one row priced 2000000 give exactly one saved row, the lots' transaction |
| Aggregation.FirstValue | transform/transform.py:146-147 | the "first" aggregate is missing or of its column's dtype |
| Aggregation.FirstValueSpec | transform/transform.py:146-147 | "first" is missing exactly when the whole group column is missing, and is otherwise the value of a row of the group |
| Aggregation.FirstValueAt | transform/transform.py:146-147 | "first" is the value at the earliest row where the column is present |
| Aggregation.SumValue | transform/transform.py:147 | the "sum" of an all-missing group column is 0 |
| Aggregation.SumValueAppend | transform/transform.py:147 | the "sum" over two consecutive parts of a group is the sum of the parts' sums |
| Aggregation.AggregateCell | transform/transform.py:145-148 | each column of a group's row is its key, first value or sum, as the aggregation map says |
| Aggregation.SortedIds | transform/transform.py:145 | the group keys are the table's present ids, strictly ascending |
| Aggregation.GroupOf | transform/transform.py:145 | a group holds exactly the rows with its id, each as often as in the input (so identical lots are all summed), in input order |
| Aggregation.Groupby | transform/transform.py:145-148 | one row per distinct present id, ids strictly ascending and from the input, each row the aggregate of its group |
| Aggregation.GroupbyCoversIds | transform/transform.py:145 | every present id of the input has an output row |
| Aggregation.GroupbyCells | transform/transform.py:145-148 | each output column is its group's key, sum (missing as 0) or first present value |
| Aggregation.GroupbyIdsUnique | transform/transform.py:145 | no id occurs twice in the grouped table |
| Aggregation.GroupbyEmpty | transform/transform.py:145-148 | an empty table groups to an empty table |
| Aggregation.SharedIdGroup | transform/transform.py:145-148 | rows that all share one id collapse into one row, their aggregate |
| Aggregation.TwoLots | transform/transform.py:145-148 | two lots of one transaction give one row whose surface is the sum of theirs and whose "first" columns hold the first lot's present values |
| Text.LowerEqualsIff | transform/transform.py:95-97 | lowercasing a string gives a given lowercase word exactly when the two are equal ignoring case |
| Text.LexLessTotal | transform/transform.py:145 | of two distinct keys one sorts before the other |
| TransformDvf.DropNaRows | 2_transform/transform_dvf.py:68-71 | the older `drop_na` keeps exactly the complete rows, unchanged and each as often as in the input, as an order-preserving subsequence |
| TransformDvf.DvfTable.DropNa | 2_transform/transform_dvf.py:70-71 | the two in-place `dropna` calls leave the frame holding `DropNaRows` of its old rows |
| TransformDvf.NormalizeRow | 2_transform/transform_dvf.py:87-92 | the fifteen shared columns follow the current rules; `plotId` and `surfacePlot` are unchanged |
| TransformDvf.NormalizedRows | 2_transform/transform_dvf.py:87-92 | the row count is kept and row i becomes the normalised row i |
| TransformDvf.NormalizeRowSpec | 2_transform/transform_dvf.py:87-92 | only `typeOfBuilding` and `typeOfSearch` change, and normalising twice is normalising once |
| TransformDvf.DvfTable.UpdateFieldsValues | 2_transform/transform_dvf.py:86-94 | the in-place assignments leave the frame holding `NormalizedRows` of its old rows |
| TransformDvf.DropUselessRows | 2_transform/transform_dvf.py:107 | keeps exactly the "appartement" and "maison" rows, each as often as in the input, in order; a missing building type is dropped |
| TransformDvf.Validation | 2_transform/transform_dvf.py:121-127 | keeps exactly the rows with a price in (4999, 1999999), a surface in (9, 1001) and `typeOfSearch` "achat", each as often as in the input, in order; a missing value is dropped |
| TransformDvf.ValidationOrderIrrelevant | 2_transform/transform_dvf.py:121-127 | the three criteria give the same table in all six orders |
| TransformDvf.Decimal | 2_transform/transform_dvf.py:139 | the year in the file name is a minus sign for a negative year, then digits without a leading zero that denote its magnitude |
| TransformDvf.SaveDf | 2_transform/transform_dvf.py:139 | the file always holds the table, at `data/dvf_<year>_updated.csv` |
| TransformDvf.SaveDfPath | 2_transform/transform_dvf.py:139 | the 2021 table is written to `data/dvf_2021_updated.csv` |
| TransformDvf.RunMain | 2_transform/transform_dvf.py:158-170 | the saved table is `update_fields_values(drop_na(loaded))`; the two filtering stages have no effect on it |
| TransformDvf.MainKeepsRejectedRows | 2_transform/transform_dvf.py:161-170 | a sale of a "Local" for 100 with 5 square metres is saved by the driver as written and by none with the filters applied |
| TransformDvf.RunIntended | 2_transform/transform_dvf.py:158-170 | with the returned frames kept, the saved table is the validation of the allowlist of the normalised complete rows |
| TransformDvf.IntendedRowsSpec | 2_transform/transform_dvf.py:158-170 | every row saved by the intended driver is an apartment or house, priced and sized within the bounds, bought, and the normalised form of a complete loaded row; the order is kept |

## Left out

- `csv_to_df` (both files): reading the CSV file, dtype coercion and date parsing are not modelled. The loaded table is a parameter. The positional rename is modelled only as the two name lists.
- `usecols` keeps columns in file order. The model assumes the file lists them in the order of the rename list.
- `get_year` (older file) and the command-line arguments: argparse is not modelled. The year, and the `save` flag, are parameters.
- `to_csv`: the written file is modelled as its path and its rows. The CSV text, the header, the index column and write failures are not modelled.
- Logging, the progress bar, and the `try`/`except` blocks that log and re-raise: they carry no data. A raised error is a `Failure` value.
- Errors other than `KeyError` and the comparison `TypeError` of `validation_int` (for example out of memory) are not modelled.
- Floating point: prices, surfaces and room counts are exact reals, and `NaN` is a missing value.
- `str.lower`: only ASCII letters are lowercased. Non-ASCII case mappings are not modelled.
- The pandas row index: rows are compared by value. After grouping, the index (the transaction id) is the row's `idMutation`.
- extract/extract.py, 1_extract/download_extract.py, load/load.py and main.py run external tools, the network or the shell. They are not part of this model.
- Transform.ValidationInt: the contract does not state the `TypeError` of a text column holding a value. The function body models that case, and the driver only validates numeric columns.

## Findings

| source | as written | input that shows it | evidently intended | confidence | as-written member | corrected member |
|---|---|---|---|---|---|---|
| 2_transform/transform_dvf.py:164-167 | `main` calls `drop_useless_rows` and `validation` without assigning the frames they return. The saved table is only null-filtered and normalised. | one loaded row with `typeOfSearch` "Vente", price 100, `typeOfBuilding` "Local", surface 5: it is saved. | assign both returned frames back to the driver's frame, so the saved rows are allowlisted and validated | not executed | TransformDvf.RunMain, TransformDvf.MainKeepsRejectedRows | TransformDvf.RunIntended, TransformDvf.IntendedRowsSpec |
