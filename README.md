# Heart-disease risk form: feature-row assembler

The application is a single Streamlit page. It collects fourteen personal and
medical fields, turns them into one feature row laid out as the trained
classifier expects, and passes that row to a scaler and a KNN classifier. This
project models the one piece of logic in it: the assembly of the feature row
in the `Predict` branch (`app.py:56-84`). The source runs that code at module
level. Here it is lifted into `FeatureRow.AssembleRow`, with the form and the
column schema `expected_columns` as parameters.

The assembly has three steps:

1. The dict literal `raw_input` (`FeatureRow.RawInput`) holds seven numeric
   fields under their own names. It also holds one indicator column
   `"<Prefix>_<code>"` = 1 for each of the seven categorical fields. Sex
   becomes `M`/`F`, and angina and family history become `Y`/`N`. The other
   fields use their option label verbatim (`FeatureRow.Code`, `FeatureRow.ColumnName`).
   A Python dict literal keeps the later value of a repeated key (module `Dict`).
   The fourteen keys never repeat, so nothing is lost.
2. The loop over the schema (`FeatureRow.AddMissingColumns`) adds each
   missing column with value 0 and never overwrites a column already present.
3. `frame[expected_columns]` (`FeatureRow.Select`) projects the row onto the
   schema in schema order. It models the pandas `KeyError` for an absent
   column, and `AssembleRow` proves that this error cannot happen after step 2.

`FeatureRow.ColumnValue` states what each column of the final row holds. A key
produced by `raw_input` keeps its value, and every other column is 0. The
lemmas in `FeatureRowLemmas` pin that value down in the form's own terms.
`AssembleRow`'s postcondition fixes its result uniquely, so assembling the same
form twice yields the same row. `FeatureRowLemmas.AssembleExample` runs one
form through `AssembleRow` against a twelve-column schema and proves the row
it gets.

Modules: `Inputs` (the form and its option lists), `Dict` (dict-literal
semantics), `FeatureRow` (the assembler), `FeatureRowLemmas` (its properties).

## Model

| member | source | states |
|---|---|---|
| `FeatureRow.AssembleRow` | app.py:56-84 | for every form and every schema, without error, the row has exactly one value per schema column, in schema order, and each is the value `ColumnValue` gives that column |
| `FeatureRow.AddMissingColumns` | app.py:79-81 | afterwards the frame's columns are its old columns plus every schema column; each old column keeps its value; each added column is 0 |
| `FeatureRow.Select` | app.py:84 | projecting onto a column list succeeds exactly when every listed column is in the frame, and then gives one value per listed column, in list order, equal to the frame's cell; otherwise it reports a `KeyError` on a listed column the frame lacks |
| `Dict.DictOf` | app.py:58-73 | the dict a literal builds by inserting its entries left to right: every key of the literal is in the dict, and every key of the dict holds a value written beside that key in the literal |
| `Dict.DictOfLastWins` | app.py:58-73 | in a dict literal, a key takes the value of its last occurrence |
| `Dict.DictOfLookup` | app.py:58-73 | when a literal's keys are pairwise distinct, every entry reads back with its own value |
| `Dict.DictOfSize` | app.py:58-73 | a literal with pairwise distinct keys yields a dict with as many entries as the literal |
| `FeatureRow.Code` | app.py:66-72 | the code a categorical choice contributes: sex gives "M" for "Male" and "F" otherwise, angina and family history give "Y" for "Yes" and "N" otherwise, the other fields give the option label verbatim; it is always one of the codes the field's widget offers |
| `FeatureRow.ColumnName` | app.py:66-72 | the indicator column `"<Prefix>_" + code`: it starts with the field's prefix and an underscore, and the code is what follows them |
| `FeatureRow.ColumnNameInjective` | app.py:66-72 | two indicator columns have the same name only if they belong to the same field and the same code, because the seven prefixes differ |
| `FeatureRow.NumericIsNotIndicator` | app.py:59-72 | no numeric column name equals any indicator column name |
| `FeatureRow.RawEntries` | app.py:58-73 | the literal's entries in the order written: the seven numeric fields under their own names, then one indicator column set to 1 per categorical field; there are fourteen and their keys are pairwise distinct, for every form |
| `FeatureRow.RawInput` | app.py:58-73 | `raw_input` has exactly fourteen entries, and each literal entry is present with its own value, so none is overwritten |
| `FeatureRow.RawValueFromInputs` | app.py:58-73 | every value of `raw_input` is 1 or the numeric input under that very key |
| `FeatureRow.ColumnValue` | app.py:58-81 | the value a column holds once missing columns are filled: the `raw_input` value when the key is present and 0 otherwise; so every cell is 0, 1 or the numeric input of that very column |
| `FeatureRowLemmas.NumericPassThrough` | app.py:59-65 | Age, RestingBP, Cholesterol, FastingBS, MaxHR, Oldpeak and BMI reach their columns of the row unchanged |
| `FeatureRowLemmas.RawIndicatorIsSelected` | app.py:66-72 | the only indicator column of a field that `raw_input` holds is the one of the selected code |
| `FeatureRowLemmas.IndicatorValue` | app.py:66-72 | the indicator column of any code of a field is 1 when that code is the form's selected code (`Sex_M` exactly when sex is "Male", `_Y` exactly when the answer is "Yes", the label verbatim otherwise), and 0 otherwise |
| `FeatureRowLemmas.IndicatorColumnValue` | app.py:66-81 | every schema column with a field's prefix is 0, except the selected category's column, which is 1 |
| `FeatureRowLemmas.ExactlyOneHot` | app.py:35-72 | among the indicator columns of all the codes a widget offers, exactly the selected code's column is 1 |
| `FeatureRowLemmas.UnknownCategoryDropped` | app.py:66-84 | when the schema lacks the selected category's column, no indicator column of that field in the schema is 1: the category is dropped silently |
| `FeatureRowLemmas.ExampleSchemaNames` | app.py:66-72 | the worked schema's indicator columns spelled out as the literal builds them (`Sex_M`, `ChestPainType_ATA`, `ST_Slope_Up`, ...), with no `SmokingStatus_Never` among them |
| `FeatureRowLemmas.AssembleExample` | app.py:58-84 | a form of age 40 and BMI 22.0 with Female/ATA/Normal/No/Up/Never, run through `AssembleRow` against a schema without `SmokingStatus_Never`, yields 40, then the 0/1 indicators with exactly the selected ones at 1, then 22.0 |

## Left out

- The Streamlit page (`app.py:10-53`): page setup, text, sidebar and widget declarations. The widget option lists appear as the enum datatypes of `Inputs`. The numeric widget ranges are not made preconditions, because the assembler behaves the same for every value.
- Loading the classifier, the scaler and the schema with `joblib.load` (`app.py:6-8`) is file I/O. The schema is a parameter of `AssembleRow`.
- Scaling and inference (`app.py:87-91`) call opaque scikit-learn objects and use floating point.
- The result messages and probability formatting (`app.py:93-117`) are user-interface output.
- The column order of the intermediate pandas frame is not modelled. The projection in step 3 fixes the order of the final row, and nothing reads the earlier order.
- `bmi` and `oldpeak` are floats in the source and reals here. They are only passed through, so no rounding behaviour is involved.
- FeatureRow.Select: when several columns are missing, pandas names all of them in its `KeyError`, but the model names only the first.
