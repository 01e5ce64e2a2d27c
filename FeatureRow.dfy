/**
 The feature-row assembler of the prediction page (app.py:58-84): it turns one
 submitted form into the single row, laid out as the trained classifier's
 column schema says, that is handed to the scaler and the classifier.

 1. `RawInput` builds the dict literal `raw_input`: seven numeric fields, and one
    one-hot indicator column `"<Prefix>_<code>"` set to 1 per categorical field.
 2. `AddMissingColumns` adds every schema column that the row lacks, set to 0.
 3. `Select` projects the row onto the schema, in schema order.
 `AssembleRow` runs the three steps; `ColumnValue` is what each column of the
 assembled row holds, and the lemmas in `FeatureRowLemmas` state what that value is.
 */
module FeatureRow {
  import opened Inputs
  import opened Dict

  /** A cell of the row: a Python int, or a float that is only passed through. */
  datatype Value = Int(n: int) | Float(x: real)

  /** The seven categorical fields, each expanded into indicator columns. */
  datatype Field =
    | SexField
    | ChestPainField
    | RestingECGField
    | AnginaField
    | SlopeField
    | SmokingField
    | FamilyHistoryField

  /** The fields in the order the dict literal lists them (app.py:66-72). */
  const Fields: seq<Field> :=
    [SexField, ChestPainField, RestingECGField, AnginaField, SlopeField, SmokingField, FamilyHistoryField]

  function Prefix(field: Field): string {
    match field
    case SexField => "Sex"
    case ChestPainField => "ChestPainType"
    case RestingECGField => "RestingECG"
    case AnginaField => "ExerciseAngina"
    case SlopeField => "ST_Slope"
    case SmokingField => "SmokingStatus"
    case FamilyHistoryField => "FamilyHistory"
  }

  /** The code a sex choice contributes: "M" for "Male", anything else "F". */
  function SexCode(s: Sex): string {
    if s.Label() == "Male" then "M" else "F"
  }

  /** The code a Yes/No answer contributes: "Y" for "Yes", anything else "N". */
  function YesNoCode(a: Answer): string {
    if a.Label() == "Yes" then "Y" else "N"
  }

  /** Every code the widget for `field` can produce, one per option it offers. */
  function Codes(field: Field): seq<string> {
    match field
    case SexField => [SexCode(Male), SexCode(Female)]
    case ChestPainField => [ATA.Label(), NAP.Label(), TA.Label(), ASY.Label()]
    case RestingECGField => [Normal.Label(), ST.Label(), LVH.Label()]
    case AnginaField => [YesNoCode(Yes), YesNoCode(No)]
    case SlopeField => [Up.Label(), Flat.Label(), Down.Label()]
    case SmokingField => [Never.Label(), Former.Label(), Current.Label()]
    case FamilyHistoryField => [YesNoCode(Yes), YesNoCode(No)]
  }

  /**
   The code the form's choice for `field` contributes to its indicator column
   (app.py:66-72); it is always one of the codes the widget offers.
   */
  function Code(f: Form, field: Field): (c: string)
    ensures c in Codes(field)
  {
    match field
    case SexField => SexCode(f.sex)
    case ChestPainField => f.chestPain.Label()
    case RestingECGField => f.restingECG.Label()
    case AnginaField => YesNoCode(f.exerciseAngina)
    case SlopeField => f.stSlope.Label()
    case SmokingField => f.smokingStatus.Label()
    case FamilyHistoryField => YesNoCode(f.familyHistory)
  }

  /** True when `column` is an indicator column of `field`, whatever its code. */
  predicate IsIndicator(field: Field, column: string) {
    |Prefix(field)| < |column| && column[..|Prefix(field)| + 1] == Prefix(field) + "_"
  }

  /**
   The one-hot indicator column for `code` of `field`: it starts with the
   field's prefix and an underscore, and the code can be read back from the rest.
   */
  function ColumnName(field: Field, code: string): (name: string)
    ensures IsIndicator(field, name)
    ensures name[|Prefix(field)| + 1..] == code
  {
    var name := Prefix(field) + "_" + code;
    assert name == (Prefix(field) + "_") + code;
    name
  }

  /** The first two characters and the underscore of an indicator column name. */
  lemma ColumnNameParts(field: Field, code: string)
    ensures |Prefix(field)| >= 3
    ensures ColumnName(field, code)[0] == Prefix(field)[0]
    ensures ColumnName(field, code)[1] == Prefix(field)[1]
    ensures ColumnName(field, code)[|Prefix(field)|] == '_'
  {
  }

  /** The seven prefixes already differ in their first two characters. */
  lemma PrefixHeadsDistinct(field1: Field, field2: Field)
    requires Prefix(field1)[0] == Prefix(field2)[0] && Prefix(field1)[1] == Prefix(field2)[1]
    ensures field1 == field2
  {
    match field1
    case SexField =>
    case ChestPainField =>
    case RestingECGField =>
    case AnginaField =>
    case SlopeField =>
    case SmokingField =>
    case FamilyHistoryField =>
  }

  /** Distinct (field, code) pairs give distinct column names. */
  lemma ColumnNameInjective(field1: Field, code1: string, field2: Field, code2: string)
    requires ColumnName(field1, code1) == ColumnName(field2, code2)
    ensures field1 == field2 && code1 == code2
  {
    ColumnNameParts(field1, code1);
    ColumnNameParts(field2, code2);
    PrefixHeadsDistinct(field1, field2);
  }

  /** The numeric half of the dict literal (app.py:59-65), in the order written. */
  function NumericEntries(f: Form): seq<(string, Value)> {
    [ ("Age", Int(f.age)),
      ("RestingBP", Int(f.restingBP)),
      ("Cholesterol", Int(f.cholesterol)),
      ("FastingBS", Int(f.fastingBS)),
      ("MaxHR", Int(f.maxHR)),
      ("Oldpeak", Float(f.oldpeak)),
      ("BMI", Float(f.bmi)) ]
  }

  /** The indicator half of the dict literal (app.py:66-72): one column set to 1 per field. */
  function IndicatorEntries(f: Form): seq<(string, Value)> {
    seq(|Fields|, k requires 0 <= k < |Fields| => (ColumnName(Fields[k], Code(f, Fields[k])), Int(1)))
  }

  /**
   No numeric column name has an underscore where an indicator column of
   `field` has one, so none is an indicator column.
   */
  lemma NumericIsNotIndicator(f: Form, i: int, field: Field, code: string)
    requires 0 <= i < |NumericEntries(f)|
    ensures NumericEntries(f)[i].0 != ColumnName(field, code)
  {
    ColumnNameParts(field, code);
    var name := NumericEntries(f)[i].0;
    if |name| > |Prefix(field)| {
      assert name[|Prefix(field)|] != '_';
    }
  }

  /** The entry of the literal at index `i`: a numeric entry, or an indicator set to 1. */
  lemma EntryAt(f: Form, i: int)
    requires 0 <= i < 14
    ensures |NumericEntries(f) + IndicatorEntries(f)| == 14
    ensures i < 7 ==> (NumericEntries(f) + IndicatorEntries(f))[i] == NumericEntries(f)[i]
    ensures 7 <= i ==>
      (NumericEntries(f) + IndicatorEntries(f))[i] == (ColumnName(Fields[i - 7], Code(f, Fields[i - 7])), Int(1))
  {
  }

  /** The seven numeric column names are pairwise distinct. */
  lemma NumericKeysDistinct(f: Form)
    ensures DistinctKeys(NumericEntries(f))
  {
  }

  /** The seven indicator column names are pairwise distinct, because the fields are. */
  lemma IndicatorKeysDiffer(f: Form, i: int, j: int)
    requires 0 <= i < j < 7
    ensures IndicatorEntries(f)[i].0 != IndicatorEntries(f)[j].0
  {
    if IndicatorEntries(f)[i].0 == IndicatorEntries(f)[j].0 {
      ColumnNameInjective(Fields[i], Code(f, Fields[i]), Fields[j], Code(f, Fields[j]));
      assert false;
    }
  }

  /** The keys at two different indices of the literal differ. */
  lemma EntryKeysDiffer(f: Form, i: int, j: int)
    requires 0 <= i < j < 14
    ensures (NumericEntries(f) + IndicatorEntries(f))[i].0 != (NumericEntries(f) + IndicatorEntries(f))[j].0
  {
    var e := NumericEntries(f) + IndicatorEntries(f);
    if j < 7 {
      NumericKeysDistinct(f);
      assert e[i] == NumericEntries(f)[i] && e[j] == NumericEntries(f)[j];
    } else if i < 7 {
      NumericIsNotIndicator(f, i, Fields[j - 7], Code(f, Fields[j - 7]));
      assert e[i] == NumericEntries(f)[i] && e[j] == IndicatorEntries(f)[j - 7];
    } else {
      IndicatorKeysDiffer(f, i - 7, j - 7);
      assert e[i] == IndicatorEntries(f)[i - 7] && e[j] == IndicatorEntries(f)[j - 7];
    }
  }

  /** The fourteen keys of the literal are pairwise distinct. */
  lemma EntryKeysDistinct(f: Form)
    ensures DistinctKeys(NumericEntries(f) + IndicatorEntries(f))
  {
    var e := NumericEntries(f) + IndicatorEntries(f);
    EntryAt(f, 0);
    forall i, j | 0 <= i < j < |e| ensures e[i].0 != e[j].0 {
      EntryKeysDiffer(f, i, j);
    }
  }

  /**
   The entries of the dict literal `raw_input` (app.py:58-73), in the order
   written: fourteen of them, with pairwise distinct keys.
   */
  function RawEntries(f: Form): (e: seq<(string, Value)>)
    ensures |e| == 14
    ensures DistinctKeys(e)
  {
    EntryKeysDistinct(f);
    NumericEntries(f) + IndicatorEntries(f)
  }

  /**
   The dict `raw_input` of app.py:58-73. It holds all fourteen entries of the
   literal, each with its own value: nothing is overwritten.
   */
  function RawInput(f: Form): (r: map<string, Value>)
    ensures |r| == 14
    ensures forall i :: 0 <= i < 14 ==> RawEntries(f)[i].0 in r && r[RawEntries(f)[i].0] == RawEntries(f)[i].1
  {
    DictOfSize(RawEntries(f));
    DictOfLookup(RawEntries(f));
    DictOf(RawEntries(f))
  }

  /**
   Specification of the assembled row: the value its column `column` holds.
   A column the raw input produced keeps that value; any other column is 0.
   So every cell is 0, 1, or the numeric input of that very column.
   */
  function ColumnValue(f: Form, column: string): (v: Value)
    ensures v == Int(0) || v == Int(1) || (column, v) in NumericEntries(f)
  {
    if column in RawInput(f) then
      RawValueFromInputs(f, column);
      RawInput(f)[column]
    else
      Int(0)
  }

  /** A value of `raw_input` is 1 or the numeric input under that very key. */
  lemma RawValueFromInputs(f: Form, column: string)
    requires column in RawInput(f)
    ensures RawInput(f)[column] == Int(1) || (column, RawInput(f)[column]) in NumericEntries(f)
  {
    var i :| 0 <= i < 14 && RawEntries(f)[i] == (column, RawInput(f)[column]);
    EntryAt(f, i);
    if i < 7 {
      assert NumericEntries(f)[i] == (column, RawInput(f)[column]);
    }
  }

  /**
   The loop of app.py:79-81 over the schema: a column not yet in the frame is
   added with value 0; a column already present is left alone.
   */
  method AddMissingColumns(frame: map<string, Value>, expected: seq<string>)
    returns (filled: map<string, Value>)
    ensures forall c :: c in filled <==> c in frame || c in expected
    ensures forall c :: c in frame ==> filled[c] == frame[c]
    ensures forall c :: c in filled && c !in frame ==> filled[c] == Int(0)
  {
    filled := frame;
    for i := 0 to |expected|
      invariant forall c :: c in filled <==> c in frame || c in expected[..i]
      invariant forall c :: c in frame ==> filled[c] == frame[c]
      invariant forall c :: c in filled && c !in frame ==> filled[c] == Int(0)
    {
      var column := expected[i];
      if column !in filled {
        filled := filled[column := Int(0)];
      }
    }
  }

  /** The outcome of indexing a frame by a list of columns. */
  datatype Selection = Selected(values: seq<Value>) | KeyError(column: string)

  /**
   `frame[columns]` (app.py:84): the row's values in the order of `columns`, or
   a KeyError naming a column the frame does not have.
   */
  function Select(frame: map<string, Value>, columns: seq<string>): (r: Selection)
    ensures r.Selected? <==> forall c :: c in columns ==> c in frame
    ensures r.Selected? ==>
      |r.values| == |columns| &&
      forall i :: 0 <= i < |columns| ==> columns[i] in frame && r.values[i] == frame[columns[i]]
    ensures r.KeyError? ==> r.column in columns && r.column !in frame
  {
    if columns == [] then Selected([])
    else if columns[0] !in frame then KeyError(columns[0])
    else
      match Select(frame, columns[1..])
      case KeyError(c) => KeyError(c)
      case Selected(rest) => Selected([frame[columns[0]]] + rest)
  }

  /**
   The whole assembly of app.py:58-84. It raises no error for any form and any
   schema, and the row it yields has one value per schema column, in schema
   order, each as `ColumnValue` specifies.
   */
  method AssembleRow(f: Form, expected: seq<string>) returns (row: seq<Value>)
    ensures |row| == |expected|
    ensures forall i :: 0 <= i < |expected| ==> row[i] == ColumnValue(f, expected[i])
  {
    var rawInput := RawInput(f);
    var frame := AddMissingColumns(rawInput, expected);
    var selection := Select(frame, expected);
    row := selection.values;
  }
}
