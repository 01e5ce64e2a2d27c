/**
 What the assembled feature row holds: numeric fields pass through, every
 categorical field lights exactly its selected indicator column, a category
 the schema lacks is dropped, and every other column is 0. The key layout of
 `raw_input` itself is stated by the contracts of `FeatureRow.RawEntries` and
 `FeatureRow.RawInput`.
 */
module FeatureRowLemmas {
  import opened Inputs
  import opened FeatureRow

  /** Every numeric field reaches its column of the row unchanged. */
  lemma NumericPassThrough(f: Form)
    ensures ColumnValue(f, "Age") == Int(f.age)
    ensures ColumnValue(f, "RestingBP") == Int(f.restingBP)
    ensures ColumnValue(f, "Cholesterol") == Int(f.cholesterol)
    ensures ColumnValue(f, "FastingBS") == Int(f.fastingBS)
    ensures ColumnValue(f, "MaxHR") == Int(f.maxHR)
    ensures ColumnValue(f, "Oldpeak") == Float(f.oldpeak)
    ensures ColumnValue(f, "BMI") == Float(f.bmi)
  {
    NumericValueAt(f, 0);
    NumericValueAt(f, 1);
    NumericValueAt(f, 2);
    NumericValueAt(f, 3);
    NumericValueAt(f, 4);
    NumericValueAt(f, 5);
    NumericValueAt(f, 6);
  }

  /** The column of the numeric entry at index `k` holds that entry's value. */
  lemma NumericValueAt(f: Form, k: int)
    requires 0 <= k < 7
    ensures ColumnValue(f, NumericEntries(f)[k].0) == NumericEntries(f)[k].1
  {
    EntryAt(f, k);
    assert RawEntries(f)[k] == NumericEntries(f)[k];
  }

  /** The only indicator column of a field that `raw_input` holds is the one of the selected code. */
  lemma RawIndicatorIsSelected(f: Form, field: Field, code: string)
    requires ColumnName(field, code) in RawInput(f)
    ensures code == Code(f, field)
  {
    var column := ColumnName(field, code);
    var i :| 0 <= i < 14 && RawEntries(f)[i] == (column, RawInput(f)[column]);
    EntryAt(f, i);
    if i < 7 {
      NumericIsNotIndicator(f, i, field, code);
    } else {
      ColumnNameInjective(Fields[i - 7], Code(f, Fields[i - 7]), field, code);
    }
  }

  /** An indicator column is 1 when its code is the one selected on the form, and 0 otherwise. */
  lemma IndicatorValue(f: Form, field: Field, code: string)
    ensures ColumnValue(f, ColumnName(field, code)) == if code == Code(f, field) then Int(1) else Int(0)
  {
    if code == Code(f, field) {
      assert field in Fields;
      var k :| 0 <= k < 7 && Fields[k] == field;
      EntryAt(f, 7 + k);
    } else if ColumnName(field, code) in RawInput(f) {
      RawIndicatorIsSelected(f, field, code);
      assert false;
    }
  }

  /**
   Every column of a field's indicator family is 0 except the one of the
   selected code, which is 1.
   */
  lemma IndicatorColumnValue(f: Form, field: Field, column: string)
    requires IsIndicator(field, column)
    ensures ColumnValue(f, column) == if column == ColumnName(field, Code(f, field)) then Int(1) else Int(0)
  {
    var code := column[|Prefix(field)| + 1..];
    assert column == ColumnName(field, code) by {
      assert column == column[..|Prefix(field)| + 1] + code;
    }
    IndicatorValue(f, field, code);
    if code != Code(f, field) && column == ColumnName(field, Code(f, field)) {
      ColumnNameInjective(field, code, field, Code(f, field));
      assert false;
    }
  }

  /** Among the indicator columns of all the codes a widget offers, exactly one is 1. */
  lemma ExactlyOneHot(f: Form, field: Field)
    ensures (set code | code in Codes(field) && ColumnValue(f, ColumnName(field, code)) == Int(1)) == {Code(f, field)}
  {
    forall code | code in Codes(field)
      ensures ColumnValue(f, ColumnName(field, code)) == Int(1) <==> code == Code(f, field)
    {
      IndicatorValue(f, field, code);
    }
  }

  /**
   A selected category whose column the schema does not list is silently
   dropped: no indicator column of that field in the schema is 1.
   */
  lemma UnknownCategoryDropped(f: Form, expected: seq<string>, field: Field)
    requires ColumnName(field, Code(f, field)) !in expected
    ensures forall i :: 0 <= i < |expected| && IsIndicator(field, expected[i]) ==> ColumnValue(f, expected[i]) == Int(0)
  {
    forall i | 0 <= i < |expected| && IsIndicator(field, expected[i]) ensures ColumnValue(f, expected[i]) == Int(0) {
      IndicatorColumnValue(f, field, expected[i]);
    }
  }

  /**
   The schema of a worked case and the row it yields. The schema's indicator
   columns are written as `ColumnName(field, code)`; `ExampleSchemaNames`
   spells them out.
   */
  const ExampleSchema: seq<string> :=
    ["Age", ColumnName(SexField, "M"), ColumnName(SexField, "F"),
     ColumnName(ChestPainField, "ATA"), ColumnName(ChestPainField, "ASY"), ColumnName(RestingECGField, "Normal"),
     ColumnName(AnginaField, "Y"), ColumnName(AnginaField, "N"), ColumnName(SlopeField, "Up"),
     ColumnName(SlopeField, "Flat"), ColumnName(SmokingField, "Current"), "BMI"]
  const ExampleValues: seq<Value> :=
    [Int(40), Int(0), Int(1), Int(1), Int(0), Int(1), Int(0), Int(1), Int(1), Int(0), Int(0), Float(22.0)]

  /** The worked schema's columns, spelled out; it has no column for "Never". */
  lemma ExampleSchemaNames()
    ensures ExampleSchema ==
      ["Age", "Sex_M", "Sex_F", "ChestPainType_ATA", "ChestPainType_ASY", "RestingECG_Normal",
       "ExerciseAngina_Y", "ExerciseAngina_N", "ST_Slope_Up", "ST_Slope_Flat", "SmokingStatus_Current", "BMI"]
    ensures ColumnName(SmokingField, Never.Label()) !in ExampleSchema
  {
    assert ColumnName(SexField, "M") == "Sex_M";
    assert ColumnName(SexField, "F") == "Sex_F";
    assert ColumnName(ChestPainField, "ATA") == "ChestPainType_ATA";
    assert ColumnName(ChestPainField, "ASY") == "ChestPainType_ASY";
    assert ColumnName(RestingECGField, "Normal") == "RestingECG_Normal";
    assert ColumnName(AnginaField, "Y") == "ExerciseAngina_Y";
    assert ColumnName(AnginaField, "N") == "ExerciseAngina_N";
    assert ColumnName(SlopeField, "Up") == "ST_Slope_Up";
    assert ColumnName(SlopeField, "Flat") == "ST_Slope_Flat";
    assert ColumnName(SmokingField, "Current") == "SmokingStatus_Current";
    assert ColumnName(SmokingField, "Never") == "SmokingStatus_Never";
  }

  /** The worked form's choices, and its numeric fields that the worked schema lists. */
  predicate IsExampleForm(f: Form) {
    && f.age == 40 && f.sex == Female && f.bmi == 22.0 && f.chestPain == ATA
    && f.restingECG == Normal && f.exerciseAngina == No && f.stSlope == Up && f.smokingStatus == Never
  }

  /** The code an indicator column name of `field` carries after the prefix and underscore. */
  function CodeOf(field: Field, column: string): string
    requires IsIndicator(field, column)
  {
    column[|Prefix(field)| + 1..]
  }

  /**
   The cells of the worked schema, one categorical field at a time: each holds
   the value listed in `ExampleValues`.
   */
  lemma ExampleSexCells(f: Form, k: int)
    requires IsExampleForm(f)
    requires 1 <= k <= 2
    ensures ColumnValue(f, ExampleSchema[k]) == ExampleValues[k]
  {
    IndicatorValue(f, SexField, CodeOf(SexField, ExampleSchema[k]));
  }

  lemma ExampleChestPainCells(f: Form, k: int)
    requires IsExampleForm(f)
    requires 3 <= k <= 4
    ensures ColumnValue(f, ExampleSchema[k]) == ExampleValues[k]
  {
    IndicatorValue(f, ChestPainField, CodeOf(ChestPainField, ExampleSchema[k]));
  }

  lemma ExampleRestingECGCells(f: Form, k: int)
    requires IsExampleForm(f)
    requires k == 5
    ensures ColumnValue(f, ExampleSchema[k]) == ExampleValues[k]
  {
    IndicatorValue(f, RestingECGField, CodeOf(RestingECGField, ExampleSchema[k]));
  }

  lemma ExampleAnginaCells(f: Form, k: int)
    requires IsExampleForm(f)
    requires 6 <= k <= 7
    ensures ColumnValue(f, ExampleSchema[k]) == ExampleValues[k]
  {
    IndicatorValue(f, AnginaField, CodeOf(AnginaField, ExampleSchema[k]));
  }

  lemma ExampleSlopeCells(f: Form, k: int)
    requires IsExampleForm(f)
    requires 8 <= k <= 9
    ensures ColumnValue(f, ExampleSchema[k]) == ExampleValues[k]
  {
    IndicatorValue(f, SlopeField, CodeOf(SlopeField, ExampleSchema[k]));
  }

  lemma ExampleSmokingCells(f: Form, k: int)
    requires IsExampleForm(f)
    requires k == 10
    ensures ColumnValue(f, ExampleSchema[k]) == ExampleValues[k]
  {
    IndicatorValue(f, SmokingField, CodeOf(SmokingField, ExampleSchema[k]));
  }

  /**
   A worked case run through the assembler: a female, ATA, Normal, no angina,
   Up, never-smoking form of age 40 and BMI 22.0, whatever its other fields,
   against a schema that has no column for "Never". The five selected
   indicator columns are 1, the other indicator columns are 0, the dropped
   smoking category contributes nothing, and the numeric fields pass through.
   */
  method AssembleExample(f: Form) returns (row: seq<Value>)
    requires IsExampleForm(f)
    ensures row == ExampleValues
  {
    row := AssembleRow(f, ExampleSchema);
    NumericPassThrough(f);
    forall k | 0 <= k < |row| ensures row[k] == ExampleValues[k] {
      if k == 0 || k == 11 {
      } else if k <= 2 {
        ExampleSexCells(f, k);
      } else if k <= 4 {
        ExampleChestPainCells(f, k);
      } else if k == 5 {
        ExampleRestingECGCells(f, k);
      } else if k <= 7 {
        ExampleAnginaCells(f, k);
      } else if k <= 9 {
        ExampleSlopeCells(f, k);
      } else {
        ExampleSmokingCells(f, k);
      }
    }
  }
}
