/** The fixed schema of the house-price pipeline: the raw features asked of the
    language model, their defaults, the valid categories and the 17-column
    layout the regression models were fitted on. */
module HouseSchema {

  /** A JSON value as the decoder hands it over. Numbers are exact; arrays and
      nested objects are only ever coerced to a default, so they stay opaque. */
  datatype JsonValue = JNull | JBool(b: bool) | JNum(x: real) | JStr(s: string) | JOther

  /** A decoded JSON object: the raw record, or the clean one. */
  type Record = map<string, JsonValue>

  const FinalFeatureOrder: seq<string> := [
    "MSSubClass",
    "LotArea",
    "OverallCond",
    "YearBuilt",
    "TotalBsmtSF",

    "MSZoning_FV",
    "MSZoning_RH",
    "MSZoning_RL",
    "MSZoning_RM",

    "LotConfig_CulDSac",
    "LotConfig_FR2",
    "LotConfig_FR3",
    "LotConfig_Inside",

    "BldgType_2fmCon",
    "BldgType_Duplex",
    "BldgType_Twnhs",
    "BldgType_TwnhsE"
  ]

  const RawFeatures: seq<string> := [
    "MSSubClass",
    "MSZoning",
    "LotArea",
    "LotConfig",
    "BldgType",
    "OverallCond",
    "YearBuilt",
    "TotalBsmtSF"
  ]

  /** A clean feature record: what `fill_missing` returns. Its dictionary has
      exactly the raw features as keys, an integer in each of the four integer
      fields, a number in `TotalBsmtSF` and text in the three categorical
      fields, so it is modelled as a record with one field per key. */
  datatype Features = Features(
    msSubClass: int,
    msZoning: string,
    lotArea: int,
    lotConfig: string,
    bldgType: string,
    overallCond: int,
    yearBuilt: int,
    totalBsmtSF: real)

  /** The `DEFAULTS` dictionary. "1Fam" is the baseline building type: it has
      no dummy column. */
  const Defaults: Features := Features(20, "RL", 9500, "Inside", "1Fam", 5, 1975, 900.0)

  const ValidMSZoning: seq<string> := ["FV", "RH", "RL", "RM"]
  const ValidLotConfig: seq<string> := ["CulDSac", "FR2", "FR3", "Inside"]
  const ValidBldgType: seq<string> := ["2fmCon", "Duplex", "Twnhs", "TwnhsE"]
  /** The building types a clean record may hold: the baseline, then the dummies. */
  const AcceptedBldgType: seq<string> := ["1Fam"] + ValidBldgType

  /** The numeric columns, in layout order; they are also raw feature names. */
  const NumericFeatures: seq<string> := ["MSSubClass", "LotArea", "OverallCond", "YearBuilt", "TotalBsmtSF"]

  /** The dummy-column names of one categorical field: `f"{prefix}{value}"` per category. */
  function DummyColumns(prefix: string, categories: seq<string>): (cols: seq<string>)
    ensures |cols| == |categories|
    ensures forall j :: 0 <= j < |categories| ==> cols[j] == prefix + categories[j]
  {
    seq(|categories|, j requires 0 <= j < |categories| => prefix + categories[j])
  }

  predicate Distinct<T(==)>(s: seq<T>) {
    forall i, j :: 0 <= i < j < |s| ==> s[i] != s[j]
  }

  lemma DummyColumnsAt(prefix: string, categories: seq<string>, cols: seq<string>)
    requires |cols| == |categories|
    requires forall j :: 0 <= j < |categories| ==> cols[j] == prefix + categories[j]
    ensures DummyColumns(prefix, categories) == cols
  {
  }

  /** The layout is the numeric columns followed by one dummy column per
      non-baseline category, in category order. */
  lemma LayoutShape()
    ensures FinalFeatureOrder == NumericFeatures
      + DummyColumns("MSZoning_", ValidMSZoning)
      + DummyColumns("LotConfig_", ValidLotConfig)
      + DummyColumns("BldgType_", ValidBldgType)
  {
    DummyColumnsAt("MSZoning_", ValidMSZoning, FinalFeatureOrder[5..9]);
    DummyColumnsAt("LotConfig_", ValidLotConfig, FinalFeatureOrder[9..13]);
    DummyColumnsAt("BldgType_", ValidBldgType, FinalFeatureOrder[13..]);
    assert FinalFeatureOrder == FinalFeatureOrder[..5] + FinalFeatureOrder[5..9]
      + FinalFeatureOrder[9..13] + FinalFeatureOrder[13..];
  }

  /** The name of each column, by position. */
  lemma ColumnNames()
    ensures forall j :: 0 <= j < 5 ==> FinalFeatureOrder[j] == NumericFeatures[j]
    ensures forall j :: 0 <= j < 4 ==> FinalFeatureOrder[5 + j] == "MSZoning_" + ValidMSZoning[j]
    ensures forall j :: 0 <= j < 4 ==> FinalFeatureOrder[9 + j] == "LotConfig_" + ValidLotConfig[j]
    ensures forall j :: 0 <= j < 4 ==> FinalFeatureOrder[13 + j] == "BldgType_" + ValidBldgType[j]
  {
    LayoutShape();
  }

  /** A dummy column name determines its category. */
  lemma DummyNameCancel(prefix: string, x: string, y: string)
    ensures prefix + x == prefix + y <==> x == y
  {
    if prefix + x == prefix + y {
      assert x == (prefix + x)[|prefix|..];
      assert y == (prefix + y)[|prefix|..];
    }
  }

  /** Dummy columns of different fields never share a name, and no dummy
      column is named like a numeric column. */
  lemma DummyNamesDiffer(x: string, y: string)
    ensures "MSZoning_" + x != "LotConfig_" + y
    ensures "MSZoning_" + x != "BldgType_" + y
    ensures "LotConfig_" + x != "BldgType_" + y
    ensures "MSZoning_" + x !in NumericFeatures
    ensures "LotConfig_" + x !in NumericFeatures
    ensures "BldgType_" + x !in NumericFeatures
  {
    assert ("MSZoning_" + x)[0] == 'M' && ("MSZoning_" + x)[2] == 'Z';
    assert ("LotConfig_" + x)[0] == 'L' && ("LotConfig_" + x)[3] == 'C';
    assert ("BldgType_" + x)[0] == 'B';
    assert ("LotConfig_" + y)[0] == 'L' && ("BldgType_" + y)[0] == 'B';
    assert "MSSubClass"[2] == 'S' && "LotArea"[3] == 'A';
  }

  /** Every categorical field on its whitelist. */
  predicate IsClean(f: Features) {
    f.msZoning in ValidMSZoning && f.lotConfig in ValidLotConfig && f.bldgType in AcceptedBldgType
  }

  /** Every default satisfies its own field's whitelist, and the baseline
      building type is no dummy category. */
  lemma DefaultsAreValid()
    ensures IsClean(Defaults) && Defaults.bldgType !in ValidBldgType
  {
  }
}
