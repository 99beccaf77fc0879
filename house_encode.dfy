/** `build_one_hot_vector`: lay a clean record out as the 17-column row the
    regression models were fitted on. */
module HouseEncode {
  import opened HouseSchema

  /** The dummy block of one categorical field: 1 in the column of `value`,
      0 elsewhere (all 0 when `value` has no column). */
  function OneHot(value: string, categories: seq<string>): (v: seq<real>)
    ensures |v| == |categories|
    ensures forall j :: 0 <= j < |categories| ==> (v[j] == 1.0 <==> categories[j] == value)
    ensures forall j :: 0 <= j < |categories| ==> v[j] == 0.0 || v[j] == 1.0
  {
    seq(|categories|, j requires 0 <= j < |categories| => if categories[j] == value then 1.0 else 0.0)
  }

  predicate AllZero(b: seq<real>) {
    forall k :: 0 <= k < |b| ==> b[k] == 0.0
  }

  /** Exactly one entry is 1 and every other entry is 0. */
  predicate ExactlyOneHot(b: seq<real>) {
    exists j :: 0 <= j < |b| && b[j] == 1.0 && forall k :: 0 <= k < |b| && k != j ==> b[k] == 0.0
  }

  /** With distinct categories, a listed value lights exactly one column and
      an unlisted value none. */
  lemma OneHotCardinality(value: string, categories: seq<string>)
    requires Distinct(categories)
    ensures value in categories ==> ExactlyOneHot(OneHot(value, categories))
    ensures value !in categories <==> AllZero(OneHot(value, categories))
  {
    var v := OneHot(value, categories);
    if value in categories {
      var j :| 0 <= j < |categories| && categories[j] == value;
      assert v[j] == 1.0;
      assert forall k :: 0 <= k < |v| && k != j ==> v[k] == 0.0;
    }
  }

  /** The row `build_one_hot_vector` returns: the five numeric fields, then
      the three dummy blocks, in the order of `FINAL_FEATURE_ORDER`. */
  function Encode(f: Features): (v: seq<real>)
    ensures |v| == |FinalFeatureOrder|
  {
    [f.msSubClass as real, f.lotArea as real, f.overallCond as real, f.yearBuilt as real, f.totalBsmtSF]
      + OneHot(f.msZoning, ValidMSZoning)
      + OneHot(f.lotConfig, ValidLotConfig)
      + OneHot(f.bldgType, ValidBldgType)
  }

  lemma CategoriesDistinct()
    ensures Distinct(ValidMSZoning) && Distinct(ValidLotConfig) && Distinct(ValidBldgType)
  {
  }

  /** The four blocks of the row, sliced back out. */
  lemma EncodeBlocks(f: Features)
    ensures Encode(f)[..5] == [f.msSubClass as real, f.lotArea as real, f.overallCond as real, f.yearBuilt as real, f.totalBsmtSF]
    ensures Encode(f)[5..9] == OneHot(f.msZoning, ValidMSZoning)
    ensures Encode(f)[9..13] == OneHot(f.lotConfig, ValidLotConfig)
    ensures Encode(f)[13..] == OneHot(f.bldgType, ValidBldgType)
  {
  }

  /** For a clean record exactly one `MSZoning_*` column is 1. */
  lemma EncodeZoningOneHot(f: Features)
    requires IsClean(f)
    ensures ExactlyOneHot(Encode(f)[5..9])
  {
    EncodeBlocks(f);
    CategoriesDistinct();
    OneHotCardinality(f.msZoning, ValidMSZoning);
  }

  /** For a clean record exactly one `LotConfig_*` column is 1. */
  lemma EncodeLotConfigOneHot(f: Features)
    requires IsClean(f)
    ensures ExactlyOneHot(Encode(f)[9..13])
  {
    EncodeBlocks(f);
    CategoriesDistinct();
    OneHotCardinality(f.lotConfig, ValidLotConfig);
  }

  /** For a clean record the `BldgType_*` columns are all 0 exactly for the
      baseline "1Fam", and otherwise exactly one is 1. */
  lemma EncodeBldgTypeOneHot(f: Features)
    requires IsClean(f)
    ensures AllZero(Encode(f)[13..]) <==> f.bldgType == "1Fam"
    ensures f.bldgType != "1Fam" ==> ExactlyOneHot(Encode(f)[13..])
  {
    EncodeBlocks(f);
    CategoriesDistinct();
    OneHotCardinality(f.bldgType, ValidBldgType);
    assert f.bldgType != "1Fam" ==> f.bldgType in ValidBldgType;
    assert "1Fam" !in ValidBldgType;
  }

  /** Every dummy entry is 0 or 1. */
  lemma EncodeDummiesBinary(f: Features)
    ensures forall i :: 5 <= i < |Encode(f)| ==> Encode(f)[i] == 0.0 || Encode(f)[i] == 1.0
  {
    EncodeBlocks(f);
    var v := Encode(f);
    forall i | 5 <= i < |v|
      ensures v[i] == 0.0 || v[i] == 1.0
    {
      if i < 9 {
        assert v[i] == v[5..9][i - 5];
      } else if i < 13 {
        assert v[i] == v[9..13][i - 9];
      } else {
        assert v[i] == v[13..][i - 13];
      }
    }
  }

  /** The shape of a row built from a clean record: 17 entries, exactly one
      `MSZoning_*` and one `LotConfig_*` column set, at most one `BldgType_*`
      column set, and every dummy entry 0 or 1. */
  predicate RowShaped(v: seq<real>) {
    && |v| == |FinalFeatureOrder|
    && ExactlyOneHot(v[5..9])
    && ExactlyOneHot(v[9..13])
    && (AllZero(v[13..]) || ExactlyOneHot(v[13..]))
    && forall i :: 5 <= i < |v| ==> v[i] == 0.0 || v[i] == 1.0
  }

  lemma EncodeShaped(f: Features)
    requires IsClean(f)
    ensures RowShaped(Encode(f))
  {
    EncodeZoningOneHot(f);
    EncodeLotConfigOneHot(f);
    EncodeBldgTypeOneHot(f);
    EncodeDummiesBinary(f);
  }

  /** What the row holds under column `col` once every field is written:
      the value of the last write to `col`, or the initial 0. */
  function Cell(f: Features, col: string): real {
    if f.bldgType != "1Fam" && col == "BldgType_" + f.bldgType then 1.0
    else if col == "LotConfig_" + f.lotConfig then 1.0
    else if col == "MSZoning_" + f.msZoning then 1.0
    else if col == "TotalBsmtSF" then f.totalBsmtSF
    else if col == "YearBuilt" then f.yearBuilt as real
    else if col == "OverallCond" then f.overallCond as real
    else if col == "LotArea" then f.lotArea as real
    else if col == "MSSubClass" then f.msSubClass as real
    else 0.0
  }

  /** The numeric columns hold the numeric fields. */
  lemma CellNumeric(f: Features, i: int)
    requires 0 <= i < 5
    ensures Cell(f, FinalFeatureOrder[i]) == Encode(f)[i]
  {
    EncodeBlocks(f);
    ColumnNames();
    assert Encode(f)[i] == Encode(f)[..5][i];
    DummyNamesDiffer(f.msZoning, f.msZoning);
    DummyNamesDiffer(f.lotConfig, f.lotConfig);
    DummyNamesDiffer(f.bldgType, f.bldgType);
    if i == 0 {
      assert FinalFeatureOrder[i] == "MSSubClass";

    } else if i == 1 {
      assert FinalFeatureOrder[i] == "LotArea";
    } else if i == 2 {
      assert FinalFeatureOrder[i] == "OverallCond";
    } else if i == 3 {
      assert FinalFeatureOrder[i] == "YearBuilt";
    } else {
      assert FinalFeatureOrder[i] == "TotalBsmtSF";
    }
  }

  /** An `MSZoning_*` column holds 1 exactly when it names the record's zoning. */
  lemma CellZoning(f: Features, i: int)
    requires 5 <= i < 9
    ensures Cell(f, FinalFeatureOrder[i]) == Encode(f)[i]
  {
    ColumnNames();
    EncodeBlocks(f);
    assert Encode(f)[i] == Encode(f)[5..9][i - 5];
    var cat := ValidMSZoning[i - 5];
    assert FinalFeatureOrder[i] == "MSZoning_" + cat;
    DummyNamesDiffer(cat, f.lotConfig);
    DummyNamesDiffer(cat, f.bldgType);
    DummyNameCancel("MSZoning_", cat, f.msZoning);
  }

  /** A `LotConfig_*` column holds 1 exactly when it names the record's lot
      configuration. */
  lemma CellLotConfig(f: Features, i: int)
    requires 9 <= i < 13
    ensures Cell(f, FinalFeatureOrder[i]) == Encode(f)[i]
  {
    ColumnNames();
    EncodeBlocks(f);
    assert Encode(f)[i] == Encode(f)[9..13][i - 9];
    var cat := ValidLotConfig[i - 9];
    assert FinalFeatureOrder[i] == "LotConfig_" + cat;
    DummyNamesDiffer(f.msZoning, cat);
    DummyNamesDiffer(cat, f.bldgType);
    DummyNameCancel("LotConfig_", cat, f.lotConfig);
  }

  /** A `BldgType_*` column holds 1 exactly when it names the record's
      building type; "1Fam" names none. */
  lemma CellBldgType(f: Features, i: int)
    requires 13 <= i < 17
    ensures Cell(f, FinalFeatureOrder[i]) == Encode(f)[i]
  {
    ColumnNames();
    EncodeBlocks(f);
    assert Encode(f)[i] == Encode(f)[13..][i - 13];
    var cat := ValidBldgType[i - 13];
    assert FinalFeatureOrder[i] == "BldgType_" + cat;
    DummyNamesDiffer(f.msZoning, cat);
    DummyNamesDiffer(f.lotConfig, cat);
    DummyNamesDiffer(cat, cat);
    DummyNameCancel("BldgType_", cat, f.bldgType);
    assert cat != "1Fam";
  }

  /** Reading the row column by column in layout order gives the encoding. */
  lemma CellAt(f: Features, i: int)
    requires 0 <= i < |FinalFeatureOrder|
    ensures Cell(f, FinalFeatureOrder[i]) == Encode(f)[i]
  {
    if i < 5 {
      CellNumeric(f, i);
    } else if i < 9 {
      CellZoning(f, i);
    } else if i < 13 {
      CellLotConfig(f, i);
    } else {
      CellBldgType(f, i);
    }
  }

  /** The dictionary `row` once every field is written: zeros under every
      column, the numeric fields, then a 1 under the column of each category
      (none for the baseline building type). A write under a name that is no
      column adds an entry that is never read. */
  function Row(f: Features): (row: map<string, real>)
    ensures forall col :: col in FinalFeatureOrder ==> col in row
    ensures forall col :: col in row ==> row[col] == Cell(f, col)
  {
    var zeros := map col | col in FinalFeatureOrder :: 0.0;
    var numeric := zeros["MSSubClass" := f.msSubClass as real]["LotArea" := f.lotArea as real]
      ["OverallCond" := f.overallCond as real]["YearBuilt" := f.yearBuilt as real]["TotalBsmtSF" := f.totalBsmtSF];
    var dummies := numeric["MSZoning_" + f.msZoning := 1.0]["LotConfig_" + f.lotConfig := 1.0];
    if f.bldgType != "1Fam" then dummies["BldgType_" + f.bldgType := 1.0] else dummies
  }

  /** Reading the row column by column in layout order gives the encoding. */
  lemma RowAt(f: Features, i: int)
    requires 0 <= i < |FinalFeatureOrder|
    ensures FinalFeatureOrder[i] in Row(f) && Row(f)[FinalFeatureOrder[i]] == Encode(f)[i]
  {
    CellAt(f, i);
  }

  /** `build_one_hot_vector`: a zeroed row keyed by column name, the numeric
      fields copied in, a 1 written under the column of each category (none
      for the baseline building type), then the row read out in layout order. */
  method BuildOneHotVector(clean: Features) returns (vector: seq<real>)
    ensures vector == Encode(clean)
  {
    var row: map<string, real> := map col | col in FinalFeatureOrder :: 0.0;

    row := row["MSSubClass" := clean.msSubClass as real];
    row := row["LotArea" := clean.lotArea as real];
    row := row["OverallCond" := clean.overallCond as real];
    row := row["YearBuilt" := clean.yearBuilt as real];
    row := row["TotalBsmtSF" := clean.totalBsmtSF];

    row := row["MSZoning_" + clean.msZoning := 1.0];

    row := row["LotConfig_" + clean.lotConfig := 1.0];

    if clean.bldgType != "1Fam" {
      row := row["BldgType_" + clean.bldgType := 1.0];
    }

    assert row == Row(clean);
    forall i | 0 <= i < |FinalFeatureOrder|
      ensures FinalFeatureOrder[i] in row && row[FinalFeatureOrder[i]] == Encode(clean)[i]
    {
      RowAt(clean, i);
    }

    vector := seq(|FinalFeatureOrder|, k requires 0 <= k < |FinalFeatureOrder| => row[FinalFeatureOrder[k]]);
  }
}
