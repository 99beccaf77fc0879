/** `fill_missing`: turn the untrusted decoded object into a fully populated,
    whitelist-checked feature record. */
module HouseNormalize {
  import opened Text
  import opened HouseSchema
  import opened HouseCoercion
  import opened HouseExtract

  /** `raw.get(key)`: None when the key is absent. */
  function Get(raw: Record, key: string): (v: JsonValue)
    ensures key in raw ==> v == raw[key]
    ensures key !in raw ==> v == JNull
  {
    if key in raw then raw[key] else JNull
  }

  /** A categorical field: the `safe_str` text if it is on the whitelist, the
      default otherwise. */
  function CleanCategory(v: JsonValue, accepted: seq<string>, default: string, conv: Conversions): (s: string)
    ensures s in accepted || s == default
  {
    var text := SafeStr(v, default, conv);
    if text in accepted then text else default
  }

  /** A category name `str()` never writes: not "True" or "False", not a
      numeral, and not opening with a bracket. */
  predicate PlainName(c: string) {
    c != [] && c != "True" && c != "False" && !Numeral(c) && !OpensBracket(c[0])
  }

  lemma NotNumeral(c: string, k: int)
    requires 0 <= k < |c| && !NumeralChar(c[k])
    ensures !Numeral(c)
  {
  }

  /** Every whitelisted category, "1Fam" included, is a plain name. */
  lemma WhitelistsPlain()
    ensures forall c :: c in ValidMSZoning ==> PlainName(c)
    ensures forall c :: c in ValidLotConfig ==> PlainName(c)
    ensures forall c :: c in AcceptedBldgType ==> PlainName(c)
  {
    forall c | c in ValidMSZoning + ValidLotConfig + AcceptedBldgType
      ensures PlainName(c)
    {
      if c == "2fmCon" {
        NotNumeral(c, 2);
      } else if c == "1Fam" {
        NotNumeral(c, 1);
      } else {
        NotNumeral(c, 0);
      }
    }
  }

  /** The whitelist policy for one categorical value: None gives the default;
      text is stripped, then kept exactly when the stripped text is on the
      whitelist (case-sensitively), and replaced by the default otherwise. A
      boolean, number, array or object is written out by `str()`, which never
      gives a plain name, so it falls back to the default as well. */
  lemma CategoryPolicy(v: JsonValue, accepted: seq<string>, default: string, conv: Conversions)
    requires "" !in accepted
    ensures v.JNull? ==> CleanCategory(v, accepted, default, conv) == default
    ensures v.JStr? && Strip(v.s) in accepted ==> CleanCategory(v, accepted, default, conv) == Strip(v.s)
    ensures v.JStr? && Strip(v.s) !in accepted ==> CleanCategory(v, accepted, default, conv) == default
    ensures ShowsAsPython(conv) && (forall c :: c in accepted ==> PlainName(c)) && (v.JBool? || v.JNum? || v.JOther?)
      ==> CleanCategory(v, accepted, default, conv) == default
  {
    if v.JStr? && Strip(v.s) in accepted {
      assert Strip(v.s) != [];
    }
    if ShowsAsPython(conv) && (v.JBool? || v.JNum? || v.JOther?) {
      ShownNotPlain(v, conv);
    }
  }

  /** What `str()` writes for a boolean, number, array or object strips to
      nothing or to a name that is not plain. */
  lemma ShownNotPlain(v: JsonValue, conv: Conversions)
    requires ShowsAsPython(conv) && (v.JBool? || v.JNum? || v.JOther?)
    ensures Strip(ToStr(v, conv)) == [] || !PlainName(Strip(ToStr(v, conv)))
  {
    var t := ToStr(v, conv);
    if v.JBool? {
      StripStripped(t);
    } else if v.JNum? {
      assert Numeral(t);
      assert t != [] ==> NumeralChar(t[0]) && NumeralChar(t[|t| - 1]);
      StripStripped(t);
    } else {
      StripKeepsHead(t);
    }
  }

  /** A first character that is not whitespace is still first after `strip()`. */
  lemma StripKeepsHead(t: string)
    requires t != [] && !IsSpace(t[0])
    ensures Strip(t) != [] && Strip(t)[0] == t[0]
  {
    var s := Strip(t);
    var i, j :| 0 <= i <= j <= |t| && s == t[i..j] && SpaceRun(t, 0, i) && SpaceRun(t, j, |t|);
    assert i == 0;
  }

  /** A boolean, number, array or object under a categorical key leaves that
      field of the clean record at its default. */
  lemma NormalizeNonTextCategories(raw: Record, conv: Conversions)
    requires ShowsAsPython(conv)
    ensures var v := Get(raw, "MSZoning");
      v.JBool? || v.JNum? || v.JOther? ==> Normalize(raw, conv).msZoning == Defaults.msZoning
    ensures var v := Get(raw, "LotConfig");
      v.JBool? || v.JNum? || v.JOther? ==> Normalize(raw, conv).lotConfig == Defaults.lotConfig
    ensures var v := Get(raw, "BldgType");
      v.JBool? || v.JNum? || v.JOther? ==> Normalize(raw, conv).bldgType == Defaults.bldgType
  {
    WhitelistsPlain();
    CategoryPolicy(Get(raw, "MSZoning"), ValidMSZoning, Defaults.msZoning, conv);
    CategoryPolicy(Get(raw, "LotConfig"), ValidLotConfig, Defaults.lotConfig, conv);
    CategoryPolicy(Get(raw, "BldgType"), AcceptedBldgType, Defaults.bldgType, conv);
  }

  /** The record `fill_missing` returns, field by field. */
  function Normalize(raw: Record, conv: Conversions): (clean: Features)
    ensures IsClean(clean)
  {
    DefaultsAreValid();
    Features(
      SafeInt(Get(raw, "MSSubClass"), Defaults.msSubClass, conv),
      CleanCategory(Get(raw, "MSZoning"), ValidMSZoning, Defaults.msZoning, conv),
      SafeInt(Get(raw, "LotArea"), Defaults.lotArea, conv),
      CleanCategory(Get(raw, "LotConfig"), ValidLotConfig, Defaults.lotConfig, conv),
      CleanCategory(Get(raw, "BldgType"), AcceptedBldgType, Defaults.bldgType, conv),
      SafeInt(Get(raw, "OverallCond"), Defaults.overallCond, conv),
      SafeInt(Get(raw, "YearBuilt"), Defaults.yearBuilt, conv),
      SafeFloat(Get(raw, "TotalBsmtSF"), Defaults.totalBsmtSF, conv))
  }

  /** `fill_missing`: coerce each field in turn, then overwrite categories that
      are not on their whitelist. */
  method FillMissing(raw: Record, conv: Conversions) returns (clean: Features)
    ensures clean == Normalize(raw, conv)
  {
    var msSubClass := SafeInt(Get(raw, "MSSubClass"), Defaults.msSubClass, conv);
    var lotArea := SafeInt(Get(raw, "LotArea"), Defaults.lotArea, conv);
    var overallCond := SafeInt(Get(raw, "OverallCond"), Defaults.overallCond, conv);
    var yearBuilt := SafeInt(Get(raw, "YearBuilt"), Defaults.yearBuilt, conv);
    var totalBsmtSF := SafeFloat(Get(raw, "TotalBsmtSF"), Defaults.totalBsmtSF, conv);

    var msZoning := SafeStr(Get(raw, "MSZoning"), Defaults.msZoning, conv);
    var lotConfig := SafeStr(Get(raw, "LotConfig"), Defaults.lotConfig, conv);
    var bldgType := SafeStr(Get(raw, "BldgType"), Defaults.bldgType, conv);

    if msZoning !in ValidMSZoning {
      msZoning := Defaults.msZoning;
    }

    if lotConfig !in ValidLotConfig {
      lotConfig := Defaults.lotConfig;
    }

    if bldgType !in ["1Fam"] + ValidBldgType {
      bldgType := Defaults.bldgType;
    }

    clean := Features(msSubClass, msZoning, lotArea, lotConfig, bldgType, overallCond, yearBuilt, totalBsmtSF);
  }

  /** Matching is exact and case-sensitive: "fv" is not "FV". */
  lemma CategoryCaseSensitive(conv: Conversions)
    ensures CleanCategory(JStr("fv"), ValidMSZoning, Defaults.msZoning, conv) == "RL"
  {
    assert "fv" !in ValidMSZoning;
    SafeStrKeepsStripped("fv", "RL", conv);
  }

  /** Surrounding blanks do not matter: a whitelisted value with a blank on
      each side (" FV ") is kept without them ("FV"). */
  lemma CategoryPadded(s: string, accepted: seq<string>, default: string, conv: Conversions)
    requires s in accepted && s != [] && Stripped(s)
    ensures CleanCategory(JStr(" " + s + " "), accepted, default, conv) == s
  {
    assert " " + s + " " == [' '] + s + [' '];
    StripPadded(' ', s, ' ');
    assert Strip(" " + s + " ") != [];
  }

  /** An unknown building type becomes the baseline, never the raw text. */
  lemma CategoryUnknown(conv: Conversions)
    ensures CleanCategory(JStr("Castle"), AcceptedBldgType, Defaults.bldgType, conv) == "1Fam"
  {
    assert "Castle" !in AcceptedBldgType;
    SafeStrKeepsStripped("Castle", "1Fam", conv);
  }

  /** A whitelisted value passes through unchanged. */
  lemma CategoryFixed(s: string, accepted: seq<string>, default: string, conv: Conversions)
    requires s in accepted && s != [] && Stripped(s)
    ensures CleanCategory(JStr(s), accepted, default, conv) == s
  {
    SafeStrKeepsStripped(s, default, conv);
  }

  /** Every whitelisted value is non-empty text with nothing to strip. */
  lemma WhitelistsStripped()
    ensures forall t :: t in ValidMSZoning ==> t != [] && Stripped(t)
    ensures forall t :: t in ValidLotConfig ==> t != [] && Stripped(t)
    ensures forall t :: t in AcceptedBldgType ==> t != [] && Stripped(t)
  {
  }

  /** The clean record as the dictionary `fill_missing` returns: exactly the
      raw features as keys, numbers in the numeric fields, text in the
      categorical ones. */
  function ToRecord(f: Features): (r: Record)
    ensures forall k :: k in r <==> k in RawFeatures
    ensures forall k :: k in r ==> r[k].JNum? || r[k].JStr?
  {
    map[
      "MSSubClass" := JNum(f.msSubClass as real),
      "MSZoning" := JStr(f.msZoning),
      "LotArea" := JNum(f.lotArea as real),
      "LotConfig" := JStr(f.lotConfig),
      "BldgType" := JStr(f.bldgType),
      "OverallCond" := JNum(f.overallCond as real),
      "YearBuilt" := JNum(f.yearBuilt as real),
      "TotalBsmtSF" := JNum(f.totalBsmtSF)
    ]
  }

  /** The record of a failed decoding normalises to `DEFAULTS`, field for field. */
  lemma NormalizeAllNone(conv: Conversions)
    ensures Normalize(AllNone(), conv) == Defaults
  {
    var raw := AllNone();
    assert forall k :: k in RawFeatures ==> Get(raw, k) == JNull;
  }

  /** Keys outside the schema are ignored. */
  lemma NormalizeIgnoresExtraKeys(raw: Record, key: string, v: JsonValue, conv: Conversions)
    requires key !in RawFeatures
    ensures Normalize(raw[key := v], conv) == Normalize(raw, conv)
  {
    assert forall k :: k in RawFeatures ==> Get(raw[key := v], k) == Get(raw, k);
  }

  /** The numeric keys of the dictionary view hold the numeric fields. */
  lemma ToRecordNumbers(f: Features)
    ensures Get(ToRecord(f), "MSSubClass") == JNum(f.msSubClass as real)
    ensures Get(ToRecord(f), "LotArea") == JNum(f.lotArea as real)
    ensures Get(ToRecord(f), "OverallCond") == JNum(f.overallCond as real)
    ensures Get(ToRecord(f), "YearBuilt") == JNum(f.yearBuilt as real)
    ensures Get(ToRecord(f), "TotalBsmtSF") == JNum(f.totalBsmtSF)
  {
  }

  /** The categorical keys of the dictionary view hold the category text. */
  lemma ToRecordCategories(f: Features)
    ensures Get(ToRecord(f), "MSZoning") == JStr(f.msZoning)
    ensures Get(ToRecord(f), "LotConfig") == JStr(f.lotConfig)
    ensures Get(ToRecord(f), "BldgType") == JStr(f.bldgType)
  {
  }

  /** A clean record, read back as raw input, normalises to itself. */
  lemma NormalizeFixesClean(f: Features, conv: Conversions)
    requires IsClean(f)
    ensures Normalize(ToRecord(f), conv) == f
  {
    ToRecordNumbers(f);
    ToRecordCategories(f);
    WhitelistsStripped();
    CategoryFixed(f.msZoning, ValidMSZoning, Defaults.msZoning, conv);
    CategoryFixed(f.lotConfig, ValidLotConfig, Defaults.lotConfig, conv);
    CategoryFixed(f.bldgType, AcceptedBldgType, Defaults.bldgType, conv);
    SafeIntWhole(f.msSubClass, Defaults.msSubClass, conv);
    SafeIntWhole(f.lotArea, Defaults.lotArea, conv);
    SafeIntWhole(f.overallCond, Defaults.overallCond, conv);
    SafeIntWhole(f.yearBuilt, Defaults.yearBuilt, conv);
  }

  /** `fill_missing(fill_missing(r)) == fill_missing(r)`. */
  lemma NormalizeIdempotent(raw: Record, conv: Conversions)
    ensures Normalize(ToRecord(Normalize(raw, conv)), conv) == Normalize(raw, conv)
  {
    NormalizeFixesClean(Normalize(raw, conv), conv);
  }
}
