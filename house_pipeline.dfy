/** `preprocess_prompt` of the house-price service: extract, fill, encode. */
module HousePipeline {
  import opened HouseSchema
  import opened HouseCoercion
  import opened HouseExtract
  import opened HouseNormalize
  import opened HouseEncode

  /** Whatever the decoded record holds, its row has the one-hot shape. */
  lemma NormalizedShaped(raw: Record, conv: Conversions)
    ensures RowShaped(Encode(Normalize(raw, conv)))
  {
    EncodeShaped(Normalize(raw, conv));
  }

  /** The row the pipeline produces for a model reply, or None where
      `fill_missing` would raise because the decoded JSON is not an object. */
  function Preprocess(reply: Option<string>, decode: string -> Extraction, conv: Conversions): (r: Option<seq<real>>)
    ensures r.None? <==> ExtractFeatures(reply, decode).NotAnObject?
    ensures r.Some? ==> RowShaped(r.value)
  {
    match ExtractFeatures(reply, decode)
    case Parsed(raw) =>
      NormalizedShaped(raw, conv);
      Some(Encode(Normalize(raw, conv)))
    case _ => None
  }

  /** `preprocess_prompt`: `build_one_hot_vector(fill_missing(raw))` on what the
      extractor returns. */
  method PreprocessPrompt(reply: Option<string>, decode: string -> Extraction, conv: Conversions)
    returns (r: Option<seq<real>>)
    ensures r == Preprocess(reply, decode, conv)
  {
    var extracted := ExtractFeatures(reply, decode);
    match extracted
    case Parsed(raw) =>
      var clean := FillMissing(raw, conv);
      var vector := BuildOneHotVector(clean);
      r := Some(vector);
    case _ =>
      r := None;
  }

  /** Text that does not decode gives the row of the default record. */
  lemma PreprocessUnparseable(reply: Option<string>, decode: string -> Extraction, conv: Conversions)
    requires decode(StripFences(if reply.Some? then reply.value else "")).Unparseable?
    ensures Preprocess(reply, decode, conv) == Some(Encode(Defaults))
  {
    NormalizeAllNone(conv);
  }

  /** The dummy blocks of the default record: zoning "RL" is the third
      column, lot configuration "Inside" the fourth, and the baseline building
      type "1Fam" lights none. */
  lemma DefaultZoningBlock()
    ensures OneHot("RL", ValidMSZoning) == [0.0, 0.0, 1.0, 0.0]
  {
    assert "FV"[0] != "RL"[0] && "RH"[1] != "RL"[1] && "RM"[1] != "RL"[1];
  }

  lemma DefaultLotConfigBlock()
    ensures OneHot("Inside", ValidLotConfig) == [0.0, 0.0, 0.0, 1.0]
  {
    assert "CulDSac"[0] != "Inside"[0] && "FR2"[0] != "Inside"[0] && "FR3"[0] != "Inside"[0];
  }

  lemma DefaultBldgTypeBlock()
    ensures OneHot("1Fam", ValidBldgType) == [0.0, 0.0, 0.0, 0.0]
  {
    assert "1Fam" !in ValidBldgType;
  }

  /** The row of the default record, column by column. */
  lemma DefaultRow()
    ensures Encode(Defaults) == [20.0, 9500.0, 5.0, 1975.0, 900.0,
      0.0, 0.0, 1.0, 0.0,
      0.0, 0.0, 0.0, 1.0,
      0.0, 0.0, 0.0, 0.0]
  {
    DefaultZoningBlock();
    DefaultLotConfigBlock();
    DefaultBldgTypeBlock();
  }
}
