# Prompt preprocessing of two ML services, modelled in Dafny

The repository holds two small machine-learning services. Each turns a user
prompt into model input. This project models those preprocessing steps and
proves what they guarantee.

* **House-price predictor.** A language model is asked for eight house
  features as JSON. The reply is trimmed and loses its Markdown code fences,
  then it is decoded. A reply that does not decode becomes an all-`None`
  record. `fill_missing` then makes every field total and typed:
  `safe_int`, `safe_float` and `safe_str` fall back to the `DEFAULTS`, and
  a categorical value off its whitelist is replaced by its default.
  `build_one_hot_vector` lays the clean record out as the 17-column row the
  regression models were fitted on: five numbers, then the `MSZoning_*`,
  `LotConfig_*` and `BldgType_*` dummy columns. The baseline building type
  `"1Fam"` has no column, so it leaves the whole `BldgType_*` block at 0.
* **Legal chatbot.** `clean_text` strips the prompt and collapses every run
  of whitespace into one space. `tokenize` splits on single spaces.

Modules, one per concern:

* `Text` (`text.dfy`): whitespace, `lstrip`, `rstrip` and `strip`.
* `LegalPreprocess` (`legal_preprocess.dfy`): `clean_text`, `tokenize` and
  `preprocess_prompt` of the chatbot.
* `HouseSchema` (`house_schema.dfy`): feature lists, defaults, whitelists
  and the column layout.
* `HouseCoercion` (`house_coercion.dfy`): `safe_int`, `safe_float` and
  `safe_str`.
* `HouseExtract` (`house_extract.dfy`): fence stripping and the fallback
  record after a decoding error.
* `HouseNormalize` (`house_normalize.dfy`): `fill_missing`.
* `HouseEncode` (`house_encode.dfy`): `build_one_hot_vector`.
* `HousePipeline` (`house_pipeline.dfy`): `preprocess_prompt` of the
  house-price service.

`fill_missing` and `build_one_hot_vector` build their result step by step,
so they are methods. Each is proved equal to a specification function:
`Normalize`, and `Encode`, a block-by-block reference layout. The
properties are then proved about those functions. The clean dictionary
always has exactly the eight raw keys with fixed value types, so it is the
datatype `Features`. `ToRecord` gives it back as a dictionary.

A category off its whitelist never reaches `build_one_hot_vector` through
`fill_missing`, but the encoder handles it anyway. As in the source, the
write adds a dictionary key outside the layout, and the read-out ignores it.
`HouseEncode.BuildOneHotVector` takes any `Features` value and ensures
`vector == Encode(clean)`. For such a value, `OneHot` gives that block all
zeros.

## Model

| member | source | states |
|---|---|---|
| Text.TrimStart | ML_To_Train/LegalEase_ChatBot/src/processing/preprocess.py:5 | the result is a suffix of the input; every character dropped is whitespace; the result is empty or starts with non-whitespace |
| Text.TrimEnd | ML_To_Train/LegalEase_ChatBot/src/processing/preprocess.py:5 | the result is a prefix of the input; every character dropped is whitespace; the result is empty or ends with non-whitespace |
| Text.TrimStartEmpty | ML_To_Train/LegalEase_ChatBot/src/processing/preprocess.py:5 | `lstrip` gives "" exactly when the text is all whitespace |
| Text.TrimEndEmpty | ML_To_Train/LegalEase_ChatBot/src/processing/preprocess.py:5 | `rstrip` gives "" exactly when the text is all whitespace |
| Text.TrimBothIsSlice | ML_To_Train/LegalEase_ChatBot/src/processing/preprocess.py:5 | stripping both ends leaves a slice of the input with only whitespace outside it |
| Text.Strip | ML_To_Train/LegalEase_ChatBot/src/processing/preprocess.py:5 | `strip()` leaves no whitespace at either end, removes only outer whitespace, and gives "" exactly for all-whitespace text |
| Text.StripStripped | ML_To_Train/house_price_predict/src/processing/preprocessing.py:136 | text with nothing to strip is returned unchanged |
| Text.StripPadded | ML_To_Train/house_price_predict/src/processing/preprocessing.py:136 | one whitespace character on each side of stripped, non-empty text is removed and nothing else |
| Text.StripIdempotent | ML_To_Train/LegalEase_ChatBot/src/processing/preprocess.py:5 | stripping twice is stripping once |
| LegalPreprocess.NonSpaceAppend | ML_To_Train/LegalEase_ChatBot/src/processing/preprocess.py:4-7 | the non-whitespace characters of a concatenation are those of its parts, in order |
| LegalPreprocess.NonSpaceOfSpaces | ML_To_Train/LegalEase_ChatBot/src/processing/preprocess.py:4-7 | all-whitespace text has no non-whitespace characters |
| LegalPreprocess.CollapseSpaces | ML_To_Train/LegalEase_ChatBot/src/processing/preprocess.py:6 | the substitution never lengthens the text, gives "" only for "", and keeps a non-whitespace first character |
| LegalPreprocess.CollapseSingleSpacedResult | ML_To_Train/LegalEase_ChatBot/src/processing/preprocess.py:6 | after the substitution, ' ' is the only whitespace and no two spaces are adjacent |
| LegalPreprocess.CollapseLast | ML_To_Train/LegalEase_ChatBot/src/processing/preprocess.py:6 | a last character that is not whitespace is still last afterwards |
| LegalPreprocess.CollapseStripped | ML_To_Train/LegalEase_ChatBot/src/processing/preprocess.py:5-6 | text stripped before the substitution is still stripped after it |
| LegalPreprocess.CollapseNonSpace | ML_To_Train/LegalEase_ChatBot/src/processing/preprocess.py:6 | the substitution keeps every non-whitespace character, in order |
| LegalPreprocess.CollapseSingleSpaced | ML_To_Train/LegalEase_ChatBot/src/processing/preprocess.py:6 | text already single-spaced is left unchanged |
| LegalPreprocess.SingleSpaceTrim | ML_To_Train/LegalEase_ChatBot/src/processing/preprocess.py:5-6 | in single-spaced text, leading whitespace is one ' ' and `lstrip` removes just it |
| LegalPreprocess.TrimStartRun | ML_To_Train/LegalEase_ChatBot/src/processing/preprocess.py:5 | `lstrip` of a whitespace run followed by text that starts with non-whitespace is that text |
| LegalPreprocess.TrimStartAppend | ML_To_Train/LegalEase_ChatBot/src/processing/preprocess.py:5 | `lstrip` of text ending in non-whitespace, extended by anything, only strips the first part |
| LegalPreprocess.CollapseAppend | ML_To_Train/LegalEase_ChatBot/src/processing/preprocess.py:6 | a cut after a non-whitespace character commutes with the substitution: the parts are collapsed separately and concatenated |
| LegalPreprocess.CollapseSeparates | ML_To_Train/LegalEase_ChatBot/src/processing/preprocess.py:6 | a whitespace run of any length between non-whitespace characters becomes exactly one space |
| LegalPreprocess.NoSpaceSingleSpaced | ML_To_Train/LegalEase_ChatBot/src/processing/preprocess.py:6 | text without whitespace is single-spaced |
| LegalPreprocess.NonSpaceTrimStart | ML_To_Train/LegalEase_ChatBot/src/processing/preprocess.py:5 | `lstrip` removes whitespace only |
| LegalPreprocess.NonSpaceTrimEnd | ML_To_Train/LegalEase_ChatBot/src/processing/preprocess.py:5 | `rstrip` removes whitespace only |
| LegalPreprocess.StripNonSpace | ML_To_Train/LegalEase_ChatBot/src/processing/preprocess.py:5 | `strip` removes whitespace only |
| LegalPreprocess.CleanText | ML_To_Train/LegalEase_ChatBot/src/processing/preprocess.py:4-7 | cleaned text has no outer whitespace and no whitespace but single spaces; it is "" exactly when the prompt is all whitespace |
| LegalPreprocess.CleanTextKeepsCharacters | ML_To_Train/LegalEase_ChatBot/src/processing/preprocess.py:4-7 | cleaning changes whitespace only: every other character stays, in order |
| LegalPreprocess.CleanTextIdempotent | ML_To_Train/LegalEase_ChatBot/src/processing/preprocess.py:4-7 | cleaning cleaned text changes nothing |
| LegalPreprocess.CleanTextSeparates | ML_To_Train/LegalEase_ChatBot/src/processing/preprocess.py:4-7 | two stripped, non-empty texts joined by any whitespace run clean to their cleaned forms joined by exactly one space |
| LegalPreprocess.Tokenize | ML_To_Train/LegalEase_ChatBot/src/processing/preprocess.py:10-12 | `split(" ")` returns at least one piece, and no piece contains a space |
| LegalPreprocess.TokenizeCount | ML_To_Train/LegalEase_ChatBot/src/processing/preprocess.py:10-12 | there is one more piece than there are spaces in the text |
| LegalPreprocess.TokenizeAtSpace | ML_To_Train/LegalEase_ChatBot/src/processing/preprocess.py:10-12 | splitting at a space gives the pieces of the left part followed by those of the right part |
| LegalPreprocess.JoinTokenize | ML_To_Train/LegalEase_ChatBot/src/processing/preprocess.py:10-12 | joining the pieces with " " gives the text back |
| LegalPreprocess.TokenizeSpaceFreePrefix | ML_To_Train/LegalEase_ChatBot/src/processing/preprocess.py:10-12 | space-free text put in front extends only the first piece |
| LegalPreprocess.TokenizeJoin | ML_To_Train/LegalEase_ChatBot/src/processing/preprocess.py:10-12 | splitting a " "-join of space-free tokens gives the tokens back |
| LegalPreprocess.LaterTokensNonEmpty | ML_To_Train/LegalEase_ChatBot/src/processing/preprocess.py:10-12 | without double spaces and without a trailing space, only the first piece can be empty |
| LegalPreprocess.TokensSpaceFree | ML_To_Train/LegalEase_ChatBot/src/processing/preprocess.py:10-12 | in single-spaced text, no piece contains whitespace |
| LegalPreprocess.TokensOfClean | ML_To_Train/LegalEase_ChatBot/src/processing/preprocess.py:10-12 | non-empty cleaned text splits into non-empty tokens without whitespace |
| LegalPreprocess.PreprocessPrompt | ML_To_Train/LegalEase_ChatBot/src/processing/preprocess.py:15-18 | an all-whitespace prompt gives `[""]`; any other gives non-empty tokens without whitespace; joining the tokens with " " gives the cleaned prompt |
| LegalPreprocess.PreprocessPromptWord | ML_To_Train/LegalEase_ChatBot/src/processing/preprocess.py:15-18 | a non-empty prompt without whitespace is the single token it is |
| LegalPreprocess.PreprocessPromptSeparates | ML_To_Train/LegalEase_ChatBot/src/processing/preprocess.py:15-18 | a whitespace run of any length between two stripped texts separates their tokens: the tokens are those of the first followed by those of the second |
| HouseSchema.DummyColumns | ML_To_Train/house_price_predict/src/processing/preprocessing.py:188-196 | the dummy column of the j-th category is the prefix followed by that category |
| HouseSchema.DummyColumnsAt | ML_To_Train/house_price_predict/src/processing/preprocessing.py:16-29 | a list of names that matches prefix-plus-category at each position is the dummy-column list |
| HouseSchema.LayoutShape | ML_To_Train/house_price_predict/src/processing/preprocessing.py:9-30 | the 17 columns are the five numeric fields followed by one `prefix + category` column per whitelisted category, in whitelist order |
| HouseSchema.ColumnNames | ML_To_Train/house_price_predict/src/processing/preprocessing.py:9-30 | the name of each column, by position |
| HouseSchema.DummyNameCancel | ML_To_Train/house_price_predict/src/processing/preprocessing.py:188-196 | two dummy names with one prefix are equal exactly when their categories are |
| HouseSchema.DummyNamesDiffer | ML_To_Train/house_price_predict/src/processing/preprocessing.py:177-196 | dummy names of different fields never coincide, and no dummy name is a numeric column |
| HouseSchema.DefaultsAreValid | ML_To_Train/house_price_predict/src/processing/preprocessing.py:49-67 | every default is on its own whitelist, and the baseline "1Fam" has no dummy column |
| HouseCoercion.TruncateTowardZero | ML_To_Train/house_price_predict/src/processing/preprocessing.py:119 | `int()` of a float rounds toward zero: down for non-negative values, up for negative ones |
| HouseCoercion.ToFloat | ML_To_Train/house_price_predict/src/processing/preprocessing.py:119 | `float()` of None, an array or an object fails; of a number it is that number; of a boolean it is 1.0 or 0.0 |
| HouseCoercion.ToStr | ML_To_Train/house_price_predict/src/processing/preprocessing.py:136 | `str()` of text is that text, of a boolean "True" or "False" |
| HouseCoercion.SafeInt | ML_To_Train/house_price_predict/src/processing/preprocessing.py:115-121 | None, or a value `float` rejects, gives the default; any other value gives its float truncated toward zero |
| HouseCoercion.SafeFloat | ML_To_Train/house_price_predict/src/processing/preprocessing.py:124-130 | None, or a value `float` rejects, gives the default; any value `float` accepts gives that float, so a number is returned as is |
| HouseCoercion.SafeFloatExamples | ML_To_Train/house_price_predict/src/processing/preprocessing.py:124-130 | "12.5" gives 12.5, `true` gives 1.0, and text `float` rejects gives the default |
| HouseCoercion.SafeStr | ML_To_Train/house_price_predict/src/processing/preprocessing.py:133-137 | None, or text that strips to "", gives the default; other text gives its stripped form, which is never empty |
| HouseCoercion.SafeStrKeepsStripped | ML_To_Train/house_price_predict/src/processing/preprocessing.py:133-137 | non-empty text with nothing to strip passes through unchanged |
| HouseCoercion.SafeIntWhole | ML_To_Train/house_price_predict/src/processing/preprocessing.py:115-121 | a whole number passes through unchanged, whatever the default |
| HouseCoercion.SafeIntTruncates | ML_To_Train/house_price_predict/src/processing/preprocessing.py:115-121 | "12.9" gives 12, -3.7 gives -3, `true` gives 1, and an array or object gives the default |
| HouseExtract.RemoveAll | ML_To_Train/house_price_predict/src/processing/preprocessing.py:104 | `replace(p, "")` never lengthens the text and leaves it unchanged when `p` does not occur |
| HouseExtract.FenceFreeMeansNoFence | ML_To_Train/house_price_predict/src/processing/preprocessing.py:104 | text without three adjacent backticks does not contain "```" |
| HouseExtract.RemoveFenceHead | ML_To_Train/house_price_predict/src/processing/preprocessing.py:104 | removing "```" keeps a first character that cannot start a fence |
| HouseExtract.RemoveFenceLeavesNone | ML_To_Train/house_price_predict/src/processing/preprocessing.py:104 | after `replace("```", "")`, no three adjacent backticks remain |
| HouseExtract.SliceFenceFree | ML_To_Train/house_price_predict/src/processing/preprocessing.py:104 | a slice of fence-free text is fence-free |
| HouseExtract.RemoveAllKeeps | ML_To_Train/house_price_predict/src/processing/preprocessing.py:104 | where `p` occurs nowhere before position n, `replace(p, "")` keeps the first n characters as they are |
| HouseExtract.RemoveAllNoHead | ML_To_Train/house_price_predict/src/processing/preprocessing.py:104 | where `p` does not occur at the start, `replace(p, "")` keeps the first character |
| HouseExtract.RemoveAllHead | ML_To_Train/house_price_predict/src/processing/preprocessing.py:104 | `replace(p, "")` deletes an occurrence of `p` at the start |
| HouseExtract.NoTicksNoOccurrence | ML_To_Train/house_price_predict/src/processing/preprocessing.py:104 | "```" or "```json" cannot occur where there are not three backticks |
| HouseExtract.NoJsonFenceAfterHead | ML_To_Train/house_price_predict/src/processing/preprocessing.py:104 | a fence-free body followed by a closing fence does not contain "```json" |
| HouseExtract.NoJsonFenceBare | ML_To_Train/house_price_predict/src/processing/preprocessing.py:104 | a fence-free body between bare fences does not contain "```json" |
| HouseExtract.OnlyClosingFence | ML_To_Train/house_price_predict/src/processing/preprocessing.py:104 | in a fence-free body followed by a closing fence, "```" occurs only at the closing fence |
| HouseExtract.RemoveClosingFence | ML_To_Train/house_price_predict/src/processing/preprocessing.py:104 | removing "```" from a fence-free body with its closing fence leaves the body and its newlines |
| HouseExtract.StripNewlines | ML_To_Train/house_price_predict/src/processing/preprocessing.py:104 | the final `strip()` removes the newlines around a stripped, non-empty body and nothing else |
| HouseExtract.StripFences | ML_To_Train/house_price_predict/src/processing/preprocessing.py:101-104 | the text handed to the decoder is stripped; a reply that starts with a fence keeps no "```"; any other reply is only stripped |
| HouseExtract.StripFencesOpened | ML_To_Train/house_price_predict/src/processing/preprocessing.py:101-104 | a stripped reply that starts with "```" loses "```json", then "```", and is stripped again |
| HouseExtract.FencedJsonReply | ML_To_Train/house_price_predict/src/processing/preprocessing.py:101-104 | a stripped, fence-free, non-empty body in a "```json" block reaches the decoder exactly as it is |
| HouseExtract.FencedBareReply | ML_To_Train/house_price_predict/src/processing/preprocessing.py:101-104 | a stripped, fence-free, non-empty body in a bare "```" block reaches the decoder exactly as it is |
| HouseExtract.StripFencesIdempotent | ML_To_Train/house_price_predict/src/processing/preprocessing.py:101-104 | cleaning an already-cleaned reply changes nothing |
| HouseExtract.AllNone | ML_To_Train/house_price_predict/src/processing/preprocessing.py:109 | the fallback record has exactly the raw features as keys, each holding None |
| HouseExtract.ExtractFeatures | ML_To_Train/house_price_predict/src/processing/preprocessing.py:101-109 | a decoding error never escapes: it gives the all-None record, and any other decoder result is returned as is |
| HouseNormalize.Get | ML_To_Train/house_price_predict/src/processing/preprocessing.py:148-156 | `raw.get(key)` is the stored value for a present key and None for a missing one |
| HouseNormalize.CleanCategory | ML_To_Train/house_price_predict/src/processing/preprocessing.py:154-167 | a categorical field ends on its whitelist or at its default |
| HouseNormalize.CategoryPolicy | ML_To_Train/house_price_predict/src/processing/preprocessing.py:154-167 | None gives the default; text is kept stripped exactly when the stripped text is on the whitelist, and replaced by the default otherwise; when `show` writes what `str()` writes and every whitelisted name is plain, a boolean, number, array or object gives the default |
| HouseNormalize.ShownNotPlain | ML_To_Train/house_price_predict/src/processing/preprocessing.py:136 | what `str()` writes for a boolean, number, array or object strips to "" or to a name that is not plain |
| HouseNormalize.StripKeepsHead | ML_To_Train/house_price_predict/src/processing/preprocessing.py:136 | a first character that is not whitespace is still first after `strip()` |
| HouseNormalize.WhitelistsPlain | ML_To_Train/house_price_predict/src/processing/preprocessing.py:64-66 | every whitelisted category, "1Fam" included, is a plain name: not "True" or "False", not a numeral, and not opening with a bracket |
| HouseNormalize.NormalizeNonTextCategories | ML_To_Train/house_price_predict/src/processing/preprocessing.py:154-167 | a boolean, number, array or object under a categorical key leaves that field at its default |
| HouseNormalize.Normalize | ML_To_Train/house_price_predict/src/processing/preprocessing.py:140-169 | every categorical field of the clean record is on its whitelist, "1Fam" included for `BldgType` |
| HouseNormalize.FillMissing | ML_To_Train/house_price_predict/src/processing/preprocessing.py:140-169 | the record built field by field, with the three whitelist overwrites, is `Normalize` of the raw record |
| HouseNormalize.CategoryCaseSensitive | ML_To_Train/house_price_predict/src/processing/preprocessing.py:159-160 | matching is case-sensitive: "fv" falls back to "RL" |
| HouseNormalize.CategoryPadded | ML_To_Train/house_price_predict/src/processing/preprocessing.py:154-160 | a whitelisted value with a blank on each side is kept without the blanks |
| HouseNormalize.CategoryUnknown | ML_To_Train/house_price_predict/src/processing/preprocessing.py:166-167 | an unknown building type becomes "1Fam", never the raw text |
| HouseNormalize.CategoryFixed | ML_To_Train/house_price_predict/src/processing/preprocessing.py:154-167 | a whitelisted value passes through unchanged |
| HouseNormalize.WhitelistsStripped | ML_To_Train/house_price_predict/src/processing/preprocessing.py:64-66 | every whitelisted value, and "1Fam", is non-empty with nothing to strip |
| HouseNormalize.ToRecord | ML_To_Train/house_price_predict/src/processing/preprocessing.py:146-169 | the clean record as a dictionary has exactly the raw features as keys, each holding a number or text |
| HouseNormalize.ToRecordNumbers | ML_To_Train/house_price_predict/src/processing/preprocessing.py:148-152 | each numeric key of that dictionary holds its field's value |
| HouseNormalize.ToRecordCategories | ML_To_Train/house_price_predict/src/processing/preprocessing.py:154-167 | each categorical key of that dictionary holds its field's text |
| HouseNormalize.NormalizeAllNone | ML_To_Train/house_price_predict/src/processing/preprocessing.py:109 | the fallback record of a failed decoding normalises to exactly `DEFAULTS` |
| HouseNormalize.NormalizeIgnoresExtraKeys | ML_To_Train/house_price_predict/src/processing/preprocessing.py:148-156 | keys outside the eight raw features do not change the clean record |
| HouseNormalize.NormalizeFixesClean | ML_To_Train/house_price_predict/src/processing/preprocessing.py:140-169 | a clean record, read back as raw input, normalises to itself |
| HouseNormalize.NormalizeIdempotent | ML_To_Train/house_price_predict/src/processing/preprocessing.py:140-169 | applying `fill_missing` to its own output changes nothing |
| HouseEncode.OneHot | ML_To_Train/house_price_predict/src/processing/preprocessing.py:186-196 | one entry per category; an entry is 1 exactly when its category is the value, and 0 otherwise |
| HouseEncode.OneHotCardinality | ML_To_Train/house_price_predict/src/processing/preprocessing.py:186-196 | with distinct categories, a listed value lights exactly one column, and the block is all zeros exactly when the value is unlisted |
| HouseEncode.Encode | ML_To_Train/house_price_predict/src/processing/preprocessing.py:172-200 | the row has one entry per column of the layout |
| HouseEncode.CategoriesDistinct | ML_To_Train/house_price_predict/src/processing/preprocessing.py:64-66 | no whitelist lists a category twice |
| HouseEncode.EncodeBlocks | ML_To_Train/house_price_predict/src/processing/preprocessing.py:177-199 | columns 0-4 hold the numeric fields, 5-8 the zoning block, 9-12 the lot-configuration block and 13-16 the building-type block |
| HouseEncode.EncodeZoningOneHot | ML_To_Train/house_price_predict/src/processing/preprocessing.py:186-188 | for a clean record, exactly one `MSZoning_*` column is 1 |
| HouseEncode.EncodeLotConfigOneHot | ML_To_Train/house_price_predict/src/processing/preprocessing.py:190-191 | for a clean record, exactly one `LotConfig_*` column is 1 |
| HouseEncode.EncodeBldgTypeOneHot | ML_To_Train/house_price_predict/src/processing/preprocessing.py:193-196 | for a clean record, the `BldgType_*` columns are all 0 exactly when the type is "1Fam", and otherwise exactly one is 1 |
| HouseEncode.EncodeDummiesBinary | ML_To_Train/house_price_predict/src/processing/preprocessing.py:177-196 | every dummy column holds 0 or 1 |
| HouseEncode.EncodeShaped | ML_To_Train/house_price_predict/src/processing/preprocessing.py:172-200 | a clean record's row has 17 entries, one-hot zoning and lot-configuration blocks, a building-type block that is zero or one-hot, and binary dummies |
| HouseEncode.CellNumeric | ML_To_Train/house_price_predict/src/processing/preprocessing.py:180-184 | the numeric columns of the written dictionary hold the numeric fields |
| HouseEncode.CellZoning | ML_To_Train/house_price_predict/src/processing/preprocessing.py:188 | each `MSZoning_*` entry of the written dictionary agrees with the zoning block |
| HouseEncode.CellLotConfig | ML_To_Train/house_price_predict/src/processing/preprocessing.py:191 | each `LotConfig_*` entry of the written dictionary agrees with the lot-configuration block |
| HouseEncode.CellBldgType | ML_To_Train/house_price_predict/src/processing/preprocessing.py:195-196 | each `BldgType_*` entry of the written dictionary agrees with the building-type block, "1Fam" writing nothing |
| HouseEncode.CellAt | ML_To_Train/house_price_predict/src/processing/preprocessing.py:177-199 | every column of the written dictionary agrees with the reference row |
| HouseEncode.Row | ML_To_Train/house_price_predict/src/processing/preprocessing.py:177-196 | every layout column is a key of the written dictionary, and every key holds what the last write to it put there |
| HouseEncode.RowAt | ML_To_Train/house_price_predict/src/processing/preprocessing.py:177-199 | every column is a key of the written dictionary, and its entry is the reference row's |
| HouseEncode.BuildOneHotVector | ML_To_Train/house_price_predict/src/processing/preprocessing.py:172-200 | the zeroed dictionary, once written field by field and read out in layout order, is the reference row `Encode` |
| HousePipeline.NormalizedShaped | ML_To_Train/house_price_predict/src/processing/preprocessing.py:203-206 | whatever the decoded record holds, its row has the one-hot shape |
| HousePipeline.Preprocess | ML_To_Train/house_price_predict/src/processing/preprocessing.py:203-206 | the pipeline fails exactly when the decoded JSON is not an object; otherwise its row has the one-hot shape |
| HousePipeline.PreprocessPrompt | ML_To_Train/house_price_predict/src/processing/preprocessing.py:203-206 | extract, `fill_missing`, then `build_one_hot_vector` computes `Preprocess` |
| HousePipeline.PreprocessUnparseable | ML_To_Train/house_price_predict/src/processing/preprocessing.py:106-109 | a reply that does not decode gives the row of the defaults |
| HousePipeline.DefaultZoningBlock | ML_To_Train/house_price_predict/src/processing/preprocessing.py:51 | the default zoning "RL" lights the third zoning column |
| HousePipeline.DefaultLotConfigBlock | ML_To_Train/house_price_predict/src/processing/preprocessing.py:53 | the default lot configuration "Inside" lights the fourth column of its block |
| HousePipeline.DefaultBldgTypeBlock | ML_To_Train/house_price_predict/src/processing/preprocessing.py:54 | the default building type "1Fam" lights no column |
| HousePipeline.DefaultRow | ML_To_Train/house_price_predict/src/processing/preprocessing.py:49-58 | the defaults' row is 20, 9500, 5, 1975, 900, then 0 0 1 0, 0 0 0 1 and 0 0 0 0 |

## Left out

- The language-model call (`preprocessing.py:73-99`) and its prompt are not modelled. The reply text is a parameter of the pipeline; a reply with no text is `None`, as `response.text or ""` treats it.
- `json.loads` is the parameter `decode`. It reports an object, another JSON value, or a decoding error. Only the decoding error is caught. Another value makes `raw.get` raise in `fill_missing`; the model returns `None` for it.
- `float(text)` on a string and `str(value)` on a number, array or object are Python runtime behaviour. They are the parameters of `Conversions`. `float` of a boolean and `str` of a boolean are written out. What `str()` writes is stated as the hypothesis `ShowsAsPython`: a numeral for a number, and text opening with a bracket for an array or an object. Only the fallback of a non-text category to its default rests on it.
- Floating point is modelled by exact reals. Rounding, overflow, `inf` and `nan` are not modelled. So `int(float(x))` on a float that is infinite or NaN (which raises) is out of scope. So is the precision a huge integer loses in `float`.
- HouseNormalize.NormalizeIdempotent: it is proved with exact reals, not with IEEE doubles. With doubles it holds as well, with no bound on the integers. Each integer field is a default or the truncation of a finite double, and such a truncation is itself a double. So the second `int(float(·))` gives the same value back.
- Python's distinction between `int` and `float` values in the dictionaries is not kept. `DEFAULTS["TotalBsmtSF"]` is the integer 900; the model holds it as 900.0, the value it has in the float row.
- Whitespace is the ASCII set (space, tab, newline, carriage return, vertical tab, form feed). Python's `strip()` and the regex class `\s` also match Unicode spaces and a few more separators. Those are not modelled.
- `HouseEncode.BuildOneHotVector`: the row is read out of the dictionary with a sequence comprehension, as the source's list comprehension does. It is not converted to a NumPy array or reshaped to one row.
- The clean dictionary is modelled as the `Features` datatype, whose fields are exactly its eight keys. `ToRecord` gives the dictionary view.
- The rest of the repository is not part of this model: the model-loading and prediction code, the web applications, the chatbot's model and the data-conversion scripts.
