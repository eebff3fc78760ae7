# BigBird tokenizer: sequence assembly and id mapping

A Dafny model of the model-specific layer of PaddleNLP's `BigBirdTokenizer`
(`paddlenlp/transformers/bigbird/tokenizer.py`), with the SentencePiece model
treated as an oracle. The model covers:

- **EOS handling** (`SpecialTokens`): `_add_eos_if_not_present`, and
  `build_inputs_with_special_tokens` for one segment (`X </s>`) or two
  (`A </s> B </s>`). Each segment gets an EOS only if it does not already end
  in one.
- **Parallel arrays** (`SpecialTokens`): the offset mapping with `(0, 0)`
  sentinels, the all-zero token type ids, and the special-tokens mask for
  segments not yet carrying special tokens. Lemmas show how these line up with
  the model input, including the quirk that the type ids always count one EOS
  per segment.
- **Extra ids** (`Vocabulary`, with `Decimal` for Python's `int()` and
  f-string on integers): `vocab_size`, `_convert_token_to_id` and
  `_convert_id_to_token`. The label `<extra_id_k>` maps to `vocab_size - 1 - k`.
  The round trip holds on the extra block, and the unchecked behaviour outside
  it is stated as lemmas.
- **Token-to-string** (`Detokenize`, with `PyStrings` for `str.strip`):
  `convert_tokens_to_string` is a method with the source's loop and its
  pending-piece buffer. It is proved equal to `Strip(Render(...))`, where
  `Render` is a separate recursive reference: decode the ordinary pieces up to
  the first special token, write that token and a space, and repeat.
- **Legacy keyword arguments of `__call__`** (`LegacyKwargs`): the method
  updates `padding`, `max_length`, `truncation` and the kwargs map step by
  step. It is proved equal to a table of effective settings. For `padding`
  and `max_length` an explicit value wins over the legacy alias, which wins
  over the default. For `truncation` the legacy alias wins: a present
  `truncation_strategy` other than "longest_first" replaces even an explicit
  `truncation`.

The SentencePiece model is the datatype `Vocabulary.SentencePiece`. Its fields
are the piece count (`len(sp_model)`, equal to `get_piece_size()`) and the
function-valued `pieceToId`, `idToPiece` and `decodePieces`; `Detokenize.ConvertTokensToString` takes the model and decodes through `decodePieces`. The EOS id and
the set of special tokens are parameters.

Two behaviours of the code are worth knowing:

- The type ids always count one EOS per segment. So when a segment already
  ends in EOS, their length differs from the model input's
  (`SpecialTokens.TypeIdsLengthQuirk`).
- A special token is written straight after the decoded text, with no space
  before it. So `["hello", "▁world", "</s>"]` gives `"hello world</s>"` when
  the two pieces decode to `"hello world"` (`Detokenize.EosExample`).

## Model

| member | source | states |
|---|---|---|
| SpecialTokens.AddEos | paddlenlp/transformers/bigbird/tokenizer.py:156-164 | the result ends in EOS and keeps the input as its prefix, with at most one id added; it is unchanged exactly when the input already ends in EOS (the warning case) |
| SpecialTokens.BuildInputs | paddlenlp/transformers/bigbird/tokenizer.py:185-190 | the model input ends in EOS and starts with the first segment; its length is the segment lengths plus one per segment that did not already end in EOS |
| SpecialTokens.PairLayout | paddlenlp/transformers/bigbird/tokenizer.py:185-190 | a pair is `A </s> B </s>`: A at the front, EOS at the end of A's part, B after it, EOS last; each EOS is added only when missing |
| SpecialTokens.BuildInputsIdempotent | paddlenlp/transformers/bigbird/tokenizer.py:156-187 | building a single segment from its own output changes nothing; the empty segment becomes `[eos]` |
| SpecialTokens.BuildOffsetMapping | paddlenlp/transformers/bigbird/tokenizer.py:207-210 | length is `|off0| + 1` or `|off0| + |off1| + 2`; the original spans keep their positions; `(0, 0)` sits at index `|off0|` and at the last index |
| SpecialTokens.TokenTypeIds | paddlenlp/transformers/bigbird/tokenizer.py:228-231 | every entry is 0; length is `|ids0| + 1` or `|ids0| + |ids1| + 2` |
| SpecialTokens.SpecialTokensMask | paddlenlp/transformers/bigbird/tokenizer.py:256-258 | entries are 0 or 1; length is `|ids0| + 1` or `|ids0| + |ids1| + 2`; entry i is 1 exactly at index `|ids0|` and, for a pair, at `|ids0| + |ids1| + 1` |
| SpecialTokens.TypeIdsLengthQuirk | paddlenlp/transformers/bigbird/tokenizer.py:228-231 | the type ids are longer than the model input by the number of segments that already ended in EOS; the lengths agree exactly when none did |
| SpecialTokens.AssemblyLengths | paddlenlp/transformers/bigbird/tokenizer.py:207-258 | when no segment already ends in EOS, the input, type ids, mask and offset mapping all have the same length |
| SpecialTokens.AssemblyAligned | paddlenlp/transformers/bigbird/tokenizer.py:185-258 | under the same condition, a masked position holds EOS and the `(0, 0)` span, and the other positions hold the original tokens and spans of each segment |
| SpecialTokens.AssemblyExamples | paddlenlp/transformers/bigbird/tokenizer.py:185-210 | `[5, 6]`, `[7, 8]` with EOS 1 give `[5, 6, 1, 7, 8, 1]`; `[5, 1]` is left unchanged; offset pairs get sentinels after each segment |
| Decimal.NatToDecimal | paddlenlp/transformers/bigbird/tokenizer.py:287 | the f-string of a non-negative int is a non-empty digit string without a leading zero |
| Decimal.IntToDecimal | paddlenlp/transformers/bigbird/tokenizer.py:287 | the f-string of an int starts with a digit exactly when the int is non-negative |
| Decimal.DecimalRoundTrip | paddlenlp/transformers/bigbird/tokenizer.py:278 | `int()` of the decimal text of n is n |
| Decimal.LeadingDigits | paddlenlp/transformers/bigbird/tokenizer.py:277 | the greedy `\d+` takes the longest all-digit prefix |
| Decimal.LeadingDigitsOf | paddlenlp/transformers/bigbird/tokenizer.py:277 | a digit string followed by a non-digit is exactly what `\d+` takes |
| PyStrings.Strip | paddlenlp/transformers/bigbird/tokenizer.py:272 | `strip()` keeps the part between the leading and trailing whitespace runs; the result has no whitespace at either end; a string already without it is unchanged |
| Vocabulary.VocabSize | paddlenlp/transformers/bigbird/tokenizer.py:153-154 | `vocab_size` is the piece count plus `extra_ids`, so the extra block lies on top of the pieces |
| Vocabulary.ExtraLabel | paddlenlp/transformers/bigbird/tokenizer.py:287 | the label starts with `<extra_id_` and ends with `>` |
| Vocabulary.ParseExtra | paddlenlp/transformers/bigbird/tokenizer.py:276-278 | the pattern matches only tokens that start with `<extra_id_` |
| Vocabulary.ParseExtraSound | paddlenlp/transformers/bigbird/tokenizer.py:277-278 | a match means the token is `<extra_id_`, a non-empty run of ASCII digits, `>`, then any text, and the value read is that of the digits |
| Vocabulary.ParseExtraComplete | paddlenlp/transformers/bigbird/tokenizer.py:277-278 | every token of that shape matches, leading zeros included, and reads the value of its digits |
| Vocabulary.ExtraTokenToId | paddlenlp/transformers/bigbird/tokenizer.py:276-279 | any token `<extra_id_` + digits + `>` + text maps to `vocab_size - 1 - int(digits)`, leading zeros and trailing text included |
| Vocabulary.LeadingZerosLabel | paddlenlp/transformers/bigbird/tokenizer.py:276-279 | `<extra_id_007>` maps to `vocab_size - 8` |
| Vocabulary.TokenToId | paddlenlp/transformers/bigbird/tokenizer.py:274-280 | a token that matches the pattern maps to `vocab_size - 1 - num`, where num is the number the pattern reads; so it lands below `vocab_size`, and into the extra block exactly when its index is below `extra_ids`; any other token goes to `piece_to_id` |
| Vocabulary.IdToToken | paddlenlp/transformers/bigbird/tokenizer.py:282-288 | ids below the piece count go to `IdToPiece`; every other id becomes the label `<extra_id_{vocab_size - 1 - id}>` |
| Vocabulary.ParseExtraLabel | paddlenlp/transformers/bigbird/tokenizer.py:276-278 | the pattern reads k back from `<extra_id_k>` for every k >= 0, whatever text follows the label |
| Vocabulary.ParseExtraRejects | paddlenlp/transformers/bigbird/tokenizer.py:276-278 | a label with a negative number, and `<extra_id_>`, do not match |
| Vocabulary.ExtraLabelToId | paddlenlp/transformers/bigbird/tokenizer.py:276-279 | `<extra_id_k>` maps to `vocab_size - 1 - k` for every k, with no range check |
| Vocabulary.ExtraLabelOutOfRange | paddlenlp/transformers/bigbird/tokenizer.py:276-279 | for k >= `extra_ids` the id falls below the piece count: it aliases an ordinary piece or is negative |
| Vocabulary.ExtraIdToLabel | paddlenlp/transformers/bigbird/tokenizer.py:284-287 | for k < `extra_ids`, id `vocab_size - 1 - k` is rendered as `<extra_id_k>` |
| Vocabulary.ExtraIdRoundTrip | paddlenlp/transformers/bigbird/tokenizer.py:274-288 | on ids from the piece count up to `vocab_size`, id to token to id is the identity |
| Vocabulary.ExtraLabelRoundTrip | paddlenlp/transformers/bigbird/tokenizer.py:274-288 | for k < `extra_ids`, label to id to label is the identity |
| Vocabulary.AboveVocabNoRoundTrip | paddlenlp/transformers/bigbird/tokenizer.py:274-288 | an id at or above `vocab_size` gets the label `<extra_id_{vocab_size - 1 - id}>` with a negative number, which the pattern rejects, so converting it back fails |
| Detokenize.RenderPending | paddlenlp/transformers/bigbird/tokenizer.py:264-268 | ordinary pieces pending before a special token are decoded together and written before it, followed by the token and a space |
| Detokenize.FlushStep | paddlenlp/transformers/bigbird/tokenizer.py:266-268 | flushing the buffer at a special token keeps the output plus the rendering of the rest unchanged |
| Detokenize.ConvertTokensToString | paddlenlp/transformers/bigbird/tokenizer.py:260-272 | the loop's output is the stripped reference rendering, and it has no whitespace at either end |
| Detokenize.RenderNoSpecial | paddlenlp/transformers/bigbird/tokenizer.py:271 | with no special token, all pieces are decoded as one group |
| Detokenize.RenderSpecialThenPieces | paddlenlp/transformers/bigbird/tokenizer.py:264-271 | a special token followed by ordinary pieces appears verbatim with a space, after everything before it, and the pieces after it are decoded together at the end |
| Detokenize.EosExample | paddlenlp/transformers/bigbird/tokenizer.py:260-272 | `["hello", "▁world", "</s>"]` gives `"hello world</s>"` when the two pieces decode to `"hello world"` |
| LegacyKwargs.EffectivePadding | paddlenlp/transformers/bigbird/tokenizer.py:123-127 | an explicit `padding` is never overridden; otherwise `pad_to_max_seq_len`, if present, gives "max_length" when truthy and False when falsy; without it the default is False |
| LegacyKwargs.EffectiveMaxLength | paddlenlp/transformers/bigbird/tokenizer.py:129-130 | `max_length` takes `max_seq_len` only when `max_length` is None |
| LegacyKwargs.EffectiveTruncation | paddlenlp/transformers/bigbird/tokenizer.py:132-133 | `truncation` is replaced only by a present `truncation_strategy` that differs from "longest_first" |
| LegacyKwargs.RemainingKwargs | paddlenlp/transformers/bigbird/tokenizer.py:123-124 | `pad_to_max_seq_len` is removed only when it was used; every other key and value is passed on unchanged |
| LegacyKwargs.ResolveCallArgs | paddlenlp/transformers/bigbird/tokenizer.py:123-133 | the step-by-step updates give exactly the effective settings and remaining kwargs |
| LegacyKwargs.ResolveIdempotent | paddlenlp/transformers/bigbird/tokenizer.py:123-133 | resolving already resolved arguments changes nothing |
| LegacyKwargs.PaddingExamples | paddlenlp/transformers/bigbird/tokenizer.py:123-127 | `pad_to_max_seq_len=True` alone gives "max_length"; `pad_to_max_seq_len=0` alone gives False; with `padding="longest"` the padding stays "longest" and the flag stays in kwargs |

## Left out

- Loading the SentencePiece model (`__init__`, `spm.SentencePieceProcessor`, `Load`) is file I/O through a foreign library. The model is the oracle datatype `Vocabulary.SentencePiece`. The normaliser flags stored by `__init__` have no behaviour in this file.
- The call to the generic `__call__` of the base tokenizer is not modelled; the model stops at the arguments passed to it. The base tokenizer is not part of this model.
- The `already_has_special_tokens=True` branch of `get_special_tokens_mask` delegates to the base tokenizer, which is not part of this model.
- `warnings.warn` in `_add_eos_if_not_present`: the warning is the predicate `SpecialTokens.EndsWithEos`, and `AddEos` proves the warning fires exactly when the segment is returned unchanged. The warning mechanism is not modelled.
- `SpecialTokens.AddEos`: Python returns the same list object when it does not append. The model works on values, so this aliasing is not captured.
- `Vocabulary.TokenToId`: a token that starts with `<extra_id_` but does not match the pattern makes the source raise `AttributeError`. The model excludes it by a precondition. `ParseExtra` returns `None` for exactly these tokens (`ParseExtraSound`, `ParseExtraComplete`).
- `Vocabulary.ParseExtra`: Python's `\d` and `int()` also accept non-ASCII decimal digits. The model reads only ASCII `0`-`9`.
- `Vocabulary.VocabSize`: `extra_ids` is a `nat`; a negative `extra_ids` passed to the constructor is not modelled.
- Class-level resource names, download URLs and `PRETRAINED_POSITIONAL_EMBEDDINGS_SIZES` are static configuration with no behaviour.
- `LegacyKwargs.PyValue` covers None, bool, int and str. Other Python values that could reach these keyword arguments are not modelled.
