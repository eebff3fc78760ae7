/**
 * The id space of the BigBird tokenizer: the SentencePiece pieces at the bottom
 * and a block of `extra_ids` reserved ids on top, addressed from the highest id
 * downward through labels `<extra_id_k>`.
 */
module Vocabulary {
  import opened Optional
  import opened Decimal
  import opened PyStrings

  /** The loaded SentencePiece model, seen only through the calls the tokenizer
      makes on it; loading it from a file is not modelled. */
  datatype SentencePiece = SentencePiece(
    pieceCount: nat,                    // len(sp_model) and get_piece_size()
    pieceToId: string -> int,           // piece_to_id
    idToPiece: int -> string,           // IdToPiece
    decodePieces: seq<string> -> string // decode_pieces
  )

  datatype Vocab = Vocab(sp: SentencePiece, extraIds: nat)

  /** `vocab_size`: the pieces plus the reserved extra ids on top of them. */
  function VocabSize(v: Vocab): (n: nat)
    ensures n >= v.sp.pieceCount && n - v.sp.pieceCount == v.extraIds
  {
    v.sp.pieceCount + v.extraIds
  }

  const ExtraPrefix: string := "<extra_id_"

  /** The label `f"<extra_id_{k}>"`; `k` may be negative. */
  function ExtraLabel(k: int): (tag: string)
    ensures StartsWith(tag, ExtraPrefix) && tag[|tag| - 1] == '>'
  {
    ExtraPrefix + IntToDecimal(k) + ">"
  }

  /** `int(re.match(r"<extra_id_(\d+)>", token).group(1))`, or `None` when the
      pattern does not match. The match is anchored at the start only, so text
      after the closing `>` is ignored. */
  function ParseExtra(token: string): (r: Option<nat>)
    ensures r.Some? ==> StartsWith(token, ExtraPrefix)
  {
    if !StartsWith(token, ExtraPrefix) then None
    else
      var rest := token[|ExtraPrefix|..];
      var digits := LeadingDigits(rest);
      if digits == [] || |digits| == |rest| || rest[|digits|] != '>' then None
      else Some(DecimalValue(digits))
  }

  /** `_convert_token_to_id`. A token that starts like an extra label but does
      not match the pattern makes the source raise, so it is excluded here. An
      extra label lands below `vocab_size`, and inside the extra block exactly
      when its index is below `extra_ids`: the index itself is not checked. */
  function TokenToId(v: Vocab, token: string): (r: int)
    requires StartsWith(token, ExtraPrefix) ==> ParseExtra(token).Some?
    ensures StartsWith(token, ExtraPrefix) ==> r == VocabSize(v) - 1 - ParseExtra(token).value
    ensures StartsWith(token, ExtraPrefix) ==>
              r < VocabSize(v) && (r >= v.sp.pieceCount <==> ParseExtra(token).value < v.extraIds)
    ensures !StartsWith(token, ExtraPrefix) ==> r == v.sp.pieceToId(token)
  {
    if StartsWith(token, ExtraPrefix) then
      var num := ParseExtra(token).value;
      VocabSize(v) - num - 1
    else
      v.sp.pieceToId(token)
  }

  /** `_convert_id_to_token`. Every id from the piece count upward becomes an
      extra label; the index is not checked, so an id at or above `vocab_size`
      gets a label with a negative number. */
  function IdToToken(v: Vocab, index: int): (token: string)
    ensures index < v.sp.pieceCount ==> token == v.sp.idToPiece(index)
    ensures index >= v.sp.pieceCount ==>
              StartsWith(token, ExtraPrefix) && token == ExtraLabel(VocabSize(v) - 1 - index)
  {
    if index < v.sp.pieceCount then v.sp.idToPiece(index)
    else ExtraLabel(VocabSize(v) - 1 - index)
  }

  /** A match means the token is `<extra_id_`, a non-empty run of ASCII
      digits, `>`, then any text; the value read is that of the digits. */
  lemma ParseExtraSound(token: string) returns (digits: string, trailer: string)
    requires ParseExtra(token).Some?
    ensures digits != [] && AllDigits(digits)
    ensures token == ExtraPrefix + digits + ">" + trailer
    ensures ParseExtra(token).value == DecimalValue(digits)
  {
    var rest := token[|ExtraPrefix|..];
    digits := LeadingDigits(rest);
    trailer := rest[|digits| + 1..];
    assert rest == digits + ">" + trailer;
    assert token == ExtraPrefix + rest;
  }

  /** Conversely every such token matches, leading zeros included
      (`<extra_id_007>` reads 7), whatever follows the `>`. */
  lemma ParseExtraComplete(digits: string, trailer: string)
    requires digits != [] && AllDigits(digits)
    ensures ParseExtra(ExtraPrefix + digits + ">" + trailer) == Some(DecimalValue(digits))
  {
    var token := ExtraPrefix + digits + ">" + trailer;
    assert token[|ExtraPrefix|..] == digits + (">" + trailer);
    LeadingDigitsOf(digits, ">" + trailer);
  }

  /** Any token made of `<extra_id_`, a run of digits and `>` maps to
      `vocab_size - 1 - int(digits)`, whatever text follows the `>`. */
  lemma ExtraTokenToId(v: Vocab, digits: string, trailer: string)
    requires digits != [] && AllDigits(digits)
    ensures ParseExtra(ExtraPrefix + digits + ">" + trailer).Some?
    ensures TokenToId(v, ExtraPrefix + digits + ">" + trailer) == VocabSize(v) - 1 - DecimalValue(digits)
  {
    ParseExtraComplete(digits, trailer);
  }

  /** `<extra_id_007>` maps to `vocab_size - 8`, like `<extra_id_7>`. */
  lemma LeadingZerosLabel(v: Vocab)
    ensures ParseExtra("<extra_id_007>").Some?
    ensures TokenToId(v, "<extra_id_007>") == VocabSize(v) - 8
  {
    ExtraTokenToId(v, "007", "");
    assert ExtraPrefix + "007" + ">" + "" == "<extra_id_007>";
    assert "007"[..2] == "00" && "00"[..1] == "0" && "0"[..0] == "";
    assert DecimalValue("007") == DecimalValue("00") * 10 + 7;
  }

  /** The pattern reads back the number of any label with a non-negative
      index, whatever follows the label. */
  lemma ParseExtraLabel(k: nat, trailer: string)
    ensures ParseExtra(ExtraLabel(k) + trailer) == Some(k)
  {
    var token := ExtraLabel(k) + trailer;
    var digits := NatToDecimal(k);
    assert token[|ExtraPrefix|..] == digits + (">" + trailer);
    LeadingDigitsOf(digits, ">" + trailer);
    DecimalRoundTrip(k);
  }

  /** A label with a negative index, and a label with no digits, do not match. */
  lemma ParseExtraRejects(k: int)
    ensures k < 0 ==> ParseExtra(ExtraLabel(k)) == None
    ensures ParseExtra(ExtraPrefix + ">") == None
  {
    if k < 0 {
      var token := ExtraLabel(k);
      assert token[|ExtraPrefix|..][0] == '-';
    }
    assert (ExtraPrefix + ">")[|ExtraPrefix|..] == ">";
  }

  /** `<extra_id_k>` maps to `vocab_size - 1 - k` for every `k`, in range or not. */
  lemma ExtraLabelToId(v: Vocab, k: nat)
    ensures ParseExtra(ExtraLabel(k)).Some?
    ensures TokenToId(v, ExtraLabel(k)) == VocabSize(v) - 1 - k
  {
    ExtraTokenToId(v, NatToDecimal(k), "");
    assert ExtraPrefix + NatToDecimal(k) + ">" + "" == ExtraLabel(k);
    DecimalRoundTrip(k);
  }

  /** The unchecked index: a label numbered `extra_ids` or more aliases an
      ordinary piece id, or a negative id. */
  lemma ExtraLabelOutOfRange(v: Vocab, k: nat)
    requires k >= v.extraIds
    ensures TokenToId(v, ExtraLabel(k)) < v.sp.pieceCount
  {
    ExtraLabelToId(v, k);
  }

  /** The id of extra index `k` is rendered as the label `<extra_id_k>`. */
  lemma ExtraIdToLabel(v: Vocab, k: nat)
    requires k < v.extraIds
    ensures IdToToken(v, VocabSize(v) - 1 - k) == ExtraLabel(k)
  {
  }

  /** On the extra block `[piece count, vocab_size)` id -> token -> id is the
      identity. */
  lemma ExtraIdRoundTrip(v: Vocab, id: int)
    requires v.sp.pieceCount <= id < VocabSize(v)
    ensures ParseExtra(IdToToken(v, id)).Some?
    ensures TokenToId(v, IdToToken(v, id)) == id
  {
    ExtraLabelToId(v, VocabSize(v) - 1 - id);
  }

  /** For extra indices below `extra_ids`, label -> id -> label is the identity. */
  lemma ExtraLabelRoundTrip(v: Vocab, k: nat)
    requires k < v.extraIds
    ensures ParseExtra(ExtraLabel(k)).Some?
    ensures IdToToken(v, TokenToId(v, ExtraLabel(k))) == ExtraLabel(k)
  {
    ExtraLabelToId(v, k);
  }

  /** Above the extra block the round trip breaks: the label produced for an id
      at or above `vocab_size` does not match the pattern, so converting it back
      raises. */
  lemma AboveVocabNoRoundTrip(v: Vocab, id: int)
    requires id >= VocabSize(v)
    ensures IdToToken(v, id) == ExtraLabel(VocabSize(v) - 1 - id) && VocabSize(v) - 1 - id < 0
    ensures StartsWith(IdToToken(v, id), ExtraPrefix)
    ensures ParseExtra(IdToToken(v, id)) == None
  {
    ParseExtraRejects(VocabSize(v) - 1 - id);
  }
}
