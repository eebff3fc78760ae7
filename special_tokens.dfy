/**
 * End-of-sequence handling of the BigBird tokenizer and the arrays built in
 * parallel with the model input: offset mapping, token type ids and the
 * special-tokens mask. A second segment that Python passes as `None` is an
 * `Option` here; token ids are unbounded integers.
 */
module SpecialTokens {
  import opened Optional

  /** A character span `(start, end)`; `(0, 0)` marks a special-token slot. */
  type Offset = (int, int)

  const Sentinel: Offset := (0, 0)

  /** The segment already ends with the end-of-sequence id: the case in which
      `_add_eos_if_not_present` warns and leaves the segment as it is. */
  predicate EndsWithEos(ids: seq<int>, eos: int) {
    |ids| > 0 && ids[|ids| - 1] == eos
  }

  /** `_add_eos_if_not_present`. */
  function AddEos(ids: seq<int>, eos: int): (r: seq<int>)
    ensures EndsWithEos(r, eos)
    ensures |ids| <= |r| <= |ids| + 1 && r[..|ids|] == ids
    ensures r == ids <==> EndsWithEos(ids, eos)
  {
    if EndsWithEos(ids, eos) then ids else ids + [eos]
  }

  /** Number of EOS ids that `AddEos` appends: 0 when the warning fires, else 1. */
  function Appended(ids: seq<int>, eos: int): nat {
    if EndsWithEos(ids, eos) then 0 else 1
  }

  /** `build_inputs_with_special_tokens`: `X </s>` or `A </s> B </s>`. */
  function BuildInputs(ids0: seq<int>, ids1: Option<seq<int>>, eos: int): (r: seq<int>)
    ensures EndsWithEos(r, eos)
    ensures |r| == |ids0| + Appended(ids0, eos) +
                   (if ids1.Some? then |ids1.value| + Appended(ids1.value, eos) else 0)
    ensures r[..|ids0|] == ids0
  {
    var first := AddEos(ids0, eos);
    match ids1
    case None => first
    case Some(second) => first + AddEos(second, eos)
  }

  /** `build_offset_mapping_with_special_tokens`. */
  function BuildOffsetMapping(off0: seq<Offset>, off1: Option<seq<Offset>>): (r: seq<Offset>)
    ensures |r| == |off0| + 1 + (if off1.Some? then |off1.value| + 1 else 0)
    ensures r[..|off0|] == off0 && r[|off0|] == Sentinel && r[|r| - 1] == Sentinel
    ensures off1.Some? ==> r[|off0| + 1..|r| - 1] == off1.value
  {
    match off1
    case None => off0 + [Sentinel]
    case Some(second) => (off0 + [Sentinel]) + (second + [Sentinel])
  }

  /** `n` zeros, Python's `n * [0]`. */
  function Zeros(n: nat): (r: seq<int>)
    ensures |r| == n && forall i :: 0 <= i < n ==> r[i] == 0
  {
    seq(n, _ => 0)
  }

  /** `create_token_type_ids_from_sequences`: one segment type only. The length
      counts one EOS per segment whether or not the segment already has one. */
  function TokenTypeIds(ids0: seq<int>, ids1: Option<seq<int>>, eos: int): (r: seq<int>)
    ensures |r| == |ids0| + 1 + (if ids1.Some? then |ids1.value| + 1 else 0)
    ensures forall i :: 0 <= i < |r| ==> r[i] == 0
  {
    var eosList := [eos];
    match ids1
    case None => Zeros(|ids0 + eosList|)
    case Some(second) => Zeros(|ids0 + eosList + second + eosList|)
  }

  /** `get_special_tokens_mask` for segments not yet carrying special tokens. */
  function SpecialTokensMask(ids0: seq<int>, ids1: Option<seq<int>>): (r: seq<int>)
    ensures |r| == |ids0| + 1 + (if ids1.Some? then |ids1.value| + 1 else 0)
    ensures forall i :: 0 <= i < |r| ==> r[i] == 0 || r[i] == 1
    ensures forall i :: 0 <= i < |r| ==>
      (r[i] == 1 <==> i == |ids0| || (ids1.Some? && i == |ids0| + |ids1.value| + 1))
  {
    match ids1
    case None => Zeros(|ids0|) + [1]
    case Some(second) => Zeros(|ids0|) + [1] + Zeros(|second|) + [1]
  }

  /** A pair is laid out as `A </s> B </s>`: the first segment, its EOS (added
      only if missing), the second segment, its EOS. */
  lemma PairLayout(ids0: seq<int>, ids1: seq<int>, eos: int)
    ensures var r := BuildInputs(ids0, Some(ids1), eos);
            var n0 := |ids0| + Appended(ids0, eos);
            && |r| == n0 + |ids1| + Appended(ids1, eos)
            && r[..|ids0|] == ids0
            && r[n0 - 1] == eos
            && r[n0..n0 + |ids1|] == ids1
            && r[|r| - 1] == eos
  {
    var a, b := AddEos(ids0, eos), AddEos(ids1, eos);
    assert BuildInputs(ids0, Some(ids1), eos) == a + b;
    assert (a + b)[|a|..|a| + |ids1|] == b[..|ids1|];
  }

  /** Building a single segment from an already built single segment changes
      nothing, the empty segment included (it becomes `[eos]`). */
  lemma BuildInputsIdempotent(ids: seq<int>, eos: int)
    ensures BuildInputs(BuildInputs(ids, None, eos), None, eos) == BuildInputs(ids, None, eos)
    ensures BuildInputs([], None, eos) == [eos]
  {
  }

  /** The quirk of `create_token_type_ids_from_sequences`: its length counts an
      EOS per segment, so it exceeds the model input's length by the number of
      segments that already ended in EOS. */
  lemma TypeIdsLengthQuirk(ids0: seq<int>, ids1: Option<seq<int>>, eos: int)
    ensures |TokenTypeIds(ids0, ids1, eos)| ==
            |BuildInputs(ids0, ids1, eos)|
            + (1 - Appended(ids0, eos))
            + (if ids1.Some? then 1 - Appended(ids1.value, eos) else 0)
    ensures |TokenTypeIds(ids0, ids1, eos)| == |BuildInputs(ids0, ids1, eos)| <==>
            !EndsWithEos(ids0, eos) && (ids1.Some? ==> !EndsWithEos(ids1.value, eos))
  {
    match ids1
    case None =>
    case Some(second) =>
      assert |BuildInputs(ids0, ids1, eos)| == |AddEos(ids0, eos)| + |AddEos(second, eos)|;
  }

  /** When no segment already ends in EOS (and each offset list is parallel to
      its segment), the four arrays have one length. */
  lemma AssemblyLengths(ids0: seq<int>, ids1: Option<seq<int>>,
                        off0: seq<Offset>, off1: Option<seq<Offset>>, eos: int)
    requires !EndsWithEos(ids0, eos) && |off0| == |ids0|
    requires ids1.Some? <==> off1.Some?
    requires ids1.Some? ==> !EndsWithEos(ids1.value, eos) && |off1.value| == |ids1.value|
    ensures |TokenTypeIds(ids0, ids1, eos)| == |BuildInputs(ids0, ids1, eos)|
    ensures |SpecialTokensMask(ids0, ids1)| == |BuildInputs(ids0, ids1, eos)|
    ensures |BuildOffsetMapping(off0, off1)| == |BuildInputs(ids0, ids1, eos)|
  {
    TypeIdsLengthQuirk(ids0, ids1, eos);
  }

  /** Under the same conditions the arrays agree position by position: a
      masked slot holds EOS and the sentinel span; an unmasked slot holds the
      original token and its original span. */
  lemma AssemblyAligned(ids0: seq<int>, ids1: Option<seq<int>>,
                        off0: seq<Offset>, off1: Option<seq<Offset>>, eos: int, i: int)
    requires !EndsWithEos(ids0, eos) && |off0| == |ids0|
    requires ids1.Some? <==> off1.Some?
    requires ids1.Some? ==> !EndsWithEos(ids1.value, eos) && |off1.value| == |ids1.value|
    requires 0 <= i < |BuildInputs(ids0, ids1, eos)|
    ensures |SpecialTokensMask(ids0, ids1)| == |BuildOffsetMapping(off0, off1)| == |BuildInputs(ids0, ids1, eos)|
    ensures SpecialTokensMask(ids0, ids1)[i] == 1 ==>
              BuildInputs(ids0, ids1, eos)[i] == eos && BuildOffsetMapping(off0, off1)[i] == Sentinel
    ensures i < |ids0| ==>
              BuildInputs(ids0, ids1, eos)[i] == ids0[i] && BuildOffsetMapping(off0, off1)[i] == off0[i]
    ensures ids1.Some? && |ids0| < i < |ids0| + 1 + |ids1.value| ==>
              BuildInputs(ids0, ids1, eos)[i] == ids1.value[i - |ids0| - 1]
              && BuildOffsetMapping(off0, off1)[i] == off1.value[i - |ids0| - 1]
  {
    match ids1
    case None =>
      assert BuildInputs(ids0, ids1, eos) == ids0 + [eos];
    case Some(second) =>
      var a, b := ids0 + [eos], second + [eos];
      var oa, ob := off0 + [Sentinel], off1.value + [Sentinel];
      assert BuildInputs(ids0, ids1, eos) == a + b;
      assert BuildOffsetMapping(off0, off1) == oa + ob;
      if i < |a| {
        assert (a + b)[i] == a[i] && (oa + ob)[i] == oa[i];
      } else {
        assert (a + b)[i] == b[i - |a|] && (oa + ob)[i] == ob[i - |a|];
      }
  }

  /** Concrete cases with EOS id 1: `[5, 6]` and `[7, 8]` become
      `[5, 6, 1, 7, 8, 1]`; an already terminated `[5, 1]` is left as it is. */
  lemma AssemblyExamples()
    ensures BuildInputs([5, 6], Some([7, 8]), 1) == [5, 6, 1, 7, 8, 1]
    ensures BuildInputs([5, 1], None, 1) == [5, 1]
    ensures BuildOffsetMapping([(0, 2), (2, 5)], Some([(0, 3)])) == [(0, 2), (2, 5), (0, 0), (0, 3), (0, 0)]
  {
  }
}
