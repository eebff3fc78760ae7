/**
 * The legacy keyword arguments that `BigBirdTokenizer.__call__` translates
 * before handing over to the generic tokenizer: `pad_to_max_seq_len` to
 * `padding`, `max_seq_len` to `max_length`, `truncation_strategy` to
 * `truncation`. Python values that can reach these arguments are `PyValue`s.
 */
module LegacyKwargs {

  datatype PyValue = PyNone | PyBool(b: bool) | PyInt(i: int) | PyStr(s: string)

  /** Python truthiness of the values above. */
  predicate Truthy(v: PyValue) {
    match v
    case PyNone => false
    case PyBool(b) => b
    case PyInt(i) => i != 0
    case PyStr(s) => s != ""
  }

  const PadKey: string := "pad_to_max_seq_len"
  const MaxLenKey: string := "max_seq_len"
  const TruncKey: string := "truncation_strategy"
  const DefaultTruncation: PyValue := PyStr("longest_first")

  /** The arguments as the caller gave them; an omitted `padding` or
      `max_length` is `PyNone`, an omitted `truncation` is "longest_first". */
  datatype CallArgs = CallArgs(padding: PyValue, maxLength: PyValue, truncation: PyValue,
                               kwargs: map<string, PyValue>)

  /** What is passed on: the three effective settings and the remaining kwargs. */
  datatype Resolved = Resolved(padding: PyValue, maxLength: PyValue, truncation: PyValue,
                               kwargs: map<string, PyValue>)

  /** Effective `padding`: an explicit value wins, then the legacy flag
      ("max_length" when truthy, else False), then the default False. */
  function EffectivePadding(a: CallArgs): (p: PyValue)
    ensures a.padding != PyNone ==> p == a.padding
    ensures p != PyNone
    ensures a.padding == PyNone && PadKey !in a.kwargs ==> p == PyBool(false)
    ensures a.padding == PyNone && PadKey in a.kwargs ==>
              p == (if Truthy(a.kwargs[PadKey]) then PyStr("max_length") else PyBool(false))
  {
    if a.padding != PyNone then a.padding
    else if PadKey in a.kwargs then
      (if Truthy(a.kwargs[PadKey]) then PyStr("max_length") else PyBool(false))
    else PyBool(false)
  }

  /** Effective `max_length`: the legacy value only fills an unset one. */
  function EffectiveMaxLength(a: CallArgs): (m: PyValue)
    ensures a.maxLength != PyNone ==> m == a.maxLength
    ensures a.maxLength == PyNone ==> m == (if MaxLenKey in a.kwargs then a.kwargs[MaxLenKey] else PyNone)
  {
    if a.maxLength == PyNone && MaxLenKey in a.kwargs then a.kwargs[MaxLenKey] else a.maxLength
  }

  /** Effective `truncation`: the legacy value overrides only when present and
      different from "longest_first"; an explicit `truncation` otherwise stays. */
  function EffectiveTruncation(a: CallArgs): (t: PyValue)
    ensures t == a.truncation || (TruncKey in a.kwargs && t == a.kwargs[TruncKey])
    ensures t != a.truncation ==> t != DefaultTruncation
    ensures TruncKey in a.kwargs && a.kwargs[TruncKey] != DefaultTruncation ==> t == a.kwargs[TruncKey]
  {
    if TruncKey in a.kwargs && a.kwargs[TruncKey] != DefaultTruncation then a.kwargs[TruncKey]
    else a.truncation
  }

  /** The kwargs passed on: `pad_to_max_seq_len` is consumed only when it was
      used, i.e. when `padding` was not given; the other two keys stay. */
  function RemainingKwargs(a: CallArgs): (k: map<string, PyValue>)
    ensures k.Keys <= a.kwargs.Keys
    ensures forall key :: key in k ==> k[key] == a.kwargs[key]
    ensures PadKey !in k <==> PadKey !in a.kwargs || a.padding == PyNone
    ensures forall key :: key in a.kwargs && key != PadKey ==> key in k
  {
    if PadKey in a.kwargs && a.padding == PyNone then a.kwargs - {PadKey} else a.kwargs
  }

  function Resolve(a: CallArgs): Resolved {
    Resolved(EffectivePadding(a), EffectiveMaxLength(a), EffectiveTruncation(a), RemainingKwargs(a))
  }

  /** The argument handling at the top of `__call__`, step by step as in the
      source: pop the legacy padding flag, then fill `max_length`, then
      override `truncation`. */
  method ResolveCallArgs(a: CallArgs) returns (r: Resolved)
    ensures r == Resolve(a)
  {
    var padding, maxLength, truncation, kwargs := a.padding, a.maxLength, a.truncation, a.kwargs;
    if PadKey in kwargs && padding == PyNone {
      var padToMaxSeqLen := kwargs[PadKey];
      kwargs := kwargs - {PadKey};
      padding := if Truthy(padToMaxSeqLen) then PyStr("max_length") else PyBool(false);
    } else if padding == PyNone {
      padding := PyBool(false);
    }
    if MaxLenKey in kwargs && maxLength == PyNone {
      maxLength := kwargs[MaxLenKey];
    }
    if TruncKey in kwargs && kwargs[TruncKey] != DefaultTruncation {
      truncation := kwargs[TruncKey];
    }
    r := Resolved(padding, maxLength, truncation, kwargs);
  }

  /** Feeding the resolved settings back in resolves to the same settings:
      nothing is translated twice. */
  lemma ResolveIdempotent(a: CallArgs)
    ensures var r := Resolve(a);
            Resolve(CallArgs(r.padding, r.maxLength, r.truncation, r.kwargs)) == r
  {
  }

  /** `pad_to_max_seq_len=True` without `padding` pads to "max_length";
      `pad_to_max_seq_len=0` without `padding` gives False;
      `padding="longest"` with `pad_to_max_seq_len=True` keeps "longest". */
  lemma PaddingExamples()
    ensures Resolve(CallArgs(PyNone, PyNone, DefaultTruncation, map[PadKey := PyBool(true)])).padding
            == PyStr("max_length")
    ensures Resolve(CallArgs(PyNone, PyNone, DefaultTruncation, map[PadKey := PyInt(0)])).padding
            == PyBool(false)
    ensures Resolve(CallArgs(PyStr("longest"), PyNone, DefaultTruncation, map[PadKey := PyBool(true)])).padding
            == PyStr("longest")
    ensures Resolve(CallArgs(PyStr("longest"), PyNone, DefaultTruncation, map[PadKey := PyBool(true)])).kwargs
            == map[PadKey := PyBool(true)]
  {
  }
}
