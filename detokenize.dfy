/**
 * `convert_tokens_to_string` of the BigBird tokenizer: special tokens are
 * written verbatim, each followed by a space, and every run of ordinary pieces
 * between them goes through SentencePiece's `decode_pieces` as one group.
 */
module Detokenize {
  import opened PyStrings
  import opened Vocabulary

  predicate NoSpecial(tokens: seq<string>, special: set<string>) {
    forall j :: 0 <= j < |tokens| ==> tokens[j] !in special
  }

  /** Index of the first special token in `tokens`, or `|tokens|` if none. */
  function FirstSpecial(tokens: seq<string>, special: set<string>): (i: nat)
    ensures i <= |tokens|
  {
    if tokens == [] || tokens[0] in special then 0
    else 1 + FirstSpecial(tokens[1..], special)
  }

  /** `FirstSpecial` finds the first special token: none before it, and a
      special token at it unless it is the length. */
  lemma {:induction false} FirstSpecialIsFirst(tokens: seq<string>, special: set<string>)
    ensures NoSpecial(tokens[..FirstSpecial(tokens, special)], special)
    ensures FirstSpecial(tokens, special) < |tokens| ==> tokens[FirstSpecial(tokens, special)] in special
  {
    if tokens != [] && tokens[0] !in special {
      var i := FirstSpecial(tokens, special);
      FirstSpecialIsFirst(tokens[1..], special);
      assert tokens[..i] == [tokens[0]] + tokens[1..][..i - 1];
    }
  }

  /** Ordinary pieces followed by a special token: the token is the first one. */
  lemma {:induction false} FirstSpecialAfter(pending: seq<string>, token: string, rest: seq<string>,
                                            special: set<string>)
    requires NoSpecial(pending, special) && token in special
    ensures FirstSpecial(pending + [token] + rest, special) == |pending|
  {
    if pending != [] {
      assert (pending + [token] + rest)[0] == pending[0];
      assert (pending + [token] + rest)[1..] == pending[1..] + [token] + rest;
      FirstSpecialAfter(pending[1..], token, rest, special);
    }
  }

  /** Without special tokens `FirstSpecial` is the length. */
  lemma {:induction false} FirstSpecialNone(tokens: seq<string>, special: set<string>)
    requires NoSpecial(tokens, special)
    ensures FirstSpecial(tokens, special) == |tokens|
  {
    if tokens != [] {
      FirstSpecialNone(tokens[1..], special);
    }
  }

  /** Reference reading of the output before trimming: the ordinary pieces up
      to the first special token, decoded together, then that token and a
      space, then the same for the rest. */
  function Render(tokens: seq<string>, special: set<string>,
                  decode: seq<string> -> string): string
    decreases |tokens|
  {
    var i := FirstSpecial(tokens, special);
    if i == |tokens| then decode(tokens)
    else decode(tokens[..i]) + tokens[i] + " " + Render(tokens[i + 1..], special, decode)
  }

  /** With no special token the whole list is decoded as one group. */
  lemma RenderNoSpecial(tokens: seq<string>, special: set<string>, decode: seq<string> -> string)
    requires NoSpecial(tokens, special)
    ensures Render(tokens, special, decode) == decode(tokens)
  {
    FirstSpecialNone(tokens, special);
  }

  /** Prepending ordinary pieces to a token list makes them part of its first
      decoded group. */
  lemma RenderPending(pending: seq<string>, token: string, rest: seq<string>,
                      special: set<string>, decode: seq<string> -> string)
    requires NoSpecial(pending, special) && token in special
    ensures Render(pending + [token] + rest, special, decode) ==
            decode(pending) + token + " " + Render(rest, special, decode)
  {
    var all := pending + [token] + rest;
    FirstSpecialAfter(pending, token, rest, special);
    assert all[..|pending|] == pending;
    assert all[|pending|] == token;
    assert all[|pending| + 1..] == rest;
  }

  /** One step of the loop at a special token: flushing the pending pieces
      and the token into the output keeps the output plus the rendering of
      what is left unchanged. */
  lemma FlushStep(out: string, pending: seq<string>, token: string, rest: seq<string>,
                  special: set<string>, decode: seq<string> -> string)
    requires NoSpecial(pending, special) && token in special
    ensures out + Render(pending + ([token] + rest), special, decode) ==
            (out + decode(pending) + token + " ") + Render(rest, special, decode)
  {
    RenderPending(pending, token, rest, special, decode);
    assert pending + ([token] + rest) == pending + [token] + rest;
  }

  /** `convert_tokens_to_string`: the loop of the source, with the pending
      buffer of ordinary pieces and the output accumulated so far. */
  method ConvertTokensToString(tokens: seq<string>, special: set<string>, sp: SentencePiece)
    returns (s: string)
    ensures s == Strip(Render(tokens, special, sp.decodePieces))
    ensures Trimmed(s)
  {
    var decode := sp.decodePieces;
    var current: seq<string> := [];
    var out := "";
    assert current + tokens[0..] == tokens;
    for i := 0 to |tokens|
      invariant NoSpecial(current, special)
      invariant out + Render(current + tokens[i..], special, decode) == Render(tokens, special, decode)
    {
      var token := tokens[i];
      assert tokens[i..] == [token] + tokens[i + 1..];
      if token in special {
        FlushStep(out, current, token, tokens[i + 1..], special, decode);
        out := out + decode(current) + token + " ";
        current := [];
        assert current + tokens[i + 1..] == tokens[i + 1..];
      } else {
        assert current + ([token] + tokens[i + 1..]) == (current + [token]) + tokens[i + 1..];
        current := current + [token];
      }
    }
    assert current + tokens[|tokens|..] == current;
    RenderNoSpecial(current, special, decode);
    out := out + decode(current);
    s := Strip(out);
  }

  /** A special token followed by ordinary pieces: the token appears verbatim
      with a space after it, preceded by everything rendered before it, and
      the pieces after it are decoded together at the end. */
  lemma {:induction false} RenderSpecialThenPieces(before: seq<string>, token: string, after: seq<string>,
                                                   special: set<string>, decode: seq<string> -> string)
    requires token in special && NoSpecial(after, special)
    ensures Render(before + [token] + after, special, decode) ==
            Render(before, special, decode) + token + " " + decode(after)
    decreases |before|
  {
    var i := FirstSpecial(before, special);
    FirstSpecialIsFirst(before, special);
    if i == |before| {
      assert before[..i] == before;
      RenderPending(before, token, after, special, decode);
      RenderNoSpecial(before, special, decode);
      RenderNoSpecial(after, special, decode);
    } else {
      var head, mark, tail := before[..i], before[i], before[i + 1..];
      var prefix := decode(head) + mark + " ";
      var restOut := Render(tail, special, decode);
      assert Render(before + [token] + after, special, decode) ==
             prefix + (restOut + token + " " + decode(after)) by {
        assert before + [token] + after == head + [mark] + (tail + [token] + after);
        RenderPending(head, mark, tail + [token] + after, special, decode);
        RenderSpecialThenPieces(tail, token, after, special, decode);
      }
      assert Render(before, special, decode) == prefix + restOut by {
        assert before == head + [mark] + tail;
        RenderPending(head, mark, tail, special, decode);
      }
      assert prefix + (restOut + token + " " + decode(after)) ==
             (prefix + restOut) + token + " " + decode(after);
    }
  }

  /** A decoded pair of pieces followed by `</s>`: the special token is kept
      verbatim right after the decoded text (no space is put before it), and
      the space written after it is trimmed away. */
  lemma EosExample(special: set<string>, decode: seq<string> -> string)
    requires "</s>" in special && "hello" !in special && "\U{2581}world" !in special
    requires decode(["hello", "\U{2581}world"]) == "hello world" && decode([]) == ""
    ensures Strip(Render(["hello", "\U{2581}world", "</s>"], special, decode)) == "hello world</s>"
  {
    RenderSpecialThenPieces(["hello", "\U{2581}world"], "</s>", [], special, decode);
    assert ["hello", "\U{2581}world"] + ["</s>"] + [] == ["hello", "\U{2581}world", "</s>"];
    RenderNoSpecial(["hello", "\U{2581}world"], special, decode);
    var raw := "hello world" + "</s>" + " " + "";
    assert Render(["hello", "\U{2581}world", "</s>"], special, decode) == raw;
    assert LeadingSpaces(raw) == 0;
    assert TrailingSpaces(raw) == 1;
    var want := "hello world</s>";
    assert |raw[..|raw| - 1]| == |want|;
    forall i | 0 <= i < |want| ensures raw[..|raw| - 1][i] == want[i] {
    }
  }
}
