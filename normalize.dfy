/** The normalisation stage of src/processors/normalize.ts: every token of
    type "word" has its value lower-cased in place; other tokens are left as
    they are. JavaScript's `toLowerCase` (Unicode case mapping) is the
    parameter `lower`. */
module Normalization {
  import opened Results

  /** The token type that normalisation rewrites. */
  const WordKind: string := "word"

  /** One token after normalisation. */
  function LowerToken(t: Token, lower: string -> string): Token {
    if t.kind == WordKind then t.(value := lower(t.value)) else t
  }

  /** The tokens after normalisation: as many as before, in the same order
      and with the same types; the words lower-cased, the others unchanged. */
  function Lowered(ts: seq<Token>, lower: string -> string): (r: seq<Token>)
    ensures |r| == |ts|
    ensures forall k :: 0 <= k < |ts| ==> r[k].kind == ts[k].kind
    ensures forall k :: 0 <= k < |ts| && ts[k].kind == WordKind ==> r[k].value == lower(ts[k].value)
    ensures forall k :: 0 <= k < |ts| && ts[k].kind != WordKind ==> r[k] == ts[k]
  {
    seq(|ts|, k requires 0 <= k < |ts| => LowerToken(ts[k], lower))
  }

  /** Lowering twice is lowering once when `lower` is idempotent, as a case
      mapping is: normalising an already normalised list changes nothing. */
  lemma LoweredIdempotent(ts: seq<Token>, lower: string -> string)
    requires forall s :: lower(lower(s)) == lower(s)
    ensures Lowered(Lowered(ts, lower), lower) == Lowered(ts, lower)
  {
    var once := Lowered(ts, lower);
    forall k | 0 <= k < |ts|
      ensures Lowered(once, lower)[k] == once[k]
    {
      if ts[k].kind == WordKind {
        assert once[k].value == lower(ts[k].value);
      }
    }
  }

  /** Normalisation works token by token: the tokens of a concatenation are
      normalised independently. */
  lemma LoweredAppend(xs: seq<Token>, ys: seq<Token>, lower: string -> string)
    ensures Lowered(xs + ys, lower) == Lowered(xs, lower) + Lowered(ys, lower)
  {
    var whole, left, right := Lowered(xs + ys, lower), Lowered(xs, lower), Lowered(ys, lower);
    forall k | 0 <= k < |xs + ys|
      ensures whole[k] == (left + right)[k]
    {
      if k < |xs| {
        assert (xs + ys)[k] == xs[k];
      } else {
        assert (xs + ys)[k] == ys[k - |xs|];
      }
    }
  }

  /** `normalize` (lines 4-13): the `forEach` rewrites the word tokens of
      the shared array in place; the text and the entities are untouched,
      and the same object is returned. */
  method Normalize(input: IntentResult, lower: string -> string) returns (output: IntentResult)
    modifies input.tokens
    ensures output == input
    ensures input.tokens[..] == Lowered(old(input.tokens[..]), lower)
    ensures input.entities == old(input.entities)
  {
    ghost var before := input.tokens[..];
    var tokens := input.tokens;
    for k := 0 to tokens.Length
      invariant tokens[..k] == Lowered(before[..k], lower)
      invariant tokens[k..] == before[k..]
    {
      var token := tokens[k];
      if token.kind == WordKind {
        tokens[k] := token.(value := lower(token.value));
      }
      assert before[..k + 1] == before[..k] + [before[k]];
      LoweredAppend(before[..k], [before[k]], lower);
      assert tokens[..k + 1] == tokens[..k] + [tokens[k]];
    }
    assert before[..tokens.Length] == before;
    assert tokens[..tokens.Length] == tokens[..];
    return input;
  }
}
