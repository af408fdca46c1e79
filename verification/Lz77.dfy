/** What a FastLZ stream means, apart from how it is written or read: a list of
    literal runs and back references, played from left to right. */
module Lz77 {
  import opened Bytes

  datatype Token =
    | Literal(bytes: seq<byte>)
    | Match(len: nat, dist: nat)

  // Appends `len` bytes one at a time, each a copy of the byte `dist` back.
  // With dist < len the copy overlaps what it has itself produced.
  function CopyBack(s: seq<byte>, dist: nat, len: nat): (r: seq<byte>)
    requires 1 <= dist <= |s|
    ensures |r| == |s| + len
    ensures s <= r
    decreases len
  {
    if len == 0 then s else CopyBack(s + [s[|s| - dist]], dist, len - 1)
  }

  function Step(s: seq<byte>, t: Token): Option<seq<byte>> {
    match t
    case Literal(b) => Some(s + b)
    case Match(len, dist) => if 1 <= dist <= |s| then Some(CopyBack(s, dist, len)) else None
  }

  // None when some back reference points before the start of the output.
  function Play(s: seq<byte>, tokens: seq<Token>): Option<seq<byte>>
    decreases tokens
  {
    if tokens == [] then Some(s)
    else
      match Step(s, tokens[0])
      case None => None
      case Some(s') => Play(s', tokens[1..])
  }

  lemma {:induction false} PlayAppend(s: seq<byte>, a: seq<Token>, b: seq<Token>)
    ensures Play(s, a + b) == match Play(s, a) case None => None case Some(s') => Play(s', b)
    decreases a
  {
    if a == [] {
      assert a + b == b;
    } else {
      assert (a + b)[1..] == a[1..] + b;
      if Step(s, a[0]).Some? {
        PlayAppend(Step(s, a[0]).value, a[1..], b);
      }
    }
  }

  // Output only grows, so a limit once passed stays passed.
  lemma {:induction false} PlayGrows(s: seq<byte>, tokens: seq<Token>)
    requires Play(s, tokens).Some?
    ensures s <= Play(s, tokens).value
    decreases tokens
  {
    if tokens != [] {
      PlayGrows(Step(s, tokens[0]).value, tokens[1..]);
    }
  }

  // A back reference cut in two at any point copies the same bytes.
  lemma {:induction false} CopyBackSplit(s: seq<byte>, dist: nat, a: nat, b: nat)
    requires 1 <= dist <= |s|
    ensures CopyBack(s, dist, a + b) == CopyBack(CopyBack(s, dist, a), dist, b)
    decreases a
  {
    if a > 0 {
      CopyBackSplit(s + [s[|s| - dist]], dist, a - 1, b);
    }
  }

  // Copying back reproduces a text wherever the text repeats itself at that distance.
  lemma {:induction false} CopyBackReproduces(text: seq<byte>, at: nat, dist: nat, len: nat)
    requires 1 <= dist <= at && at + len <= |text|
    requires forall k :: at <= k < at + len ==> text[k] == text[k - dist]
    ensures CopyBack(text[..at], dist, len) == text[..at + len]
    decreases len
  {
    if len > 0 {
      assert text[..at] + [text[at - dist]] == text[..at + 1];
      CopyBackReproduces(text, at + 1, dist, len - 1);
    }
  }
}
