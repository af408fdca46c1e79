/** The public entry points of FastLZ and what they are for: decompressing what
    was compressed gives back the input. */
module FastLz {
  import opened Bytes
  import opened Lz77
  import opened Wire
  import opened Compressor
  import opened Decompressor

  // The literal in front of a block, read without the byte that the mark may have changed.
  lemma FirstLiteral(level: Level, tokens: seq<Token>, mem: seq<byte>, length: nat) returns (next: nat)
    requires AllEncodable(level, tokens) && tokens != [] && tokens[0].Literal?
    requires 0 < length <= |mem| && length == |WireAll(level, tokens)|
    requires mem[1..length] == WireAll(level, tokens)[1..]
    ensures 1 <= next <= length
    ensures ParseToken(level, mem, length, |tokens[0].bytes| - 1, 1) == Parsed(tokens[0], next)
    ensures mem[next..length] == WireAll(level, tokens[1..])
  {
    hide WireMatch, CopyBack;
    var w, b := WireAll(level, tokens), tokens[0].bytes;
    WireAllUnfold(level, tokens);
    next := 1 + |b|;
    assert w[1..][..|b|] == b && w[1..][|b|..] == WireAll(level, tokens[1..]);
    SliceOfSlice(mem, 1, length, 0, |b|);
    SliceOfSlice(mem, 1, length, |b|, length - 1);
  }

  lemma ParseLiteralFirst(level: Level, tokens: seq<Token>, mem: seq<byte>, length: nat)
    requires AllEncodable(level, tokens) && tokens != [] && tokens[0].Literal?
    requires 0 < length <= |mem| && length == |WireAll(level, tokens)|
    requires mem[1..length] == WireAll(level, tokens)[1..]
    ensures ParseAll(level, mem, length, |tokens[0].bytes| - 1, 1) == Some(tokens)
  {
    hide WireToken, ParseToken;
    var next := FirstLiteral(level, tokens, mem, length);
    var rest := tokens[1..];
    assert tokens == [tokens[0]] + rest;
    if rest == [] {
      assert tokens == [tokens[0]];
    } else {
      WireAllUnfold(level, rest);
      assert next < length;
      ParseUndoesWire(level, rest, mem, length, next);
      assert ParseAll(level, mem, length, mem[next], next + 1) == Some(rest);
    }
  }

  lemma DecodedOf(level: Level, text: seq<byte>, tokens: seq<Token>, mem: seq<byte>, length: nat)
    requires AllEncodable(level, tokens) && tokens != [] && tokens[0].Literal?
    requires Play([], tokens) == Some(text)
    requires 0 < length <= |mem| && length == |WireAll(level, tokens)|
    requires mem[1..length] == WireAll(level, tokens)[1..]
    requires mem[0] % 32 == WireAll(level, tokens)[0]
    ensures Decoded(level, mem, length) == Some(text)
  {
    WireAllUnfold(level, tokens);
    ParseLiteralFirst(level, tokens, mem, length);
  }

  // A lone literal is written alike at both levels.
  lemma ShortAlike(tokens: seq<Token>)
    requires |tokens| == 1 && tokens[0].Literal? && AllEncodable(Two, tokens)
    ensures AllEncodable(One, tokens) && WireAll(One, tokens) == WireAll(Two, tokens)
  {
    assert tokens[1..] == [];
    WireAllUnfold(One, tokens);
    WireAllUnfold(Two, tokens);
  }

  // The mark sits in the top bits of the first byte and nowhere else.
  lemma MarkKeeps(level: Level, text: seq<byte>, bytes: seq<byte>, tokens: seq<Token>)
    requires Compressed(level, text, bytes, tokens)
    ensures AllEncodable(level, tokens) && bytes != []
    ensures var w := WireAll(level, tokens);
            |bytes| == |w| && bytes[1..] == w[1..] && bytes[0] % 32 == w[0]
    ensures bytes[0] / 32 == if level == Two && |text| >= 4 then 1 else 0
  {
    WireAllUnfold(level, tokens);
  }

  // The round trip, for every input of at least one byte, at both levels and
  // whatever memory holds behind the block.
  lemma RoundTrip(level: Level, text: seq<byte>, bytes: seq<byte>, tokens: seq<Token>, mem: seq<byte>)
    requires Compressed(level, text, bytes, tokens)
    requires bytes <= mem
    ensures Meaning(mem, |bytes|) == Some(text)
  {
    hide WireAll, Play, Decoded;
    MarkKeeps(level, text, bytes, tokens);
    assert mem[1..|bytes|] == mem[..|bytes|][1..] == bytes[1..];
    assert mem[0] == bytes[0];
    if level == Two && |text| < 4 {
      // too short for a mark, so read as level 1, which writes one literal alike
      ShortAlike(tokens);
      DecodedOf(One, text, tokens, mem, |bytes|);
    } else {
      DecodedOf(level, text, tokens, mem, |bytes|);
    }
  }

  // fastlz_compress: level 1 below 64 KiB, level 2 from there on.
  method Compress(src: array<byte>, out: array<byte>, tableAllocated: bool, beyond: byte)
    returns (r: int, ghost tokens: seq<Token>)
    requires src != out && out.Length >= Room(src.Length)
    modifies out
    ensures !tableAllocated ==> r == -1
    ensures tableAllocated ==> 0 <= r <= src.Length + (src.Length + 31) / 32 && r <= out.Length
    ensures tableAllocated && src.Length == 0 ==> r == 0
    ensures tableAllocated && src.Length > 0 ==>
              Compressed(if src.Length < 65536 then One else Two, src[..], out[..r], tokens)
    ensures tableAllocated && src.Length >= 4 ==> Chosen(if src.Length < 65536 then One else Two, src[..], beyond, tokens)
    ensures tableAllocated && src.Length >= 16 && (forall i :: 0 <= i < src.Length ==> src[i] == src[0]) ==> r < src.Length
  {
    hide Chosen, Compressed;
    if src.Length < 65536 {
      r, tokens := CompressBlock(One, src, out, tableAllocated, beyond);
    } else {
      r, tokens := CompressBlock(Two, src, out, tableAllocated, beyond);
    }
  }

  // fastlz_compress_level: 0 for a level that does not exist.
  method CompressLevel(level: int, src: array<byte>, out: array<byte>, tableAllocated: bool, beyond: byte)
    returns (r: int, ghost tokens: seq<Token>)
    requires src != out && out.Length >= Room(src.Length)
    modifies out
    ensures level != 1 && level != 2 ==> r == 0
    ensures (level == 1 || level == 2) && !tableAllocated ==> r == -1
    ensures (level == 1 || level == 2) && tableAllocated ==>
              0 <= r <= src.Length + (src.Length + 31) / 32 && r <= out.Length
    ensures (level == 1 || level == 2) && tableAllocated && src.Length > 0 ==>
              Compressed(if level == 1 then One else Two, src[..], out[..r], tokens)
    ensures (level == 1 || level == 2) && tableAllocated && src.Length >= 4 ==> Chosen(if level == 1 then One else Two, src[..], beyond, tokens)
    ensures (level == 1 || level == 2) && tableAllocated && src.Length >= 16 && (forall i :: 0 <= i < src.Length ==> src[i] == src[0]) ==>
              r < src.Length
  {
    hide Chosen, Compressed;
    if level == 1 {
      r, tokens := CompressBlock(One, src, out, tableAllocated, beyond);
    } else if level == 2 {
      r, tokens := CompressBlock(Two, src, out, tableAllocated, beyond);
    } else {
      r, tokens := 0, [];
    }
  }

  // Compress at either level, then decompress: any limit of at least n bytes
  // gives back all n bytes, and any smaller limit is reported as an error.
  method CompressThenDecompress(level: int, src: array<byte>, packed: array<byte>, out: array<byte>, maxout: nat, beyond: byte)
    returns (r: nat)
    requires level == 1 || level == 2
    requires src.Length > 0 && packed.Length >= Room(src.Length) && maxout <= out.Length
    requires src != packed && packed != out && src != out
    modifies packed, out
    ensures maxout >= src.Length ==> r == src.Length && out[..r] == src[..]
    ensures maxout < src.Length ==> r == 0
  {
    var n;
    ghost var tokens;
    n, tokens := CompressLevel(level, src, packed, true, beyond);
    RoundTrip(if level == 1 then One else Two, src[..], packed[..n], tokens, packed[..]);
    r := Decompress(packed, n, out, maxout);
  }

  // The buffer size fastlz.h asks for, 5% above the input and no less than 66
  // bytes, is always room enough; and so is twice the input from two bytes on.
  lemma DocumentedBufferSuffices(n: nat, size: nat)
    ensures size >= 66 && 100 * size >= 105 * n ==> Room(n) <= size
    ensures n >= 2 && size >= 2 * n ==> Room(n) <= size
  {
    if n >= 62 {
      assert n / 32 + 1 <= (5 * n + 99) / 100 by {
        assert 32 * (n / 32) <= n;
      }
    }
  }
}
