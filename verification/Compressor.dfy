/** FASTLZ_COMPRESSOR for both levels. The input is the whole of `src`. */
module Compressor {
  import opened Bytes
  import opened Lz77
  import opened Wire

  const HASH_SIZE := 1024
  const MAX_DISTANCE_ONE := 8192
  const MAX_DISTANCE_TWO := 8191
  const MAX_FARDISTANCE := 65535 + MAX_DISTANCE_TWO - 1

  // Room the compressor may write into, for n input bytes.
  function Room(n: nat): nat { n + n / 32 + 1 }

  // ---------- the state between two tokens ----------

  // The bytes are the wire image of tokens that play back as `plain`.
  ghost predicate Image(level: Level, bytes: seq<byte>, plain: seq<byte>, tokens: seq<Token>) {
    && AllEncodable(level, tokens)
    && bytes == WireAll(level, tokens)
    && Play([], tokens) == Some(plain)
    && (tokens != [] ==> tokens[0].Literal?)
  }

  // out[..op] is a finished image of text[..ip], and not too large: at most 33
  // bytes for every 32.
  ghost predicate Closed(level: Level, text: seq<byte>, out: seq<byte>, op: nat, ip: nat, tokens: seq<Token>) {
    && op <= |out| && ip <= |text|
    && Image(level, out[..op], text[..ip], tokens)
    && 32 * op <= 33 * ip
  }

  // Closed, then a literal run still open: its count byte, holding 31 for now,
  // and `copy` bytes of text.
  ghost predicate Open(level: Level, text: seq<byte>, out: seq<byte>, op: nat, ip: nat, copy: nat, tokens: seq<Token>) {
    && copy <= MAX_COPY && copy < op <= |out| && copy <= ip <= |text|
    && Closed(level, text, out, op - copy - 1, ip - copy, tokens)
    && out[op - copy - 1] == MAX_COPY - 1
    && out[op - copy..op] == text[ip - copy..ip]
    && (tokens == [] ==> copy >= 2)
  }

  lemma {:induction false} EncodableAppend(level: Level, tokens: seq<Token>, t: Token)
    requires AllEncodable(level, tokens) && Encodable(level, t)
    ensures AllEncodable(level, tokens + [t])
    ensures WireAll(level, tokens + [t]) == WireAll(level, tokens) + WireToken(level, t)
  {
    hide WireToken;
    assert [t][1..] == [];
    assert WireAll(level, [t]) == WireToken(level, t) + [];
    WireAllAppend(level, tokens, [t]);
  }

  lemma PlayOne(s: seq<byte>, tokens: seq<Token>, t: Token)
    requires Play([], tokens) == Some(s) && Step(s, t).Some?
    ensures Play([], tokens + [t]) == Step(s, t)
  {
    assert [t][1..] == [];
    PlayAppend([], tokens, [t]);
    assert Play(Step(s, t).value, []) == Step(s, t);
  }

  // Overwriting the count byte in front of a run of literals.
  lemma SetCount(out: seq<byte>, h: nat, op: nat, count: byte, b: seq<byte>, out': seq<byte>)
    requires h < op <= |out| && op <= |out'|
    requires out[h + 1..op] == b
    requires out'[..op] == out[..op][h := count]
    ensures out'[..op] == out[..h] + ([count] + b)
  {
    assert out[..op][..h] == out[..h];
    assert out[..op][h + 1..] == b;
  }

  // An open run whose count byte has been written is a finished literal token.
  lemma CloseRun(level: Level, text: seq<byte>, out: seq<byte>, op: nat, ip: nat, copy: nat, tokens: seq<Token>, out': seq<byte>)
    requires 1 <= copy <= MAX_COPY && copy < op <= |out| && copy <= ip <= |text|
    requires Closed(level, text, out, op - copy - 1, ip - copy, tokens)
    requires out[op - copy..op] == text[ip - copy..ip]
    requires |out'| >= op && out'[..op] == out[..op][op - copy - 1 := copy - 1]
    ensures Image(level, out'[..op], text[..ip], tokens + [Literal(text[ip - copy..ip])])
  {
    hide WireAll, Play, CopyBack;
    var b := text[ip - copy..ip];
    SetCount(out, op - copy - 1, op, copy - 1, b, out');
    EncodableAppend(level, tokens, Literal(b));
    assert text[..ip - copy] + b == text[..ip];
    PlayOne(text[..ip - copy], tokens, Literal(b));
  }

  // ---------- finding a match ----------

  // *(p) | *(p+1) << 8
  function ReadU16(lo: byte, hi: byte): (r: nat)
    ensures r < 0x10000
  {
    lo + hi * 256
  }

  // HASH_FUNCTION on three consecutive bytes, in 16-bit words.
  function HashWord(b0: bv16, b1: bv16, b2: bv16): bv16 {
    var v := b0 | (b1 << 8);
    v ^ (b1 | (b2 << 8)) ^ (v >> 6)
  }

  function Hash(b0: byte, b1: byte, b2: byte): (h: nat)
    ensures h < HASH_SIZE
  {
    HashWord(b0 as bv16, b1 as bv16, b2 as bv16) as nat % HASH_SIZE
  }

  // Its low byte mixes the first two bytes, the two bits above it all three.
  lemma HashMixes(b0: bv16, b1: bv16, b2: bv16)
    requires b0 < 256 && b1 < 256 && b2 < 256
    ensures HashWord(b0, b1, b2) & 255 == (b0 ^ b1 ^ (b0 >> 6) ^ (b1 << 2)) & 255
    ensures (HashWord(b0, b1, b2) >> 8) & 3 == (b1 ^ b2 ^ (b1 >> 6)) & 3
  {
    HashLow(b0, b1, b2);
    HashHigh(b0, b1, b2);
    hide HashWord;
  }

  lemma HashLow(b0: bv16, b1: bv16, b2: bv16)
    requires b0 < 256 && b1 < 256 && b2 < 256
    ensures HashWord(b0, b1, b2) & 255 == (b0 ^ b1 ^ (b0 >> 6) ^ (b1 << 2)) & 255
  {}

  lemma HashHigh(b0: bv16, b1: bv16, b2: bv16)
    requires b0 < 256 && b1 < 256 && b2 < 256
    ensures (HashWord(b0, b1, b2) >> 8) & 3 == (b1 ^ b2 ^ (b1 >> 6)) & 3
  {}

  // The byte at p, or the one found just past the input.
  function At(text: seq<byte>, p: nat, beyond: byte): byte {
    if p < |text| then text[p] else beyond
  }

  function HashAt(text: seq<byte>, p: nat, beyond: byte): (h: nat)
    ensures h < HASH_SIZE
  {
    Hash(At(text, p, beyond), At(text, p + 1, beyond), At(text, p + 2, beyond))
  }

  lemma HashOfThree(text: seq<byte>, p: nat, beyond: byte)
    ensures p + 2 < |text| ==> HashAt(text, p, beyond) == Hash(text[p], text[p + 1], text[p + 2])
    ensures p + 2 == |text| ==> HashAt(text, p, beyond) == Hash(text[p], text[p + 1], beyond)
  {}

  predicate Repeats(text: seq<byte>, at: nat, distance: nat, len: nat) {
    && 1 <= distance <= at && at + len <= |text|
    && forall k :: at <= k < at + len ==> text[k] == text[k - distance]
  }

  // The least length worth copying from d back, and the distances the format has.
  function Least(level: Level, d: nat): nat {
    if level == Two && d >= MAX_DISTANCE_TWO then 5 else 3
  }

  predicate WorthCopying(level: Level, text: seq<byte>, at: nat, d: nat) {
    && d < (if level == One then MAX_DISTANCE_ONE else MAX_FARDISTANCE)
    && Repeats(text, at, d, Least(level, d))
  }

  // Every slot of the table holds a position before `limit`.
  ghost predicate Earlier(htab: seq<nat>, limit: nat) {
    |htab| == HASH_SIZE && forall i :: 0 <= i < HASH_SIZE ==> htab[i] < limit
  }

  // Four equal bytes around the anchor, seen as two 16-bit words.
  predicate IsRun(b0: byte, b1: byte, b2: byte, b3: byte) {
    b1 == b0 && ReadU16(b0, b1) == ReadU16(b2, b3)
  }

  lemma RunRepeats(text: seq<byte>, anchor: nat)
    requires 1 <= anchor && anchor + 3 <= |text|
    ensures IsRun(text[anchor - 1], text[anchor], text[anchor + 1], text[anchor + 2]) <==> Repeats(text, anchor, 1, 3)
  {
    if Repeats(text, anchor, 1, 3) {
      assert text[anchor] == text[anchor - 1] && text[anchor + 1] == text[anchor] && text[anchor + 2] == text[anchor + 1];
    }
  }

  lemma ThreeAlike(text: seq<byte>, at: nat, d: nat)
    requires 1 <= d <= at && at + 5 <= |text|
    ensures Repeats(text, at, d, 3) <==> text[at - d] == text[at] && text[at - d + 1] == text[at + 1] && text[at - d + 2] == text[at + 2]
    ensures Repeats(text, at, d, 5) <==> Repeats(text, at, d, 3) && text[at - d + 3] == text[at + 3] && text[at - d + 4] == text[at + 4]
  {
    if Repeats(text, at, d, 3) {
      assert text[at] == text[at - d] && text[at + 1] == text[at + 1 - d] && text[at + 2] == text[at + 2 - d];
    }
    if Repeats(text, at, d, 5) {
      assert text[at + 3] == text[at + 3 - d] && text[at + 4] == text[at + 4 - d];
      assert text[at] == text[at - d] && text[at + 1] == text[at + 1 - d] && text[at + 2] == text[at + 2 - d];
    }
  }

  // The candidate for this anchor, which takes its place in the table.
  method SwapSlot(src: array<byte>, htab: array<nat>, anchor: nat, beyond: byte) returns (ref: nat)
    requires htab.Length == HASH_SIZE && Earlier(htab[..], anchor)
    modifies htab
    ensures ref < anchor && ref == old(htab[..])[HashAt(src[..], anchor, beyond)]
    ensures htab[..] == old(htab[..])[HashAt(src[..], anchor, beyond) := anchor]
    ensures Earlier(htab[..], anchor + 1)
  {
    var hval := HashAt(src[..], anchor, beyond);
    ref := htab[hval];
    htab[hval] := anchor;
  }

  method FindMatch(level: Level, src: array<byte>, htab: array<nat>, anchor: nat, beyond: byte)
    returns (found: bool, distance: nat, len: nat)
    requires 1 <= anchor < src.Length - 12
    requires htab.Length == HASH_SIZE && Earlier(htab[..], anchor)
    modifies htab
    ensures Earlier(htab[..], anchor + 1)
    ensures found ==> Repeats(src[..], anchor, distance, len)
    ensures found && level == One ==> len == 3 && distance < MAX_DISTANCE_ONE
    ensures found && level == Two ==> distance < MAX_FARDISTANCE && len == if distance < MAX_DISTANCE_TWO then 3 else 5
    // level 2 looks for a run first; else what stood here last by the table is copied
    // exactly if it is within reach and repeated for long enough
    ensures level == Two && Repeats(src[..], anchor, 1, 3) ==> found && distance == 1 && htab[..] == old(htab[..])
    ensures !(level == Two && Repeats(src[..], anchor, 1, 3)) ==>
              var h := HashAt(src[..], anchor, beyond);
              && old(htab[..])[h] < anchor && distance == anchor - old(htab[..])[h] && htab[..] == old(htab[..])[h := anchor]
              && (found <==> distance < (if level == One then 8192 else 73725)
                             && Repeats(src[..], anchor, distance, if level == Two && distance >= 8191 then 5 else 3))
  {
    hide HashAt, IsRun, Repeats, ReadU16;
    found, len := false, 3;
    RunRepeats(src[..], anchor);
    if level == Two && IsRun(src[anchor - 1], src[anchor], src[anchor + 1], src[anchor + 2]) {
      return true, 1, 3;
    }
    var ref := SwapSlot(src, htab, anchor, beyond);
    distance := anchor - ref;
    ThreeAlike(src[..], anchor, distance);
    if distance == 0
       || (level == One && distance >= MAX_DISTANCE_ONE)
       || (level == Two && distance >= MAX_FARDISTANCE)
       || src[ref] != src[anchor] || src[ref + 1] != src[anchor + 1] || src[ref + 2] != src[anchor + 2] {
      return;
    }
    if level == Two && distance >= MAX_DISTANCE_TWO {
      if src[anchor + 3] != src[ref + 3] || src[anchor + 4] != src[ref + 4] {
        return;
      }
      len := len + 2;
    }
    found := true;
  }

  // The scan goes on until two bytes differ, or to two bytes before the end of the
  // text, or for eight bytes if that is farther and the distance is not 1.
  ghost predicate Ended(text: seq<byte>, anchor: nat, distance: nat, len: nat, end: nat)
    requires |text| >= 2
  {
    var limit := if distance != 1 && anchor + len + 8 > |text| - 2 then anchor + len + 8 else |text| - 2;
    1 <= distance < end <= limit && end <= |text| && (end < limit ==> text[end - 1] != text[end - 1 - distance])
  }

  // Where the scan stops. Its last comparison is not part of the match: the
  // match is src[anchor..end - 1].
  method ExtendMatch(src: array<byte>, anchor: nat, distance: nat, len: nat) returns (end: nat)
    requires anchor < src.Length - 12 && 3 <= len <= 5
    requires Repeats(src[..], anchor, distance, len)
    ensures anchor + len < end <= src.Length
    ensures Repeats(src[..], anchor, distance, end - 1 - anchor)
    ensures Ended(src[..], anchor, distance, len, end)
  {
    var bound := src.Length - 2;
    var ip := anchor + len;
    var ref := ip - distance;
    if distance == 1 {
      var x := src[ip - 1];
      assert forall k :: anchor <= k < anchor + len ==> src[..][k] == src[..][k - 1];
      assert ref == ip - 1;
      while ip < bound
        invariant anchor + len <= ip <= bound && ref == ip - 1
        invariant ip == anchor + len ==> src[ip - 1] == x
        invariant src[ip - 2] == x
        invariant forall k :: anchor <= k < ip - 1 ==> src[k] == src[k - 1]
      {
        if src[ref] != x {
          break;
        }
        ref, ip := ref + 1, ip + 1;
      }
      end := ip;
    } else {
      var tries := 0;
      var same := true;
      while same && (tries < 8 || ip < bound)
        invariant 0 <= tries <= 8
        invariant if tries < 8 then ip == anchor + len + tries else anchor + len + 8 <= ip <= src.Length
        invariant ref == ip - distance
        invariant forall k :: anchor <= k < ip - 1 ==> src[k] == src[k - distance]
        invariant same ==> forall k :: anchor <= k < ip ==> src[k] == src[k - distance]
        invariant !same ==> ip > anchor + len && src[ip - 1] != src[ip - 1 - distance]
        invariant tries == 8 ==> ip <= (if anchor + len + 8 > bound then anchor + len + 8 else bound)
        decreases same, src.Length - ip
      {
        same := src[ref] == src[ip];
        ref, ip := ref + 1, ip + 1;
        if tries < 8 {
          tries := tries + 1;
        }
      }
      end := ip;
    }
  }

  // ---------- writing a match ----------

  method Put(out: array<byte>, op0: nat, b: byte) returns (op: nat)
    requires op0 < out.Length
    modifies out
    ensures op == op0 + 1
    ensures out[..op] == old(out[..op0]) + [b]
  {
    out[op0] := b;
    op := op0 + 1;
  }

  // The bytes a length run adds: 255s and a last smaller byte.
  method EmitChain(out: array<byte>, op0: nat, n: nat) returns (op: nat)
    requires op0 + |Chain(n)| <= out.Length
    modifies out
    ensures op == op0 + |Chain(n)|
    ensures out[..op] == old(out[..op0]) + Chain(n)
  {
    var len := n;
    op := op0;
    while len >= 255
      invariant 0 <= len <= n && op0 <= op && op + |Chain(len)| == op0 + |Chain(n)|
      invariant out[..op] + Chain(len) == old(out[..op0]) + Chain(n)
    {
      ghost var before := out[..op];
      op := Put(out, op, 255);
      assert before + Chain(len) == before + ([255] + Chain(len - 255)) == out[..op] + Chain(len - 255);
      len := len - 255;
    }
    op := Put(out, op, len);
  }

  method EmitFar(out: array<byte>, op0: nat, l: nat, d: nat) returns (op: nat)
    requires Encodable(Two, Match(l + 2, d + 1)) && d >= NEAR_LIMIT
    requires op0 + |WireMatch(Two, l, d)| <= out.Length
    modifies out
    ensures op == op0 + |WireMatch(Two, l, d)|
    ensures out[..op] == old(out[..op0]) + WireMatch(Two, l, d)
  {
    var e := d - NEAR_LIMIT;
    if l < 7 {
      op := Put(out, op0, l * 32 + 31);
    } else {
      op := Put(out, op0, 7 * 32 + 31);
      op := EmitChain(out, op, l - 7);
    }
    op := Put(out, op, 255);
    op := Put(out, op, e / 256);
    op := Put(out, op, e % 256);
  }

  method EmitLong(out: array<byte>, op0: nat, l: nat, d: nat) returns (op: nat)
    requires Encodable(Two, Match(l + 2, d + 1)) && d < NEAR_LIMIT && l >= 7
    requires op0 + |WireMatch(Two, l, d)| <= out.Length
    modifies out
    ensures op == op0 + |WireMatch(Two, l, d)|
    ensures out[..op] == old(out[..op0]) + WireMatch(Two, l, d)
  {
    op := Put(out, op0, 7 * 32 + d / 256);
    op := EmitChain(out, op, l - 7);
    op := Put(out, op, d % 256);
  }

  method EmitNear(level: Level, out: array<byte>, op0: nat, l: nat, d: nat) returns (op: nat)
    requires Encodable(level, Match(l + 2, d + 1)) && (level == Two ==> d < NEAR_LIMIT)
    requires op0 + |WireMatch(level, l, d)| <= out.Length
    modifies out
    ensures op == op0 + |WireMatch(level, l, d)|
    ensures out[..op] == old(out[..op0]) + WireMatch(level, l, d)
  {
    ghost var base, w := out[..op0], WireMatch(level, l, d);
    if l < 7 {
      op := Put(out, op0, l * 32 + d / 256);
      op := Put(out, op, d % 256);
      assert out[..op] == base + [w[0], w[1]];
    } else if level == Two {
      op := EmitLong(out, op0, l, d);
    } else {
      op := Put(out, op0, 7 * 32 + d / 256);
      op := Put(out, op, l - 7);
      op := Put(out, op, d % 256);
      assert out[..op] == base + [w[0], w[1], w[2]];
    }
  }

  // A match of `l` (biased length) and `d` (biased distance) that one token can express.
  method EmitToken(level: Level, out: array<byte>, op0: nat, l: nat, d: nat) returns (op: nat)
    requires Encodable(level, Match(l + 2, d + 1))
    requires op0 + |WireMatch(level, l, d)| <= out.Length
    modifies out
    ensures op == op0 + |WireMatch(level, l, d)|
    ensures out[..op] == old(out[..op0]) + WireMatch(level, l, d)
  {
    hide WireMatch;
    if level == Two && d >= NEAR_LIMIT {
      op := EmitFar(out, op0, l, d);
    } else {
      op := EmitNear(level, out, op0, l, d);
    }
  }

  // The bytes w are tokens that together copy `copied` bytes from d + 1 back onto s.
  ghost predicate CopyImage(level: Level, s: seq<byte>, w: seq<byte>, copied: nat, d: nat, ms: seq<Token>)
    requires d < |s|
  {
    && AllEncodable(level, ms) && w == WireAll(level, ms)
    && Play(s, ms) == Some(CopyBack(s, d + 1, copied))
  }

  // One more match token: a long copy cut in pieces copies what the whole would.
  lemma CopyImageAppend(level: Level, s: seq<byte>, w: seq<byte>, copied: nat, d: nat, ms: seq<Token>, l: nat)
    requires d < |s| && CopyImage(level, s, w, copied, d, ms)
    requires Encodable(level, Match(l + 2, d + 1))
    ensures CopyImage(level, s, w + WireMatch(level, l, d), copied + l + 2, d, ms + [Match(l + 2, d + 1)])
  {
    hide CopyBack, WireMatch, WireAll;
    var t := Match(l + 2, d + 1);
    EncodableAppend(level, ms, t);
    CopyBackSplit(s, d + 1, copied, l + 2);
    PlayAppend(s, ms, [t]);
    var s' := CopyBack(s, d + 1, copied);
    assert [t][1..] == [];
    assert Play(s', [t]) == Play(CopyBack(s', d + 1, l + 2), []);
  }

  lemma NothingCopied(level: Level, s: seq<byte>, d: nat)
    requires d < |s|
    ensures CopyImage(level, s, [], 0, d, [])
  {}

  lemma MatchIsShort(level: Level, l: nat, d: nat)
    requires Encodable(level, Match(l + 2, d + 1))
    requires level == Two && d >= NEAR_LIMIT ==> l >= 3
    ensures |WireMatch(level, l, d)| <= l + 1
  {}

  // A copy of `len` bytes: level 1 writes it in pieces.
  function Pieces(level: Level, len: nat, dist: nat): seq<Token> {
    if level == One && len > MAX_LEN then [Match(MAX_LEN - 2, dist)] + Pieces(level, len - (MAX_LEN - 2), dist) else [Match(len, dist)]
  }

  lemma PiecesOn(ms: seq<Token>, len: nat, dist: nat)
    requires len > MAX_LEN
    ensures (ms + [Match(262, dist)]) + Pieces(One, len - 262, dist) == ms + Pieces(One, len, dist)
  {
    assert Pieces(One, len, dist) == [Match(262, dist)] + Pieces(One, len - 262, dist);
  }

  lemma PiecesEnd(level: Level, len: nat, dist: nat)
    requires level == Two || len <= MAX_LEN
    ensures Pieces(level, len, dist) == [Match(len, dist)]
  {}

  // Writes one token behind those in out[start..op0].
  method EmitPiece(level: Level, out: array<byte>, start: nat, op0: nat, l: nat, d: nat,
                   ghost s: seq<byte>, ghost copied: nat, ghost ms0: seq<Token>)
    returns (op: nat, ghost ms: seq<Token>)
    requires d < |s| && start <= op0 && op0 + l + 1 <= out.Length
    requires Encodable(level, Match(l + 2, d + 1))
    requires level == Two && d >= NEAR_LIMIT ==> l >= 3
    requires CopyImage(level, s, out[start..op0], copied, d, ms0)
    modifies out
    ensures op == op0 + |WireMatch(level, l, d)| <= op0 + l + 1 && ms == ms0 + [Match(l + 2, d + 1)]
    ensures out[..start] == old(out[..start])
    ensures CopyImage(level, s, out[start..op], copied + l + 2, d, ms)
  {
    hide CopyImage, WireMatch;
    ghost var w, e := out[start..op0], WireMatch(level, l, d);
    ghost var before := out[..op0];
    MatchIsShort(level, l, d);
    CopyImageAppend(level, s, w, copied, d, ms0, l);
    ms := ms0 + [Match(l + 2, d + 1)];
    op := EmitToken(level, out, op0, l, d);
    assert out[..op] == before + e;
    assert before[start..] == w;
    assert out[start..op] == out[..op][start..] == w + e;
    assert out[..start] == out[..op][..start] == before[..start];
  }

  // Biased length and distance, as in C. Fewer bytes are written than copied.
  method EmitMatch(level: Level, out: array<byte>, op0: nat, length: nat, d: nat, ghost s: seq<byte>)
    returns (op: nat, ghost ms: seq<Token>)
    requires 1 <= length && op0 + length + 1 <= out.Length && d < |s|
    requires level == One ==> d < 8192
    requires level == Two ==> d <= NEAR_LIMIT + 65535 && (d >= NEAR_LIMIT ==> length >= 3)
    modifies out
    ensures op0 <= op <= op0 + length + 1
    ensures out[..op0] == old(out[..op0])
    ensures CopyImage(level, s, out[op0..op], length + 2, d, ms) && ms == Pieces(level, length + 2, d + 1)
  {
    hide CopyImage, WireMatch, Pieces;
    var len := length;
    op, ms := op0, [];
    NothingCopied(level, s, d);
    assert out[op0..op] == [];
    if level == One {
      while len > MAX_LEN - 2
        invariant 1 <= len <= length && op0 <= op && op - op0 <= length - len
        invariant out[..op0] == old(out[..op0])
        invariant CopyImage(level, s, out[op0..op], length - len, d, ms)
        invariant ms + Pieces(level, len + 2, d + 1) == Pieces(level, length + 2, d + 1)
      {
        PiecesOn(ms, len + 2, d + 1);
        op, ms := EmitPiece(level, out, op0, op, 260, d, s, length - len, ms);
        len := len - (MAX_LEN - 2);
      }
    }
    PiecesEnd(level, len + 2, d + 1);
    op, ms := EmitPiece(level, out, op0, op, len, d, s, length - len, ms);
  }

  // ---------- the compressor ----------

  // A new, empty literal run behind finished tokens.
  method OpenRun(level: Level, ghost text: seq<byte>, out: array<byte>, op0: nat, ghost ip: nat, ghost tokens: seq<Token>)
    returns (op: nat)
    requires Closed(level, text, out[..], op0, ip, tokens) && tokens != []
    requires out.Length >= Room(|text|)
    modifies out
    ensures op == op0 + 1
    ensures Open(level, text, out[..], op, ip, 0, tokens)
  {
    out[op0] := MAX_COPY - 1;
    op := op0 + 1;
    assert out[..op0] == old(out[..])[..op0];
    assert out[..][..op0] == old(out[..])[..op0];
  }

  // The count byte of the open run is written, or dropped if the run is empty.
  method FinishRun(level: Level, ghost text: seq<byte>, out: array<byte>, op0: nat, ghost ip: nat, copy: nat, ghost tokens0: seq<Token>)
    returns (op: nat, ghost tokens: seq<Token>)
    requires Open(level, text, out[..], op0, ip, copy, tokens0)
    modifies out
    ensures op == if copy > 0 then op0 else op0 - 1
    ensures op <= out.Length && Image(level, out[..op], text[..ip], tokens) && tokens != []
    ensures 32 * (op - copy - (if copy > 0 then 1 else 0)) <= 33 * (ip - copy)
    ensures tokens == tokens0 + if copy > 0 then [Literal(text[ip - copy..ip])] else []
  {
    op, tokens := op0, tokens0;
    if copy > 0 {
      out[op - copy - 1] := copy - 1;
      CloseRun(level, text, old(out[..]), op, ip, copy, tokens, out[..]);
      tokens := tokens + [Literal(text[ip - copy..ip])];
      assert out[..op] == out[..][..op];
    } else {
      op := op - 1;
      assert out[..op] == out[..][..op];
    }
  }

  lemma OpenFits(level: Level, text: seq<byte>, out: seq<byte>, op: nat, ip: nat, copy: nat, tokens: seq<Token>)
    requires Open(level, text, out, op, ip, copy, tokens) && copy < MAX_COPY
    requires ip < |text| && |out| >= Room(|text|)
    ensures op < |out|
  {}

  lemma OpenReaches(level: Level, text: seq<byte>, out: seq<byte>, op: nat, ip: nat, copy: nat, tokens: seq<Token>)
    requires Open(level, text, out, op, ip, copy, tokens)
    ensures copy <= ip <= |text|
  {}

  lemma SliceGrows(s: seq<byte>, i: nat, j: nat, x: byte)
    requires i <= j < |s|
    ensures s[j := x][i..j + 1] == s[i..j] + [x]
  {
    var a, b := s[j := x][i..j + 1], s[i..j] + [x];
    assert forall k {:trigger a[k]} :: 0 <= k < |a| ==> a[k] == b[k];
  }

  lemma GrowRun(level: Level, text: seq<byte>, out: seq<byte>, op: nat, ip: nat, copy: nat, tokens: seq<Token>)
    requires Open(level, text, out, op, ip, copy, tokens) && copy < MAX_COPY
    requires op < |out| && ip < |text|
    ensures Open(level, text, out[op := text[ip]], op + 1, ip + 1, copy + 1, tokens)
  {
    var out' := out[op := text[ip]];
    var h := op - copy - 1;
    assert out'[..h] == out[..h];
    SliceGrows(out, op - copy, op, text[ip]);
    SliceGrows(text, ip - copy, ip, text[ip]);
    assert text[ip := text[ip]] == text;
  }

  method EmitLiteral(level: Level, src: array<byte>, out: array<byte>, op0: nat, ip: nat, copy0: nat, ghost tokens0: seq<Token>)
    returns (op: nat, copy: nat, ghost tokens: seq<Token>)
    requires src != out && ip < src.Length && out.Length >= Room(src.Length)
    requires Open(level, src[..], out[..], op0, ip, copy0, tokens0) && copy0 < MAX_COPY
    modifies out
    ensures Open(level, src[..], out[..], op, ip + 1, copy, tokens) && copy < MAX_COPY
    ensures if copy0 + 1 < MAX_COPY then copy == copy0 + 1 && tokens == tokens0
            else copy == 0 && ip + 1 >= MAX_COPY && tokens == tokens0 + [Literal(src[ip + 1 - MAX_COPY..ip + 1])]
  {
    hide Open;
    OpenReaches(level, src[..], out[..], op0, ip, copy0, tokens0);
    ghost var text := src[..];
    OpenFits(level, text, out[..], op0, ip, copy0, tokens0);
    GrowRun(level, text, out[..], op0, ip, copy0, tokens0);
    out[op0] := src[ip];
    op, copy, tokens := op0 + 1, copy0 + 1, tokens0;
    if copy == MAX_COPY {
      op, tokens := StartNextRun(level, text, out, op, ip + 1, tokens);
      copy := 0;
    }
  }

  // A run that has reached 32 bytes already carries the right count byte.
  method StartNextRun(level: Level, ghost text: seq<byte>, out: array<byte>, op0: nat, ghost ip: nat, ghost tokens0: seq<Token>)
    returns (op: nat, ghost tokens: seq<Token>)
    requires Open(level, text, out[..], op0, ip, MAX_COPY, tokens0)
    requires out.Length >= Room(|text|)
    modifies out
    ensures Open(level, text, out[..], op, ip, 0, tokens)
    ensures MAX_COPY <= ip <= |text| && tokens == tokens0 + [Literal(text[ip - MAX_COPY..ip])]
  {
    CloseRun(level, text, out[..], op0, ip, MAX_COPY, tokens0, out[..]);
    tokens := tokens0 + [Literal(text[ip - MAX_COPY..ip])];
    op := OpenRun(level, text, out, op0, ip, tokens);
  }

  // Tokens that copy a repeated stretch of the text extend a finished image.
  lemma AppendMatch(level: Level, text: seq<byte>, bytes: seq<byte>, w: seq<byte>, anchor: nat, distance: nat, m: nat,
                    tokens: seq<Token>, ms: seq<Token>)
    requires Repeats(text, anchor, distance, m)
    requires Image(level, bytes, text[..anchor], tokens) && tokens != []
    requires CopyImage(level, text[..anchor], w, m, distance - 1, ms)
    ensures Image(level, bytes + w, text[..anchor + m], tokens + ms)
  {
    WireAllAppend(level, tokens, ms);
    PlayAppend([], tokens, ms);
    CopyBackReproduces(text, anchor, distance, m);
    assert (tokens + ms)[0] == tokens[0];
  }

  method CloseMatch(level: Level, ghost text: seq<byte>, out: array<byte>, op0: nat, anchor: nat, end: nat, distance: nat,
                    ghost copy: nat, ghost tokens0: seq<Token>)
    returns (op: nat, ghost tokens: seq<Token>)
    requires out.Length >= Room(|text|) && op0 <= out.Length && copy <= anchor <= |text|
    requires Image(level, out[..op0], text[..anchor], tokens0) && tokens0 != []
    requires 32 * (op0 - copy - (if copy > 0 then 1 else 0)) <= 33 * (anchor - copy)
    requires anchor + 4 <= end && Repeats(text, anchor, distance, end - 1 - anchor)
    requires level == One ==> distance < MAX_DISTANCE_ONE
    requires level == Two ==> distance < MAX_FARDISTANCE && (distance >= MAX_DISTANCE_TWO ==> anchor + 6 <= end)
    modifies out
    ensures Closed(level, text, out[..], op, end - 1, tokens) && tokens == tokens0 + Pieces(level, end - 1 - anchor, distance)
  {
    hide CopyImage;
    var m := end - 1 - anchor;
    ghost var ms;
    MatchFits(op0, copy, anchor, m, |text|);
    op, ms := EmitMatch(level, out, op0, m - 2, distance - 1, text[..anchor]);
    tokens := tokens0 + ms;
    AppendMatch(level, text, out[..op0], out[op0..op], anchor, distance, m, tokens0, ms);
    assert out[..][..op] == out[..op0] + out[op0..op];
  }

  lemma MatchFits(op: nat, copy: nat, anchor: nat, m: nat, n: nat)
    requires copy <= anchor && m >= 3 && anchor + m <= n
    requires 32 * (op - copy - (if copy > 0 then 1 else 0)) <= 33 * (anchor - copy)
    ensures 32 * (op + m - 1) <= 33 * (anchor + m)
    ensures op + m - 1 <= Room(n)
  {}

  // From the match found at `anchor` to the next empty literal run.
  method TakeMatch(level: Level, src: array<byte>, out: array<byte>, op0: nat, anchor: nat, end: nat, distance: nat, copy: nat,
                   ghost tokens0: seq<Token>)
    returns (op: nat, ghost tokens: seq<Token>)
    requires src != out && out.Length >= Room(src.Length)
    requires Open(level, src[..], out[..], op0, anchor, copy, tokens0) && copy < MAX_COPY
    requires anchor + 4 <= end && Repeats(src[..], anchor, distance, end - 1 - anchor)
    requires level == One ==> distance < MAX_DISTANCE_ONE
    requires level == Two ==> distance < MAX_FARDISTANCE && (distance >= MAX_DISTANCE_TWO ==> anchor + 6 <= end)
    modifies out
    ensures Open(level, src[..], out[..], op, end - 1, 0, tokens) && copy <= anchor
    ensures tokens == tokens0 + (if copy > 0 then [Literal(src[anchor - copy..anchor])] else []) + Pieces(level, end - 1 - anchor, distance)
  {
    hide Image, Closed, Pieces;
    ghost var text := src[..];
    op, tokens := FinishRun(level, text, out, op0, anchor, copy, tokens0);
    op, tokens := CloseMatch(level, text, out, op, anchor, end, distance, copy, tokens);
    op := OpenRun(level, text, out, op, end - 1, tokens);
  }

  // Level 2 sets bit 5 of the first byte. A first byte is always the count of a
  // literal run, so the bit is clear until then.
  function Mark(level: Level, w: seq<byte>): seq<byte> {
    if level == Two && w != [] && w[0] < 32 then w[0 := w[0] + 32] else w
  }

  // The bytes are what the format writes for tokens that play back as the text.
  // Inputs of fewer than four bytes leave level 2 unmarked.
  ghost predicate Compressed(level: Level, text: seq<byte>, bytes: seq<byte>, tokens: seq<Token>) {
    && AllEncodable(level, tokens)
    && bytes == (if |text| < 4 then WireAll(level, tokens) else Mark(level, WireAll(level, tokens)))
    && Play([], tokens) == Some(text)
    && tokens != [] && tokens[0].Literal?
    && (|text| < 4 ==> tokens == [Literal(text)])
  }

  method CompressShort(level: Level, src: array<byte>, out: array<byte>) returns (r: nat, ghost tokens: seq<Token>)
    requires src != out && 1 <= src.Length < 4 && out.Length >= Room(src.Length)
    modifies out
    ensures r == src.Length + 1 && Compressed(level, src[..], out[..r], tokens)
  {
    var ip, op := 0, 1;
    out[0] := src.Length - 1;
    while ip < src.Length
      invariant 0 <= ip <= src.Length && op == ip + 1
      invariant out[0] == src.Length - 1
      invariant out[1..op] == src[..ip]
    {
      out[op] := src[ip];
      op, ip := op + 1, ip + 1;
    }
    r := src.Length + 1;
    ghost var t := Literal(src[..]);
    tokens := [t];
    assert tokens == [] + [t];
    EncodableAppend(level, [], t);
    PlayOne([], [], t);
    assert out[..r] == [(src.Length - 1) as byte] + out[1..r] == WireToken(level, t);
    assert [] + t.bytes == src[..];
  }

  // The stretch of the main loop that enters two positions at a match boundary.
  method UpdateTable(src: array<byte>, htab: array<nat>, ip: nat, beyond: byte)
    requires htab.Length == HASH_SIZE && Earlier(htab[..], ip)
    modifies htab
    ensures Earlier(htab[..], ip + 2)
    ensures htab[..] == old(htab[..])[HashAt(src[..], ip, beyond) := ip][HashAt(src[..], ip + 1, beyond) := ip + 1]
  {
    var h := HashAt(src[..], ip, beyond);
    htab[h] := ip;
    assert forall i :: 0 <= i < HASH_SIZE ==> htab[i] == if i == h then ip else old(htab[..])[i];
    var h' := HashAt(src[..], ip + 1, beyond);
    htab[h'] := ip + 1;
  }

  // Two literals behind a count byte: every stream starts this way.
  method StartStream(level: Level, src: array<byte>, out: array<byte>)
    requires src != out && src.Length >= 4 && out.Length >= Room(src.Length)
    modifies out
    ensures Open(level, src[..], out[..], 3, 2, 2, [])
  {
    out[0], out[1], out[2] := MAX_COPY - 1, src[0], src[1];
    assert out[..][1..3] == src[..][0..2];
    assert out[..][..0] == [] == src[..][..0];
  }

  // ---------- what is chosen ----------

  // The main loop between two rounds, and what a round does: write one byte as it is,
  // or copy `len` bytes from `dist` back.
  datatype Stage = Stage(ip: nat, table: seq<nat>)

  datatype Round = Lit(at: nat) | Copy(at: nat, len: nat, dist: nat)

  // Each round copies if it can, as far as the text repeats, and keeps the table.
  ghost predicate LoopStep(level: Level, text: seq<byte>, beyond: byte, a: Stage, r: Round, b: Stage) {
    && |a.table| == HASH_SIZE && a.ip + 12 < |text|
    && var h := HashAt(text, a.ip, beyond);
       if level == Two && Repeats(text, a.ip, 1, 3) then CopyRound(text, beyond, a.ip, 1, 3, a.table, r, b)
       else if a.table[h] < a.ip && WorthCopying(level, text, a.ip, a.ip - a.table[h]) then
         CopyRound(text, beyond, a.ip, a.ip - a.table[h], Least(level, a.ip - a.table[h]), a.table[h := a.ip], r, b)
       else r == Lit(a.ip) && b == Stage(a.ip + 1, a.table[h := a.ip])
  }

  ghost predicate CopyRound(text: seq<byte>, beyond: byte, ip: nat, d: nat, len: nat, table: seq<nat>, r: Round, b: Stage) {
    && |table| == HASH_SIZE && 2 <= ip + len <= b.ip < |text| && r == Copy(ip, b.ip - ip, d)
    && Repeats(text, ip, d, b.ip - ip) && Ended(text, ip, d, len, b.ip + 1)
    && b.table == table[HashAt(text, b.ip - 2, beyond) := b.ip - 2][HashAt(text, b.ip - 1, beyond) := b.ip - 1]
  }

  // The rounds of the main loop behind the two bytes every stream begins with.
  ghost predicate Ran(level: Level, text: seq<byte>, beyond: byte, trace: seq<Stage>, rounds: seq<Round>) {
    && trace != [] && |rounds| == |trace| + 1 && rounds[0] == Lit(0) && rounds[1] == Lit(1)
    && trace[0].ip == 2 && |trace[0].table| == HASH_SIZE && (forall i :: 0 <= i < HASH_SIZE ==> trace[0].table[i] == 0)
    && forall j :: 0 <= j < |trace| - 1 ==> LoopStep(level, text, beyond, trace[j], rounds[j + 2], trace[j + 1])
  }

  // The loop stops 12 bytes before the end, and the rest is written as it is.
  ghost predicate Greedy(level: Level, text: seq<byte>, beyond: byte, trace: seq<Stage>, rounds: seq<Round>) {
    && trace != [] && |trace| + 1 <= |rounds| && Ran(level, text, beyond, trace, rounds[..|trace| + 1])
    && var k, ip := |trace| + 1, trace[|trace| - 1].ip;
       |text| - 12 <= ip <= |text| && rounds[k..] == Lits(ip, |text|)
  }

  ghost function Lits(from: nat, to: nat): (r: seq<Round>)
    requires from <= to
  {
    seq(to - from, i requires 0 <= i < to - from => Lit(from + i))
  }

  // Literals go together in runs of up to 32: the tokens finished, and how many
  // literals are behind them.
  ghost function Grouped(level: Level, text: seq<byte>, rounds: seq<Round>): (seq<Token>, nat) {
    if rounds == [] then ([], 0)
    else
      var (ts, copy) := Grouped(level, text, rounds[..|rounds| - 1]);
      match rounds[|rounds| - 1]
      case Lit(at) => if copy + 1 < MAX_COPY then (ts, copy + 1) else (ts + [Run(text, at + 1, MAX_COPY)], 0)
      case Copy(at, len, dist) => (ts + (if copy > 0 then [Run(text, at, copy)] else []) + Pieces(level, len, dist), 0)
  }

  // The literals right before `at`.
  ghost function Run(text: seq<byte>, at: nat, n: nat): Token {
    if n <= at <= |text| then Literal(text[at - n..at]) else Literal([])
  }

  ghost function TokensOf(level: Level, text: seq<byte>, rounds: seq<Round>): seq<Token> {
    var (ts, copy) := Grouped(level, text, rounds);
    if copy > 0 then ts + [Run(text, |text|, copy)] else ts
  }

  lemma GroupedSnoc(level: Level, text: seq<byte>, rounds: seq<Round>, r: Round)
    ensures var (ts, copy) := Grouped(level, text, rounds);
            Grouped(level, text, rounds + [r]) ==
            match r
            case Lit(at) => if copy + 1 < MAX_COPY then (ts, copy + 1) else (ts + [Run(text, at + 1, MAX_COPY)], 0)
            case Copy(at, len, dist) => (ts + (if copy > 0 then [Run(text, at, copy)] else []) + Pieces(level, len, dist), 0)
  {
    assert (rounds + [r])[..|rounds|] == rounds;
  }

  lemma StartGrouped(level: Level, text: seq<byte>)
    ensures Grouped(level, text, [Lit(0), Lit(1)]) == ([], 2)
  {
    assert [Lit(0)] == [] + [Lit(0)] && [Lit(0), Lit(1)] == [Lit(0)] + [Lit(1)];
    GroupedSnoc(level, text, [], Lit(0));
    GroupedSnoc(level, text, [Lit(0)], Lit(1));
  }

  lemma RanOn(level: Level, text: seq<byte>, beyond: byte, trace: seq<Stage>, rounds: seq<Round>, r: Round, b: Stage)
    requires Ran(level, text, beyond, trace, rounds) && LoopStep(level, text, beyond, trace[|trace| - 1], r, b)
    ensures Ran(level, text, beyond, trace + [b], rounds + [r])
  {
    hide LoopStep;
  }

  // A round that copies.
  method CopyOne(level: Level, src: array<byte>, out: array<byte>, htab: array<nat>, op0: nat, ip: nat, distance: nat, len: nat, copy: nat,
                 ghost tokens0: seq<Token>, beyond: byte, ghost rounds: seq<Round>)
    returns (op: nat, next: nat, ghost tokens: seq<Token>)
    requires src != out && src.Length >= 4 && out.Length >= Room(src.Length) && ip < src.Length - 12 && 3 <= len <= 5
    requires htab.Length == HASH_SIZE && Earlier(htab[..], ip + 1) && copy < MAX_COPY
    requires Open(level, src[..], out[..], op0, ip, copy, tokens0) && Grouped(level, src[..], rounds) == (tokens0, copy)
    requires Repeats(src[..], ip, distance, len)
    requires level == One ==> distance < MAX_DISTANCE_ONE
    requires level == Two ==> distance < MAX_FARDISTANCE && (distance >= MAX_DISTANCE_TWO ==> len == 5)
    modifies out, htab
    ensures ip < next && Open(level, src[..], out[..], op, next, 0, tokens) && Earlier(htab[..], next)
    ensures CopyRound(src[..], beyond, ip, distance, len, old(htab[..]), Copy(ip, next - ip, distance), Stage(next, htab[..]))
    ensures Grouped(level, src[..], rounds + [Copy(ip, next - ip, distance)]) == (tokens, 0)
  {
    hide Open, Grouped, Pieces, Repeats, Ended, HashAt, Earlier;
    var end := ExtendMatch(src, ip, distance, len);
    next := end - 1;
    GroupedSnoc(level, src[..], rounds, Copy(ip, next - ip, distance));
    op, tokens := TakeMatch(level, src, out, op0, ip, end, distance, copy, tokens0);
    EarlierStill(htab[..], ip + 1, end - 3);
    UpdateTable(src, htab, end - 3, beyond);
    EndsInside(src[..], ip, distance, len, end);
  }

  lemma EarlierStill(htab: seq<nat>, limit: nat, limit': nat)
    requires Earlier(htab, limit) && limit <= limit'
    ensures Earlier(htab, limit')
  {}

  lemma EndsInside(text: seq<byte>, anchor: nat, distance: nat, len: nat, end: nat)
    requires |text| >= 2 && Ended(text, anchor, distance, len, end)
    ensures end <= |text|
  {}

  method MainLoop(level: Level, src: array<byte>, out: array<byte>, htab: array<nat>, beyond: byte)
    returns (op: nat, ip: nat, copy: nat, ghost tokens: seq<Token>, ghost trace: seq<Stage>, ghost rounds: seq<Round>)
    requires src != out && src.Length >= 4 && out.Length >= Room(src.Length)
    requires htab.Length == HASH_SIZE && forall i :: 0 <= i < HASH_SIZE ==> htab[i] == 0
    requires Open(level, src[..], out[..], 3, 2, 2, [])
    modifies out, htab
    ensures Open(level, src[..], out[..], op, ip, copy, tokens) && copy < MAX_COPY
    ensures Ran(level, src[..], beyond, trace, rounds) && ip == trace[|trace| - 1].ip >= src.Length - 12
    ensures Grouped(level, src[..], rounds) == (tokens, copy)
  {
    hide Open, LoopStep, Grouped, Repeats, Ran, HashAt, Earlier, CopyRound;
    op, ip, copy, tokens, trace, rounds := 3, 2, 2, [], [Stage(2, htab[..])], [Lit(0), Lit(1)];
    StartGrouped(level, src[..]);
    StartsRunning(level, src[..], beyond, htab[..]);
    while ip < src.Length - 12
      invariant 2 <= ip && copy < MAX_COPY && trace != [] && trace[|trace| - 1] == Stage(ip, htab[..])
      invariant Open(level, src[..], out[..], op, ip, copy, tokens)
      invariant Earlier(htab[..], ip) && Ran(level, src[..], beyond, trace, rounds)
      invariant Grouped(level, src[..], rounds) == (tokens, copy)
    {
      ghost var a, r := Stage(ip, htab[..]), Lit(ip);
      var found, distance, len := FindMatch(level, src, htab, ip, beyond);
      if found {
        ghost var table := htab[..];
        var next;
        op, next, tokens := CopyOne(level, src, out, htab, op, ip, distance, len, copy, tokens, beyond, rounds);
        Copied(level, src[..], beyond, a, distance, len, table, Stage(next, htab[..]));
        r := Copy(ip, next - ip, distance);
        ip, copy := next, 0;
      } else {
        NotCopied(level, src[..], beyond, a, distance);
        GroupedSnoc(level, src[..], rounds, r);
        op, copy, tokens := EmitLiteral(level, src, out, op, ip, copy, tokens);
        ip := ip + 1;
      }
      RanOn(level, src[..], beyond, trace, rounds, r, Stage(ip, htab[..]));
      trace, rounds := trace + [Stage(ip, htab[..])], rounds + [r];
    }
  }

  lemma StartsRunning(level: Level, text: seq<byte>, beyond: byte, htab: seq<nat>)
    requires |htab| == HASH_SIZE && forall i :: 0 <= i < HASH_SIZE ==> htab[i] == 0
    ensures Earlier(htab, 2) && Ran(level, text, beyond, [Stage(2, htab)], [Lit(0), Lit(1)])
  {}

  lemma Copied(level: Level, text: seq<byte>, beyond: byte, a: Stage, d: nat, len: nat, table: seq<nat>, b: Stage)
    requires a.ip + 12 < |text| && Earlier(a.table, a.ip) && a.ip <= b.ip && CopyRound(text, beyond, a.ip, d, len, table, Copy(a.ip, b.ip - a.ip, d), b)
    requires if level == Two && Repeats(text, a.ip, 1, 3) then d == 1 && len == 3 && table == a.table
             else
               var h := HashAt(text, a.ip, beyond);
               a.table[h] < a.ip && d == a.ip - a.table[h] && table == a.table[h := a.ip] && len == Least(level, d) && WorthCopying(level, text, a.ip, d)
    ensures LoopStep(level, text, beyond, a, Copy(a.ip, b.ip - a.ip, d), b)
  {
    hide HashAt, Repeats, WorthCopying, CopyRound;
  }

  lemma NotCopied(level: Level, text: seq<byte>, beyond: byte, a: Stage, d: nat)
    requires a.ip + 12 < |text| && Earlier(a.table, a.ip) && !(level == Two && Repeats(text, a.ip, 1, 3))
    requires a.table[HashAt(text, a.ip, beyond)] < a.ip && d == a.ip - a.table[HashAt(text, a.ip, beyond)] && !WorthCopying(level, text, a.ip, d)
    ensures LoopStep(level, text, beyond, a, Lit(a.ip), Stage(a.ip + 1, a.table[HashAt(text, a.ip, beyond) := a.ip]))
  {
    hide HashAt, Repeats, WorthCopying;
  }

  method LeftOver(level: Level, src: array<byte>, out: array<byte>, op0: nat, ip0: nat, copy0: nat, ghost tokens0: seq<Token>, ghost rounds0: seq<Round>)
    returns (op: nat, copy: nat, ghost tokens: seq<Token>, ghost rounds: seq<Round>)
    requires src != out && out.Length >= Room(src.Length)
    requires Open(level, src[..], out[..], op0, ip0, copy0, tokens0) && copy0 < MAX_COPY && ip0 <= src.Length
    requires Grouped(level, src[..], rounds0) == (tokens0, copy0)
    modifies out
    ensures Open(level, src[..], out[..], op, src.Length, copy, tokens) && copy < MAX_COPY
    ensures rounds == rounds0 + Lits(ip0, src.Length) && Grouped(level, src[..], rounds) == (tokens, copy)
  {
    hide Open, Grouped;
    var ip := ip0;
    op, copy, tokens, rounds := op0, copy0, tokens0, rounds0;
    while ip < src.Length
      invariant ip0 <= ip <= src.Length && copy < MAX_COPY
      invariant Open(level, src[..], out[..], op, ip, copy, tokens)
      invariant rounds == rounds0 + Lits(ip0, ip) && Grouped(level, src[..], rounds) == (tokens, copy)
    {
      GroupedSnoc(level, src[..], rounds, Lit(ip));
      assert Lits(ip0, ip + 1) == Lits(ip0, ip) + [Lit(ip)];
      rounds := rounds + [Lit(ip)];
      op, copy, tokens := EmitLiteral(level, src, out, op, ip, copy, tokens);
      ip := ip + 1;
    }
  }

  method CompressLong(level: Level, src: array<byte>, out: array<byte>, beyond: byte)
    returns (r: nat, ghost tokens: seq<Token>, ghost trace: seq<Stage>, ghost rounds: seq<Round>)
    requires src != out && src.Length >= 4 && out.Length >= Room(src.Length)
    modifies out
    ensures r <= out.Length && Image(level, out[..r], src[..], tokens) && tokens != []
    ensures r <= src.Length + (src.Length + 31) / 32
    ensures Greedy(level, src[..], beyond, trace, rounds) && tokens == TokensOf(level, src[..], rounds)
  {
    var htab := new nat[HASH_SIZE];
    for i := 0 to HASH_SIZE
      invariant forall k :: 0 <= k < i ==> htab[k] == 0
    {
      htab[i] := 0;
    }
    StartStream(level, src, out);
    hide Ran, Grouped;
    var op, ip, copy;
    op, ip, copy, tokens, trace, rounds := MainLoop(level, src, out, htab, beyond);
    hide Open, Closed;
    RanLong(level, src[..], beyond, trace, rounds);
    OpenReaches(level, src[..], out[..], op, ip, copy, tokens);
    ghost var main := rounds;
    op, copy, tokens, rounds := LeftOver(level, src, out, op, ip, copy, tokens, rounds);
    assert rounds[..|trace| + 1] == main && rounds[|trace| + 1..] == Lits(ip, src.Length);
    assert src[..][..src.Length] == src[..];
    r, tokens := FinishLong(level, src, out, op, copy, tokens);
  }

  lemma RanLong(level: Level, text: seq<byte>, beyond: byte, trace: seq<Stage>, rounds: seq<Round>)
    requires Ran(level, text, beyond, trace, rounds)
    ensures trace != [] && |rounds| == |trace| + 1
  {}

  method FinishLong(level: Level, src: array<byte>, out: array<byte>, op0: nat, copy: nat, ghost tokens0: seq<Token>)
    returns (op: nat, ghost tokens: seq<Token>)
    requires Open(level, src[..], out[..], op0, src.Length, copy, tokens0) && src != out
    modifies out
    ensures op <= out.Length && Image(level, out[..op], src[..], tokens) && tokens != []
    ensures op <= src.Length + (src.Length + 31) / 32
    ensures copy <= src.Length && tokens == tokens0 + if copy > 0 then [Literal(src[src.Length - copy..])] else []
  {
    OpenReaches(level, src[..], out[..], op0, src.Length, copy, tokens0);
    assert src[..][..src.Length] == src[..];
    op, tokens := FinishRun(level, src[..], out, op0, src.Length, copy, tokens0);
  }

  // What an input of at least four bytes is written as.
  ghost predicate Chosen(level: Level, text: seq<byte>, beyond: byte, tokens: seq<Token>) {
    exists trace, rounds :: Greedy(level, text, beyond, trace, rounds) && tokens == TokensOf(level, text, rounds)
  }

  // ---------- a text of equal bytes ----------

  predicate AllAlike(text: seq<byte>) {
    forall i :: 0 <= i < |text| ==> text[i] == text[0]
  }

  lemma AlikeRepeats(text: seq<byte>, at: nat, d: nat, len: nat)
    requires AllAlike(text) && 1 <= d <= at && at + len <= |text|
    ensures Repeats(text, at, d, len)
  {
    forall k | at <= k < at + len ensures text[k] == text[k - d] {
      assert text[k] == text[0] && text[k - d] == text[0];
    }
  }

  // The first round copies nearly all of it.
  lemma AlikeStep(level: Level, text: seq<byte>, beyond: byte, a: Stage, r: Round, b: Stage)
    requires AllAlike(text) && |text| >= 16 && LoopStep(level, text, beyond, a, r, b)
    requires a.ip == 2 && |a.table| == HASH_SIZE && forall i :: 0 <= i < HASH_SIZE ==> a.table[i] == 0
    ensures r == Copy(2, |text| - 5, if level == One then 2 else 1) && b.ip == |text| - 3
  {
    hide HashAt, Repeats;
    var d := if level == One then 2 else 1;
    AlikeRepeats(text, 2, d, 3);
    assert d < MAX_DISTANCE_TWO;
  }

  // So a text of equal bytes is two literals, one copy and three literals.
  lemma AlikeTokens(level: Level, text: seq<byte>, beyond: byte, tokens: seq<Token>)
    requires AllAlike(text) && |text| >= 16 && Chosen(level, text, beyond, tokens)
    ensures tokens == [Literal(text[0..2])] + Pieces(level, |text| - 5, if level == One then 2 else 1) + [Literal(text[|text| - 3..])]
  {
    var trace, rounds :| Greedy(level, text, beyond, trace, rounds) && tokens == TokensOf(level, text, rounds);
    var n, d := |text|, if level == One then 2 else 1;
    AlikeRounds(level, text, beyond, trace, rounds);
    hide Greedy, Grouped, Pieces;
    var main := [Lit(0), Lit(1), Copy(2, n - 5, d)];
    StartGrouped(level, text);
    GroupedSnoc(level, text, [Lit(0), Lit(1)], Copy(2, n - 5, d));
    assert [Lit(0), Lit(1)] + [Copy(2, n - 5, d)] == main;
    assert main + [Lit(n - 3)] + [Lit(n - 2)] + [Lit(n - 1)] == rounds;
    GroupedSnoc(level, text, main, Lit(n - 3));
    GroupedSnoc(level, text, main + [Lit(n - 3)], Lit(n - 2));
    GroupedSnoc(level, text, main + [Lit(n - 3)] + [Lit(n - 2)], Lit(n - 1));
    assert [] + [Literal(text[0..2])] == [Literal(text[0..2])];
    assert text[n - 3..n] == text[n - 3..];
  }

  lemma AlikeStops(level: Level, text: seq<byte>, beyond: byte, trace: seq<Stage>, rounds: seq<Round>)
    requires |trace| > 1 && |rounds| == |trace| + 1 && trace[1].ip + 12 >= |text|
    requires |trace| > 2 ==> LoopStep(level, text, beyond, trace[1], rounds[3], trace[2])
    ensures |trace| == 2
  {}

  // Three or four bytes a piece at level 1, a byte for every 255 at level 2.
  lemma {:induction false} PiecesSize(level: Level, len: nat, dist: nat)
    requires len >= 3 && 1 <= dist <= 2
    ensures AllEncodable(level, Pieces(level, len, dist))
    ensures |WireAll(level, Pieces(level, len, dist))| <= if level == One then 3 * ((len - 3) / 262 + 1) else 3 + len / 255
  {
    if level == One && len > MAX_LEN {
      PiecesSize(level, len - 262, dist);
      var rest := Pieces(level, len - 262, dist);
      assert Pieces(level, len, dist)[0] == Match(262, dist) && Pieces(level, len, dist)[1..] == rest;
      WireAllUnfold(level, Pieces(level, len, dist));
      assert (len - 3) / 262 == (len - 262 - 3) / 262 + 1;
    } else {
      var ts := [Match(len, dist)];
      assert Pieces(level, len, dist) == ts && ts[1..] == [];
      WireAllUnfold(level, ts);
    }
  }

  lemma AlikeSize(level: Level, text: seq<byte>, beyond: byte, tokens: seq<Token>)
    requires AllAlike(text) && |text| >= 16 && Chosen(level, text, beyond, tokens) && AllEncodable(level, tokens)
    ensures |WireAll(level, tokens)| <= if level == One then 10 + 3 * ((|text| - 8) / 262) else 10 + (|text| - 5) / 255
  {
    AlikeTokens(level, text, beyond, tokens);
    var n := |text|;
    var front, ps, back := [Literal(text[0..2])], Pieces(level, n - 5, if level == One then 2 else 1), [Literal(text[n - 3..])];
    PiecesSize(level, n - 5, if level == One then 2 else 1);
    assert AllEncodable(level, front) && AllEncodable(level, back);
    WireAllAppend(level, front, ps);
    WireAllAppend(level, front + ps, back);
    WireAllUnfold(level, front);
    WireAllUnfold(level, back);
    assert front[1..] == [] && back[1..] == [];
  }

  lemma AlikeRounds(level: Level, text: seq<byte>, beyond: byte, trace: seq<Stage>, rounds: seq<Round>)
    requires AllAlike(text) && |text| >= 16 && Greedy(level, text, beyond, trace, rounds)
    ensures rounds == [Lit(0), Lit(1), Copy(2, |text| - 5, if level == One then 2 else 1), Lit(|text| - 3), Lit(|text| - 2), Lit(|text| - 1)]
  {
    hide LoopStep, AllAlike;
    var n, main := |text|, rounds[..|trace| + 1];
    assert |trace| > 1;
    assert LoopStep(level, text, beyond, trace[0], main[2], trace[1]);
    AlikeStep(level, text, beyond, trace[0], main[2], trace[1]);
    assert |trace| > 2 ==> LoopStep(level, text, beyond, trace[1], main[3], trace[2]);
    AlikeStops(level, text, beyond, trace, main);
    assert rounds == main + Lits(n - 3, n);
    assert Lits(n - 3, n) == [Lit(n - 3), Lit(n - 2), Lit(n - 1)];
  }

  // -1 when the hash table cannot be allocated. A buffer of Room(n) bytes is
  // enough for n input bytes, and n + ceil(n / 32) of them are used at most.
  method CompressBlock(level: Level, src: array<byte>, out: array<byte>, tableAllocated: bool, beyond: byte)
    returns (r: int, ghost tokens: seq<Token>)
    requires src != out && out.Length >= Room(src.Length)
    modifies out
    ensures !tableAllocated ==> r == -1
    ensures tableAllocated ==> 0 <= r <= src.Length + (src.Length + 31) / 32 && r <= out.Length
    ensures tableAllocated && src.Length > 0 ==> Compressed(level, src[..], out[..r], tokens)
    ensures tableAllocated && src.Length == 0 ==> r == 0
    ensures tableAllocated && src.Length >= 4 ==> Chosen(level, src[..], beyond, tokens)
    // sixteen or more equal bytes shrink to ten and a few for every 255 or so
    ensures tableAllocated && src.Length >= 16 && (forall i :: 0 <= i < src.Length ==> src[i] == src[0]) ==>
              r <= if level == One then 10 + 3 * ((src.Length - 8) / 262) else 10 + (src.Length - 5) / 255
  {
    hide Chosen, AllAlike, Compressed;
    tokens := [];
    if !tableAllocated {
      return -1, [];
    }
    if src.Length < 4 {
      if src.Length == 0 {
        return 0, [];
      }
      r, tokens := CompressShort(level, src, out);
      return;
    }
    r, tokens := CompressMarked(level, src, out, beyond);
    AlikeArray(src);
    if src.Length >= 16 && AllAlike(src[..]) {
      CompressedSize(level, src[..], out[..r], tokens);
      AlikeSize(level, src[..], beyond, tokens);
    }
  }

  lemma CompressedSize(level: Level, text: seq<byte>, bytes: seq<byte>, tokens: seq<Token>)
    requires Compressed(level, text, bytes, tokens)
    ensures AllEncodable(level, tokens) && |bytes| == |WireAll(level, tokens)|
  {}

  // An input of at least four bytes, with the level in the first byte written.
  method CompressMarked(level: Level, src: array<byte>, out: array<byte>, beyond: byte) returns (r: nat, ghost tokens: seq<Token>)
    requires src != out && src.Length >= 4 && out.Length >= Room(src.Length)
    modifies out
    ensures r <= src.Length + (src.Length + 31) / 32 && r <= out.Length
    ensures Compressed(level, src[..], out[..r], tokens) && Chosen(level, src[..], beyond, tokens)
  {
    hide Greedy, TokensOf;
    ghost var trace, rounds;
    r, tokens, trace, rounds := CompressLong(level, src, out, beyond);
    ghost var w := out[..r];
    WireAllUnfold(level, tokens);
    if level == Two {
      out[0] := out[0] + 32;  // |= 1 << 5
      assert out[..r] == w[0 := w[0] + 32];
    }
  }

  lemma AlikeArray(src: array<byte>)
    ensures AllAlike(src[..]) <==> forall i :: 0 <= i < src.Length ==> src[i] == src[0]
  {}
}
