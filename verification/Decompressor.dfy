/** FASTLZ_DECOMPRESSOR for both levels, and the dispatch on the level bits.
    The block is the first `length` bytes of `src`; what follows is whatever
    memory holds there, since the last token may be cut short. */
module Decompressor {
  import opened Bytes
  import opened Lz77
  import opened Wire

  // What the output s becomes when the rest of the block is played on it.
  ghost function Rest(level: Level, mem: seq<byte>, length: nat, ctrl: byte, ip: nat, s: seq<byte>): Option<seq<byte>>
    requires length <= |mem|
  {
    match ParseAll(level, mem, length, ctrl, ip)
    case None => None
    case Some(tokens) => Play(s, tokens)
  }

  // The output of a block that decodes within the limit; 0 bytes otherwise.
  ghost function Outcome(o: Option<seq<byte>>, maxout: nat): seq<byte> {
    if o.Some? && |o.value| <= maxout then o.value else []
  }

  lemma RestBad(level: Level, mem: seq<byte>, length: nat, ctrl: byte, ip: nat, s: seq<byte>)
    requires length <= |mem|
    requires ParseToken(level, mem, length, ctrl, ip) == Bad
    ensures Rest(level, mem, length, ctrl, ip, s) == None
  {}

  // Playing the rest is playing its first token and then the rest of that.
  lemma RestStep(level: Level, mem: seq<byte>, length: nat, ctrl: byte, ip: nat, s: seq<byte>, t: Token, next: nat)
    requires length <= |mem|
    requires ParseToken(level, mem, length, ctrl, ip) == Parsed(t, next)
    ensures Step(s, t) == None ==> Rest(level, mem, length, ctrl, ip, s) == None
    ensures Step(s, t).Some? && next >= length ==> Rest(level, mem, length, ctrl, ip, s) == Step(s, t)
    ensures Step(s, t).Some? && next < length ==>
              Rest(level, mem, length, ctrl, ip, s) == Rest(level, mem, length, mem[next], next + 1, Step(s, t).value)
  {
    if next < length {
      var r := ParseAll(level, mem, length, mem[next], next + 1);
      if r.Some? {
        assert ([t] + r.value)[1..] == r.value;
        assert ParseAll(level, mem, length, ctrl, ip) == Some([t] + r.value);
      }
    } else {
      assert [t][1..] == [] && [t][0] == t;
      assert forall s' :: Play(s', []) == Some(s');
      assert ParseAll(level, mem, length, ctrl, ip) == Some([t]);
    }
  }

  lemma RestGrows(level: Level, mem: seq<byte>, length: nat, ctrl: byte, ip: nat, s: seq<byte>)
    requires length <= |mem|
    requires Rest(level, mem, length, ctrl, ip, s).Some?
    ensures |s| <= |Rest(level, mem, length, ctrl, ip, s).value|
  {
    PlayGrows(s, ParseAll(level, mem, length, ctrl, ip).value);
  }

  // A token that overruns the limit dooms the block, whatever follows.
  lemma RestOverruns(level: Level, mem: seq<byte>, length: nat, ctrl: byte, ip: nat, s: seq<byte>, t: Token, next: nat, maxout: nat)
    requires length <= |mem|
    requires ParseToken(level, mem, length, ctrl, ip) == Parsed(t, next)
    requires Step(s, t).Some? ==> |Step(s, t).value| > maxout
    ensures Outcome(Rest(level, mem, length, ctrl, ip, s), maxout) == []
  {
    RestStep(level, mem, length, ctrl, ip, s, t, next);
    if Step(s, t).Some? && next < length && Rest(level, mem, length, ctrl, ip, s).Some? {
      RestGrows(level, mem, length, mem[next], next + 1, Step(s, t).value);
    }
  }

  method ReadByte(src: array<byte>, ip: nat) returns (b: byte)
    ensures b == Fetch(src[..], ip)
  {
    b := if ip < src.Length then src[ip] else 0;
  }

  method ReadLengths(src: array<byte>, start: nat) returns (len: nat, ip: nat)
    ensures (len, ip) == ReadChain(src[..], start)
  {
    len, ip := 0, start;
    var code: byte := 255;
    while code == 255
      invariant start <= ip
      invariant code == 255 ==> ReadChain(src[..], start) == (len + ReadChain(src[..], ip).0, ReadChain(src[..], ip).1)
      invariant code != 255 ==> ReadChain(src[..], start) == (len, ip)
      decreases code == 255, src.Length - ip
    {
      code := ReadByte(src, ip);
      ip := ip + 1;
      len := len + code;
    }
  }

  // Length and source of a match whose control byte has been read. As in C,
  // len counts the bytes beyond three and ref is one past the first source byte.
  method ReadMatch(level: Level, src: array<byte>, length: nat, ctrl: byte, start: nat, op: nat)
    returns (len: nat, ref: int, ip: nat)
    requires length <= src.Length && ctrl >= 32
    ensures op - ref >= 0
    ensures ParseToken(level, src[..], length, ctrl, start) == Parsed(Match(len + 3, op - ref + 1), ip)
  {
    ip := start;
    len := ctrl / 32;
    var ofs := (ctrl % 32) * 256;
    len := len - 1;
    ref := op - ofs;
    var code: byte;
    if level == One {
      if len == 7 - 1 {
        code := ReadByte(src, ip);
        len, ip := len + code, ip + 1;
      }
      code := ReadByte(src, ip);
      ref, ip := ref - code, ip + 1;
    } else {
      if len == 7 - 1 {
        var extra;
        extra, ip := ReadLengths(src, ip);
        len := len + extra;
      }
      code := ReadByte(src, ip);
      ip := ip + 1;
      ref := ref - code;
      if code == 255 && ofs == 31 * 256 {
        code := ReadByte(src, ip);
        ofs := code * 256;
        code := ReadByte(src, ip + 1);
        ofs, ip := ofs + code, ip + 2;
        ref := op - ofs - NEAR_LIMIT;
      }
    }
  }

  // One more byte copied from `dist` back.
  lemma CopyOne(s: seq<byte>, dist: nat, left: nat, s': seq<byte>)
    requires 1 <= dist <= |s| && left > 0
    requires s' == s + [s[|s| - dist]]
    ensures CopyBack(s, dist, left) == CopyBack(s', dist, left - 1)
  {}

  // *op++ = b.
  method PutNext(out: array<byte>, op: nat, b: byte)
    requires op < out.Length
    modifies out
    ensures out[..op + 1] == old(out[..op]) + [b]
    ensures forall i :: op < i < out.Length ==> out[i] == old(out[i])
  {
    out[op] := b;
    assert out[..op + 1] == out[..op] + [b];
  }

  lemma CopyNone(s: seq<byte>, dist: nat)
    requires 1 <= dist <= |s|
    ensures CopyBack(s, dist, 0) == s
  {}

  // The run case: one byte repeated.
  method CopyRun(out: array<byte>, op0: nat, len: nat) returns (op: nat)
    requires 1 <= op0 && op0 + len + 3 <= out.Length
    modifies out
    ensures op == op0 + len + 3
    ensures out[..op] == CopyBack(old(out[..op0]), 1, len + 3)
    ensures forall i :: op <= i < out.Length ==> out[i] == old(out[i])
  {
    hide CopyBack;
    op := op0;
    ghost var whole := CopyBack(out[..op0], 1, len + 3);
    var b := out[op0 - 1];
    while op < op0 + len + 3
      invariant op0 <= op <= op0 + len + 3
      invariant out[op - 1] == b
      invariant CopyBack(out[..op], 1, op0 + len + 3 - op) == whole
      invariant forall i :: op0 + len + 3 <= i < out.Length ==> out[i] == old(out[i])
    {
      ghost var before := out[..op];
      PutNext(out, op, b);
      op := op + 1;
      CopyOne(before, 1, op0 + len + 4 - op, out[..op]);
    }
    CopyNone(out[..op], 1);
  }

  method CopyFrom(out: array<byte>, ref: nat, op0: nat, len: nat) returns (op: nat)
    requires 1 <= ref < op0 && op0 + len + 3 <= out.Length
    modifies out
    ensures op == op0 + len + 3
    ensures out[..op] == CopyBack(old(out[..op0]), op0 - ref + 1, len + 3)
    ensures forall i :: op <= i < out.Length ==> out[i] == old(out[i])
  {
    hide CopyBack;
    op := op0;
    ghost var dist := op0 - ref + 1;
    ghost var whole := CopyBack(out[..op0], dist, len + 3);
    var from := ref - 1;
    while op < op0 + len + 3
      invariant op0 <= op <= op0 + len + 3
      invariant from == op - dist
      invariant CopyBack(out[..op], dist, op0 + len + 3 - op) == whole
      invariant forall i :: op0 + len + 3 <= i < out.Length ==> out[i] == old(out[i])
    {
      ghost var before := out[..op];
      PutNext(out, op, out[from]);
      op, from := op + 1, from + 1;
      CopyOne(before, dist, op0 + len + 4 - op, out[..op]);
    }
    CopyNone(out[..op], dist);
  }

  method CopyMatch(out: array<byte>, ref: nat, op0: nat, len: nat) returns (op: nat)
    requires 1 <= ref <= op0 && op0 + len + 3 <= out.Length
    modifies out
    ensures op == op0 + len + 3
    ensures out[..op] == CopyBack(old(out[..op0]), op0 - ref + 1, len + 3)
    ensures forall i :: op <= i < out.Length ==> out[i] == old(out[i])
  {
    if ref == op0 {
      op := CopyRun(out, op0, len);
    } else {
      op := CopyFrom(out, ref, op0, len);
    }
  }

  method CopyLiteral(src: array<byte>, out: array<byte>, ip0: nat, op0: nat, n: nat) returns (ip: nat, op: nat)
    requires src != out && ip0 + n <= src.Length && op0 + n <= out.Length
    modifies out
    ensures ip == ip0 + n && op == op0 + n
    ensures out[..op] == old(out[..op0]) + src[ip0..ip]
    ensures forall i :: op <= i < out.Length ==> out[i] == old(out[i])
  {
    ip, op := ip0, op0;
    while ip < ip0 + n
      invariant ip0 <= ip <= ip0 + n && op - op0 == ip - ip0
      invariant out[..op] == old(out[..op0]) + src[ip0..ip]
      invariant forall i :: op <= i < out.Length ==> out[i] == old(out[i])
    {
      out[op] := src[ip];
      ip, op := ip + 1, op + 1;
      assert src[ip0..ip] == src[ip0..ip - 1] + [src[ip - 1]];
    }
  }

  // What handling one token must establish: on failure the block is hopeless,
  // otherwise what was left before is what is left after.
  ghost predicate Handled(level: Level, mem: seq<byte>, length: nat, maxout: nat,
                          ctrl0: byte, ip0: nat, s0: seq<byte>,
                          ok: bool, loop: bool, ctrl: byte, ip: nat, s: seq<byte>)
    requires length <= |mem|
  {
    var before := Rest(level, mem, length, ctrl0, ip0, s0);
    if !ok then Outcome(before, maxout) == []
    else
      && |s0| < |s| <= maxout
      && (loop ==> ip0 < ip <= length && before == Rest(level, mem, length, ctrl, ip, s))
      && (!loop ==> before == Some(s))
  }

  method MatchToken(level: Level, src: array<byte>, length: nat, out: array<byte>, maxout: nat, ctrl0: byte, ip0: nat, op0: nat)
    returns (ok: bool, loop: bool, ctrl: byte, ip: nat, op: nat)
    requires src != out && length <= src.Length && op0 <= maxout <= out.Length && ctrl0 >= 32
    modifies out
    ensures op <= out.Length
    ensures Handled(level, src[..], length, maxout, ctrl0, ip0, old(out[..op0]), ok, loop, ctrl, ip, out[..op])
    ensures forall i :: maxout <= i < out.Length ==> out[i] == old(out[i])
  {
    hide Rest, ParseToken, CopyBack, Outcome;
    ghost var mem, s := src[..], out[..op0];
    ok, loop, ctrl, op := true, true, ctrl0, op0;
    var len, ref;
    len, ref, ip := ReadMatch(level, src, length, ctrl0, ip0, op);
    ghost var t := Match(len + 3, op - ref + 1);
    if op + len + 3 > maxout || ref - 1 < 0 {
      RestOverruns(level, mem, length, ctrl0, ip0, s, t, ip, maxout);
      ok := false;
      return;
    }
    RestStep(level, mem, length, ctrl0, ip0, s, t, ip);
    if ip < length {
      ctrl, ip := src[ip], ip + 1;
    } else {
      loop := false;
    }
    op := CopyMatch(out, ref, op, len);
  }

  method LiteralToken(level: Level, src: array<byte>, length: nat, out: array<byte>, maxout: nat, ctrl0: byte, ip0: nat, op0: nat)
    returns (ok: bool, loop: bool, ctrl: byte, ip: nat, op: nat)
    requires src != out && length <= src.Length && op0 <= maxout <= out.Length && ctrl0 < 32
    modifies out
    ensures op <= out.Length
    ensures Handled(level, src[..], length, maxout, ctrl0, ip0, old(out[..op0]), ok, loop, ctrl, ip, out[..op])
    ensures forall i :: maxout <= i < out.Length ==> out[i] == old(out[i])
  {
    hide Rest, CopyBack;
    ghost var mem, s := src[..], out[..op0];
    ok, loop, ctrl, ip, op := true, true, ctrl0, ip0, op0;
    var n := ctrl0 + 1;
    if ip + n > length {
      // the code tests the output limit first, to the same effect
      RestBad(level, mem, length, ctrl0, ip0, s);
      ok := false;
      return;
    }
    ghost var t := Literal(mem[ip..ip + n]);
    if op + n > maxout {
      RestOverruns(level, mem, length, ctrl0, ip0, s, t, ip + n, maxout);
      ok := false;
      return;
    }
    RestStep(level, mem, length, ctrl0, ip0, s, t, ip + n);
    ip, op := CopyLiteral(src, out, ip, op, n);
    loop := ip < length;
    if loop {
      ctrl, ip := src[ip], ip + 1;
    }
  }

  // On every input: stops, writes nothing at or past maxout, and returns the
  // length of exactly what the block decodes to, or 0 if it does not decode or
  // does not fit.
  method DecompressBlock(level: Level, src: array<byte>, length: nat, out: array<byte>, maxout: nat) returns (r: nat)
    requires src != out && length <= src.Length && maxout <= out.Length
    modifies out
    ensures r == |Outcome(Decoded(level, src[..], length), maxout)| <= maxout
    ensures r > 0 ==> Decoded(level, src[..], length) == Some(out[..r])
    ensures forall i :: maxout <= i < out.Length ==> out[i] == old(out[i])
  {
    ghost var goal := Decoded(level, src[..], length);
    var ip: nat, op: nat := 0, 0;
    var ctrl := ReadByte(src, ip);
    ctrl, ip := ctrl % 32, ip + 1;
    var loop := true;
    while loop
      invariant op <= maxout
      invariant loop ==> goal == Rest(level, src[..], length, ctrl, ip, out[..op])
      invariant !loop ==> goal == Some(out[..op]) && op > 0
      invariant forall i :: maxout <= i < out.Length ==> out[i] == old(out[i])
      decreases loop, length - ip
    {
      var ok;
      if ctrl >= 32 {
        ok, loop, ctrl, ip, op := MatchToken(level, src, length, out, maxout, ctrl, ip, op);
      } else {
        ok, loop, ctrl, ip, op := LiteralToken(level, src, length, out, maxout, ctrl, ip, op);
      }
      if !ok {
        return 0;
      }
    }
    r := op;
  }

  // fastlz_decompress: the top three bits of the block say which level wrote it.
  ghost function Meaning(mem: seq<byte>, length: nat): Option<seq<byte>>
    requires length <= |mem|
  {
    var level := Fetch(mem, 0) / 32 + 1;
    if level == 1 then Decoded(One, mem, length)
    else if level == 2 then Decoded(Two, mem, length)
    else None
  }

  method Decompress(src: array<byte>, length: nat, out: array<byte>, maxout: nat) returns (r: nat)
    requires src != out && length <= src.Length && maxout <= out.Length
    modifies out
    ensures r == |Outcome(Meaning(src[..], length), maxout)| <= maxout
    ensures r > 0 ==> Meaning(src[..], length) == Some(out[..r])
    ensures forall i :: maxout <= i < out.Length ==> out[i] == old(out[i])
  {
    var first := ReadByte(src, 0);
    var level := first / 32 + 1;
    if level == 1 {
      r := DecompressBlock(One, src, length, out, maxout);
    } else if level == 2 {
      r := DecompressBlock(Two, src, length, out, maxout);
    } else {
      r := 0;
    }
  }
}
