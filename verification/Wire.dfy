/** The byte format of both compression levels: how a token is written, and a
    parser that reads tokens back without producing any output. */
module Wire {
  import opened Bytes
  import opened Lz77

  datatype Level = One | Two

  const MAX_COPY := 32
  const MAX_LEN := 264
  const NEAR_LIMIT := 8191  // level 2 writes biased distances from here on in the far form

  function Chain(n: nat): (r: seq<byte>)
    ensures |r| == n / 255 + 1
  {
    if n < 255 then [n] else [255] + Chain(n - 255)
  }

  // The tokens each level can express. Lengths and distances are the real
  // ones; the format stores length - 2 and distance - 1.
  predicate Encodable(level: Level, t: Token) {
    match t
    case Literal(b) => 1 <= |b| <= MAX_COPY
    case Match(len, dist) =>
      && 3 <= len && 1 <= dist
      && (level == One ==> len <= MAX_LEN && dist <= 8192)
      && (level == Two ==> dist - 1 <= NEAR_LIMIT + 65535)
  }

  predicate AllEncodable(level: Level, tokens: seq<Token>) {
    forall i :: 0 <= i < |tokens| ==> Encodable(level, tokens[i])
  }

  function WireMatch(level: Level, l: nat, d: nat): (r: seq<byte>)
    requires Encodable(level, Match(l + 2, d + 1))
    ensures |r| >= 2 && r[0] >= 32
  {
    match level
    case One =>
      if l < 7 then [l * 32 + d / 256, d % 256]
      else [224 + d / 256, l - 7, d % 256]
    case Two =>
      if d < NEAR_LIMIT then
        if l < 7 then [l * 32 + d / 256, d % 256]
        else [224 + d / 256] + Chain(l - 7) + [d % 256]
      else
        var e := d - NEAR_LIMIT;
        if l < 7 then [l * 32 + 31, 255, e / 256, e % 256]
        else [224 + 31] + Chain(l - 7) + [255, e / 256, e % 256]
  }

  // The bytes of a match of biased length l and biased distance d. Short ones take a
  // byte of three bits of length and five of distance, and one of distance; longer
  // ones have the length behind, in one byte at level 1 and in a chain at level 2; far
  // ones, at level 2, have 31 and 255 where a near distance stands, and 16 bits more.
  lemma MatchFormat(level: Level, l: nat, d: nat)
    requires Encodable(level, Match(l + 2, d + 1))
    ensures var w := WireMatch(level, l, d);
            && w[0] / 32 == (if l < 7 then l else 7)
            && w[0] % 32 == (if level == Two && d >= 8191 then 31 else d / 256)
            && (level == One || d < 8191 ==> w[|w| - 1] == d % 256)
            && (level == Two && d >= 8191 ==> |w| >= 4 && w[|w| - 3] == 255 && (w[|w| - 2] as nat) * 256 + w[|w| - 1] == d - 8191)
            && |w| == 2 + (if l < 7 then 0 else if level == One then 1 else (l - 7) / 255 + 1) + (if level == Two && d >= 8191 then 2 else 0)
            && (l >= 7 && level == One ==> w[1] == l - 7) && (l >= 7 && level == Two ==> w[1..1 + |Chain(l - 7)|] == Chain(l - 7))
  {}

  // 255 as often as it goes, and then what is left.
  lemma {:induction false} ChainFormat(n: nat, i: nat)
    requires i <= n / 255
    ensures Chain(n)[i] == if i < n / 255 then 255 else n % 255
  {
    if i > 0 {
      ChainFormat(n - 255, i - 1);
    }
  }

  function WireToken(level: Level, t: Token): (r: seq<byte>)
    requires Encodable(level, t)
    ensures |r| >= 2
  {
    match t
    case Literal(b) => [|b| - 1] + b
    case Match(len, dist) => WireMatch(level, len - 2, dist - 1)
  }

  function WireAll(level: Level, tokens: seq<Token>): seq<byte>
    requires AllEncodable(level, tokens)
  {
    if tokens == [] then [] else WireToken(level, tokens[0]) + WireAll(level, tokens[1..])
  }

  lemma {:induction false} WireAllUnfold(level: Level, tokens: seq<Token>)
    requires AllEncodable(level, tokens) && tokens != []
    ensures WireAll(level, tokens) == WireToken(level, tokens[0]) + WireAll(level, tokens[1..])
  {}

  lemma AllParts(level: Level, a: seq<Token>, b: seq<Token>)
    requires AllEncodable(level, a) && AllEncodable(level, b)
    ensures AllEncodable(level, a + b)
    ensures a != [] ==> Encodable(level, a[0]) && AllEncodable(level, a[1..])
  {
    hide Encodable;
  }

  lemma {:induction false} WireAllAppend(level: Level, a: seq<Token>, b: seq<Token>)
    requires AllEncodable(level, a) && AllEncodable(level, b)
    ensures AllEncodable(level, a + b)
    ensures WireAll(level, a + b) == WireAll(level, a) + WireAll(level, b)
    decreases a
  {
    hide WireToken, WireAll, AllEncodable, Encodable;
    AllParts(level, a, b);
    if a == [] {
      assert a + b == b;
      WireAllNone(level, a);
    } else {
      WireAllAppend(level, a[1..], b);
      assert (a + b)[0] == a[0] && (a + b)[1..] == a[1..] + b;
      WireAllUnfold(level, a + b);
      WireAllUnfold(level, a);
      Regroup(WireToken(level, a[0]), WireAll(level, a[1..]), WireAll(level, b));
    }
  }

  lemma WireAllNone(level: Level, a: seq<Token>)
    requires AllEncodable(level, a) && a == []
    ensures WireAll(level, a) == []
  {}

  lemma Regroup<T>(a: seq<T>, b: seq<T>, c: seq<T>)
    ensures a + (b + c) == (a + b) + c
  {}

  // ---------- reading tokens ----------

  datatype Parsed = Bad | Parsed(token: Token, next: nat)

  // Sum of a run of length bytes that ends at the first byte other than 255, and
  // the index after that byte.
  function ReadChain(mem: seq<byte>, ip: nat): (r: (nat, nat))
    ensures ip < r.1
    decreases |mem| - ip
  {
    var code := Fetch(mem, ip);
    if code == 255 then
      var (n, next) := ReadChain(mem, ip + 1);
      (n + 255, next)
    else (code, ip + 1)
  }

  // One token whose control byte has been read; ip is the index after it.
  function ParseToken(level: Level, mem: seq<byte>, length: nat, ctrl: byte, ip: nat): (r: Parsed)
    requires length <= |mem|
    ensures r.Parsed? ==> ip < r.next
  {
    if ctrl < 32 then
      if ip + ctrl + 1 > length then Bad
      else Parsed(Literal(mem[ip..ip + ctrl + 1]), ip + ctrl + 1)
    else
      var l, ofs := ctrl / 32, (ctrl % 32) * 256;
      match level
      case One =>
        if l == 7 then Parsed(Match(l + Fetch(mem, ip) + 2, ofs + Fetch(mem, ip + 1) + 1), ip + 2)
        else Parsed(Match(l + 2, ofs + Fetch(mem, ip) + 1), ip + 1)
      case Two =>
        var (extra, ip1) := if l == 7 then ReadChain(mem, ip) else (0, ip);
        var code := Fetch(mem, ip1);
        if code == 255 && ofs == 31 * 256 then
          var far := Fetch(mem, ip1 + 1) * 256 + Fetch(mem, ip1 + 2);
          Parsed(Match(l + extra + 2, far + NEAR_LIMIT + 1), ip1 + 3)
        else Parsed(Match(l + extra + 2, ofs + code + 1), ip1 + 1)
  }

  // All tokens of a block, given the control byte in front of ip.
  function ParseAll(level: Level, mem: seq<byte>, length: nat, ctrl: byte, ip: nat): Option<seq<Token>>
    requires length <= |mem|
    decreases length - ip
  {
    match ParseToken(level, mem, length, ctrl, ip)
    case Bad => None
    case Parsed(t, next) =>
      if next < length then
        match ParseAll(level, mem, length, mem[next], next + 1)
        case None => None
        case Some(rest) => Some([t] + rest)
      else Some([t])
  }

  // What a whole block stands for. The control byte in front loses its top
  // three bits, which carry the level.
  function Decoded(level: Level, mem: seq<byte>, length: nat): Option<seq<byte>>
    requires length <= |mem|
  {
    match ParseAll(level, mem, length, Fetch(mem, 0) % 32, 1)
    case None => None
    case Some(tokens) => Play([], tokens)
  }

  // ---------- reading undoes writing ----------

  lemma {:induction false} ReadChainUndoesChain(mem: seq<byte>, ip: nat, n: nat)
    requires ip + |Chain(n)| <= |mem|
    requires mem[ip..ip + |Chain(n)|] == Chain(n)
    ensures ReadChain(mem, ip) == (n, ip + |Chain(n)|)
    decreases n
  {
    var c := Chain(n);
    assert mem[ip] == mem[ip..ip + |c|][0] == c[0];
    if n >= 255 {
      assert mem[ip + 1..ip + |c|] == mem[ip..ip + |c|][1..] == Chain(n - 255);
      ReadChainUndoesChain(mem, ip + 1, n - 255);
    }
  }

  lemma ParseUndoesMatchOne(l: nat, d: nat, mem: seq<byte>, length: nat, p: nat)
    requires Encodable(One, Match(l + 2, d + 1))
    requires p + |WireMatch(One, l, d)| <= length <= |mem|
    requires mem[p..p + |WireMatch(One, l, d)|] == WireMatch(One, l, d)
    ensures ParseToken(One, mem, length, mem[p], p + 1)
         == Parsed(Match(l + 2, d + 1), p + |WireMatch(One, l, d)|)
  {
    var w := WireMatch(One, l, d);
    assert forall i {:trigger w[i]} :: 0 <= i < |w| ==> mem[p + i] == mem[p..p + |w|][i] == w[i];
    assert mem[p] == w[0] && mem[p + 1] == w[1];
    if l >= 7 {
      assert mem[p + 2] == w[2];
    }
  }

  // What follows the length bytes of a level-2 match.
  function Tail(d: nat): (r: seq<byte>)
    requires d <= NEAR_LIMIT + 65535
    ensures |r| >= 1
  {
    if d < NEAR_LIMIT then [d % 256] else [255, (d - NEAR_LIMIT) / 256, (d - NEAR_LIMIT) % 256]
  }

  lemma ParseUndoesTail(d: nat, ctrl: byte, l: nat, mem: seq<byte>, ip: nat)
    requires d <= NEAR_LIMIT + 65535
    requires ip + |Tail(d)| <= |mem|
    requires mem[ip..ip + |Tail(d)|] == Tail(d)
    requires ctrl % 32 == if d < NEAR_LIMIT then d / 256 else 31
    ensures var code, ofs := Fetch(mem, ip), (ctrl % 32) * 256;
            if code == 255 && ofs == 31 * 256
            then d == Fetch(mem, ip + 1) * 256 + Fetch(mem, ip + 2) + NEAR_LIMIT && |Tail(d)| == 3
            else d == ofs + code && |Tail(d)| == 1
  {
    var w := Tail(d);
    assert forall i {:trigger w[i]} :: 0 <= i < |w| ==> mem[ip + i] == mem[ip..ip + |w|][i] == w[i];
    assert mem[ip] == w[0];
    if d >= NEAR_LIMIT {
      assert mem[ip + 1] == w[1] && mem[ip + 2] == w[2];
    }
  }

  function Head(l: nat, d: nat): byte
    requires 1 <= l && d <= NEAR_LIMIT + 65535
  {
    (if l < 7 then l else 7) * 32 + (if d < NEAR_LIMIT then d / 256 else 31)
  }

  lemma HeadSplits(l: nat, d: nat)
    requires 1 <= l && d <= NEAR_LIMIT + 65535
    ensures Head(l, d) / 32 == if l < 7 then l else 7
    ensures Head(l, d) % 32 == if d < NEAR_LIMIT then d / 256 else 31
  {}

  function Lengths(l: nat): seq<byte> {
    if l < 7 then [] else Chain(l - 7)
  }

  lemma WireMatchTwoParts(l: nat, d: nat)
    requires Encodable(Two, Match(l + 2, d + 1))
    ensures WireMatch(Two, l, d) == [Head(l, d)] + Lengths(l) + Tail(d)
  {}

  lemma ParseUndoesMatchTwo(l: nat, d: nat, mem: seq<byte>, length: nat, p: nat)
    requires Encodable(Two, Match(l + 2, d + 1))
    requires p + |WireMatch(Two, l, d)| <= length <= |mem|
    requires mem[p..p + |WireMatch(Two, l, d)|] == WireMatch(Two, l, d)
    ensures ParseToken(Two, mem, length, mem[p], p + 1)
         == Parsed(Match(l + 2, d + 1), p + |WireMatch(Two, l, d)|)
  {
    hide WireMatch, Chain, ReadChain, Tail, Head;
    var w, c, t := WireMatch(Two, l, d), Lengths(l), Tail(d);
    WireMatchTwoParts(l, d);
    HeadSplits(l, d);
    var ip := p + 1 + |c|;
    assert mem[p] == w[0] == Head(l, d);
    SliceOfSlice(mem, p, p + |w|, 1, 1 + |c|);
    assert w[1..1 + |c|] == c;
    SliceOfSlice(mem, p, p + |w|, 1 + |c|, |w|);
    assert w[1 + |c|..|w|] == t;
    if l >= 7 {
      ReadChainUndoesChain(mem, p + 1, l - 7);
    }
    ParseUndoesTail(d, mem[p], l, mem, ip);
  }

  // Token coding is unambiguous: whatever follows, the bytes of a match read
  // back as the same length and distance and end where they ended. In level 2
  // the far escape (31, 255) is reached by exactly the far matches.
  lemma ParseUndoesMatch(level: Level, l: nat, d: nat, mem: seq<byte>, length: nat, p: nat)
    requires Encodable(level, Match(l + 2, d + 1))
    requires p + |WireMatch(level, l, d)| <= length <= |mem|
    requires mem[p..p + |WireMatch(level, l, d)|] == WireMatch(level, l, d)
    ensures ParseToken(level, mem, length, mem[p], p + 1)
         == Parsed(Match(l + 2, d + 1), p + |WireMatch(level, l, d)|)
  {
    match level
    case One => ParseUndoesMatchOne(l, d, mem, length, p);
    case Two => ParseUndoesMatchTwo(l, d, mem, length, p);
  }

  lemma ParseUndoesLiteral(level: Level, b: seq<byte>, mem: seq<byte>, length: nat, p: nat)
    requires Encodable(level, Literal(b))
    requires p + |WireToken(level, Literal(b))| <= length <= |mem|
    requires mem[p..p + |WireToken(level, Literal(b))|] == WireToken(level, Literal(b))
    ensures ParseToken(level, mem, length, mem[p], p + 1) == Parsed(Literal(b), p + |WireToken(level, Literal(b))|)
  {
    var w := WireToken(level, Literal(b));
    assert mem[p] == mem[p..p + |w|][0] == w[0];
    assert mem[p + 1..p + |w|] == mem[p..p + |w|][1..] == b;
  }

  lemma ParseUndoesToken(level: Level, t: Token, mem: seq<byte>, length: nat, p: nat)
    requires Encodable(level, t)
    requires p + |WireToken(level, t)| <= length <= |mem|
    requires mem[p..p + |WireToken(level, t)|] == WireToken(level, t)
    ensures ParseToken(level, mem, length, mem[p], p + 1) == Parsed(t, p + |WireToken(level, t)|)
  {
    hide ParseToken, WireMatch;
    match t
    case Literal(b) => ParseUndoesLiteral(level, b, mem, length, p);
    case Match(len, dist) => ParseUndoesMatch(level, len - 2, dist - 1, mem, length, p);
  }

  // The first token of a wire image, and where the rest starts.
  lemma ParseFirst(level: Level, tokens: seq<Token>, mem: seq<byte>, length: nat, p: nat) returns (next: nat)
    requires AllEncodable(level, tokens) && tokens != []
    requires p < length <= |mem|
    requires mem[p..length] == WireAll(level, tokens)
    ensures p + 2 <= next <= length
    ensures ParseToken(level, mem, length, mem[p], p + 1) == Parsed(tokens[0], next)
    ensures mem[next..length] == WireAll(level, tokens[1..])
  {
    hide ParseToken;
    var w := WireToken(level, tokens[0]);
    WireAllUnfold(level, tokens);
    next := p + |w|;
    assert mem[p..next] == mem[p..length][..|w|] == w;
    assert mem[next..length] == mem[p..length][|w|..];
    ParseUndoesToken(level, tokens[0], mem, length, p);
  }

  // Every list of tokens the format can express reads back as itself.
  lemma {:induction false} ParseUndoesWire(level: Level, tokens: seq<Token>, mem: seq<byte>, length: nat, p: nat)
    requires AllEncodable(level, tokens) && tokens != []
    requires p < length <= |mem|
    requires mem[p..length] == WireAll(level, tokens)
    ensures ParseAll(level, mem, length, mem[p], p + 1) == Some(tokens)
    decreases tokens
  {
    hide WireToken, ParseToken;
    var next := ParseFirst(level, tokens, mem, length, p);
    var rest := tokens[1..];
    assert tokens == [tokens[0]] + rest;
    if rest == [] {
      assert next == length;
      assert tokens == [tokens[0]];
    } else {
      WireAllUnfold(level, rest);
      assert next < length;
      ParseUndoesWire(level, rest, mem, length, next);
      assert ParseAll(level, mem, length, mem[next], next + 1) == Some(rest);
    }
  }
}
