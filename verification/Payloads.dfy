/** What the callers of an allocator see: the live payloads, by address. */
module Payloads {
  import opened Bytes

  // RT_ALIGN to 4 bytes.
  function Align(n: nat): nat { (n + 3) / 4 * 4 }

  // A text with `data` written over it from index `at`.
  function Spliced(s: seq<byte>, at: nat, data: seq<byte>): (r: seq<byte>)
    requires at + |data| <= |s|
    ensures |r| == |s|
  {
    s[..at] + data + s[at + |data|..]
  }

  function Larger(a: int, b: int): int { if a < b then b else a }

  // The counters of a heap: bytes taken, headers included, and their high-water mark.
  datatype Meter = Meter(used: int, max: int)

  // A new payload of at least `size` bytes, and nothing else changed.
  ghost predicate Granted(before: map<nat, seq<byte>>, after: map<nat, seq<byte>>, q: nat, size: nat) {
    q !in before && q in after && after == before[q := after[q]] && |after[q]| >= size
  }

  // The payload at p is gone; one of at least n bytes at q starts with its first len bytes.
  ghost predicate Moved(before: map<nat, seq<byte>>, after: map<nat, seq<byte>>, p: nat, q: nat, len: nat, n: nat) {
    && p in before && len <= |before[p]| && q !in before && q in after
    && |after[q]| >= n && len <= |after[q]| && after[q][..len] == before[p][..len]
    && after == (before - {p})[q := after[q]]
  }
}
