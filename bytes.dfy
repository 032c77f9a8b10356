/** Bytes, little-endian integers and the fill buffers of Node's `Buffer`. */
module Bytes {

  type byte = b: int | 0 <= b < 256

  /** Four bytes: one 32-bit word, as `writeFloatLE` or `writeUInt32LE` leaves it. */
  type Word = s: seq<byte> | |s| == 4 witness [0, 0, 0, 0]

  const Two16: nat := 0x1_0000
  const Two32: nat := 0x1_0000_0000

  function ReadLE16(s: seq<byte>, at: nat): nat
    requires at + 2 <= |s|
  {
    s[at] as int + 256 * (s[at + 1] as int)
  }

  function ReadLE32(s: seq<byte>, at: nat): nat
    requires at + 4 <= |s|
  {
    s[at] as int + 256 * (s[at + 1] as int) + 0x1_0000 * (s[at + 2] as int) + 0x100_0000 * (s[at + 3] as int)
  }

  /** `writeUInt16LE(v)`: defined for `v < 2^16` only (Node throws a RangeError otherwise). */
  function LE16(v: nat): (r: seq<byte>)
    requires v < Two16
    ensures |r| == 2 && ReadLE16(r, 0) == v
  {
    [v % 256, v / 256]
  }

  /** `writeUInt32LE(v)`: defined for `v < 2^32` only (Node throws a RangeError otherwise). */
  function LE32(v: nat): (r: Word)
    requires v < Two32
    ensures ReadLE32(r, 0) == v
  {
    var b0, q0 := v % 256, v / 256;
    var b1, q1 := q0 % 256, q0 / 256;
    var b2, b3 := q1 % 256, q1 / 256;
    assert v == b0 + 256 * (b1 + 256 * (b2 + 256 * b3));
    [b0, b1, b2, b3]
  }

  /** Bytes of an ASCII string, as `Buffer.write` stores them. */
  function Ascii(s: string): (r: seq<byte>)
    requires forall i :: 0 <= i < |s| ==> s[i] as int < 128
    ensures |r| == |s| && forall i :: 0 <= i < |s| ==> r[i] == s[i] as int
  {
    seq(|s|, i requires 0 <= i < |s| => s[i] as int)
  }

  /** `Buffer.alloc(n, b)`. */
  function Fill(n: nat, b: byte): (r: seq<byte>)
    ensures |r| == n && forall i :: 0 <= i < n ==> r[i] == b
  {
    seq(n, _ => b)
  }

  /** The pieces laid end to end, as `Buffer.concat` or consecutive writes at increasing offsets leave them. */
  function Joined(ps: seq<seq<byte>>): (r: seq<byte>)
  {
    if ps == [] then [] else Joined(ps[..|ps| - 1]) + ps[|ps| - 1]
  }

  lemma JoinedSnoc(ps: seq<seq<byte>>, p: seq<byte>)
    ensures Joined(ps + [p]) == Joined(ps) + p
  {
    assert (ps + [p])[..|ps|] == ps;
  }

  /** Pieces all `w` bytes long join into `w` bytes per piece, piece `i` at offset `w * i`. */
  lemma {:induction false} JoinedAt(ps: seq<seq<byte>>, w: nat, i: nat)
    requires forall k :: 0 <= k < |ps| ==> |ps[k]| == w
    requires i < |ps|
    ensures |Joined(ps)| == w * |ps|
    ensures w * i + w <= |Joined(ps)| && Joined(ps)[w * i..w * i + w] == ps[i]
  {
    var n := |ps| - 1;
    var front := ps[..n];
    assert Joined(ps) == Joined(front) + ps[n];
    if i < n {
      JoinedAt(front, w, i);
      assert front[i] == ps[i];
    } else {
      JoinedLength(front, w);
    }
    assert w * |ps| == w * n + w;
  }

  lemma {:induction false} JoinedLength(ps: seq<seq<byte>>, w: nat)
    requires forall k :: 0 <= k < |ps| ==> |ps[k]| == w
    ensures |Joined(ps)| == w * |ps|
  {
    if ps != [] {
      var n := |ps| - 1;
      JoinedLength(ps[..n], w);
      assert w * |ps| == w * n + w;
    }
  }
}
