/** Little-endian packing, as `struct.pack` with "<" does it, and the inverse. */
module Bytes {
  type Byte = x: nat | x < 256
  type U16 = x: nat | x < 0x1_0000
  type U32 = x: nat | x < 0x1_0000_0000

  function Pack16(x: U16): (r: seq<Byte>)
    ensures |r| == 2
  {
    [x % 256, x / 256]
  }

  function Pack32(x: U32): (r: seq<Byte>)
    ensures |r| == 4
  {
    Pack16(x % 0x1_0000) + Pack16(x / 0x1_0000)
  }

  function Get16(b: seq<Byte>, i: nat): U16
    requires i + 2 <= |b|
  {
    var low: nat, high: nat := b[i], b[i + 1];
    low + 256 * high
  }

  function Get32(b: seq<Byte>, i: nat): U32
    requires i + 4 <= |b|
  {
    var low: nat, high: nat := Get16(b, i), Get16(b, i + 2);
    low + 0x1_0000 * high
  }

  lemma UnpackPack16(b: seq<Byte>, i: nat, x: U16)
    requires i + 2 <= |b| && b[i..i + 2] == Pack16(x)
    ensures Get16(b, i) == x
  {
  }

  lemma UnpackPack32(b: seq<Byte>, i: nat, x: U32)
    requires i + 4 <= |b| && b[i..i + 4] == Pack32(x)
    ensures Get32(b, i) == x
  {
  }

  lemma PackUnpack32(b: seq<Byte>, i: nat)
    requires i + 4 <= |b|
    ensures Pack32(Get32(b, i)) == b[i..i + 4]
  {
  }

  /** `struct.pack("<nI", ...)`. */
  function Words(ws: seq<U32>): (r: seq<Byte>)
    ensures |r| == 4 * |ws|
  {
    if ws == [] then [] else Pack32(ws[0]) + Words(ws[1..])
  }

  /** `struct.pack("<nH", ...)`. */
  function Halves(hs: seq<U16>): (r: seq<Byte>)
    ensures |r| == 2 * |hs|
  {
    if hs == [] then [] else Pack16(hs[0]) + Halves(hs[1..])
  }

  /** A word read at its place in a larger file. */
  lemma {:induction false} WordAt(b: seq<Byte>, start: nat, ws: seq<U32>, i: nat)
    requires start + 4 * |ws| <= |b| && b[start..start + 4 * |ws|] == Words(ws) && i < |ws|
    ensures Get32(b, start + 4 * i) == ws[i]
    decreases |ws|
  {
    var piece := b[start..start + 4 * |ws|];
    if i == 0 {
      assert b[start..start + 4] == piece[..4];
      UnpackPack32(b, start, ws[0]);
    } else {
      assert b[start + 4..start + 4 + 4 * |ws[1..]|] == piece[4..];
      WordAt(b, start + 4, ws[1..], i - 1);
      assert start + 4 + 4 * (i - 1) == start + 4 * i;
    }
  }

  lemma {:induction false} HalfAt(b: seq<Byte>, start: nat, hs: seq<U16>, i: nat)
    requires start + 2 * |hs| <= |b| && b[start..start + 2 * |hs|] == Halves(hs) && i < |hs|
    ensures Get16(b, start + 2 * i) == hs[i]
    decreases |hs|
  {
    var piece := b[start..start + 2 * |hs|];
    if i == 0 {
      assert b[start..start + 2] == piece[..2];
      UnpackPack16(b, start, hs[0]);
    } else {
      assert b[start + 2..start + 2 + 2 * |hs[1..]|] == piece[2..];
      HalfAt(b, start + 2, hs[1..], i - 1);
      assert start + 2 + 2 * (i - 1) == start + 2 * i;
    }
  }

  // ----- concatenation of pieces -----

  function Flatten(pieces: seq<seq<Byte>>): seq<Byte> {
    if pieces == [] then [] else pieces[0] + Flatten(pieces[1..])
  }

  lemma {:induction false} FlattenConcat(a: seq<seq<Byte>>, b: seq<seq<Byte>>)
    ensures Flatten(a + b) == Flatten(a) + Flatten(b)
    decreases |a|
  {
    if a == [] {
      assert a + b == b;
    } else {
      assert (a + b)[1..] == a[1..] + b;
      FlattenConcat(a[1..], b);
    }
  }

  /** Each piece is found at the offset that is the length of the pieces before it. */
  lemma FlattenPiece(pieces: seq<seq<Byte>>, i: nat)
    requires i < |pieces|
    ensures var start, all := |Flatten(pieces[..i])|, Flatten(pieces);
      start + |pieces[i]| <= |all| && all[start..start + |pieces[i]|] == pieces[i]
  {
    var before, after := pieces[..i], pieces[i + 1..];
    assert pieces == before + ([pieces[i]] + after);
    FlattenConcat(before, [pieces[i]] + after);
    assert Flatten([pieces[i]] + after) == pieces[i] + Flatten(after);
  }

  lemma {:induction false} FlattenSnoc(pieces: seq<seq<Byte>>, i: nat)
    requires i < |pieces|
    ensures Flatten(pieces[..i + 1]) == Flatten(pieces[..i]) + pieces[i]
  {
    assert pieces[..i + 1] == pieces[..i] + [pieces[i]];
    FlattenConcat(pieces[..i], [pieces[i]]);
  }

  /** Pieces of equal width lie at multiples of that width. */
  lemma {:induction false} FlattenUniform(pieces: seq<seq<Byte>>, i: nat)
    requires i <= |pieces| && forall k :: 0 <= k < |pieces| ==> |pieces[k]| == 40
    ensures |Flatten(pieces[..i])| == 40 * i
    decreases i
  {
    if i == 0 {
      assert pieces[..0] == [];
    } else {
      FlattenUniform(pieces, i - 1);
      FlattenSnoc(pieces, i - 1);
    }
  }

  // ----- strings -----

  /** The string that starts at `i` and ends before the next NUL. */
  function CString(b: seq<Byte>, i: nat): seq<Byte>
    decreases |b| - i
  {
    if i >= |b| || b[i] == 0 then [] else [b[i]] + CString(b, i + 1)
  }

  ghost predicate NoNul(s: seq<Byte>) {
    forall i :: 0 <= i < |s| ==> s[i] != 0
  }

  lemma {:induction false} ReadCString(b: seq<Byte>, i: nat, s: seq<Byte>)
    requires NoNul(s) && i + |s| + 1 <= |b| && b[i..i + |s| + 1] == s + [0]
    ensures CString(b, i) == s
    decreases |s|
  {
    assert b[i] == (s + [0])[0];
    if s != [] {
      assert b[i + 1..i + 1 + |s[1..]| + 1] == b[i..i + |s| + 1][1..];
      assert (s + [0])[1..] == s[1..] + [0];
      ReadCString(b, i + 1, s[1..]);
      assert [s[0]] + s[1..] == s;
    }
  }
}
