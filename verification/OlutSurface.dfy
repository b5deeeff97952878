/** Output LUT surfaces: `alloc_drm_lut_surface`, `unorm16_lut_interp` and `create_drm_olut_surface_vss` of
    kernel-open/nvidia-drm/nvidia-drm-crtc.c. */
module OlutSurface {
  import opened Options
  import opened Bytes
  import opened VssHeader

  const LUT_ARRAY_SIZE: nat := 1024
  const NUM_VSS_HEADER_ENTRIES: nat := 4

  /** `struct drm_color_lut`. */
  datatype Color = Color(red: U16, green: U16, blue: U16)

  /** A VSS table: log2 segment sizes and UNORM16 entries. */
  datatype Vss = Vss(sizes: seq<nat>, entries: seq<U16>)

  // ----- interpolation -----

  /** `unorm16_lut_interp` before the cast of its result to 16 bits. */
  function Interpolate(a: U16, b: U16, interp: nat): nat
    requires interp <= 63
  {
    a * (63 - interp) / 63 + b * interp / 63
  }

  lemma MulMono(x: nat, y: nat, k: nat)
    requires x <= y
    ensures x * k <= y * k
  {
  }

  /** The value lies between the two entries, up to one below the smaller one, so that the cast to
      16 bits loses nothing; at the ends it is exact. */
  lemma InterpolateBounds(a: U16, b: U16, interp: nat)
    requires interp <= 63
    ensures var low, high := if a <= b then a else b, if a <= b then b else a;
      low - 1 <= Interpolate(a, b, interp) <= high
    ensures Interpolate(a, b, interp) < 0x1_0000
    ensures interp == 0 ==> Interpolate(a, b, interp) == a
    ensures interp == 63 ==> Interpolate(a, b, interp) == b
  {
    var low: nat, high: nat := if a <= b then a else b, if a <= b then b else a;
    var x, y := a * (63 - interp), b * interp;
    MulMono(low, a, 63 - interp);
    MulMono(low, b, interp);
    MulMono(a, high, 63 - interp);
    MulMono(b, high, interp);
    assert low * (63 - interp) + low * interp == 63 * low;
    assert high * (63 - interp) + high * interp == 63 * high;
    assert 63 * low <= x + y <= 63 * high;
    assert x == 63 * (x / 63) + x % 63 && y == 63 * (y / 63) + y % 63;
  }

  /** The lower bound is reached. */
  lemma InterpolateLosesOne()
    ensures Interpolate(1, 1, 1) == 0
  {
  }

  // ----- the colours -----

  function NumEntries(vss: Option<Vss>): nat {
    match vss
    case Some(v) => |v.entries| + 1
    case None => LUT_ARRAY_SIZE + 1
  }

  /** A 1024-entry LUT read at a UNORM16 position: the upper ten bits select the entry, the lower six
      interpolate towards the next one, if there is one. */
  function Lookup(lut: seq<Color>, at: U16): Color
    requires |lut| == LUT_ARRAY_SIZE
  {
    var i, interp := at / 64, at % 64;
    if interp > 0 && i + 1 < LUT_ARRAY_SIZE then
      Color(Interpolate(lut[i].red, lut[i + 1].red, interp) % 0x1_0000,
            Interpolate(lut[i].green, lut[i + 1].green, interp) % 0x1_0000,
            Interpolate(lut[i].blue, lut[i + 1].blue, interp) % 0x1_0000)
    else lut[i]
  }

  function ColorAt(regamma: Option<seq<Color>>, vss: Option<Vss>, e: nat): Color
    requires regamma.Some? ==> |regamma.value| == LUT_ARRAY_SIZE
    requires e + 1 < NumEntries(vss)
  {
    match regamma
    case Some(lut) => (match vss case Some(v) => Lookup(lut, v.entries[e]) case None => lut[e])
    case None =>
      var level: U16 := match vss case Some(v) => v.entries[e] case None => e * 64;
      Color(level, level, level)
  }

  /** Every component of a colour that `Lookup` gives is between its two neighbours, up to one below. */
  lemma LookupBetween(lut: seq<Color>, at: U16)
    requires |lut| == LUT_ARRAY_SIZE
    ensures var i := at / 64;
      && i < LUT_ARRAY_SIZE
      && var j := if i + 1 < LUT_ARRAY_SIZE then i + 1 else i;
         && Between(lut[i].red, lut[j].red, Lookup(lut, at).red)
         && Between(lut[i].green, lut[j].green, Lookup(lut, at).green)
         && Between(lut[i].blue, lut[j].blue, Lookup(lut, at).blue)
  {
    var i, interp := at / 64, at % 64;
    if interp > 0 && i + 1 < LUT_ARRAY_SIZE {
      InterpolateBetween(lut[i].red, lut[i + 1].red, interp);
      InterpolateBetween(lut[i].green, lut[i + 1].green, interp);
      InterpolateBetween(lut[i].blue, lut[i + 1].blue, interp);
    }
  }

  lemma InterpolateBetween(a: U16, b: U16, interp: nat)
    requires interp <= 63
    ensures Between(a, b, Interpolate(a, b, interp) % 0x1_0000)
  {
    InterpolateBounds(a, b, interp);
  }

  predicate Between(a: U16, b: U16, x: U16) {
    (if a <= b then a else b) - 1 <= x <= (if a <= b then b else a)
  }

  // ----- the surface -----

  /** Surface size in bytes. */
  function SurfaceSize(entries: nat): (r: nat)
    ensures r % 256 == 0 && 8 * (NUM_VSS_HEADER_ENTRIES + entries) <= r < 8 * (NUM_VSS_HEADER_ENTRIES + entries) + 256
  {
    (8 * (NUM_VSS_HEADER_ENTRIES + entries) + 255) / 256 * 256
  }

  /** The four 16-bit parts of a 64-bit word. */
  function Quad(x: nat): (r: seq<U16>)
    ensures |r| == 4
  {
    var high := x / 0x1_0000;
    var higher := high / 0x1_0000;
    [x % 0x1_0000, high % 0x1_0000, higher % 0x1_0000, higher / 0x1_0000 % 0x1_0000]
  }

  /** The sizes that header entry `e` holds. */
  function Group(sizes: seq<nat>, e: nat): (r: seq<nat>)
    ensures |r| <= 16
    ensures forall i :: 0 <= i < |r| ==> 16 * e + i < |sizes| && r[i] == sizes[16 * e + i]
    ensures |r| < 16 ==> 16 * e + |r| >= |sizes|
  {
    if 16 * e >= |sizes| then []
    else if 16 * e + 16 <= |sizes| then sizes[16 * e..16 * e + 16]
    else sizes[16 * e..]
  }

  ghost predicate HasQuad(data: seq<U16>, e: nat, q: seq<U16>)
    requires |q| == 4
  {
    && 4 * e + 4 <= |data|
    && data[4 * e] == q[0] && data[4 * e + 1] == q[1] && data[4 * e + 2] == q[2] && data[4 * e + 3] == q[3]
  }

  ghost predicate HasWord(data: seq<U16>, e: nat, x: nat) {
    HasQuad(data, e, Quad(x))
  }

  function HeaderWord(sizes: seq<nat>, e: nat): nat {
    Entry(Group(sizes, e), |Group(sizes, e)|)
  }

  ghost predicate HasHeader(data: seq<U16>, sizes: seq<nat>) {
    forall e :: 0 <= e < NUM_VSS_HEADER_ENTRIES ==> HasWord(data, e, HeaderWord(sizes, e))
  }

  ghost predicate HasColor(data: seq<U16>, e: nat, c: Color) {
    var p := 4 * (e + NUM_VSS_HEADER_ENTRIES);
    p + 4 <= |data| && data[p] == c.red && data[p + 1] == c.green && data[p + 2] == c.blue
  }

  /** The inner loop over one header entry. */
  method HeaderEntry(sizes: seq<nat>, e: nat) returns (x: nat)
    ensures x == HeaderWord(sizes, e)
  {
    ghost var group := Group(sizes, e);
    x := 0;
    var i := 0;
    while i < 16 && 16 * e + i < |sizes|
      invariant 0 <= i <= |group| && x == Entry(group, i)
      decreases 16 - i
    {
      x := Or(x, ShiftLeft3(sizes[16 * e + i], i));
      i := i + 1;
    }
  }

  method Put64(data: array<U16>, e: nat, x: nat)
    requires 4 * e + 4 <= data.Length
    modifies data
    ensures HasWord(data[..], e, x)
    ensures forall i :: 0 <= i < data.Length && (i < 4 * e || i >= 4 * e + 4) ==> data[i] == old(data[i])
  {
    var q := Quad(x);
    data[4 * e], data[4 * e + 1], data[4 * e + 2], data[4 * e + 3] := q[0], q[1], q[2], q[3];
  }

  ghost predicate HeaderUpTo(data: seq<U16>, sizes: seq<nat>, n: nat) {
    forall e :: 0 <= e < n ==> HasWord(data, e, HeaderWord(sizes, e))
  }

  lemma HeaderGrows(before: seq<U16>, after: seq<U16>, sizes: seq<nat>, n: nat)
    requires HeaderUpTo(before, sizes, n) && HasWord(after, n, HeaderWord(sizes, n)) && |before| == |after|
    requires forall i :: 0 <= i < |before| && i < 4 * n ==> after[i] == before[i]
    ensures HeaderUpTo(after, sizes, n + 1)
  {
  }

  method WriteHeader(data: array<U16>, sizes: seq<nat>)
    requires 4 * NUM_VSS_HEADER_ENTRIES <= data.Length
    modifies data
    ensures HasHeader(data[..], sizes)
  {
    for e := 0 to NUM_VSS_HEADER_ENTRIES
      invariant HeaderUpTo(data[..], sizes, e)
    {
      var x := HeaderEntry(sizes, e);
      ghost var before := data[..];
      Put64(data, e, x);
      HeaderGrows(before, data[..], sizes, e);
    }
  }

  /** The loop body for entry `e`. */
  method WriteColor(data: array<U16>, regamma: Option<seq<Color>>, vss: Option<Vss>, e: nat)
    requires regamma.Some? ==> |regamma.value| == LUT_ARRAY_SIZE
    requires e + 1 < NumEntries(vss) && 4 * (e + NUM_VSS_HEADER_ENTRIES) + 4 <= data.Length
    modifies data
    ensures HasColor(data[..], e, ColorAt(regamma, vss, e))
    ensures forall i :: 0 <= i < data.Length && (i < 4 * (e + NUM_VSS_HEADER_ENTRIES) || i >= 4 * (e + NUM_VSS_HEADER_ENTRIES) + 3) ==>
      data[i] == old(data[i])
  {
    var c: Color;
    match regamma {
      case Some(lut) =>
        var index, interp;
        match vss {
          case Some(v) => index, interp := v.entries[e] / 64, v.entries[e] % 64;
          case None => index, interp := e, 0;
        }
        assert index < LUT_ARRAY_SIZE;  // the BUG_ON
        if interp > 0 && index + 1 < LUT_ARRAY_SIZE {
          c := Color(Interpolate(lut[index].red, lut[index + 1].red, interp) % 0x1_0000,
                     Interpolate(lut[index].green, lut[index + 1].green, interp) % 0x1_0000,
                     Interpolate(lut[index].blue, lut[index + 1].blue, interp) % 0x1_0000);
        } else {
          c := lut[index];
        }
      case None =>
        match vss {
          case Some(v) => c := Color(v.entries[e], v.entries[e], v.entries[e]);
          case None => c := Color(e * 64, e * 64, e * 64);
        }
    }
    var p := 4 * (e + NUM_VSS_HEADER_ENTRIES);
    data[p], data[p + 1], data[p + 2] := c.red, c.green, c.blue;
  }

  method WriteColors(data: array<U16>, regamma: Option<seq<Color>>, vss: Option<Vss>)
    requires regamma.Some? ==> |regamma.value| == LUT_ARRAY_SIZE
    requires 4 * (NumEntries(vss) + NUM_VSS_HEADER_ENTRIES) <= data.Length
    modifies data
    ensures forall e :: 0 <= e < NumEntries(vss) - 1 ==> HasColor(data[..], e, ColorAt(regamma, vss, e))
    ensures data[..16] == old(data[..16])
  {
    var e := 0;
    while e < NumEntries(vss) - 1
      invariant 0 <= e <= NumEntries(vss) - 1
      invariant forall d :: 0 <= d < e ==> HasColor(data[..], d, ColorAt(regamma, vss, d))
      invariant data[..16] == old(data[..16])
    {
      ghost var before := data[..];
      WriteColor(data, regamma, vss, e);
      forall d | 0 <= d < e
        ensures HasColor(data[..], d, ColorAt(regamma, vss, d))
      {
        assert HasColor(before, d, ColorAt(regamma, vss, d));
      }
      e := e + 1;
    }
  }

  /** `create_drm_olut_surface_vss`: every index is inside the buffer, the header holds the segment
      sizes, every entry its colour, and the last entry repeats the one before it. */
  method CreateOlut(regamma: Option<seq<Color>>, vss: Option<Vss>) returns (data: array<U16>)
    requires regamma.Some? ==> |regamma.value| == LUT_ARRAY_SIZE
    requires vss.Some? ==> vss.value.entries != []
    ensures fresh(data) && 2 * data.Length == SurfaceSize(NumEntries(vss))
    ensures vss.Some? ==> HasHeader(data[..], vss.value.sizes)
    ensures forall e :: 0 <= e < NumEntries(vss) - 1 ==> HasColor(data[..], e, ColorAt(regamma, vss, e))
    ensures HasColor(data[..], NumEntries(vss) - 1, ColorAt(regamma, vss, NumEntries(vss) - 2))
  {
    var n := NumEntries(vss);
    data := new U16[SurfaceSize(n) / 2];
    if vss.Some? {
      WriteHeader(data, vss.value.sizes);
    }
    ghost var header := data[..];
    WriteColors(data, regamma, vss);
    ghost var colors := data[..];
    CopyEntry(data, NUM_VSS_HEADER_ENTRIES + n - 2, NUM_VSS_HEADER_ENTRIES + n - 1);
    assert data[..16] == colors[..16] == header[..16];
    if vss.Some? {
      HeaderKept(header, data[..], vss.value.sizes);
    }
    forall e | 0 <= e < n - 1
      ensures HasColor(data[..], e, ColorAt(regamma, vss, e))
    {
      ColorKept(colors, data[..], e, e, ColorAt(regamma, vss, e));
    }
    ColorKept(colors, data[..], n - 2, n - 1, ColorAt(regamma, vss, n - 2));
  }

  /** The 64-bit copy of the last colour entry. */
  method CopyEntry(data: array<U16>, from: nat, to: nat)
    requires from != to && 4 * from + 4 <= data.Length && 4 * to + 4 <= data.Length
    modifies data
    ensures data[4 * to] == old(data[4 * from]) && data[4 * to + 1] == old(data[4 * from + 1])
    ensures data[4 * to + 2] == old(data[4 * from + 2]) && data[4 * to + 3] == old(data[4 * from + 3])
    ensures forall i :: 0 <= i < data.Length && (i < 4 * to || i >= 4 * to + 4) ==> data[i] == old(data[i])
  {
    data[4 * to], data[4 * to + 1], data[4 * to + 2], data[4 * to + 3] :=
      data[4 * from], data[4 * from + 1], data[4 * from + 2], data[4 * from + 3];
  }

  lemma ColorKept(before: seq<U16>, after: seq<U16>, from: nat, to: nat, c: Color)
    requires HasColor(before, from, c) && |after| == |before| && 4 * (to + NUM_VSS_HEADER_ENTRIES) + 4 <= |after|
    requires var p, q := 4 * (from + NUM_VSS_HEADER_ENTRIES), 4 * (to + NUM_VSS_HEADER_ENTRIES);
      after[q] == before[p] && after[q + 1] == before[p + 1] && after[q + 2] == before[p + 2]
    ensures HasColor(after, to, c)
  {
  }

  lemma HeaderKept(before: seq<U16>, after: seq<U16>, sizes: seq<nat>)
    requires |before| == |after| >= 16 && before[..16] == after[..16] && HasHeader(before, sizes)
    ensures HasHeader(after, sizes)
  {
  }

  function Join64(a: nat, b: nat, c: nat, d: nat): nat {
    a + 0x1_0000 * b + 0x1_0000_0000 * c + 0x1_0000_0000_0000 * d
  }

  /** The 64-bit word that entry `e` of a surface makes up. */
  function Word(data: seq<U16>, e: nat): nat
    requires 4 * e + 4 <= |data|
  {
    Join64(data[4 * e], data[4 * e + 1], data[4 * e + 2], data[4 * e + 3])
  }

  lemma QuadBack(x: nat)
    requires x < WORD64
    ensures var q := Quad(x); Join64(q[0], q[1], q[2], q[3]) == x
  {
  }

  lemma WordReadsBack(data: seq<U16>, sizes: seq<nat>, e: nat)
    requires HasWord(data, e, HeaderWord(sizes, e)) && Small(sizes)
    ensures Word(data, e) == HeaderWord(sizes, e)
  {
    var group := Group(sizes, e);
    EntryFits(group);
    QuadBack(HeaderWord(sizes, e));
  }

  /** Reading the header of a surface gives back the segment sizes, if and only if they fit three bits. */
  lemma HeaderReadsBackIff(data: seq<U16>, sizes: seq<nat>)
    requires |data| >= 16 && HasHeader(data, sizes) && |sizes| <= 64
    ensures Small(sizes) <==> forall k :: 0 <= k < |sizes| ==> Field(Word(data, k / 16), k % 16) == sizes[k]
  {
    if Small(sizes) {
      forall k | 0 <= k < |sizes|
        ensures Field(Word(data, k / 16), k % 16) == sizes[k]
      {
        var e, group := k / 16, Group(sizes, k / 16);
        assert HasWord(data, e, HeaderWord(sizes, e));
        WordReadsBack(data, sizes, e);
        EntryDecodesIff(group);
        assert group[k % 16] == sizes[16 * e + k % 16];
      }
    }
  }
}
