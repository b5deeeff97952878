/** The header of a variable-segment-size LUT: sixteen 3-bit segment sizes per 64-bit entry
    (kernel-open/nvidia-drm/nvidia-drm-crtc.c, `create_drm_olut_surface_vss`). */
module VssHeader {
  const WORD64: nat := 0x1_0000_0000_0000_0000

  /** Bitwise or. */
  function Or(a: nat, b: nat): nat
    decreases a + b
  {
    if a == 0 && b == 0 then 0
    else 2 * Or(a / 2, b / 2) + (if a % 2 == 1 || b % 2 == 1 then 1 else 0)
  }

  function Pow8(i: nat): (r: nat)
    ensures r > 0
  {
    if i == 0 then 1 else 8 * Pow8(i - 1)
  }

  /** `(NvU64) x << (3 * i)`. */
  function ShiftLeft3(x: nat, i: nat): nat {
    x * Pow8(i) % WORD64
  }

  /** `(x >> (3 * i)) & 7`. */
  function Field(x: nat, i: nat): (r: nat)
    ensures r < 8
  {
    if i == 0 then x % 8 else Field(x / 8, i - 1)
  }

  /** The header entry after the first `n` turns of the inner loop. */
  function Entry(sizes: seq<nat>, n: nat): nat
    requires n <= |sizes|
  {
    if n == 0 then 0 else Or(Entry(sizes, n - 1), ShiftLeft3(sizes[n - 1], n - 1))
  }

  /** The number with the given octal digits, least significant first. */
  function Octal(ds: seq<nat>): nat {
    if ds == [] then 0 else ds[0] + 8 * Octal(ds[1..])
  }

  ghost predicate Small(sizes: seq<nat>) {
    forall i :: 0 <= i < |sizes| ==> sizes[i] < 8
  }

  lemma {:induction false} OrZero(b: nat)
    ensures Or(0, b) == b
  {
    if b > 0 {
      OrZero(b / 2);
    }
  }

  /** Three bits at a time. */
  lemma OrStep(a: nat, b: nat)
    ensures Or(a, 8 * b) == 8 * Or(a / 8, b) + a % 8
  {
    OrDouble(a, 4 * b);
    OrDouble(a / 2, 2 * b);
    OrDouble(a / 2 / 2, b);
  }

  lemma OrDouble(a: nat, b: nat)
    ensures Or(a, 2 * b) == 2 * Or(a / 2, b) + a % 2
  {
  }

  /** Or with a number whose low digits are zero adds. */
  lemma {:induction false} OrAdds(a: nat, m: nat, i: nat)
    requires a < Pow8(i)
    ensures Or(a, m * Pow8(i)) == a + m * Pow8(i)
    decreases i
  {
    if i == 0 {
      OrZero(m);
    } else {
      var b := m * Pow8(i - 1);
      assert m * Pow8(i) == 8 * b;
      OrStep(a, b);
      OrAdds(a / 8, m, i - 1);
    }
  }

  lemma {:induction false} OctalSnoc(ds: seq<nat>, d: nat)
    ensures Octal(ds + [d]) == Octal(ds) + d * Pow8(|ds|)
    decreases |ds|
  {
    if ds == [] {
      assert (ds + [d])[1..] == [];
    } else {
      assert (ds + [d])[1..] == ds[1..] + [d];
      OctalSnoc(ds[1..], d);
      assert 8 * (d * Pow8(|ds| - 1)) == d * Pow8(|ds|);
    }
  }

  lemma {:induction false} OctalBound(ds: seq<nat>)
    requires Small(ds)
    ensures Octal(ds) < Pow8(|ds|)
    decreases |ds|
  {
    if ds != [] {
      OctalBound(ds[1..]);
    }
  }

  lemma {:induction false} OctalField(ds: seq<nat>, i: nat)
    requires Small(ds) && i < |ds|
    ensures Field(Octal(ds), i) == ds[i]
    decreases i
  {
    assert Octal(ds) % 8 == ds[0] && Octal(ds) / 8 == Octal(ds[1..]);
    if i > 0 {
      OctalField(ds[1..], i - 1);
    }
  }

  lemma {:induction false} Pow8Grows(i: nat, j: nat)
    requires i <= j
    ensures Pow8(i) <= Pow8(j)
    decreases j
  {
    if i < j {
      Pow8Grows(i, j - 1);
    }
  }

  lemma SixteenFieldsFit(i: nat)
    requires i < 16
    ensures 8 * Pow8(i) <= WORD64
  {
    Pow8Grows(i, 15);
    assert Pow8(4) == 0x1000;
    assert Pow8(8) == 0x100_0000;
    assert Pow8(12) == 0x10_0000_0000;
    assert Pow8(15) == 0x2000_0000_0000;
  }

  lemma MulLess(d: nat, p: nat)
    requires d < 8 && p > 0
    ensures d * p < 8 * p
  {
  }

  lemma ShiftFits(d: nat, i: nat)
    requires d < 8 && i < 16
    ensures ShiftLeft3(d, i) == d * Pow8(i)
  {
    SixteenFieldsFit(i);
    MulLess(d, Pow8(i));
    var x := d * Pow8(i);
    assert 0 <= x < WORD64;
  }

  lemma {:induction false} EntryIsOctal(sizes: seq<nat>, n: nat)
    requires Small(sizes) && n <= |sizes| && n <= 16
    ensures Entry(sizes, n) == Octal(sizes[..n])
    decreases n
  {
    if n == 0 {
      assert sizes[..0] == [];
    } else {
      EntryIsOctal(sizes, n - 1);
      var d, ds := sizes[n - 1], sizes[..n - 1];
      assert sizes[..n] == ds + [d];
      OctalSnoc(ds, d);
      OctalBound(ds);
      ShiftFits(d, n - 1);
      OrAdds(Octal(ds), d, n - 1);
    }
  }

  lemma EntryFits(sizes: seq<nat>)
    requires Small(sizes) && |sizes| <= 16
    ensures Entry(sizes, |sizes|) < WORD64
  {
    EntryIsOctal(sizes, |sizes|);
    assert sizes[..|sizes|] == sizes;
    OctalBound(sizes);
    if sizes != [] {
      SixteenFieldsFit(|sizes| - 1);
    }
  }

  /** A header entry decodes to the sizes that were written exactly when all of them fit three bits. */
  lemma EntryDecodesIff(sizes: seq<nat>)
    requires |sizes| <= 16
    ensures Small(sizes) <==> forall i :: 0 <= i < |sizes| ==> Field(Entry(sizes, |sizes|), i) == sizes[i]
  {
    if Small(sizes) {
      EntryIsOctal(sizes, |sizes|);
      assert sizes[..|sizes|] == sizes;
      forall i | 0 <= i < |sizes|
        ensures Field(Entry(sizes, |sizes|), i) == sizes[i]
      {
        OctalField(sizes, i);
      }
    }
  }
}
