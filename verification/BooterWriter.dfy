/** `booter` of nouveau/extract-firmware-nouveau.py: the GSP booter image, its checks, and a reader that
    follows the offsets in its headers. */
module BooterWriter {
  import opened Options
  import opened Bytes
  import opened ElfImage
  import opened FirmwareFile

  /** What `get_bytes` extracts for one booter. */
  datatype Booter = Booter(
    firmware: seq<Byte>,
    numSigs: seq<Byte>,
    signatures: seq<Byte>,
    patchLoc: seq<Byte>,
    patchMeta: seq<Byte>,
    descriptor: seq<Byte>)

  datatype Error =
    | NumSigsSize | NumSigsRange | ZeroSigSize | SigsUneven | SigsMismatch | TooLarge
    | PatchLocSize | PatchMetaSize | DescriptorUnpack | DescriptorSize | CodeOffset

  const FLCN_BLK_ALIGNMENT: nat := 256

  function Count(b: Booter): nat
    requires |b.numSigs| == 4
  {
    Get32(b.numSigs, 0)
  }

  function TotalSize(b: Booter): nat {
    RoundUp(120 + |b.signatures| + |b.firmware|, FLCN_BLK_ALIGNMENT)
  }

  /** The checks up to the signatures, which come before the first write. */
  function SigError(b: Booter, sigSize: nat): Option<Error> {
    if |b.numSigs| != 4 then Some(NumSigsSize)
    else if Count(b) < 1 || Count(b) > 15 then Some(NumSigsRange)
    else if sigSize == 0 then Some(ZeroSigSize)
    else if |b.signatures| % sigSize != 0 then Some(SigsUneven)
    else if Count(b) != |b.signatures| / sigSize then Some(SigsMismatch)
    else None
  }

  function DescriptorError(d: seq<Byte>): Option<Error> {
    if |d| != 36 then Some(DescriptorUnpack)
    else if |d| != 5 * 4 + Get32(d, 16) * 16 then Some(DescriptorSize)
    else if Get32(d, 4) != Get32(d, 20) then Some(CodeOffset)
    else None
  }

  /** The first exception of `booter`, if any. */
  function FirstError(b: Booter, sigSize: nat): Option<Error> {
    if SigError(b, sigSize).Some? then SigError(b, sigSize)
    else if TotalSize(b) >= 0x1_0000_0000 then Some(TooLarge)
    else if |b.patchLoc| != 4 then Some(PatchLocSize)
    else if |b.patchMeta| != 12 then Some(PatchMetaSize)
    else DescriptorError(b.descriptor)
  }

  /** What the checks come to. */
  ghost predicate WellFormed(b: Booter, sigSize: nat) {
    && |b.numSigs| == 4 && 1 <= Count(b) <= 15
    && 0 < sigSize && |b.signatures| == Count(b) * sigSize
    && |b.patchLoc| == 4 && |b.patchMeta| == 12
    && |b.descriptor| == 36 && Get32(b.descriptor, 16) == 1 && Get32(b.descriptor, 4) == Get32(b.descriptor, 20)
    && TotalSize(b) < 0x1_0000_0000
  }

  lemma DivExact(n: nat, d: nat, q: nat)
    requires d > 0
    ensures n % d == 0 && q == n / d <==> n == q * d
  {
    assert n == n / d * d + n % d;
    if n == q * d {
      SmallMultipleIsZero(q - n / d, d, n % d) by {
        assert (q - n / d) * d == q * d - n / d * d;
      }
      SameMultiple(q, n / d, d);
    }
  }

  lemma SameMultiple(a: nat, b: nat, d: nat)
    requires d > 0 && a * d == b * d
    ensures a == b
  {
  }

  /** `booter` succeeds exactly on the well-formed inputs. */
  lemma SucceedsIffWellFormed(b: Booter, sigSize: nat)
    ensures FirstError(b, sigSize) == None <==> WellFormed(b, sigSize)
  {
    if |b.numSigs| == 4 && sigSize > 0 {
      DivExact(|b.signatures|, sigSize, Count(b));
    }
  }

  // ----- the image -----

  /** `nvfw_bin_hdr`. */
  function BinHeader(total: U32, sigs: nat, size: U32): (r: seq<U32>)
    requires 120 + sigs < 0x1_0000_0000
  {
    [0x10de, 1, total, 24, 120 + sigs, size]
  }

  /** `nvfw_hs_header_v2`. */
  function HsHeader(sigs: nat): (r: seq<U32>)
    requires 120 + sigs < 0x1_0000_0000
  {
    [60, sigs, 60 + sigs, 64 + sigs, 68 + sigs, 12, 80 + sigs, 84 + sigs, 36]
  }

  /** The patch location, the patched signature, three meta variables and the number of signatures. */
  function Patch(b: Booter): (r: seq<U32>)
    requires |b.patchLoc| == 4 && |b.patchMeta| == 12 && |b.numSigs| == 4
  {
    [Get32(b.patchLoc, 0), 0, Get32(b.patchMeta, 0), Get32(b.patchMeta, 4), Get32(b.patchMeta, 8), Get32(b.numSigs, 0)]
  }

  function Join(bin: seq<Byte>, hs: seq<Byte>, sigs: seq<Byte>, patch: seq<Byte>, descriptor: seq<Byte>, firmware: seq<Byte>): seq<Byte> {
    bin + hs + sigs + patch + descriptor + firmware
  }

  ghost function BooterImage(b: Booter, sigSize: nat): seq<Byte>
    requires WellFormed(b, sigSize)
  {
    Join(Words(BinHeader(TotalSize(b), |b.signatures|, |b.firmware|)), Words(HsHeader(|b.signatures|)),
         b.signatures, Words(Patch(b)), b.descriptor, b.firmware)
  }

  // ----- a reader -----

  function Slice(f: seq<Byte>, offset: nat, size: nat): Option<seq<Byte>> {
    if offset + size <= |f| then Some(f[offset..offset + size]) else None
  }

  function WordsAt(f: seq<Byte>, offset: nat, n: nat): (r: Option<seq<U32>>)
    ensures r.Some? ==> |r.value| == n
    decreases n
  {
    if offset + 4 * n > |f| then None
    else if n == 0 then Some([])
    else
      var rest := WordsAt(f, offset + 4, n - 1);
      if rest.None? then None else Some([Get32(f, offset)] + rest.value)
  }

  /** The parts that the two headers point at. The bin header says where the HS header and the
      firmware are, and the HS header where everything else is. */
  datatype Parts = Parts(
    signatures: Option<seq<Byte>>,
    patchLoc: Option<seq<Byte>>,
    patchSig: Option<seq<Byte>>,
    meta: Option<seq<Byte>>,
    numSigs: Option<seq<Byte>>,
    descriptor: Option<seq<Byte>>,
    firmware: Option<seq<Byte>>)

  function FollowHeaders(f: seq<Byte>, bin: seq<U32>, hs: seq<U32>): Parts
    requires |bin| == 6 && |hs| == 9
  {
    Parts(Slice(f, hs[0], hs[1]), Slice(f, hs[2], 4), Slice(f, hs[3], 4), Slice(f, hs[4], hs[5]), Slice(f, hs[6], 4),
          Slice(f, hs[7], hs[8]), Slice(f, bin[4], bin[5]))
  }

  function ReadBooter(f: seq<Byte>): Option<Parts> {
    var bin := WordsAt(f, 0, 6);
    if bin.None? then None
    else
      var hs := WordsAt(f, bin.value[3], 9);
      if hs.None? then None else Some(FollowHeaders(f, bin.value, hs.value))
  }

  lemma {:induction false} ReadWords(f: seq<Byte>, offset: nat, ws: seq<U32>)
    requires offset + 4 * |ws| <= |f| && f[offset..offset + 4 * |ws|] == Words(ws)
    ensures WordsAt(f, offset, |ws|) == Some(ws)
    decreases |ws|
  {
    if ws != [] {
      var piece := f[offset..offset + 4 * |ws|];
      assert f[offset..offset + 4] == piece[..4] == Pack32(ws[0]);
      UnpackPack32(f, offset, ws[0]);
      assert f[offset + 4..offset + 4 + 4 * |ws[1..]|] == piece[4..];
      ReadWords(f, offset + 4, ws[1..]);
      assert [ws[0]] + ws[1..] == ws;
    }
  }

  lemma JoinParts(bin: seq<Byte>, hs: seq<Byte>, sigs: seq<Byte>, patch: seq<Byte>, descriptor: seq<Byte>, firmware: seq<Byte>)
    requires |bin| == 24 && |hs| == 36 && |patch| == 24 && |descriptor| == 36
    ensures var f, n := Join(bin, hs, sigs, patch, descriptor, firmware), |sigs|;
      && |f| == 120 + n + |firmware|
      && f[0..24] == bin && f[24..60] == hs && f[60..60 + n] == sigs && f[60 + n..84 + n] == patch
      && f[84 + n..120 + n] == descriptor && f[120 + n..120 + n + |firmware|] == firmware
  {
  }

  lemma PatchBytes(loc: seq<Byte>, meta: seq<Byte>, num: seq<Byte>, zero: U32)
    requires |loc| == 4 && |meta| == 12 && |num| == 4
    ensures Words([Get32(loc, 0), zero, Get32(meta, 0), Get32(meta, 4), Get32(meta, 8), Get32(num, 0)])
         == loc + Pack32(zero) + meta + num
  {
    PackUnpack32(loc, 0);
    PackUnpack32(meta, 0);
    PackUnpack32(meta, 4);
    PackUnpack32(meta, 8);
    PackUnpack32(num, 0);
    assert Words([Get32(num, 0)]) == num;
    assert Words([Get32(meta, 8), Get32(num, 0)]) == meta[8..] + num;
    assert Words([Get32(meta, 4), Get32(meta, 8), Get32(num, 0)]) == meta[4..] + num;
    assert Words([Get32(meta, 0), Get32(meta, 4), Get32(meta, 8), Get32(num, 0)]) == meta + num;
    assert Words([zero, Get32(meta, 0), Get32(meta, 4), Get32(meta, 8), Get32(num, 0)]) == Pack32(zero) + (meta + num);
  }

  lemma PatchSlices(f: seq<Byte>, p: nat, loc: seq<Byte>, sig: seq<Byte>, meta: seq<Byte>, num: seq<Byte>)
    requires |loc| == 4 && |sig| == 4 && |meta| == 12 && |num| == 4
    requires p + 24 <= |f| && f[p..p + 24] == loc + sig + meta + num
    ensures f[p..p + 4] == loc && f[p + 4..p + 8] == sig && f[p + 8..p + 20] == meta && f[p + 20..p + 24] == num
  {
    var piece := loc + sig + meta + num;
    SubSlice(f, p, 24, 0, 4);
    SubSlice(f, p, 24, 4, 8);
    SubSlice(f, p, 24, 8, 20);
    SubSlice(f, p, 24, 20, 24);
    assert piece[0..4] == loc && piece[4..8] == sig && piece[8..20] == meta && piece[20..24] == num;
  }

  lemma SubSlice(f: seq<Byte>, p: nat, n: nat, i: nat, j: nat)
    requires i <= j <= n && p + n <= |f|
    ensures f[p + i..p + j] == f[p..p + n][i..j]
  {
    var a, b := f[p + i..p + j], f[p..p + n][i..j];
    forall k | 0 <= k < |a|
      ensures a[k] == b[k]
    {
      assert b[k] == f[p..p + n][i + k] == f[p + i + k];
    }
  }

  lemma Follow(f: seq<Byte>, total: U32, parts: Parts, n: nat, size: U32)
    requires |f| == 120 + n + size && 120 + n < 0x1_0000_0000
    requires parts == Parts(Some(f[60..60 + n]), Some(f[60 + n..64 + n]), Some(f[64 + n..68 + n]), Some(f[68 + n..80 + n]),
                            Some(f[80 + n..84 + n]), Some(f[84 + n..120 + n]), Some(f[120 + n..120 + n + size]))
    ensures FollowHeaders(f, BinHeader(total, n, size), HsHeader(n)) == parts
  {
  }

  lemma HeadersRead(f: seq<Byte>, bin: seq<U32>, hs: seq<U32>)
    requires |bin| == 6 && |hs| == 9 && bin[3] == 24 && |f| >= 60
    requires f[0..24] == Words(bin) && f[24..60] == Words(hs)
    ensures ReadBooter(f) == Some(FollowHeaders(f, bin, hs))
  {
    ReadWords(f, 0, bin);
    ReadWords(f, 24, hs);
  }

  ghost function PartsOf(b: Booter): Parts {
    Parts(Some(b.signatures), Some(b.patchLoc), Some(Zeros(4)), Some(b.patchMeta), Some(b.numSigs),
          Some(b.descriptor), Some(b.firmware))
  }

  lemma PartsFollow(f: seq<Byte>, b: Booter, total: U32)
    requires |b.patchLoc| == 4 && |b.patchMeta| == 12 && |b.numSigs| == 4 && |b.descriptor| == 36
    requires var n := |b.signatures|;
      && 120 + n < 0x1_0000_0000 && |b.firmware| < 0x1_0000_0000 && |f| == 120 + n + |b.firmware|
      && f[60..60 + n] == b.signatures && f[60 + n..84 + n] == Words(Patch(b))
      && f[84 + n..120 + n] == b.descriptor && f[120 + n..120 + n + |b.firmware|] == b.firmware
    ensures FollowHeaders(f, BinHeader(total, |b.signatures|, |b.firmware|), HsHeader(|b.signatures|)) == PartsOf(b)
  {
    var n := |b.signatures|;
    PatchBytes(b.patchLoc, b.patchMeta, b.numSigs, 0);
    PatchSlices(f, 60 + n, b.patchLoc, Pack32(0), b.patchMeta, b.numSigs);
    assert Pack32(0) == Zeros(4);
    Follow(f, total, PartsOf(b), n, |b.firmware|);
  }

  lemma JoinReadsBack(b: Booter, total: U32)
    requires |b.patchLoc| == 4 && |b.patchMeta| == 12 && |b.numSigs| == 4 && |b.descriptor| == 36
    requires 120 + |b.signatures| < 0x1_0000_0000 && |b.firmware| < 0x1_0000_0000
    ensures ReadBooter(Join(Words(BinHeader(total, |b.signatures|, |b.firmware|)), Words(HsHeader(|b.signatures|)),
                            b.signatures, Words(Patch(b)), b.descriptor, b.firmware))
         == Some(PartsOf(b))
  {
    var bin, hs := BinHeader(total, |b.signatures|, |b.firmware|), HsHeader(|b.signatures|);
    var f := Join(Words(bin), Words(hs), b.signatures, Words(Patch(b)), b.descriptor, b.firmware);
    JoinParts(Words(bin), Words(hs), b.signatures, Words(Patch(b)), b.descriptor, b.firmware);
    PartsFollow(f, b, total);
    HeadersRead(f, bin, hs);
  }

  /** Every offset of the image leads to the bytes it is for. */
  lemma BooterReadsBack(b: Booter, sigSize: nat)
    requires WellFormed(b, sigSize)
    ensures ReadBooter(BooterImage(b, sigSize)) == Some(PartsOf(b))
  {
    JoinReadsBack(b, TotalSize(b));
  }

  /** The recorded total size is the file size rounded up to a Falcon block. */
  lemma BooterTotalSize(b: Booter, sigSize: nat)
    requires WellFormed(b, sigSize)
    ensures TotalSize(b) % FLCN_BLK_ALIGNMENT == 0
    ensures |BooterImage(b, sigSize)| <= TotalSize(b) < |BooterImage(b, sigSize)| + FLCN_BLK_ALIGNMENT
  {
    RoundUpIsMultiple(120 + |b.signatures| + |b.firmware|, FLCN_BLK_ALIGNMENT);
  }

  // ----- the writer -----

  /** `booter`: checks and writes in turn. */
  method WriteBooter(f: OutFile, b: Booter, sigSize: nat) returns (error: Option<Error>)
    requires f.data == []
    modifies f
    ensures error == None <==> WellFormed(b, sigSize)
    ensures error == FirstError(b, sigSize)
    ensures error == None ==> f.data == BooterImage(b, sigSize)
  {
    SucceedsIffWellFormed(b, sigSize);
    error := SigError(b, sigSize);
    if error.Some? {
      return;
    }
    var total := RoundUp(120 + |b.signatures| + |b.firmware|, FLCN_BLK_ALIGNMENT);
    if total >= 0x1_0000_0000 {
      return Some(TooLarge);
    }
    var bin, hs := Words(BinHeader(total, |b.signatures|, |b.firmware|)), Words(HsHeader(|b.signatures|));
    f.Write(bin);
    assert f.data == bin;
    f.Write(hs);
    f.Write(b.signatures);
    if |b.patchLoc| != 4 {
      return Some(PatchLocSize);
    }
    if |b.patchMeta| != 12 {
      return Some(PatchMetaSize);
    }
    f.Write(Words(Patch(b)));
    error := DescriptorError(b.descriptor);
    if error.Some? {
      return;
    }
    f.Write(b.descriptor);
    f.Write(b.firmware);
  }
}
