/** The ELF images that nouveau/extract-firmware-nouveau.py writes for FMC firmware: a header, section
    headers, the string table and the section data, and where each of them is. */
module ElfImage {
  import opened Options
  import opened Bytes

  datatype Section = Section(name: seq<Byte>, data: seq<Byte>)

  function Zeros(n: nat): (r: seq<Byte>)
    ensures |r| == n && forall i :: 0 <= i < n ==> r[i] == 0
  {
    seq(n, i => 0)
  }

  /** `round_up_to_base`; Python's `%` by a positive number is Euclidean. */
  function RoundUp(x: nat, base: nat): (r: nat)
    requires base > 0
    ensures x <= r < x + base
  {
    x + (base - x) % base
  }

  lemma SmallMultipleIsZero(j: int, base: int, m: int)
    requires 0 <= m < base && j * base == m
    ensures m == 0
  {
  }

  lemma RoundUpIsMultiple(x: nat, base: nat)
    requires base > 0
    ensures RoundUp(x, base) % base == 0
  {
    var a := base - x;
    var m := a % base;
    var y := x + m;
    assert a == a / base * base + m;
    assert y == y / base * base + y % base;
    assert (1 - a / base - y / base) * base == y % base by {
      assert y == base - a / base * base;
    }
    SmallMultipleIsZero(1 - a / base - y / base, base, y % base);
  }

  /** The second component of `sizes`. */
  function PaddedSize(n: nat): (r: nat)
    ensures r % 4 == 0 && n <= r < n + 4
  {
    RoundUp(n, 4)
  }

  /** What `write_padded` writes. */
  function Padded(b: seq<Byte>): (r: seq<Byte>)
    ensures |r| == PaddedSize(|b|) && b <= r
  {
    b + Zeros(PaddedSize(|b|) - |b|)
  }

  // ----- headers -----

  const IDENT: seq<Byte> := [0x7f, 0x45, 0x4c, 0x46, 1, 1, 1, 0, 0, 0, 0, 0, 0, 0, 0, 0]

  /** `elf_header`. */
  function ElfHeader(shnum: nat): (r: seq<Byte>)
    requires shnum + 2 < 0x1_0000
    ensures |r| == 52
  {
    IDENT + Halves([0, 0]) + Words([1, 0, 0, 52, 0]) + Halves([52, 0, 0, 40, shnum + 2, 1])
  }

  /** The ten words of a section header: `sh_name`, `sh_type`, `sh_flags`, `sh_addr`, `sh_offset`,
      `sh_size`, `sh_link`, `sh_info`, `sh_addralign`, `sh_entsize`. */
  function DataWords(name: U32, offset: U32, size: U32, info: U32): (r: seq<U32>)
    ensures |r| == 10 && r[0] == name && r[4] == offset && r[5] == size
  {
    [name, 1, 0xFFF0_0102, 0, offset, size, 0, info, 4, 0]
  }

  function TableWords(name: U32, offset: U32, size: U32): (r: seq<U32>)
    ensures |r| == 10 && r[0] == name && r[4] == offset && r[5] == size
  {
    [name, 3, 0x20, 0, offset, size, 0, 0, 1, 1]
  }

  // ----- the string table -----

  const SHSTRTAB: seq<Byte> := [0x2e, 0x73, 0x68, 0x73, 0x74, 0x72, 0x74, 0x61, 0x62]  // ".shstrtab"

  function Terminated(names: seq<seq<Byte>>): (r: seq<seq<Byte>>)
    ensures |r| == |names| && forall i :: 0 <= i < |r| ==> r[i] == names[i] + [0]
  {
    seq(|names|, i requires 0 <= i < |names| => names[i] + [0])
  }

  /** `elf_build_shstrtab`. */
  function StringTable(names: seq<seq<Byte>>): seq<Byte> {
    Flatten([[0]] + Terminated([SHSTRTAB] + names))
  }

  predicate Occurs(b: seq<Byte>, needle: seq<Byte>, p: nat) {
    p + |needle| <= |b| && b[p..p + |needle|] == needle
  }

  /** First position of `needle` in `b` at or after `i`, as `bytearray.find` does it. */
  function Find(b: seq<Byte>, needle: seq<Byte>, i: nat): (r: Option<nat>)
    ensures r.Some? ==> i <= r.value && Occurs(b, needle, r.value)
    decreases |b| - i
  {
    if i + |needle| > |b| then None
    else if Occurs(b, needle, i) then Some(i)
    else Find(b, needle, i + 1)
  }

  lemma {:induction false} FindIsFirst(b: seq<Byte>, needle: seq<Byte>, i: nat, p: nat)
    requires i <= p && Occurs(b, needle, p)
    ensures Find(b, needle, i).Some? && Find(b, needle, i).value <= p
    decreases |b| - i
  {
    if !Occurs(b, needle, i) {
      FindIsFirst(b, needle, i + 1, p);
    }
  }

  /** `offset_of`; None stands for the exception "unknown section name". */
  function OffsetOf(name: seq<Byte>, table: seq<Byte>): Option<nat> {
    Find(table, name + [0], 0)
  }

  /** `offset_of` finds every name of the table, and what it finds is the start of a C string equal to
      the name that was asked for. */
  lemma OffsetOfFindsName(names: seq<seq<Byte>>, i: nat, name: seq<Byte>)
    requires forall k :: 0 <= k < |names| ==> NoNul(names[k])
    requires i <= |names| && name == ([SHSTRTAB] + names)[i]
    ensures OffsetOf(name, StringTable(names)).Some?
    ensures OffsetOf(name, StringTable(names)).value + |name| + 1 <= |StringTable(names)|
    ensures CString(StringTable(names), OffsetOf(name, StringTable(names)).value) == name
  {
    var table, pieces := StringTable(names), [[0]] + Terminated([SHSTRTAB] + names);
    FlattenPiece(pieces, i + 1);
    assert pieces[i + 1] == name + [0];
    FindIsFirst(table, name + [0], 0, |Flatten(pieces[..i + 1])|);
    ReadCString(table, OffsetOf(name, table).value, name);
  }

  // ----- the image -----

  function Names(sections: seq<Section>): (r: seq<seq<Byte>>)
    ensures |r| == |sections| && forall i :: 0 <= i < |r| ==> r[i] == sections[i].name
  {
    seq(|sections|, i requires 0 <= i < |sections| => sections[i].name)
  }

  function Table(sections: seq<Section>): seq<Byte> {
    StringTable(Names(sections))
  }

  function TableOffset(n: nat): nat {
    52 + 40 * (n + 2)
  }

  /** Where the data of section `i` goes: after the string table, at `start`, and the sections before it. */
  function DataOffset(start: nat, sections: seq<Section>, i: nat): (r: nat)
    requires i <= |sections|
    ensures start <= r
  {
    if i == 0 then start
    else DataOffset(start, sections, i - 1) + PaddedSize(|sections[i - 1].data|)
  }

  function DataStart(sections: seq<Section>): nat {
    TableOffset(|sections|) + PaddedSize(|Table(sections)|)
  }

  ghost predicate NamesOk(sections: seq<Section>) {
    forall i :: 0 <= i < |sections| ==> NoNul(sections[i].name)
  }

  /** Every number fits its field; `struct.pack` raises an exception otherwise. */
  ghost predicate Fits(sections: seq<Section>) {
    && |sections| + 2 < 0x1_0000
    && |Table(sections)| < 0x1_0000_0000
    && forall i :: 0 <= i < |sections| ==> Fits1(sections, i)
  }

  predicate Fits1(sections: seq<Section>, i: nat)
    requires i < |sections|
  {
    DataOffset(DataStart(sections), sections, i) < 0x1_0000_0000 && |sections[i].data| < 0x1_0000_0000
  }

  /** `sh_name` of the string table itself (0) or of section `i - 1`. */
  ghost function NameOffset(sections: seq<Section>, i: nat): (r: U32)
    requires NamesOk(sections) && Fits(sections) && i <= |sections|
    ensures CString(Table(sections), r) == ([SHSTRTAB] + Names(sections))[i]
  {
    var name := ([SHSTRTAB] + Names(sections))[i];
    OffsetOfFindsName(Names(sections), i, name);
    OffsetOf(name, Table(sections)).value
  }

  /** The words of header `j`: 0 is the null header, 1 the string table, `j` section `j - 2`. */
  ghost function HeaderWords(sections: seq<Section>, crc: seq<Byte> -> U32, j: nat): (r: seq<U32>)
    requires NamesOk(sections) && Fits(sections) && j < |sections| + 2
    ensures |r| == 10
  {
    if j == 0 then [0, 0, 0, 0, 0, 0, 0, 0, 0, 0]
    else if j == 1 then TableWords(NameOffset(sections, 0), TableOffset(|sections|), |Table(sections)|)
    else
      assert Fits1(sections, j - 2);
      var section := sections[j - 2];
      DataWords(NameOffset(sections, j - 1), DataOffset(DataStart(sections), sections, j - 2),
                |section.data|, crc(section.data))
  }

  ghost function Headers(sections: seq<Section>, crc: seq<Byte> -> U32): (r: seq<seq<Byte>>)
    requires NamesOk(sections) && Fits(sections)
    ensures |r| == |sections| + 2
    ensures forall j :: 0 <= j < |r| ==> |r[j]| == 40 && r[j] == Words(HeaderWords(sections, crc, j))
  {
    seq(|sections| + 2, j requires 0 <= j < |sections| + 2 => Words(HeaderWords(sections, crc, j)))
  }

  function Blobs(sections: seq<Section>): (r: seq<seq<Byte>>)
    ensures |r| == |sections| && forall i :: 0 <= i < |r| ==> r[i] == Padded(sections[i].data)
  {
    seq(|sections|, i requires 0 <= i < |sections| => Padded(sections[i].data))
  }

  function Assemble(head: seq<Byte>, headers: seq<seq<Byte>>, table: seq<Byte>, blobs: seq<seq<Byte>>): seq<Byte> {
    head + Flatten(headers) + table + Flatten(blobs)
  }

  ghost function Image(sections: seq<Section>, crc: seq<Byte> -> U32): seq<Byte>
    requires NamesOk(sections) && Fits(sections)
  {
    Assemble(ElfHeader(|sections|), Headers(sections, crc), Padded(Table(sections)), Blobs(sections))
  }

  // ----- where things are -----

  ghost predicate Uniform(headers: seq<seq<Byte>>) {
    forall j :: 0 <= j < |headers| ==> |headers[j]| == 40
  }

  lemma SliceOfPart(before: seq<Byte>, part: seq<Byte>, after: seq<Byte>, i: nat, j: nat)
    requires i <= j <= |part|
    ensures (before + part + after)[|before| + i..|before| + j] == part[i..j]
  {
  }

  lemma AllHeaders(headers: seq<seq<Byte>>)
    requires Uniform(headers)
    ensures |Flatten(headers)| == 40 * |headers|
  {
  }

  lemma HeaderIn(head: seq<Byte>, headers: seq<seq<Byte>>, table: seq<Byte>, blobs: seq<seq<Byte>>, j: nat)
    requires Uniform(headers) && j < |headers|
    ensures var f, h := Assemble(head, headers, table, blobs), |head| + 40 * j;
      h + 40 <= |f| && f[h..h + 40] == headers[j]
  {
    AllHeaders(headers);
    FlattenUniform(headers, j);
    FlattenPiece(headers, j);
    assert Assemble(head, headers, table, blobs) == head + Flatten(headers) + (table + Flatten(blobs));
    SliceOfPart(head, Flatten(headers), table + Flatten(blobs), 40 * j, 40 * j + 40);
  }

  lemma TableIn(head: seq<Byte>, headers: seq<seq<Byte>>, table: seq<Byte>, blobs: seq<seq<Byte>>, size: nat)
    requires Uniform(headers) && size <= |table|
    ensures var f, t := Assemble(head, headers, table, blobs), |head| + 40 * |headers|;
      t + size <= |f| && f[t..t + size] == table[..size]
  {
    AllHeaders(headers);
    SliceOfPart(head + Flatten(headers), table, Flatten(blobs), 0, size);
  }

  lemma BlobIn(head: seq<Byte>, headers: seq<seq<Byte>>, table: seq<Byte>, blobs: seq<seq<Byte>>, i: nat, size: nat)
    requires Uniform(headers) && i < |blobs| && size <= |blobs[i]|
    ensures var f, d := Assemble(head, headers, table, blobs),
                        |head| + 40 * |headers| + |table| + |Flatten(blobs[..i])|;
      d + size <= |f| && f[d..d + size] == blobs[i][..size]
  {
    AllHeaders(headers);
    FlattenPiece(blobs, i);
    var before, start := head + Flatten(headers) + table, |Flatten(blobs[..i])|;
    assert Assemble(head, headers, table, blobs) == before + Flatten(blobs) + [];
    SliceOfPart(before, Flatten(blobs), [], start, start + size);
    assert Flatten(blobs)[start..start + size] == Flatten(blobs)[start..start + |blobs[i]|][..size];
  }

  lemma {:induction false} BlobStart(start: nat, sections: seq<Section>, i: nat)
    requires i <= |sections|
    ensures start + |Flatten(Blobs(sections)[..i])| == DataOffset(start, sections, i)
    decreases i
  {
    if i == 0 {
      assert Blobs(sections)[..0] == [];
    } else {
      BlobStart(start, sections, i - 1);
      FlattenSnoc(Blobs(sections), i - 1);
    }
  }

  lemma SumAligned(a: nat, b: nat)
    requires a % 4 == 0 && b % 4 == 0
    ensures (a + b) % 4 == 0
  {
  }

  lemma {:induction false} OffsetsAligned(start: nat, sections: seq<Section>, i: nat)
    requires i <= |sections| && start % 4 == 0
    ensures DataOffset(start, sections, i) % 4 == 0
    decreases i
  {
    if i > 0 {
      OffsetsAligned(start, sections, i - 1);
      SumAligned(DataOffset(start, sections, i - 1), PaddedSize(|sections[i - 1].data|));
    }
  }

  lemma ImageSize(sections: seq<Section>, crc: seq<Byte> -> U32)
    requires NamesOk(sections) && Fits(sections)
    ensures DataOffset(DataStart(sections), sections, |sections|) == |Image(sections, crc)|
  {
    AllHeaders(Headers(sections, crc));
    BlobStart(DataStart(sections), sections, |sections|);
    assert Blobs(sections)[..|sections|] == Blobs(sections);
  }

  lemma TableAligned(n: nat)
    ensures TableOffset(n) % 4 == 0
  {
    assert TableOffset(n) == 4 * (13 + 10 * (n + 2));
  }

  /** The string table and the sections start on 4-byte boundaries, follow each other without overlap,
      and the last of them ends the file. */
  lemma SectionsAligned(sections: seq<Section>, crc: seq<Byte> -> U32, i: nat)
    requires NamesOk(sections) && Fits(sections) && i < |sections|
    ensures var start := DataStart(sections);
      && TableOffset(|sections|) % 4 == 0
      && TableOffset(|sections|) + |Table(sections)| <= start
      && DataOffset(start, sections, i) % 4 == 0
      && DataOffset(start, sections, i) + |sections[i].data| <= DataOffset(start, sections, i + 1)
      && DataOffset(start, sections, |sections|) == |Image(sections, crc)|
  {
    ImageSize(sections, crc);
    TableAligned(|sections|);
    SumAligned(TableOffset(|sections|), PaddedSize(|Table(sections)|));
    OffsetsAligned(DataStart(sections), sections, i);
  }
}
