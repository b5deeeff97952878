/** A reader for 32-bit little-endian ELF section tables, after chapter 4 "Object Files" of the System V
    ABI (sections "ELF Header", "Sections" and "String Table"). It knows nothing of how an image is made. */
module ElfReader {
  import opened Options
  import opened Bytes
  import opened ElfImage

  // e_shoff, e_shentsize, e_shnum and e_shstrndx
  const SHOFF_AT: nat := 32
  const SHENTSIZE_AT: nat := 46
  const SHNUM_AT: nat := 48
  const SHSTRNDX_AT: nat := 50

  predicate IsElf32(f: seq<Byte>) {
    |f| >= 52 && f[..6] == [0x7f, 0x45, 0x4c, 0x46, 1, 1]
  }

  function HeaderAt(f: seq<Byte>, j: nat): nat
    requires |f| >= 52
  {
    Get32(f, SHOFF_AT) + j * Get16(f, SHENTSIZE_AT)
  }

  /** The bytes of section `j`: `sh_size` bytes from `sh_offset`. */
  function SectionData(f: seq<Byte>, j: nat): Option<seq<Byte>>
    requires |f| >= 52
  {
    var h := HeaderAt(f, j);
    if h + 40 > |f| then None
    else
      var offset: nat, size: nat := Get32(f, h + 16), Get32(f, h + 20);
      if offset + size > |f| then None else Some(f[offset..offset + size])
  }

  function ReadSection(f: seq<Byte>, j: nat): Option<Section>
    requires |f| >= 52
  {
    var h, table, data := HeaderAt(f, j), SectionData(f, Get16(f, SHSTRNDX_AT)), SectionData(f, j);
    if h + 40 > |f| || table.None? || data.None? then None
    else Some(Section(CString(table.value, Get32(f, h)), data.value))
  }

  /** Sections `j` and up. */
  function ReadFrom(f: seq<Byte>, j: nat): Option<seq<Section>>
    requires |f| >= 52
    decreases Get16(f, SHNUM_AT) - j
  {
    if j >= Get16(f, SHNUM_AT) then Some([])
    else
      var section, rest := ReadSection(f, j), ReadFrom(f, j + 1);
      if section.None? || rest.None? then None else Some([section.value] + rest.value)
  }

  /** Every section but the null section. */
  function Read(f: seq<Byte>): Option<seq<Section>> {
    if IsElf32(f) then ReadFrom(f, 1) else None
  }

  // ----- reading an image -----

  ghost predicate HasHeader(f: seq<Byte>, n: nat) {
    && IsElf32(f)
    && Get32(f, SHOFF_AT) == 52 && Get16(f, SHENTSIZE_AT) == 40
    && Get16(f, SHNUM_AT) == n + 2 && Get16(f, SHSTRNDX_AT) == 1
  }

  ghost predicate HasSection(f: seq<Byte>, j: nat, name: nat, data: seq<Byte>) {
    var h := 52 + 40 * j;
    && h + 40 <= |f|
    && Get32(f, h) == name
    && Get32(f, h + 20) == |data|
    && Get32(f, h + 16) + |data| <= |f|
    && f[Get32(f, h + 16)..Get32(f, h + 16) + |data|] == data
  }

  /** What a reader needs to find in the file: the header, the string table, and each section under a
      name that the table holds. */
  ghost predicate Holds(f: seq<Byte>, table: seq<Byte>, sections: seq<Section>) {
    && HasHeader(f, |sections|)
    && (exists name: nat :: HasSection(f, 1, name, table) && CString(table, name) == SHSTRTAB)
    && forall i :: 0 <= i < |sections| ==> HoldsSection(f, table, i + 2, sections[i])
  }

  ghost predicate HoldsSection(f: seq<Byte>, table: seq<Byte>, j: nat, section: Section) {
    exists name: nat :: HasSection(f, j, name, section.data) && CString(table, name) == section.name
  }

  lemma ReadOne(f: seq<Byte>, n: nat, table: seq<Byte>, j: nat, name: nat, data: seq<Byte>)
    requires HasHeader(f, n) && SectionData(f, 1) == Some(table) && HasSection(f, j, name, data)
    ensures ReadSection(f, j) == Some(Section(CString(table, name), data))
  {
  }

  lemma ReadData(f: seq<Byte>, n: nat, j: nat, name: nat, data: seq<Byte>)
    requires HasHeader(f, n) && HasSection(f, j, name, data)
    ensures SectionData(f, j) == Some(data)
  {
  }

  lemma {:induction false} ReadBlobs(f: seq<Byte>, table: seq<Byte>, sections: seq<Section>, i: nat)
    requires Holds(f, table, sections) && SectionData(f, 1) == Some(table) && i <= |sections|
    ensures ReadFrom(f, i + 2) == Some(sections[i..])
    decreases |sections| - i
  {
    if i < |sections| {
      assert HoldsSection(f, table, i + 2, sections[i]);
      var name: nat :| HasSection(f, i + 2, name, sections[i].data) && CString(table, name) == sections[i].name;
      ReadOne(f, |sections|, table, i + 2, name, sections[i].data);
      ReadBlobs(f, table, sections, i + 1);
      assert [sections[i]] + sections[i + 1..] == sections[i..];
    }
  }

  lemma ReadHeld(f: seq<Byte>, table: seq<Byte>, sections: seq<Section>)
    requires Holds(f, table, sections)
    ensures Read(f) == Some([Section(SHSTRTAB, table)] + sections)
  {
    var name: nat :| HasSection(f, 1, name, table) && CString(table, name) == SHSTRTAB;
    ReadData(f, |sections|, 1, name, table);
    ReadOne(f, |sections|, table, 1, name, table);
    ReadBlobs(f, table, sections, 0);
    assert sections[0..] == sections;
  }

  // ----- an image holds its sections -----

  lemma HeaderFields(f: seq<Byte>, n: nat)
    requires n + 2 < 0x1_0000 && |f| >= 52 && f[..52] == ElfHeader(n)
    ensures HasHeader(f, n)
  {
    var words, halves := [1, 0, 0, 52, 0], [52, 0, 0, 40, n + 2, 1];
    assert f[..6] == f[..52][..6] == IDENT[..6];
    assert f[20..20 + 4 * |words|] == f[..52][20..40] == Words(words);
    assert f[40..40 + 2 * |halves|] == f[..52][40..52] == Halves(halves);
    WordAt(f, 20, words, 3);
    HalfAt(f, 40, halves, 3);
    HalfAt(f, 40, halves, 4);
    HalfAt(f, 40, halves, 5);
  }

  lemma SectionFields(f: seq<Byte>, j: nat, ws: seq<U32>, data: seq<Byte>)
    requires var h := 52 + 40 * j; h + 40 <= |f| && |ws| == 10 && f[h..h + 40] == Words(ws)
    requires ws[5] == |data| && ws[4] + |data| <= |f| && f[ws[4]..ws[4] + |data|] == data
    ensures HasSection(f, j, ws[0], data)
  {
    var h := 52 + 40 * j;
    WordAt(f, h, ws, 0);
    WordAt(f, h, ws, 4);
    WordAt(f, h, ws, 5);
  }

  lemma ImageHeader(sections: seq<Section>, crc: seq<Byte> -> U32)
    requires NamesOk(sections) && Fits(sections)
    ensures HasHeader(Image(sections, crc), |sections|)
  {
    var f := Image(sections, crc);
    assert f[..52] == ElfHeader(|sections|);
    HeaderFields(f, |sections|);
  }

  lemma TableHeld(head: seq<Byte>, headers: seq<seq<Byte>>, table: seq<Byte>, blobs: seq<seq<Byte>>,
                  ws: seq<U32>, size: nat)
    requires |head| == 52 && Uniform(headers) && 1 < |headers| && |ws| == 10 && headers[1] == Words(ws)
    requires size <= |table| && ws[4] == 52 + 40 * |headers| && ws[5] == size
    ensures HasSection(Assemble(head, headers, table, blobs), 1, ws[0], table[..size])
  {
    HeaderIn(head, headers, table, blobs, 1);
    TableIn(head, headers, table, blobs, size);
    SectionFields(Assemble(head, headers, table, blobs), 1, ws, table[..size]);
  }

  lemma BlobHeld(head: seq<Byte>, headers: seq<seq<Byte>>, table: seq<Byte>, blobs: seq<seq<Byte>>,
                 j: nat, ws: seq<U32>, i: nat, size: nat)
    requires |head| == 52 && Uniform(headers) && j < |headers| && |ws| == 10 && headers[j] == Words(ws)
    requires i < |blobs| && size <= |blobs[i]|
    requires ws[4] == 52 + 40 * |headers| + |table| + |Flatten(blobs[..i])| && ws[5] == size
    ensures HasSection(Assemble(head, headers, table, blobs), j, ws[0], blobs[i][..size])
  {
    HeaderIn(head, headers, table, blobs, j);
    BlobIn(head, headers, table, blobs, i, size);
    SectionFields(Assemble(head, headers, table, blobs), j, ws, blobs[i][..size]);
  }

  lemma ImageTable(sections: seq<Section>, crc: seq<Byte> -> U32)
    requires NamesOk(sections) && Fits(sections)
    ensures HasSection(Image(sections, crc), 1, NameOffset(sections, 0), Table(sections))
  {
    var table := Table(sections);
    TableHeld(ElfHeader(|sections|), Headers(sections, crc), Padded(table), Blobs(sections),
              HeaderWords(sections, crc, 1), |table|);
    assert Padded(table)[..|table|] == table;
  }

  lemma ImageSection(sections: seq<Section>, crc: seq<Byte> -> U32, i: nat)
    requires NamesOk(sections) && Fits(sections) && i < |sections|
    ensures HasSection(Image(sections, crc), i + 2, NameOffset(sections, i + 1), sections[i].data)
  {
    var data := sections[i].data;
    BlobStart(DataStart(sections), sections, i);
    BlobHeld(ElfHeader(|sections|), Headers(sections, crc), Padded(Table(sections)), Blobs(sections),
             i + 2, HeaderWords(sections, crc, i + 2), i, |data|);
    assert Padded(data)[..|data|] == data;
  }

  lemma ImageName(sections: seq<Section>, i: nat)
    requires NamesOk(sections) && Fits(sections) && i < |sections|
    ensures CString(Table(sections), NameOffset(sections, i + 1)) == sections[i].name
  {
  }

  lemma HoldsOne(f: seq<Byte>, table: seq<Byte>, j: nat, section: Section, name: nat)
    requires HasSection(f, j, name, section.data) && CString(table, name) == section.name
    ensures HoldsSection(f, table, j, section)
  {
  }

  lemma ImageHoldsSection(sections: seq<Section>, crc: seq<Byte> -> U32, i: nat)
    requires NamesOk(sections) && Fits(sections) && i < |sections|
    ensures HoldsSection(Image(sections, crc), Table(sections), i + 2, sections[i])
  {
    ImageSection(sections, crc, i);
    ImageName(sections, i);
    HoldsOne(Image(sections, crc), Table(sections), i + 2, sections[i], NameOffset(sections, i + 1));
  }

  lemma HoldsAll(f: seq<Byte>, table: seq<Byte>, sections: seq<Section>, name: nat)
    requires HasHeader(f, |sections|) && HasSection(f, 1, name, table) && CString(table, name) == SHSTRTAB
    requires forall i :: 0 <= i < |sections| ==> HoldsSection(f, table, i + 2, sections[i])
    ensures Holds(f, table, sections)
  {
  }

  lemma ImageHolds(sections: seq<Section>, crc: seq<Byte> -> U32)
    requires NamesOk(sections) && Fits(sections)
    ensures Holds(Image(sections, crc), Table(sections), sections)
  {
    ImageHeader(sections, crc);
    ImageTable(sections, crc);
    forall i | 0 <= i < |sections|
      ensures HoldsSection(Image(sections, crc), Table(sections), i + 2, sections[i])
    {
      ImageHoldsSection(sections, crc, i);
    }
    HoldsAll(Image(sections, crc), Table(sections), sections, NameOffset(sections, 0));
  }

  /** Reading an image back gives the string table and then exactly the named blobs that went in. */
  lemma ReadBack(sections: seq<Section>, crc: seq<Byte> -> U32)
    requires NamesOk(sections) && Fits(sections)
    ensures Read(Image(sections, crc)) == Some([Section(SHSTRTAB, Table(sections))] + sections)
  {
    ImageHolds(sections, crc);
    ReadHeld(Image(sections, crc), Table(sections), sections);
  }

  /** Word 7 of section header `j`, `sh_info`. */
  ghost predicate HasInfo(f: seq<Byte>, j: nat, info: nat) {
    52 + 40 * j + 40 <= |f| && Get32(f, 52 + 40 * j + 28) == info
  }

  lemma InfoHeld(head: seq<Byte>, headers: seq<seq<Byte>>, table: seq<Byte>, blobs: seq<seq<Byte>>, j: nat, ws: seq<U32>)
    requires |head| == 52 && Uniform(headers) && j < |headers| && |ws| == 10 && headers[j] == Words(ws)
    ensures HasInfo(Assemble(head, headers, table, blobs), j, ws[7])
  {
    HeaderIn(head, headers, table, blobs, j);
    WordAt(Assemble(head, headers, table, blobs), 52 + 40 * j, ws, 7);
  }

  /** The header of a section carries the checksum of its data. */
  lemma ImageChecksum(sections: seq<Section>, crc: seq<Byte> -> U32, i: nat)
    requires NamesOk(sections) && Fits(sections) && i < |sections|
    ensures HasInfo(Image(sections, crc), i + 2, crc(sections[i].data))
  {
    InfoHeld(ElfHeader(|sections|), Headers(sections, crc), Padded(Table(sections)), Blobs(sections),
             i + 2, HeaderWords(sections, crc, i + 2));
  }
}
