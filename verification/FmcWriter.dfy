/** `fmc` of nouveau/extract-firmware-nouveau.py: writes the four FMC blobs into an ELF image, step by step. */
module FmcWriter {
  import opened Options
  import opened Bytes
  import opened ElfImage
  import opened ElfReader
  import opened FirmwareFile

  /** `elf_build_shstrtab`. */
  method BuildTable(names: seq<seq<Byte>>) returns (table: seq<Byte>)
    ensures table == StringTable(names)
  {
    var all := [SHSTRTAB] + names;
    ghost var pieces := [[0]] + Terminated(all);
    table := [0];
    assert pieces[..1] == [[0]];
    assert Flatten(pieces[..1]) == [0];
    for i := 0 to |all|
      invariant table == Flatten(pieces[..i + 1])
    {
      FlattenSnoc(pieces, i + 1);
      table := table + (all[i] + [0]);
    }
    assert pieces[..|all| + 1] == pieces;
  }

  const HASH: seq<Byte> := [0x68, 0x61, 0x73, 0x68]
  const SIGNATURE: seq<Byte> := [0x73, 0x69, 0x67, 0x6e, 0x61, 0x74, 0x75, 0x72, 0x65]
  const PUBLICKEY: seq<Byte> := [0x70, 0x75, 0x62, 0x6c, 0x69, 0x63, 0x6b, 0x65, 0x79]
  const IMAGE: seq<Byte> := [0x69, 0x6d, 0x61, 0x67, 0x65]

  function FmcSections(hash: seq<Byte>, sig: seq<Byte>, pkey: seq<Byte>, image: seq<Byte>): (r: seq<Section>)
    ensures |r| == 4 && NamesOk(r)
  {
    [Section(HASH, hash), Section(SIGNATURE, sig), Section(PUBLICKEY, pkey), Section(IMAGE, image)]
  }

  lemma FlattenFour(p: seq<seq<Byte>>)
    requires |p| == 4
    ensures Flatten(p) == p[0] + p[1] + p[2] + p[3]
  {
    FlattenSnoc(p, 0);
    FlattenSnoc(p, 1);
    FlattenSnoc(p, 2);
    FlattenSnoc(p, 3);
    assert p[..0] == [] && p[..4] == p;
  }

  lemma FlattenSix(p: seq<seq<Byte>>)
    requires |p| == 6
    ensures Flatten(p) == p[0] + p[1] + p[2] + p[3] + p[4] + p[5]
  {
    FlattenFour(p[..4]);
    FlattenSnoc(p, 4);
    FlattenSnoc(p, 5);
    assert p[..6] == p;
  }

  lemma AssembleInOrder(head: seq<Byte>, hs: seq<seq<Byte>>, table: seq<Byte>, bs: seq<seq<Byte>>)
    requires |hs| == 6 && |bs| == 4
    ensures head + hs[0] + hs[1] + hs[2] + hs[3] + hs[4] + hs[5] + table + bs[0] + bs[1] + bs[2] + bs[3]
         == Assemble(head, hs, table, bs)
  {
    FlattenSix(hs);
    FlattenFour(bs);
    assert head + hs[0] + hs[1] + hs[2] + hs[3] + hs[4] + hs[5] == head + Flatten(hs);
    var front := head + Flatten(hs) + table;
    assert front + bs[0] + bs[1] + bs[2] + bs[3] == front + Flatten(bs);
  }

  lemma ZeroWords()
    ensures Words([0, 0, 0, 0, 0, 0, 0, 0, 0, 0]) == Zeros(40)
  {
    assert Pack32(0) == Zeros(4);
    assert Words([0]) == Zeros(4);
    assert Words([0, 0]) == Zeros(8);
    assert Words([0, 0, 0]) == Zeros(12);
    assert Words([0, 0, 0, 0]) == Zeros(16);
    assert Words([0, 0, 0, 0, 0]) == Zeros(20);
    assert Words([0, 0, 0, 0, 0, 0]) == Zeros(24);
    assert Words([0, 0, 0, 0, 0, 0, 0]) == Zeros(28);
    assert Words([0, 0, 0, 0, 0, 0, 0, 0]) == Zeros(32);
    assert Words([0, 0, 0, 0, 0, 0, 0, 0, 0]) == Zeros(36);
  }

  /** `offset_of` does not raise for a name in the table. */
  lemma NameFound(sections: seq<Section>, i: nat)
    requires NamesOk(sections) && i < |sections|
    ensures OffsetOf(sections[i].name, Table(sections)).Some?
    ensures OffsetOf(sections[i].name, Table(sections)).value < |Table(sections)|
  {
    OffsetOfFindsName(Names(sections), i + 1, sections[i].name);
  }

  lemma TableNameFound(sections: seq<Section>)
    requires NamesOk(sections)
    ensures OffsetOf(SHSTRTAB, Table(sections)).Some?
    ensures OffsetOf(SHSTRTAB, Table(sections)).value < |Table(sections)|
  {
    OffsetOfFindsName(Names(sections), 0, SHSTRTAB);
  }

  predicate Word(x: nat) {
    x < 0x1_0000_0000
  }

  /** `elf_section_header_shstrtab` for four sections; None stands for the exception of `struct.pack`. */
  function TableHeader(table: seq<Byte>): Option<seq<Byte>> {
    var name := OffsetOf(SHSTRTAB, table);
    if name.Some? && Word(name.value) && Word(|table|) then Some(Words(TableWords(name.value, 52 + 40 * (4 + 2), |table|))) else None
  }

  /** `elf_section_header` for one blob; None stands for the exceptions of `offset_of` and `struct.pack`. */
  function DataHeader(name: seq<Byte>, table: seq<Byte>, offset: nat, data: seq<Byte>, crc: U32): Option<seq<Byte>> {
    var at := OffsetOf(name, table);
    if at.Some? && Word(at.value) && Word(offset) && Word(|data|) then Some(Words(DataWords(at.value, offset, |data|, crc))) else None
  }

  /** The ELF header and the section headers, in order. */
  method WriteHeaders(f: OutFile, head: seq<Byte>, first: seq<Byte>, table: Option<seq<Byte>>, hash: Option<seq<Byte>>,
                      sig: Option<seq<Byte>>, pkey: Option<seq<Byte>>, image: Option<seq<Byte>>)
    returns (ok: bool)
    requires f.data == []
    modifies f
    ensures ok <==> table.Some? && hash.Some? && sig.Some? && pkey.Some? && image.Some?
    ensures ok ==> f.data == head + first + table.value + hash.value + sig.value + pkey.value + image.value
  {
    ok := false;
    f.Write(head);
    assert f.data == head;
    f.Write(first);
    if table.None? {
      return;
    }
    f.Write(table.value);
    if hash.None? {
      return;
    }
    f.Write(hash.value);
    if sig.None? {
      return;
    }
    f.Write(sig.value);
    if pkey.None? {
      return;
    }
    f.Write(pkey.value);
    if image.None? {
      return;
    }
    f.Write(image.value);
    ok := true;
  }

  /** Section `i` has a header exactly when the string table and its own numbers fit. */
  lemma DataHeaderSome(sections: seq<Section>, i: nat, offset: nat, crc: U32)
    requires NamesOk(sections) && i < |sections| && Word(|Table(sections)|)
    requires offset == DataOffset(DataStart(sections), sections, i)
    ensures DataHeader(sections[i].name, Table(sections), offset, sections[i].data, crc).Some? <==> Fits1(sections, i)
  {
    NameFound(sections, i);
  }

  lemma TableHeaderSome(sections: seq<Section>)
    requires NamesOk(sections)
    ensures TableHeader(Table(sections)).Some? <==> Word(|Table(sections)|)
  {
    TableNameFound(sections);
  }

  /** These are the headers of the image. */
  lemma DataHeaderIs(sections: seq<Section>, crc: seq<Byte> -> U32, i: nat, offset: nat)
    requires NamesOk(sections) && Fits(sections) && i < |sections|
    requires offset == DataOffset(DataStart(sections), sections, i)
    ensures DataHeader(sections[i].name, Table(sections), offset, sections[i].data, crc(sections[i].data))
         == Some(Headers(sections, crc)[i + 2])
  {
    assert Fits1(sections, i);
    NameFound(sections, i);
    assert ([SHSTRTAB] + Names(sections))[i + 1] == sections[i].name;
    var at := OffsetOf(sections[i].name, Table(sections)).value;
    assert HeaderWords(sections, crc, i + 2) == DataWords(at, offset, |sections[i].data|, crc(sections[i].data));
  }

  lemma TableHeaderIs(sections: seq<Section>, crc: seq<Byte> -> U32)
    requires NamesOk(sections) && Fits(sections) && |sections| == 4
    ensures TableHeader(Table(sections)) == Some(Headers(sections, crc)[1])
  {
    TableNameFound(sections);
    assert ([SHSTRTAB] + Names(sections))[0] == SHSTRTAB;
  }

  lemma FitsFour(sections: seq<Section>)
    requires |sections| == 4
    ensures Fits(sections) <==>
      (&& Word(|Table(sections)|)
       && Fits1(sections, 0) && Fits1(sections, 1) && Fits1(sections, 2) && Fits1(sections, 3))
  {
  }

  /** The string table and the four blobs; the alignment assertions of the script hold. */
  method WriteBlobs(f: OutFile, table: seq<Byte>, hash: seq<Byte>, sig: seq<Byte>, pkey: seq<Byte>, image: seq<Byte>)
    requires |f.data| % 4 == 0
    modifies f
    ensures f.data == old(f.data) + Padded(table) + Padded(hash) + Padded(sig) + Padded(pkey) + Padded(image)
  {
    var _ := f.WritePadded(table);
    assert |f.data| % 4 == 0;
    var _ := f.WritePadded(hash);
    assert |f.data| % 4 == 0;
    var _ := f.WritePadded(sig);
    assert |f.data| % 4 == 0;
    var _ := f.WritePadded(pkey);
    assert |f.data| % 4 == 0;
    var _ := f.WritePadded(image);
    assert |f.data| % 4 == 0;
  }

  ghost function Offset(sections: seq<Section>, i: nat): nat
    requires i < |sections|
  {
    DataOffset(DataStart(sections), sections, i)
  }

  /** The offsets of `fmc` are those of the image. */
  lemma FmcOffsets(sections: seq<Section>)
    requires |sections| == 4
    ensures Offset(sections, 0) == 52 + 40 * (4 + 2) + PaddedSize(|Table(sections)|)
    ensures Offset(sections, 1) == Offset(sections, 0) + PaddedSize(|sections[0].data|)
    ensures Offset(sections, 2) == Offset(sections, 1) + PaddedSize(|sections[1].data|)
    ensures Offset(sections, 3) == Offset(sections, 2) + PaddedSize(|sections[2].data|)
  {
  }

  ghost predicate AreHeaders(sections: seq<Section>, crc: seq<Byte> -> U32, headers: seq<Option<seq<Byte>>>) {
    && |sections| == 4 && |headers| == 4
    && forall i :: 0 <= i < 4 ==>
         headers[i] == DataHeader(sections[i].name, Table(sections), Offset(sections, i), sections[i].data, crc(sections[i].data))
  }

  /** The four section offsets of `fmc`. */
  method MakeOffsets(table: seq<Byte>, hash: seq<Byte>, sig: seq<Byte>, pkey: seq<Byte>, ghost sections: seq<Section>)
    returns (hashOffset: nat, sigOffset: nat, pkeyOffset: nat, imageOffset: nat)
    requires |sections| == 4 && table == Table(sections)
    requires sections[0].data == hash && sections[1].data == sig && sections[2].data == pkey
    ensures hashOffset == Offset(sections, 0) && sigOffset == Offset(sections, 1)
    ensures pkeyOffset == Offset(sections, 2) && imageOffset == Offset(sections, 3)
  {
    hashOffset := 52 + 40 * (4 + 2) + PaddedSize(|table|);
    sigOffset := hashOffset + PaddedSize(|hash|);
    pkeyOffset := sigOffset + PaddedSize(|sig|);
    imageOffset := pkeyOffset + PaddedSize(|pkey|);
    FmcOffsets(sections);
  }

  /** The four section headers of `fmc`. */
  method MakeHeaders(table: seq<Byte>, hash: seq<Byte>, sig: seq<Byte>, pkey: seq<Byte>, image: seq<Byte>,
                     crc: seq<Byte> -> U32, ghost sections: seq<Section>)
    returns (headers: seq<Option<seq<Byte>>>)
    requires |sections| == 4 && table == Table(sections)
    requires sections[0] == Section(HASH, hash) && sections[1] == Section(SIGNATURE, sig)
    requires sections[2] == Section(PUBLICKEY, pkey) && sections[3] == Section(IMAGE, image)
    ensures AreHeaders(sections, crc, headers)
  {
    var hashOffset, sigOffset, pkeyOffset, imageOffset := MakeOffsets(table, hash, sig, pkey, sections);
    var hashHeader := DataHeader(HASH, table, hashOffset, hash, crc(hash));
    var sigHeader := DataHeader(SIGNATURE, table, sigOffset, sig, crc(sig));
    var pkeyHeader := DataHeader(PUBLICKEY, table, pkeyOffset, pkey, crc(pkey));
    var imageHeader := DataHeader(IMAGE, table, imageOffset, image, crc(image));
    headers := [hashHeader, sigHeader, pkeyHeader, imageHeader];
  }

  /** All headers exist exactly when everything fits, and they take up whole words. */
  lemma HeadersExist(sections: seq<Section>, crc: seq<Byte> -> U32, headers: seq<Option<seq<Byte>>>)
    requires NamesOk(sections) && AreHeaders(sections, crc, headers)
    ensures Fits(sections) <==>
      (&& TableHeader(Table(sections)).Some?
       && headers[0].Some? && headers[1].Some? && headers[2].Some? && headers[3].Some?)
    ensures forall i :: 0 <= i < 4 && headers[i].Some? ==> |headers[i].value| == 40
  {
    FitsFour(sections);
    TableHeaderSome(sections);
    if Word(|Table(sections)|) {
      forall i: nat | i < 4
        ensures headers[i].Some? <==> Fits1(sections, i)
      {
        DataHeaderSome(sections, i, Offset(sections, i), crc(sections[i].data));
      }
    }
  }

  lemma HeadersAre(sections: seq<Section>, crc: seq<Byte> -> U32, headers: seq<Option<seq<Byte>>>)
    requires NamesOk(sections) && Fits(sections) && AreHeaders(sections, crc, headers)
    ensures var hs := Headers(sections, crc);
      && Zeros(40) == hs[0] && TableHeader(Table(sections)) == Some(hs[1])
      && headers[0] == Some(hs[2]) && headers[1] == Some(hs[3]) && headers[2] == Some(hs[4]) && headers[3] == Some(hs[5])
  {
    var hs := Headers(sections, crc);
    ZeroWords();
    TableHeaderIs(sections, crc);
    forall i: nat | i < 4
      ensures headers[i] == Some(hs[i + 2])
    {
      DataHeaderIs(sections, crc, i, Offset(sections, i));
    }
  }

  /** `fmc`. It raises exactly when some number does not fit its 32-bit field; otherwise the file it
      leaves is the image of the four blobs under their names. */
  method WriteFmc(f: OutFile, hash: seq<Byte>, sig: seq<Byte>, pkey: seq<Byte>, image: seq<Byte>, crc: seq<Byte> -> U32)
    returns (ok: bool)
    requires f.data == []
    modifies f
    ensures ok <==> Fits(FmcSections(hash, sig, pkey, image))
    ensures ok ==> f.data == Image(FmcSections(hash, sig, pkey, image), crc)
  {
    ghost var sections := FmcSections(hash, sig, pkey, image);
    var table := BuildTable([HASH, SIGNATURE, PUBLICKEY, IMAGE]);
    assert Names(sections) == [HASH, SIGNATURE, PUBLICKEY, IMAGE];
    var headers := MakeHeaders(table, hash, sig, pkey, image, crc, sections);
    HeadersExist(sections, crc, headers);
    ok := WriteAll(f, ElfHeader(4), Zeros(40), table, TableHeader(table), headers, hash, sig, pkey, image);
    if ok {
      HeadersAre(sections, crc, headers);
      AssembleInOrder(ElfHeader(4), Headers(sections, crc), Padded(table), Blobs(sections));
    }
  }

  /** The writes of `fmc`, in order. */
  method WriteAll(f: OutFile, head: seq<Byte>, first: seq<Byte>, table: seq<Byte>, tableHeader: Option<seq<Byte>>,
                  headers: seq<Option<seq<Byte>>>, hash: seq<Byte>, sig: seq<Byte>, pkey: seq<Byte>, image: seq<Byte>)
    returns (ok: bool)
    requires f.data == [] && |head| == 52 && |first| == 40 && |headers| == 4
    requires tableHeader.Some? ==> |tableHeader.value| == 40
    requires forall i :: 0 <= i < 4 && headers[i].Some? ==> |headers[i].value| == 40
    modifies f
    ensures ok <==> tableHeader.Some? && headers[0].Some? && headers[1].Some? && headers[2].Some? && headers[3].Some?
    ensures ok ==> f.data == head + first + tableHeader.value
                             + headers[0].value + headers[1].value + headers[2].value + headers[3].value
                             + Padded(table) + Padded(hash) + Padded(sig) + Padded(pkey) + Padded(image)
  {
    ok := WriteHeaders(f, head, first, tableHeader, headers[0], headers[1], headers[2], headers[3]);
    if ok {
      assert |f.data| == 52 + 40 * (4 + 2);
      WriteBlobs(f, table, hash, sig, pkey, image);
    }
  }

  /** What a reader finds in the file that `fmc` leaves. */
  lemma FmcReadsBack(hash: seq<Byte>, sig: seq<Byte>, pkey: seq<Byte>, image: seq<Byte>, crc: seq<Byte> -> U32)
    requires Fits(FmcSections(hash, sig, pkey, image))
    ensures var sections := FmcSections(hash, sig, pkey, image);
      Read(Image(sections, crc)) == Some([Section(SHSTRTAB, Table(sections))] + sections)
  {
    ReadBack(FmcSections(hash, sig, pkey, image), crc);
  }
}
