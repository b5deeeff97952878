module FirmwareFile {
  import opened Bytes
  import opened ElfImage

  /** A file opened for writing; `f.tell()` is `|data|`. */
  class OutFile {
    var data: seq<Byte>

    constructor ()
      ensures data == []
    {
      data := [];
    }

    method Write(b: seq<Byte>)
      modifies this
      ensures data == old(data) + b
    {
      data := data + b;
    }

    /** `write_padded`. */
    method WritePadded(b: seq<Byte>) returns (padded: nat)
      modifies this
      ensures data == old(data) + Padded(b) && padded == PaddedSize(|b|)
      ensures |data| == |old(data)| + padded
      ensures |old(data)| % 4 == 0 ==> |data| % 4 == 0
    {
      Write(b);
      padded := PaddedSize(|b|);
      if padded > |b| {
        Write(Zeros(padded - |b|));
      }
      assert data == old(data) + Padded(b);
      if |old(data)| % 4 == 0 {
        SumAligned(|old(data)|, padded);
      }
    }
  }
}
