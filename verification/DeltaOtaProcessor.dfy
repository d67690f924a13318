/** The buffers, counters and flags of OTAImageProcessorImpl.cpp, updated block by block. */
module DeltaOtaProcessor {
  import opened Options
  import opened Ascii
  import opened DeltaOta

  method CopyBytes(to: array<Byte>, at: nat, from: seq<Byte>)
    requires at + |from| <= to.Length
    modifies to
    ensures to[..at + |from|] == old(to[..at]) + from
    ensures to[at + |from|..] == old(to[at + |from|..])
  {
    var i := 0;
    while i < |from|
      invariant i <= |from|
      invariant to[..at] == old(to[..at])
      invariant to[at..at + i] == from[..i]
      invariant to[at + i..] == old(to[at + i..])
    {
      to[at + i] := from[i];
      i := i + 1;
    }
    assert to[..at + |from|] == to[..at] + to[at..at + |from|];
  }

  class OTAImageProcessor {
    const format: Format
    const sha256: seq<Byte>

    const patchHeader: array<Byte>
    var patchRead: nat
    var patchHeaderVerified: bool

    const headerData: array<Byte>
    var headerRead: nat
    var chipIdVerified: bool

    // What the flash and the patcher have been given, and the patch header that was checked.
    ghost var written: seq<Byte>
    ghost var fed: seq<Byte>
    ghost var checked: Option<seq<Byte>>

    ghost predicate Valid() {
      && |sha256| == DIGEST_SIZE
      && patchHeader != headerData
      && patchHeader.Length == PATCH_HEADER_SIZE && headerData.Length == format.length
    }

    ghost predicate InRange()
      reads this
    {
      Valid() && patchRead < PATCH_HEADER_SIZE && headerRead <= format.length
    }

    ghost function Patched(): Patch
      requires InRange()
      reads this, patchHeader
    {
      Patch(patchHeader[..patchRead], patchHeaderVerified, checked, fed, None)
    }

    ghost function Imaged(): Image
      requires InRange()
      reads this, headerData
    {
      Image(headerData[..headerRead], chipIdVerified, written, None)
    }

    constructor (format: Format, sha256: seq<Byte>)
      requires |sha256| == DIGEST_SIZE
      ensures InRange() && fresh(patchHeader) && fresh(headerData)
      ensures this.format == format && this.sha256 == sha256
      ensures Patched() == UNREAD && Imaged() == BLANK
    {
      this.format, this.sha256 := format, sha256;
      patchHeader := new Byte[PATCH_HEADER_SIZE];
      headerData := new Byte[format.length];
      patchRead, patchHeaderVerified, headerRead, chipIdVerified := 0, false, 0, false;
      written, fed, checked := [], [], None;
    }

    // Hands bytes to the flash.
    method OtaWrite(data: seq<Byte>, ok: bool) returns (error: Option<Error>)
      modifies this`written
      ensures error == if ok then None else Some(WriteFailed)
      ensures written == if ok then old(written) + data else old(written)
    {
      if !ok {
        return Some(WriteFailed);
      }
      written := written + data;
      return None;
    }

    method DeltaOTAWriteCallback(buf: seq<Byte>, headerOk: bool, dataOk: bool) returns (error: Option<Error>)
      requires InRange()
      modifies this`headerRead, this`chipIdVerified, this`written, headerData
      ensures InRange()
      ensures Imaged().(error := error) == Write(format, old(Imaged()), Chunk(buf, headerOk, dataOk))
    {
      if |buf| == 0 {
        return Some(InvalidArg);
      }
      var index := 0;
      if !chipIdVerified {
        if headerRead + |buf| - index <= format.length {
          CopyBytes(headerData, headerRead, buf);
          headerRead := headerRead + |buf| - index;
          return None;
        }
        index := format.length - headerRead;
        CopyBytes(headerData, headerRead, buf[..index]);
        assert headerData[..] == headerData[..format.length];
        if !format.accepts(headerData[..]) {
          headerRead := 0;
          return Some(InvalidVersion);
        }
        chipIdVerified := true;
        headerRead := 0;
        error := OtaWrite(headerData[..], headerOk);
        if error.Some? {
          return;
        }
      }
      error := OtaWrite(buf[index..], dataOk);
    }

    // How much of the block belongs to the patch header.
    method VerifyHeaderData(buf: seq<Byte>) returns (error: Option<Error>, index: nat)
      requires InRange()
      modifies this`patchRead, this`patchHeaderVerified, this`checked, patchHeader
      ensures InRange() && index <= |buf|
      ensures error.None? ==>
                Feed(Patched(), buf[index..], true) == ProcessBlock(old(Patched()), Block(buf, true), sha256)
      ensures error.Some? ==> Patched().(error := error) == ProcessBlock(old(Patched()), Block(buf, true), sha256)
    {
      index := 0;
      if !patchHeaderVerified {
        if patchRead + |buf| < PATCH_HEADER_SIZE {
          CopyBytes(patchHeader, patchRead, buf);
          patchRead := patchRead + |buf|;
          return None, index;
        }
        index := PATCH_HEADER_SIZE - patchRead;
        CopyBytes(patchHeader, patchRead, buf[..index]);
        checked := Some(patchHeader[..]);
        assert patchHeader[..] == patchHeader[..PATCH_HEADER_SIZE];
        patchRead := 0;
        if !VerifyPatchHeader(patchHeader[..], sha256) {
          return Some(InvalidVersion), index;
        }
        patchHeaderVerified := true;
      }
      return None, index;
    }

    method HandleProcessBlock(block: seq<Byte>, feedOk: bool) returns (error: Option<Error>)
      requires InRange()
      modifies this`patchRead, this`patchHeaderVerified, this`checked, this`fed, patchHeader
      ensures InRange()
      ensures Patched().(error := error) == ProcessBlock(old(Patched()), Block(block, feedOk), sha256)
    {
      var index;
      error, index := VerifyHeaderData(block);
      if error.Some? {
        return;
      }
      fed := fed + block[index..];
      error := if feedOk then None else Some(WriteFailed);
    }

    // A whole download, from a fresh session.
    method ProcessBlocks(blocks: seq<Block>) returns (error: Option<Error>)
      requires InRange() && Patched() == UNREAD
      modifies this`patchRead, this`patchHeaderVerified, this`checked, this`fed, patchHeader
      ensures InRange()
      ensures Patched().(error := error) == Download(blocks, sha256)
    {
      error := None;
      var i := 0;
      assert blocks[..0] == [];
      while i < |blocks| && error.None?
        invariant i <= |blocks| && InRange()
        invariant Patched().(error := error) == Download(blocks[..i], sha256)
      {
        assert blocks[..i + 1][..i] == blocks[..i];
        error := HandleProcessBlock(blocks[i].data, blocks[i].feedOk);
        i := i + 1;
      }
      DownloadStops(blocks, i, sha256);
    }

    // A whole image, from a fresh session.
    method WriteChunks(chunks: seq<Chunk>) returns (error: Option<Error>)
      requires InRange() && Imaged() == BLANK
      modifies this`headerRead, this`chipIdVerified, this`written, headerData
      ensures InRange()
      ensures Imaged().(error := error) == Deliver(format, chunks)
    {
      error := None;
      var i := 0;
      assert chunks[..0] == [];
      while i < |chunks| && error.None?
        invariant i <= |chunks| && InRange()
        invariant Imaged().(error := error) == Deliver(format, chunks[..i])
      {
        assert chunks[..i + 1][..i] == chunks[..i];
        error := DeltaOTAWriteCallback(chunks[i].data, chunks[i].headerOk, chunks[i].dataOk);
        i := i + 1;
      }
      DeliverStops(format, chunks, i);
    }
  }

  lemma {:induction false} DownloadStops(blocks: seq<Block>, i: nat, sha256: seq<Byte>)
    requires i <= |blocks| && |sha256| == DIGEST_SIZE
    requires i == |blocks| || Download(blocks[..i], sha256).error.Some?
    ensures Download(blocks, sha256) == Download(blocks[..i], sha256)
  {
    if i == |blocks| {
      assert blocks[..i] == blocks;
    } else {
      var rest := blocks[..|blocks| - 1];
      assert rest[..i] == blocks[..i];
      DownloadStops(rest, i, sha256);
    }
  }

  lemma {:induction false} DeliverStops(f: Format, chunks: seq<Chunk>, i: nat)
    requires i <= |chunks|
    requires i == |chunks| || Deliver(f, chunks[..i]).error.Some?
    ensures Deliver(f, chunks) == Deliver(f, chunks[..i])
  {
    if i == |chunks| {
      assert chunks[..i] == chunks;
    } else {
      var rest := chunks[..|chunks| - 1];
      assert rest[..i] == chunks[..i];
      DeliverStops(f, rest, i);
    }
  }
}
