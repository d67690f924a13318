/**
  The two streaming consumers of a delta update in OTAImageProcessorImpl.cpp, from a fresh session: the
  patch header taken off the front of the downloaded stream, and the image header checked before the
  patched image is written. A session ends at its first error.
  */
module DeltaOta {
  import opened Options
  import opened Ascii

  datatype Error = InvalidArg | InvalidVersion | WriteFailed

  // -------------------------------------------------------------------------
  // The image that the patcher writes
  // -------------------------------------------------------------------------

  // The image header of the platform: how long it is and whether its chip id is the expected one.
  datatype Format = Format(length: nat, accepts: seq<Byte> -> bool)

  // A buffer to write, and whether each of the flash writes that it may lead to succeeds.
  datatype Chunk = Chunk(data: seq<Byte>, headerOk: bool, dataOk: bool)

  datatype Image = Image(header: seq<Byte>, verified: bool, written: seq<Byte>, error: Option<Error>)

  const BLANK := Image([], false, [], None)

  function WriteData(s: Image, data: seq<Byte>, ok: bool): Image {
    if ok then s.(written := s.written + data) else s.(error := Some(WriteFailed))
  }

  function Write(f: Format, s: Image, c: Chunk): (r: Image)
    requires |s.header| <= f.length
    ensures |r.header| <= f.length
  {
    if c.data == [] then s.(error := Some(InvalidArg))
    else if s.verified then WriteData(s, c.data, c.dataOk)
    else if |s.header| + |c.data| <= f.length then s.(header := s.header + c.data)
    else
      var index := f.length - |s.header|;
      var header := s.header + c.data[..index];
      if !f.accepts(header) then s.(header := [], error := Some(InvalidVersion))
      else
        var s1 := WriteData(s.(header := [], verified := true), header, c.headerOk);
        if s1.error.Some? then s1 else WriteData(s1, c.data[index..], c.dataOk)
  }

  function Deliver(f: Format, chunks: seq<Chunk>): (r: Image)
    ensures |r.header| <= f.length
  {
    if chunks == [] then BLANK
    else
      var s := Deliver(f, chunks[..|chunks| - 1]);
      if s.error.Some? then s else Write(f, s, chunks[|chunks| - 1])
  }

  function Stream(chunks: seq<Chunk>): seq<Byte> {
    if chunks == [] then [] else Stream(chunks[..|chunks| - 1]) + chunks[|chunks| - 1].data
  }

  // The image that arrives in one piece.
  function Whole(f: Format, stream: seq<Byte>): Image {
    if |stream| <= f.length then Image(stream, false, [], None)
    else if !f.accepts(stream[..f.length]) then Image([], false, [], Some(InvalidVersion))
    else Image([], true, stream, None)
  }

  // Nothing is written unless the image header was read in full and its chip id is right.
  predicate Checked(f: Format, written: seq<Byte>, stream: seq<Byte>) {
    && written <= stream
    && (written != [] ==> |stream| > f.length && f.accepts(stream[..f.length]))
  }

  predicate Explains(f: Format, s: Image, stream: seq<Byte>) {
    && Checked(f, s.written, stream)
    && (s.error.None? ==> s == Whole(f, stream))
    && (s.error == Some(InvalidVersion) ==> s == Whole(f, stream))
  }

  lemma GrownStream(f: Format, s: Image, stream: seq<Byte>, more: seq<Byte>)
    requires Explains(f, s, stream) && s.error.Some?
    ensures Explains(f, s, stream + more)
  {
    if |stream| > f.length {
      assert (stream + more)[..f.length] == stream[..f.length];
    }
  }

  // The buffer that completes the header.
  lemma WriteCompletes(f: Format, s: Image, c: Chunk)
    requires |s.header| <= f.length < |s.header| + |c.data| && s == Image(s.header, false, [], None)
    ensures Explains(f, Write(f, s, c), s.header + c.data)
    ensures c.headerOk && c.dataOk ==> Write(f, s, c) == Whole(f, s.header + c.data)
  {
    var index := f.length - |s.header|;
    var header, stream := s.header + c.data[..index], s.header + c.data;
    assert stream[..f.length] == header;
    assert header + c.data[index..] == stream;
  }

  lemma WriteExplains(f: Format, s: Image, stream: seq<Byte>, c: Chunk)
    requires |s.header| <= f.length && s.error.None? && Explains(f, s, stream)
    ensures Explains(f, Write(f, s, c), stream + c.data)
    ensures c.data != [] && c.headerOk && c.dataOk ==> Write(f, s, c) == Whole(f, stream + c.data)
  {
    if s.verified {
      assert (stream + c.data)[..f.length] == stream[..f.length];
    } else if |stream| + |c.data| > f.length {
      WriteCompletes(f, s, c);
    }
  }

  // Whatever the split, the failing writes and the empty buffers: what has been written is an initial
  // part of the stream and only of a checked one; a session without error has done all that the
  // stream calls for; and a session refused for its chip id has written nothing.
  lemma {:induction false} WrittenIsChecked(f: Format, chunks: seq<Chunk>)
    ensures Explains(f, Deliver(f, chunks), Stream(chunks))
  {
    if chunks != [] {
      var rest, last := chunks[..|chunks| - 1], chunks[|chunks| - 1];
      WrittenIsChecked(f, rest);
      if Deliver(f, rest).error.Some? {
        GrownStream(f, Deliver(f, rest), Stream(rest), last.data);
      } else {
        WriteExplains(f, Deliver(f, rest), Stream(rest), last);
      }
    }
  }

  // Without failing writes every split into non-empty buffers does what one buffer would: everything is
  // written once the stream is longer than the header, or nothing at all if the chip id is wrong.
  lemma {:induction false} EverySplitIsWhole(f: Format, chunks: seq<Chunk>)
    requires forall c :: c in chunks ==> c.data != [] && c.headerOk && c.dataOk
    ensures Deliver(f, chunks) == Whole(f, Stream(chunks))
  {
    if chunks != [] {
      var rest, last := chunks[..|chunks| - 1], chunks[|chunks| - 1];
      EverySplitIsWhole(f, rest);
      assert last in chunks;
      WrittenIsChecked(f, rest);
      if Deliver(f, rest).error.Some? {
        GrownStream(f, Deliver(f, rest), Stream(rest), last.data);
      } else {
        WriteExplains(f, Deliver(f, rest), Stream(rest), last);
      }
    }
  }

  lemma SplitsAgree(f: Format, a: seq<Chunk>, b: seq<Chunk>)
    requires forall c :: c in a + b ==> c.data != [] && c.headerOk && c.dataOk
    requires Stream(a) == Stream(b)
    ensures Deliver(f, a) == Deliver(f, b)
  {
    assert forall c :: c in a || c in b ==> c in a + b;
    EverySplitIsWhole(f, a);
    EverySplitIsWhole(f, b);
  }

  // -------------------------------------------------------------------------
  // The patch header
  // -------------------------------------------------------------------------

  const PATCH_HEADER_SIZE := 64
  const DIGEST_SIZE := 32
  const DELTA_OTA_MAGIC := 0xfccdde10

  // The 32-bit word that a little-endian processor reads at the start.
  function Word(bytes: seq<Byte>): nat
    requires |bytes| >= 4
  {
    var b: seq<int> := [bytes[0], bytes[1], bytes[2], bytes[3]];
    b[0] + 0x100 * b[1] + 0x1_0000 * b[2] + 0x100_0000 * b[3]
  }

  predicate VerifyPatchHeader(header: seq<Byte>, sha256: seq<Byte>)
    requires |header| == PATCH_HEADER_SIZE && |sha256| == DIGEST_SIZE
  {
    Word(header) == DELTA_OTA_MAGIC && header[4..4 + DIGEST_SIZE] == sha256
  }

  // A header is accepted exactly when it begins with the magic bytes and the digest of the running firmware.
  lemma HeaderAccepted(header: seq<Byte>, sha256: seq<Byte>)
    requires |header| == PATCH_HEADER_SIZE && |sha256| == DIGEST_SIZE
    ensures VerifyPatchHeader(header, sha256) <==> [0x10, 0xde, 0xcd, 0xfc] + sha256 <= header
  {
    var magic: seq<Byte> := [0x10, 0xde, 0xcd, 0xfc];
    assert Word(header) == DELTA_OTA_MAGIC <==> header[..4] == magic;
    assert header[..4 + DIGEST_SIZE] == header[..4] + header[4..4 + DIGEST_SIZE];
    assert (magic + sha256)[..4] == magic && (magic + sha256)[4..] == sha256;
  }

  // `checked` is the header that was checked, and `fed` what the patcher was given.
  datatype Patch = Patch(header: seq<Byte>, verified: bool, checked: Option<seq<Byte>>, fed: seq<Byte>,
                         error: Option<Error>)

  const UNREAD := Patch([], false, None, [], None)

  // A block of the download, and whether the patcher takes what it is fed.
  datatype Block = Block(data: seq<Byte>, feedOk: bool)

  function Feed(p: Patch, data: seq<Byte>, ok: bool): Patch {
    p.(fed := p.fed + data, error := if ok then None else Some(WriteFailed))
  }

  // A block too short to complete the header is stored, and is fed to the patcher as well.
  function ProcessBlock(p: Patch, b: Block, sha256: seq<Byte>): (r: Patch)
    requires |p.header| < PATCH_HEADER_SIZE && |sha256| == DIGEST_SIZE
    ensures |r.header| < PATCH_HEADER_SIZE
  {
    if p.verified then Feed(p, b.data, b.feedOk)
    else if |p.header| + |b.data| < PATCH_HEADER_SIZE then
      Feed(p.(header := p.header + b.data), b.data, b.feedOk)
    else
      var index := PATCH_HEADER_SIZE - |p.header|;
      var header := p.header + b.data[..index];
      var p1 := p.(header := [], checked := Some(header));
      if !VerifyPatchHeader(header, sha256) then p1.(error := Some(InvalidVersion))
      else Feed(p1.(verified := true), b.data[index..], b.feedOk)
  }

  function Download(blocks: seq<Block>, sha256: seq<Byte>): (r: Patch)
    requires |sha256| == DIGEST_SIZE
    ensures |r.header| < PATCH_HEADER_SIZE
  {
    if blocks == [] then UNREAD
    else
      var p := Download(blocks[..|blocks| - 1], sha256);
      if p.error.Some? then p else ProcessBlock(p, blocks[|blocks| - 1], sha256)
  }

  function Joined(blocks: seq<Block>): seq<Byte> {
    if blocks == [] then [] else Joined(blocks[..|blocks| - 1]) + blocks[|blocks| - 1].data
  }

  // What arrived before the block that completed the header.
  function Early(blocks: seq<Block>): seq<Byte> {
    if |Joined(blocks)| < PATCH_HEADER_SIZE then Joined(blocks)
    else if blocks == [] then []
    else Early(blocks[..|blocks| - 1])
  }

  lemma {:induction false} EarlyIsShort(blocks: seq<Block>)
    ensures |Early(blocks)| < PATCH_HEADER_SIZE && Early(blocks) <= Joined(blocks)
  {
    if |Joined(blocks)| >= PATCH_HEADER_SIZE && blocks != [] {
      EarlyIsShort(blocks[..|blocks| - 1]);
    }
  }

  // What a download comes to, from the stream and where the header was completed.
  function Downloaded(stream: seq<Byte>, early: seq<Byte>, sha256: seq<Byte>): Patch
    requires |sha256| == DIGEST_SIZE
  {
    if |stream| < PATCH_HEADER_SIZE then Patch(stream, false, None, stream, None)
    else
      var header := stream[..PATCH_HEADER_SIZE];
      if !VerifyPatchHeader(header, sha256) then Patch([], false, Some(header), early, Some(InvalidVersion))
      else Patch([], true, Some(header), early + stream[PATCH_HEADER_SIZE..], None)
  }

  lemma BlockCompletes(p: Patch, b: Block, sha256: seq<Byte>)
    requires |sha256| == DIGEST_SIZE && b.feedOk
    requires |p.header| < PATCH_HEADER_SIZE <= |p.header| + |b.data|
    requires p == Patch(p.header, false, None, p.header, None)
    ensures ProcessBlock(p, b, sha256) == Downloaded(p.header + b.data, p.header, sha256)
  {
    var index, stream := PATCH_HEADER_SIZE - |p.header|, p.header + b.data;
    assert stream[..PATCH_HEADER_SIZE] == p.header + b.data[..index];
    assert stream[PATCH_HEADER_SIZE..] == b.data[index..];
  }

  lemma BlockExtends(p: Patch, stream: seq<Byte>, early: seq<Byte>, b: Block, sha256: seq<Byte>)
    requires |sha256| == DIGEST_SIZE && p.error.None? && b.feedOk && |p.header| < PATCH_HEADER_SIZE
    requires p == Downloaded(stream, early, sha256)
    ensures ProcessBlock(p, b, sha256) ==
            Downloaded(stream + b.data, if p.verified then early else stream, sha256)
  {
    if p.verified {
      assert (stream + b.data)[..PATCH_HEADER_SIZE] == stream[..PATCH_HEADER_SIZE];
      assert (stream + b.data)[PATCH_HEADER_SIZE..] == stream[PATCH_HEADER_SIZE..] + b.data;
      assert early + (stream + b.data)[PATCH_HEADER_SIZE..] == early + stream[PATCH_HEADER_SIZE..] + b.data;
    } else if |stream| + |b.data| >= PATCH_HEADER_SIZE {
      BlockCompletes(p, b, sha256);
    }
  }

  // For every split of the stream the header checked is its first 64 bytes, and the patcher is fed what
  // follows, after whatever came before the block that completed the header.
  lemma {:induction false} EverySplitChecksTheHeader(blocks: seq<Block>, sha256: seq<Byte>)
    requires |sha256| == DIGEST_SIZE && forall b :: b in blocks ==> b.feedOk
    ensures Download(blocks, sha256) == Downloaded(Joined(blocks), Early(blocks), sha256)
  {
    if blocks != [] {
      var rest, last := blocks[..|blocks| - 1], blocks[|blocks| - 1];
      EverySplitChecksTheHeader(rest, sha256);
      assert last in blocks;
      var p := Download(rest, sha256);
      if p.error.Some? {
        assert Joined(blocks)[..PATCH_HEADER_SIZE] == Joined(rest)[..PATCH_HEADER_SIZE];
      } else {
        BlockExtends(p, Joined(rest), Early(rest), last, sha256);
      }
    }
  }

  function FirstData(blocks: seq<Block>): seq<Byte> {
    if blocks == [] then [] else if blocks[0].data != [] then blocks[0].data else FirstData(blocks[1..])
  }

  lemma {:induction false} FirstDataSnoc(blocks: seq<Block>, b: Block)
    ensures FirstData(blocks + [b]) == if FirstData(blocks) == [] then b.data else FirstData(blocks)
  {
    if blocks == [] {
      assert FirstData([b]) == if b.data != [] then b.data else FirstData([b][1..]);
    } else {
      assert (blocks + [b])[1..] == blocks[1..] + [b];
      FirstDataSnoc(blocks[1..], b);
    }
  }

  lemma {:induction false} FirstDataJoined(blocks: seq<Block>)
    ensures FirstData(blocks) == [] <==> Joined(blocks) == []
    ensures FirstData(blocks) <= Joined(blocks)
  {
    if blocks != [] {
      var rest, last := blocks[..|blocks| - 1], blocks[|blocks| - 1];
      assert blocks == rest + [last];
      FirstDataSnoc(rest, last);
      FirstDataJoined(rest);
    }
  }

  lemma {:induction false} NothingEarly(blocks: seq<Block>)
    requires |Joined(blocks)| >= PATCH_HEADER_SIZE
    ensures Early(blocks) == [] <==> |FirstData(blocks)| >= PATCH_HEADER_SIZE
  {
    var rest, last := blocks[..|blocks| - 1], blocks[|blocks| - 1];
    assert blocks == rest + [last];
    FirstDataSnoc(rest, last);
    FirstDataJoined(rest);
    if |Joined(rest)| >= PATCH_HEADER_SIZE {
      NothingEarly(rest);
    }
  }

  // The patcher is given exactly what follows the header if and only if the first block with data holds
  // the whole header.
  lemma FedIsTheRest(blocks: seq<Block>, sha256: seq<Byte>)
    requires |sha256| == DIGEST_SIZE && (forall b :: b in blocks ==> b.feedOk)
    requires |Joined(blocks)| >= PATCH_HEADER_SIZE && VerifyPatchHeader(Joined(blocks)[..PATCH_HEADER_SIZE], sha256)
    ensures Download(blocks, sha256).fed == Joined(blocks)[PATCH_HEADER_SIZE..] <==>
            |FirstData(blocks)| >= PATCH_HEADER_SIZE
  {
    EverySplitChecksTheHeader(blocks, sha256);
    NothingEarly(blocks);
    var stream := Joined(blocks);
    assert |Early(blocks) + stream[PATCH_HEADER_SIZE..]| == |Early(blocks)| + |stream[PATCH_HEADER_SIZE..]|;
  }

  // A header in two blocks: its first 36 bytes reach the patcher.
  lemma SplitHeaderIsFed(sha256: seq<Byte>, tail: seq<Byte>)
    requires |sha256| == DIGEST_SIZE && |tail| == 28
    ensures var head: seq<Byte> := [0x10, 0xde, 0xcd, 0xfc] + sha256;
            var p := Download([Block(head, true), Block(tail, true)], sha256);
            p.error.None? && p.verified && p.fed == head
  {
    var head: seq<Byte> := [0x10, 0xde, 0xcd, 0xfc] + sha256;
    var one, two := [Block(head, true)], [Block(head, true), Block(tail, true)];
    assert two[..1] == one && one[..0] == [];
    assert Joined(one) == [] + head && Joined(two) == Joined(one) + tail;
    assert Early(two) == Early(one) == head;
    HeaderAccepted(head + tail, sha256);
    assert (head + tail)[..PATCH_HEADER_SIZE] == head + tail;
    EverySplitChecksTheHeader(two, sha256);
  }
}
