/**
FDS disk images.  A raw side omits the gaps, sync bytes and CRCs of the real medium:
`Stream` rebuilds them block by block, and `SideFiles` is the independent parser that
lists the files of the same side.
*/
module FdsMedia {
  import Crc
  import Sequences

  type Byte = bv8

  const SIDE_SIZE := 65_500
  const HEADER_SIZE := 16
  const LEAD_GAP := 3537
  const GAP := 122

  function Word(lo: Byte, hi: Byte): nat {
    (lo as int) + 256 * (hi as int)
  }

  function Zeros(n: nat): (z: seq<Byte>)
    ensures |z| == n && forall i :: 0 <= i < n ==> z[i] == 0
  {
    seq(n, _ => 0)
  }

  // ----- the block walk and the rebuilt stream

  /** The length of a block from its first byte and the last file size seen; 0 if no block starts here. */
  function BlockSize(kind: Byte, fileSize: nat): nat {
    if kind == 1 then 56
    else if kind == 2 then 2
    else if kind == 3 then 16
    else if kind == 4 then fileSize + 1
    else 0
  }

  function NextFileSize(block: seq<Byte>, fileSize: nat): nat
    requires |block| > 0
  {
    if block[0] == 3 && |block| == 16 then Word(block[13], block[14]) else fileSize
  }

  predicate BlockAt(raw: seq<Byte>, pos: nat, fileSize: nat) {
    pos < |raw| && 0 < BlockSize(raw[pos], fileSize) <= |raw| - pos
  }

  /** The blocks of a raw side from `pos` on. */
  function Blocks(raw: seq<Byte>, pos: nat, fileSize: nat): seq<seq<Byte>>
    decreases |raw| - pos
  {
    if !BlockAt(raw, pos, fileSize) then []
    else
      var next := pos + BlockSize(raw[pos], fileSize);
      var block := raw[pos..next];
      [block] + Blocks(raw, next, NextFileSize(block, fileSize))
  }

  function Section(block: seq<Byte>): seq<Byte> {
    [0x80] + Crc.Stored(block) + Zeros(GAP)
  }

  function Sections(blocks: seq<seq<Byte>>): seq<Byte> {
    if blocks == [] then [] else Section(blocks[0]) + Sections(blocks[1..])
  }

  function Stream(blocks: seq<seq<Byte>>): seq<Byte> {
    Zeros(LEAD_GAP) + Sections(blocks) + Zeros(GAP)
  }

  /** The stream spelled out: leading gap, sync byte, block, CRC low byte first, and the gap after it. */
  lemma StreamSpelled(block: seq<Byte>, rest: seq<seq<Byte>>)
    ensures Stream([block] + rest)
         == Zeros(3_537) +
            ([0x80] + (block + [Crc.Low(Crc.BlockCrc(block)), Crc.High(Crc.BlockCrc(block))]) + Zeros(122)
             + Sections(rest)) + Zeros(122)
  {
    SectionsFront(block, rest);
  }

  lemma SectionsFront(block: seq<Byte>, rest: seq<seq<Byte>>)
    ensures Sections([block] + rest) == Section(block) + Sections(rest)
  {
    assert ([block] + rest)[1..] == rest;
  }

  /** The bytes of the block at `pos`. */
  function BlockBytes(raw: seq<Byte>, pos: nat, fileSize: nat): (block: seq<Byte>)
    requires BlockAt(raw, pos, fileSize)
    ensures |block| > 0
  {
    raw[pos..pos + BlockSize(raw[pos], fileSize)]
  }

  lemma BlocksFront(raw: seq<Byte>, pos: nat, fileSize: nat, next: nat, nextSize: nat)
    requires BlockAt(raw, pos, fileSize) && next == pos + BlockSize(raw[pos], fileSize)
    requires nextSize == NextFileSize(BlockBytes(raw, pos, fileSize), fileSize)
    ensures Blocks(raw, pos, fileSize) == [BlockBytes(raw, pos, fileSize)] + Blocks(raw, next, nextSize)
  {
  }

  /** What the stream comes to once every block from the cursor on is pushed. */
  function Pushed(stream: seq<Byte>, raw: seq<Byte>, pos: nat, fileSize: nat): seq<Byte> {
    stream + Sections(Blocks(raw, pos, fileSize))
  }

  lemma AllPushed(stream: seq<Byte>, raw: seq<Byte>, pos: nat, fileSize: nat)
    requires !BlockAt(raw, pos, fileSize)
    ensures Pushed(stream, raw, pos, fileSize) == stream
  {
    assert Blocks(raw, pos, fileSize) == [];
  }

  /** Pushing the block under the cursor leaves the rest of the blocks to push. */
  lemma ExpandStep(
    stream: seq<Byte>, raw: seq<Byte>, pos: nat, fileSize: nat, next: nat, nextSize: nat)
    requires BlockAt(raw, pos, fileSize) && next == pos + BlockSize(raw[pos], fileSize)
    requires nextSize == NextFileSize(BlockBytes(raw, pos, fileSize), fileSize)
    ensures Pushed(stream, raw, pos, fileSize)
         == Pushed(stream + Section(BlockBytes(raw, pos, fileSize)), raw, next, nextSize)
  {
    var block, rest := BlockBytes(raw, pos, fileSize), Blocks(raw, next, nextSize);
    BlocksFront(raw, pos, fileSize, next, nextSize);
    SectionsFront(block, rest);
    Sequences.Assoc(stream, Section(block), Sections(rest));
  }

  method PushBlock(start: seq<Byte>, block: seq<Byte>) returns (stream: seq<Byte>)
    ensures stream == start + Section(block)
  {
    stream := start + [0x80];
    stream := stream + Crc.Stored(block);
    stream := stream + Zeros(GAP);
    Sequences.Assoc4(start, [0x80], Crc.Stored(block), Zeros(GAP), []);
  }

  method ExpandSide(raw: seq<Byte>) returns (stream: seq<Byte>)
    ensures stream == Stream(Blocks(raw, 0, 0))
  {
    stream := PushBlocks(raw, Zeros(LEAD_GAP));
    stream := stream + Zeros(GAP);
  }

  method PushBlocks(raw: seq<Byte>, start: seq<Byte>) returns (stream: seq<Byte>)
    ensures stream == Pushed(start, raw, 0, 0)
  {
    stream := start;
    var pos, fileSize := 0, 0;
    while pos < |raw|
      invariant 0 <= pos <= |raw| && fileSize >= 0
      invariant Pushed(stream, raw, pos, fileSize) == Pushed(start, raw, 0, 0)
    {
      var size := BlockSize(raw[pos], fileSize);
      if size == 0 || pos + size > |raw| {
        break;
      }
      var next := pos + size;
      var block := raw[pos..next];
      var nextSize := NextFileSize(block, fileSize);
      ExpandStep(stream, raw, pos, fileSize, next, nextSize);
      stream := PushBlock(stream, block);
      pos, fileSize := next, nextSize;
    }
    AllPushed(stream, raw, pos, fileSize);
  }

  /** Every block is as long as its first byte and the sizes before it say. */
  predicate WellSized(blocks: seq<seq<Byte>>, fileSize: nat)
    decreases |blocks|
  {
    blocks == [] ||
    (|blocks[0]| > 0 &&
     |blocks[0]| == BlockSize(blocks[0][0], fileSize) &&
     WellSized(blocks[1..], NextFileSize(blocks[0], fileSize)))
  }

  function Concat(blocks: seq<seq<Byte>>): seq<Byte> {
    if blocks == [] then [] else blocks[0] + Concat(blocks[1..])
  }

  /** The walk cuts the raw side into well-sized blocks, losing and inventing nothing. */
  lemma {:induction false} BlocksCutTheSide(raw: seq<Byte>, pos: nat, fileSize: nat)
    requires pos <= |raw|
    ensures WellSized(Blocks(raw, pos, fileSize), fileSize)
    ensures Concat(Blocks(raw, pos, fileSize)) <= raw[pos..]
    decreases |raw| - pos
  {
    if !BlockAt(raw, pos, fileSize) {
    } else {
      var block := BlockBytes(raw, pos, fileSize);
      var next, nextSize := pos + BlockSize(raw[pos], fileSize), NextFileSize(block, fileSize);
      BlocksCutTheSide(raw, next, nextSize);
      BlocksFront(raw, pos, fileSize, next, nextSize);
      CutAt(raw, pos, next);
      OneBlockMore(block, Blocks(raw, next, nextSize), fileSize, nextSize, raw[pos..], raw[next..]);
    }
  }

  lemma CutAt(raw: seq<Byte>, pos: nat, next: nat)
    requires pos <= next <= |raw|
    ensures raw[pos..] == raw[pos..next] + raw[next..]
  {
  }

  lemma OneBlockMore(
    block: seq<Byte>, tail: seq<seq<Byte>>, fileSize: nat, nextSize: nat, raw: seq<Byte>, rest: seq<Byte>)
    requires |block| > 0 && |block| == BlockSize(block[0], fileSize)
    requires nextSize == NextFileSize(block, fileSize) && WellSized(tail, nextSize)
    requires raw == block + rest && Concat(tail) <= rest
    ensures WellSized([block] + tail, fileSize) && Concat([block] + tail) <= raw
  {
    assert ([block] + tail)[1..] == tail;
  }

  // ----- the file parser

  datatype DiskFile = DiskFile(
    side: nat, number: Byte, id: Byte, name: string, loadAddress: nat, size: nat,
    fileType: Byte, boot: bool, data: seq<Byte>)

  datatype Warning =
    | ImageShort(sides: nat)
    | SideTooShort(side: nat)
    | NoInfoBlock(side: nat)
    | NoCountBlock(side: nat)
    | HeaderTruncated(side: nat, file: nat)
    | HeaderExpected(side: nat, file: nat, at: nat)
    | DataExpected(side: nat, file: nat, at: nat)
    | DataTruncated(side: nat, file: nat)

  /** The file whose header block starts at `pos`, or why there is none. */
  datatype FileAt = Found(file: DiskFile) | Bad(warning: Warning)

  /** Printable ASCII and spaces as they are, a dot for any other byte. */
  function Displayed(byte: Byte): char {
    if 0x20 <= byte <= 0x7E then byte as int as char else '.'
  }

  /** A stored name as it is listed: displayed, without the spaces at its end. */
  function DisplayName(bytes: seq<Byte>): (name: string)
    ensures |name| <= |bytes|
    ensures forall i :: 0 <= i < |name| ==> name[i] == Displayed(bytes[i])
    ensures forall i :: |name| <= i < |bytes| ==> bytes[i] == 0x20
    ensures name != [] ==> bytes[|name| - 1] != 0x20
  {
    if bytes == [] then []
    else if bytes[|bytes| - 1] == 0x20 then DisplayName(bytes[..|bytes| - 1])
    else seq(|bytes|, i requires 0 <= i < |bytes| => Displayed(bytes[i]))
  }

  function FileRecord(side: nat, bootMax: Byte, header: seq<Byte>, data: seq<Byte>): DiskFile
    requires |header| == 16
  {
    DiskFile(side, header[1], header[2], DisplayName(header[3..11]), Word(header[11], header[12]),
             Word(header[13], header[14]), header[15] & 0x7F, header[2] <= bootMax, data)
  }

  function ParseFile(side: nat, bootMax: Byte, data: seq<Byte>, index: nat, pos: nat): FileAt {
    if pos + 16 > |data| then Bad(HeaderTruncated(side, index))
    else if data[pos] != 3 then Bad(HeaderExpected(side, index, pos))
    else
      var size := Word(data[pos + 13], data[pos + 14]);
      if pos + 16 >= |data| || data[pos + 16] != 4 then Bad(DataExpected(side, index, pos + 16))
      else if pos + 17 + size > |data| then Bad(DataTruncated(side, index))
      else Found(FileRecord(side, bootMax, data[pos..pos + 16], data[pos + 17..pos + 17 + size]))
  }

  datatype Listing = Listing(files: seq<DiskFile>, warnings: seq<Warning>) {
    function Then(more: Listing): Listing {
      Listing(files + more.files, warnings + more.warnings)
    }
  }

  lemma ThenAssoc(a: Listing, b: Listing, c: Listing)
    ensures a.Then(b).Then(c) == a.Then(b.Then(c))
  {
    Sequences.Assoc(a.files, b.files, c.files);
    Sequences.Assoc(a.warnings, b.warnings, c.warnings);
  }

  /** The files from `index` on, and the warning that cut the list short, if one did. */
  function ParseFiles(
    side: nat, bootMax: Byte, data: seq<Byte>, index: nat, count: nat, pos: nat): Listing
    decreases count - index
  {
    if index >= count then Listing([], [])
    else match ParseFile(side, bootMax, data, index, pos)
      case Bad(warning) => Listing([], [warning])
      case Found(file) =>
        Listing([file], [])
          .Then(ParseFiles(side, bootMax, data, index + 1, count, pos + 17 + |file.data|))
  }

  function ParsedSide(side: nat, data: seq<Byte>): Listing {
    if |data| < 58 then Listing([], [SideTooShort(side)])
    else if data[0] != 1 then Listing([], [NoInfoBlock(side)])
    else if data[56] != 2 then Listing([], [NoCountBlock(side)])
    else ParseFiles(side, data[0x19], data, 0, data[57] as int, 58)
  }

  /** Listing the file under the cursor leaves the rest of the files to list. */
  lemma ParseStep(
    listing: Listing, side: nat, bootMax: Byte, data: seq<Byte>, index: nat, count: nat, pos: nat,
    file: DiskFile, next: nat)
    requires index < count && ParseFile(side, bootMax, data, index, pos) == Found(file)
    requires next == pos + 17 + |file.data|
    ensures listing.Then(ParseFiles(side, bootMax, data, index, count, pos))
         == listing.Then(Listing([file], [])).Then(ParseFiles(side, bootMax, data, index + 1, count, next))
  {
    ThenAssoc(listing, Listing([file], []), ParseFiles(side, bootMax, data, index + 1, count, next));
  }

  method ParseFileList(side: nat, bootMax: Byte, data: seq<Byte>, count: nat, start: Listing)
    returns (listing: Listing)
    ensures listing == start.Then(ParseFiles(side, bootMax, data, 0, count, 58))
  {
    listing := start;
    var index, pos := 0, 58;
    while index < count
      invariant 0 <= index <= count && pos >= 58
      invariant listing.Then(ParseFiles(side, bootMax, data, index, count, pos))
             == start.Then(ParseFiles(side, bootMax, data, 0, count, 58))
    {
      var at := ParseFile(side, bootMax, data, index, pos);
      if at.Bad? {
        return listing.Then(Listing([], [at.warning]));
      }
      var next := pos + 17 + |at.file.data|;
      ParseStep(listing, side, bootMax, data, index, count, pos, at.file, next);
      listing := listing.Then(Listing([at.file], []));
      index, pos := index + 1, next;
    }
    assert listing.Then(Listing([], [])) == listing;
  }

  method ParseSide(side: nat, data: seq<Byte>, start: Listing) returns (listing: Listing)
    ensures listing == start.Then(ParsedSide(side, data))
    ensures |data| < 58 ==> listing == start.Then(Listing([], [SideTooShort(side)]))
    ensures |data| >= 58 && data[0] != 1 ==> listing == start.Then(Listing([], [NoInfoBlock(side)]))
    ensures |data| >= 58 && data[0] == 1 && data[56] != 2 ==>
      listing == start.Then(Listing([], [NoCountBlock(side)]))
  {
    if |data| < 58 {
      return start.Then(Listing([], [SideTooShort(side)]));
    }
    if data[0] != 1 {
      return start.Then(Listing([], [NoInfoBlock(side)]));
    }
    if data[56] != 2 {
      return start.Then(Listing([], [NoCountBlock(side)]));
    }
    listing := ParseFileList(side, data[0x19], data, data[57] as int, start);
  }

  // ----- the two parsers agree

  function Payloads(blocks: seq<seq<Byte>>): seq<seq<Byte>> {
    if blocks == [] then []
    else if blocks[0] != [] && blocks[0][0] == 4
      then [blocks[0][1..]] + Payloads(blocks[1..])
      else Payloads(blocks[1..])
  }

  function FileData(files: seq<DiskFile>): seq<seq<Byte>> {
    seq(|files|, i requires 0 <= i < |files| => files[i].data)
  }

  predicate IsHeaderOf(block: seq<Byte>, file: DiskFile, bootMax: Byte) {
    |block| == 16 && block[0] == 3 && file == FileRecord(file.side, bootMax, block, file.data)
  }

  lemma PayloadsFront(block: seq<Byte>, rest: seq<seq<Byte>>)
    requires block != []
    ensures Payloads([block] + rest)
         == (if block[0] == 4 then [block[1..]] else []) + Payloads(rest)
  {
    assert ([block] + rest)[1..] == rest;
  }

  /** What the parser checked about the bytes of a file it found. */
  lemma FoundFileBytes(
    side: nat, bootMax: Byte, data: seq<Byte>, index: nat, pos: nat, file: DiskFile)
    requires ParseFile(side, bootMax, data, index, pos) == Found(file)
    ensures pos + 17 + |file.data| <= |data| && data[pos] == 3 && data[pos + 16] == 4
    ensures data[pos + 17..pos + 17 + |file.data|] == file.data
    ensures IsHeaderOf(data[pos..pos + 16], file, bootMax)
    ensures |file.data| == Word(data[pos..pos + 16][13], data[pos..pos + 16][14])
  {
  }

  lemma HeaderBlock(data: seq<Byte>, pos: nat, fileSize: nat, size: nat)
    requires pos + 16 <= |data| && data[pos] == 3
    requires size == Word(data[pos..pos + 16][13], data[pos..pos + 16][14])
    ensures Blocks(data, pos, fileSize) == [data[pos..pos + 16]] + Blocks(data, pos + 16, size)
  {
    BlocksFront(data, pos, fileSize, pos + 16, size);
  }

  lemma DataBlock(data: seq<Byte>, pos: nat, content: seq<Byte>, start: nat, next: nat)
    requires start == pos + 1 && next == start + |content| <= |data|
    requires data[pos] == 4 && content == data[start..next]
    ensures Blocks(data, pos, |content|) == [[4] + content] + Blocks(data, next, |content|)
  {
    assert data[pos..next] == [4] + content;
    BlocksFront(data, pos, |content|, next, |content|);
  }

  /** One parsed file is exactly one header block followed by one data block. */
  lemma OneFileTwoBlocks(
    side: nat, bootMax: Byte, data: seq<Byte>, index: nat, pos: nat, fileSize: nat, file: DiskFile,
    next: nat)
    requires ParseFile(side, bootMax, data, index, pos) == Found(file) && next == pos + 17 + |file.data|
    ensures next <= |data| && data[pos] == 3
    ensures Blocks(data, pos, fileSize)
         == [data[pos..pos + 16]] + ([[4] + file.data] + Blocks(data, next, |file.data|))
  {
    FoundFileBytes(side, bootMax, data, index, pos, file);
    HeaderBlock(data, pos, fileSize, |file.data|);
    DataBlock(data, pos + 16, file.data, pos + 17, next);
  }

  lemma PayloadsOfFile(header: seq<Byte>, data: seq<Byte>, rest: seq<seq<Byte>>)
    requires header != [] && header[0] == 3
    ensures Payloads([header] + ([[4] + data] + rest)) == [data] + Payloads(rest)
  {
    PayloadsFront(header, [[4] + data] + rest);
    PayloadsFront([4] + data, rest);
    assert ([4] + data)[1..] == data;
  }

  lemma FileDataFront(file: DiskFile, rest: seq<DiskFile>)
    ensures FileData([file] + rest) == [file.data] + FileData(rest)
  {
  }

  lemma {:induction false} ParsedFilesAreBlocks(
    side: nat, bootMax: Byte, data: seq<Byte>, index: nat, count: nat, pos: nat, fileSize: nat)
    requires pos <= |data|
    ensures FileData(ParseFiles(side, bootMax, data, index, count, pos).files)
         <= Payloads(Blocks(data, pos, fileSize))
    decreases count - index
  {
    if index >= count {
    } else {
      match ParseFile(side, bootMax, data, index, pos)
      case Bad(_) =>
      case Found(file) =>
        var size := |file.data|;
        var next := pos + 17 + size;
        OneFileTwoBlocks(side, bootMax, data, index, pos, fileSize, file, next);
        ParsedFilesAreBlocks(side, bootMax, data, index + 1, count, next, size);
        PayloadsOfFile(data[pos..pos + 16], file.data, Blocks(data, next, size));
        FileDataFront(file, ParseFiles(side, bootMax, data, index + 1, count, next).files);
    }
  }

  /** The i-th data block of the walk is the data of the i-th file the parser reports. */
  lemma ParsersAgree(side: nat, data: seq<Byte>)
    ensures FileData(ParsedSide(side, data).files) <= Payloads(Blocks(data, 0, 0))
  {
    if |data| >= 58 && data[0] == 1 && data[56] == 2 {
      var tail := Blocks(data, 58, 0);
      assert Blocks(data, 56, 0) == [data[56..58]] + tail;
      PayloadsFront(data[0..56], [data[56..58]] + tail);
      PayloadsFront(data[56..58], tail);
      ParsedFilesAreBlocks(side, data[0x19], data, 0, data[57] as int, 58, 0);
    }
  }

  // ----- whole images

  datatype DiskImage = DiskImage(
    sideCount: nat, hasHeader: bool, files: seq<DiskFile>, warnings: seq<Warning>, raw: seq<Byte>)

  datatype ImageResult = Image(image: DiskImage) | EmptyImage | NoSideData

  const MAGIC: seq<Byte> := [0x46, 0x44, 0x53, 0x1A]

  predicate HasHeader(bytes: seq<Byte>) {
    |bytes| >= HEADER_SIZE && bytes[..4] == MAGIC
  }

  function SideData(bytes: seq<Byte>): seq<Byte> {
    if HasHeader(bytes) then bytes[HEADER_SIZE..] else bytes
  }

  function DivCeil(n: nat, d: nat): nat
    requires d > 0
  {
    (n + d - 1) / d
  }

  /** The `s`-th side of an image: a full side, or the shorter tail. */
  function Side(data: seq<Byte>, s: nat): seq<Byte>
    requires s * SIDE_SIZE <= |data|
  {
    if (s + 1) * SIDE_SIZE <= |data|
      then data[s * SIDE_SIZE..(s + 1) * SIDE_SIZE]
      else data[s * SIDE_SIZE..]
  }

  predicate HasSide(data: seq<Byte>, count: nat, s: nat) {
    s < count && s * SIDE_SIZE < |data|
  }

  function ImageFiles(data: seq<Byte>, s: nat, count: nat): Listing
    decreases count - s
  {
    if !HasSide(data, count, s) then Listing([], [])
    else ParsedSide(s, Side(data, s)).Then(ImageFiles(data, s + 1, count))
  }

  function SideCount(bytes: seq<Byte>): nat {
    var inferred := DivCeil(|SideData(bytes)|, SIDE_SIZE);
    var sides := if HasHeader(bytes) && bytes[4] != 0 then bytes[4] as int
                 else if inferred > 1 then inferred else 1;
    if sides < 255 then sides else 255
  }

  function ImageWarnings(data: seq<Byte>, count: nat): Listing {
    Listing([], if |data| < count * SIDE_SIZE then [ImageShort(count)] else [])
  }

  lemma SideListed(listing: Listing, data: seq<Byte>, side: nat, next: nat, count: nat)
    requires HasSide(data, count, side) && next == side + 1
    ensures listing.Then(ImageFiles(data, side, count))
         == listing.Then(ParsedSide(side, Side(data, side))).Then(ImageFiles(data, next, count))
  {
    ThenAssoc(listing, ParsedSide(side, Side(data, side)), ImageFiles(data, next, count));
  }

  lemma SidesListed(listing: Listing, data: seq<Byte>, side: nat, count: nat)
    requires !HasSide(data, count, side)
    ensures listing.Then(ImageFiles(data, side, count)) == listing
  {
    assert listing.files + [] == listing.files && listing.warnings + [] == listing.warnings;
  }

  method ParseSides(data: seq<Byte>, count: nat, start: Listing) returns (listing: Listing)
    ensures listing == start.Then(ImageFiles(data, 0, count))
  {
    listing := start;
    var side := 0;
    while side < count
      invariant 0 <= side <= count
      invariant listing.Then(ImageFiles(data, side, count)) == start.Then(ImageFiles(data, 0, count))
    {
      if side * SIDE_SIZE >= |data| {
        break;
      }
      var next := side + 1;
      SideListed(listing, data, side, next, count);
      listing := ParseSide(side, Side(data, side), listing);
      side := next;
    }
    SidesListed(listing, data, side, count);
  }

  method FromBytes(bytes: seq<Byte>) returns (result: ImageResult)
    ensures bytes == [] <==> result == EmptyImage
    ensures bytes != [] && SideData(bytes) == [] <==> result == NoSideData
    ensures result.Image? ==>
      var data, count := SideData(bytes), SideCount(bytes);
      var listing := ImageWarnings(data, count).Then(ImageFiles(data, 0, count));
      result.image == DiskImage(count, HasHeader(bytes), listing.files, listing.warnings, bytes)
    ensures result.Image? ==>
      var warnings := ImageFiles(SideData(bytes), 0, result.image.sideCount).warnings;
      result.image.warnings ==
        if |SideData(bytes)| < 65_500 * result.image.sideCount
        then [ImageShort(result.image.sideCount)] + warnings else warnings
  {
    if bytes == [] {
      return EmptyImage;
    }
    var offset := if HasHeader(bytes) then HEADER_SIZE else 0;
    if |bytes| <= offset {
      return NoSideData;
    }
    var data, sideCount := bytes[offset..], SideCount(bytes);
    var listing := ParseSides(data, sideCount, ImageWarnings(data, sideCount));
    result := Image(DiskImage(sideCount, HasHeader(bytes), listing.files, listing.warnings, bytes));
  }

  // ----- the sides the drive loads

  /** The image cut into full sides and a shorter tail. */
  function Chunks(data: seq<Byte>): seq<seq<Byte>>
    decreases |data|
  {
    if data == [] then []
    else if |data| <= SIDE_SIZE then [data]
    else [data[..SIDE_SIZE]] + Chunks(data[SIDE_SIZE..])
  }

  function Taken<T>(s: seq<T>, n: nat): seq<T> {
    if n < |s| then s[..n] else s
  }

  function LoadedSides(image: DiskImage): seq<seq<Byte>> {
    var chunks := Taken(Chunks(SideData(image.raw)), image.sideCount);
    seq(|chunks|, i requires 0 <= i < |chunks| => Stream(Blocks(chunks[i], 0, 0)))
  }

  lemma SideOfRest(data: seq<Byte>, s: nat, before: nat)
    requires s == before + 1 && s * SIDE_SIZE < |data|
    ensures before * SIDE_SIZE < |data[SIDE_SIZE..]| && Side(data[SIDE_SIZE..], before) == Side(data, s)
  {
  }

  lemma {:induction false} ChunkIsSide(data: seq<Byte>, s: nat)
    requires s * SIDE_SIZE < |data|
    ensures s < |Chunks(data)| && Chunks(data)[s] == Side(data, s)
    decreases s
  {
    if s == 0 {
      assert |data| <= SIDE_SIZE ==> data[..|data|] == data;
    } else {
      SideOfRest(data, s, s - 1);
      ChunkIsSide(data[SIDE_SIZE..], s - 1);
    }
  }

  function FilesOfSide(files: seq<DiskFile>, side: nat): seq<DiskFile> {
    if files == [] then []
    else (if files[0].side == side then [files[0]] else []) + FilesOfSide(files[1..], side)
  }

  lemma {:induction false} FilesOfSideAppend(a: seq<DiskFile>, b: seq<DiskFile>, side: nat)
    ensures FilesOfSide(a + b, side) == FilesOfSide(a, side) + FilesOfSide(b, side)
  {
    if a == [] {
      assert a + b == b;
    } else {
      assert (a + b)[1..] == a[1..] + b;
      FilesOfSideAppend(a[1..], b, side);
      Sequences.Assoc(if a[0].side == side then [a[0]] else [], FilesOfSide(a[1..], side),
                      FilesOfSide(b, side));
    }
  }

  lemma {:induction false} FilesOfOneSide(
    bootMax: Byte, data: seq<Byte>, index: nat, count: nat, pos: nat, side: nat, wanted: nat)
    ensures var files := ParseFiles(side, bootMax, data, index, count, pos).files;
      FilesOfSide(files, wanted) == if side == wanted then files else []
    decreases count - index
  {
    if index >= count {
    } else {
      match ParseFile(side, bootMax, data, index, pos)
      case Bad(_) =>
      case Found(file) =>
        var next := pos + 17 + |file.data|;
        FilesOfOneSide(bootMax, data, index + 1, count, next, side, wanted);
        var rest := ParseFiles(side, bootMax, data, index + 1, count, next).files;
        FilesOfSideAppend([file], rest, wanted);
        assert FilesOfSide([file], wanted) == if side == wanted then [file] else [];
    }
  }

  lemma ParsedSideFiles(data: seq<Byte>, side: nat, wanted: nat)
    ensures FilesOfSide(ParsedSide(side, data).files, wanted)
         == if side == wanted then ParsedSide(side, data).files else []
  {
    if |data| >= 58 && data[0] == 1 && data[56] == 2 {
      FilesOfOneSide(data[0x19], data, 0, data[57] as int, 58, side, wanted);
    }
  }

  /** The files of the wanted side, if it is one from `s` on. */
  function WantedFiles(data: seq<Byte>, s: nat, count: nat, wanted: nat): seq<DiskFile> {
    if s <= wanted && HasSide(data, count, wanted) then ParsedSide(wanted, Side(data, wanted)).files else []
  }

  lemma NothingWanted(data: seq<Byte>, s: nat, count: nat, wanted: nat)
    requires !HasSide(data, count, s)
    ensures WantedFiles(data, s, count, wanted) == []
  {
  }

  lemma OneSideMore(data: seq<Byte>, s: nat, next: nat, count: nat, wanted: nat)
    requires HasSide(data, count, s) && next == s + 1
    requires FilesOfSide(ImageFiles(data, next, count).files, wanted) == WantedFiles(data, next, count, wanted)
    ensures FilesOfSide(ImageFiles(data, s, count).files, wanted) == WantedFiles(data, s, count, wanted)
  {
    var here, rest := ParsedSide(s, Side(data, s)).files, ImageFiles(data, next, count).files;
    FilesOfSideAppend(here, rest, wanted);
    ParsedSideFiles(Side(data, s), s, wanted);
    assert here + [] == here;
  }

  lemma {:induction false} FilesWanted(data: seq<Byte>, s: nat, count: nat, wanted: nat)
    ensures FilesOfSide(ImageFiles(data, s, count).files, wanted) == WantedFiles(data, s, count, wanted)
    decreases count - s
  {
    if !HasSide(data, count, s) {
      NothingWanted(data, s, count, wanted);
    } else {
      FilesWanted(data, s + 1, count, wanted);
      OneSideMore(data, s, s + 1, count, wanted);
    }
  }

  /** The files listed for a side are exactly those its own bytes parse to. */
  lemma ImageFilesOfSide(data: seq<Byte>, count: nat, wanted: nat)
    ensures FilesOfSide(ImageFiles(data, 0, count).files, wanted)
         == if HasSide(data, count, wanted) then ParsedSide(wanted, Side(data, wanted)).files else []
  {
    FilesWanted(data, 0, count, wanted);
  }

  /** On every loaded side, the parser's files are the data blocks of the drive's own walk. */
  lemma ImageSidesAgree(image: DiskImage, s: nat)
    requires image.files == ImageFiles(SideData(image.raw), 0, image.sideCount).files
    requires s < image.sideCount && s * SIDE_SIZE < |SideData(image.raw)|
    ensures s < |LoadedSides(image)|
    ensures var side := Side(SideData(image.raw), s);
      LoadedSides(image)[s] == Stream(Blocks(side, 0, 0)) &&
      FileData(FilesOfSide(image.files, s)) <= Payloads(Blocks(side, 0, 0))
  {
    var data := SideData(image.raw);
    ChunkIsSide(data, s);
    ImageFilesOfSide(data, image.sideCount, s);
    ParsersAgree(s, Side(data, s));
  }
}
