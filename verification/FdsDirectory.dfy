/** The files of a side as they are stored, and the parser that lists them again. */
module FdsDirectory {
  import opened FdsMedia
  import Sequences

  /** A file as a disk holds it: eight raw bytes of name, load address and size low byte first. */
  datatype Entry = Entry(
    number: Byte, id: Byte, name: seq<Byte>, load: (Byte, Byte), size: (Byte, Byte), kind: Byte,
    data: seq<Byte>)

  predicate IsEntry(e: Entry) {
    |e.name| == 8 && |e.data| == (e.size.0 as int) + 256 * (e.size.1 as int)
  }

  /** The header block. */
  function HeaderBytes(e: Entry): (header: seq<Byte>)
    requires IsEntry(e)
    ensures |header| == 16
  {
    [3, e.number, e.id] + e.name + [e.load.0, e.load.1, e.size.0, e.size.1, e.kind]
  }

  /** Header block and data block, one after the other. */
  function EntryBytes(e: Entry): (bytes: seq<Byte>)
    requires IsEntry(e)
    ensures |bytes| == 17 + |e.data|
  {
    HeaderBytes(e) + ([4] + e.data)
  }

  predicate AreEntries(entries: seq<Entry>) {
    forall i :: 0 <= i < |entries| ==> IsEntry(entries[i])
  }

  function EntriesBytes(entries: seq<Entry>): seq<Byte>
    requires AreEntries(entries)
  {
    if entries == [] then [] else EntryBytes(entries[0]) + EntriesBytes(entries[1..])
  }

  /** What the listing must say of a stored file. */
  function Listed(side: nat, bootMax: Byte, e: Entry): DiskFile {
    DiskFile(side, e.number, e.id, DisplayName(e.name),
             (e.load.0 as int) + 256 * (e.load.1 as int), (e.size.0 as int) + 256 * (e.size.1 as int),
             e.kind & 0x7F, e.id <= bootMax, e.data)
  }

  function AllListed(side: nat, bootMax: Byte, entries: seq<Entry>): seq<DiskFile> {
    if entries == [] then [] else [Listed(side, bootMax, entries[0])] + AllListed(side, bootMax, entries[1..])
  }

  lemma HeaderRecord(side: nat, bootMax: Byte, e: Entry)
    requires IsEntry(e)
    ensures FileRecord(side, bootMax, HeaderBytes(e), e.data) == Listed(side, bootMax, e)
  {
    assert HeaderBytes(e)[3..11] == e.name;
  }

  /** A piece between two others. */
  lemma Piece(before: seq<Byte>, middle: seq<Byte>, after: seq<Byte>, at: nat, past: nat)
    requires at == |before| && past == at + |middle|
    ensures (before + (middle + after))[at..past] == middle
  {
  }

  /** The four pieces of a side around a stored file. */
  lemma EntryApart(before: seq<Byte>, header: seq<Byte>, data: seq<Byte>, after: seq<Byte>)
    ensures before + ((header + ([4] + data)) + after) == before + (header + (([4] + data) + after))
    ensures before + ((header + ([4] + data)) + after) == (before + header) + ([4] + (data + after))
    ensures before + ((header + ([4] + data)) + after) == ((before + header) + [4]) + (data + after)
  {
  }

  /** The pieces found again at their places. */
  lemma FileInPlace(
    whole: seq<Byte>, before: seq<Byte>, header: seq<Byte>, data: seq<Byte>, after: seq<Byte>, pos: nat,
    mark: nat, body: nat, past: nat)
    requires whole == before + ((header + ([4] + data)) + after)
    requires pos == |before| && mark == pos + |header| && body == mark + 1 && past == body + |data|
    ensures past <= |whole| && whole[pos..mark] == header && whole[mark..body] == [4] && whole[body..past] == data
  {
    EntryApart(before, header, data, after);
    Piece(before, header, ([4] + data) + after, pos, mark);
    Piece(before + header, [4], data + after, mark, body);
    Piece((before + header) + [4], data, after, body, past);
  }

  /** Where the header, the data mark and the data of a stored file lie. */
  lemma EntryPlaces(before: seq<Byte>, e: Entry, after: seq<Byte>, pos: nat, data: seq<Byte>)
    requires IsEntry(e) && data == before + (EntryBytes(e) + after) && pos == |before|
    ensures pos + 17 + |e.data| <= |data| && data[pos..pos + 16] == HeaderBytes(e) && data[pos + 16] == 4
    ensures data[pos + 17..pos + 17 + |e.data|] == e.data
  {
    FileInPlace(data, before, HeaderBytes(e), e.data, after, pos, pos + 16, pos + 17, pos + 17 + |e.data|);
    OneByte(data, pos + 16, pos + 17, 4);
  }

  lemma OneByte(data: seq<Byte>, at: nat, past: nat, byte: Byte)
    requires past == at + 1 && past <= |data| && data[at..past] == [byte]
    ensures data[at] == byte
  {
    assert data[at] == data[at..past][0];
  }

  lemma HeaderInPlace(data: seq<Byte>, pos: nat, header: seq<Byte>)
    requires pos + 16 <= |data| && data[pos..pos + 16] == header && |header| == 16
    ensures data[pos] == header[0] && data[pos + 13] == header[13] && data[pos + 14] == header[14]
  {
  }

  lemma FileParsed(side: nat, bootMax: Byte, data: seq<Byte>, index: nat, pos: nat, e: Entry)
    requires IsEntry(e) && pos + 17 + |e.data| <= |data|
    requires data[pos] == 3 && data[pos + 13] == e.size.0 && data[pos + 14] == e.size.1 && data[pos + 16] == 4
    requires data[pos..pos + 16] == HeaderBytes(e) && data[pos + 17..pos + 17 + |e.data|] == e.data
    ensures ParseFile(side, bootMax, data, index, pos) == Found(Listed(side, bootMax, e))
  {
    HeaderRecord(side, bootMax, e);
  }

  /** One stored file is parsed as what it is. */
  lemma EntryParsed(
    side: nat, bootMax: Byte, before: seq<Byte>, e: Entry, after: seq<Byte>, index: nat, pos: nat,
    data: seq<Byte>)
    requires IsEntry(e) && data == before + (EntryBytes(e) + after) && pos == |before|
    ensures ParseFile(side, bootMax, data, index, pos) == Found(Listed(side, bootMax, e))
  {
    EntryPlaces(before, e, after, pos, data);
    HeaderInPlace(data, pos, HeaderBytes(e));
    FileParsed(side, bootMax, data, index, pos, e);
  }

  lemma NextEntry(before: seq<Byte>, entries: seq<Entry>, after: seq<Byte>, data: seq<Byte>)
    requires entries != [] && AreEntries(entries) && data == before + (EntriesBytes(entries) + after)
    ensures data == before + (EntryBytes(entries[0]) + (EntriesBytes(entries[1..]) + after))
    ensures data == (before + EntryBytes(entries[0])) + (EntriesBytes(entries[1..]) + after)
  {
    Sequences.Assoc(EntryBytes(entries[0]), EntriesBytes(entries[1..]), after);
    Sequences.Assoc(before, EntryBytes(entries[0]), EntriesBytes(entries[1..]) + after);
  }

  lemma ThenListed(file: DiskFile, later: seq<DiskFile>)
    ensures Listing([file], []).Then(Listing(later, [])) == Listing([file] + later, [])
  {
  }

  lemma OneFileListed(
    side: nat, bootMax: Byte, data: seq<Byte>, index: nat, count: nat, pos: nat, file: DiskFile,
    following: nat, next: nat)
    requires index < count && ParseFile(side, bootMax, data, index, pos) == Found(file)
    requires following == index + 1 && next == pos + 17 + |file.data|
    ensures ParseFiles(side, bootMax, data, index, count, pos)
         == Listing([file], []).Then(ParseFiles(side, bootMax, data, following, count, next))
  {
  }

  lemma Prepended(file: DiskFile, later: seq<DiskFile>, last: Listing)
    ensures Listing([file], []).Then(Listing(later, []).Then(last)) == Listing([file] + later, []).Then(last)
  {
    ThenListed(file, later);
    ThenAssoc(Listing([file], []), Listing(later, []), last);
  }

  lemma NothingThen(listing: Listing)
    ensures Listing([], []).Then(listing) == listing
  {
  }

  lemma OneEntryMore(entries: seq<Entry>, pos: nat, next: nat, past: nat)
    requires entries != [] && AreEntries(entries)
    requires past == pos + |EntriesBytes(entries)| && next == pos + 17 + |entries[0].data|
    ensures past == next + |EntriesBytes(entries[1..])|
  {
  }

  /** Stored files are parsed as what they are, and parsing goes on after them. */
  lemma {:induction false} EntriesThen(
    side: nat, bootMax: Byte, before: seq<Byte>, entries: seq<Entry>, after: seq<Byte>, index: nat,
    count: nat, pos: nat, data: seq<Byte>, last: nat, past: nat)
    requires AreEntries(entries) && data == before + (EntriesBytes(entries) + after)
    requires pos == |before| && last == index + |entries| <= count && past == pos + |EntriesBytes(entries)|
    ensures ParseFiles(side, bootMax, data, index, count, pos)
         == Listing(AllListed(side, bootMax, entries), []).Then(
              ParseFiles(side, bootMax, data, last, count, past))
    decreases |entries|
  {
    if entries == [] {
      NothingThen(ParseFiles(side, bootMax, data, index, count, pos));
    } else {
      var e, rest := entries[0], entries[1..];
      var next := pos + 17 + |e.data|;
      NextEntry(before, entries, after, data);
      EntryParsed(side, bootMax, before, e, EntriesBytes(rest) + after, index, pos, data);
      OneEntryMore(entries, pos, next, past);
      EntriesThen(side, bootMax, before + EntryBytes(e), rest, after, index + 1, count, next, data, last, past);
      OneFileListed(side, bootMax, data, index, count, pos, Listed(side, bootMax, e), index + 1, next);
      Prepended(Listed(side, bootMax, e), AllListed(side, bootMax, rest),
                ParseFiles(side, bootMax, data, last, count, past));
    }
  }

  lemma ListedAlone(files: seq<DiskFile>, warnings: seq<Warning>)
    ensures Listing(files, []).Then(Listing([], warnings)) == Listing(files, warnings)
  {
  }

  /** A side: an information block, a file count, the files, and anything after them. */
  function SideBytes(info: seq<Byte>, count: Byte, entries: seq<Entry>, after: seq<Byte>): seq<Byte>
    requires AreEntries(entries)
  {
    (info + [2, count]) + (EntriesBytes(entries) + after)
  }

  lemma SideFront(info: seq<Byte>, count: Byte, rest: seq<Byte>)
    requires |info| == 56
    ensures var data := (info + [2, count]) + rest;
      |data| >= 58 && data[0] == info[0] && data[25] == info[25] && data[56] == 2 && data[57] == count
  {
  }

  lemma SideParsed(side: nat, data: seq<Byte>)
    requires |data| >= 58 && data[0] == 1 && data[56] == 2
    ensures ParsedSide(side, data) == ParseFiles(side, data[25], data, 0, data[57] as int, 58)
  {
  }

  /** The files of a side, and whatever their list is followed by. */
  lemma SideThen(
    side: nat, info: seq<Byte>, count: Byte, entries: seq<Entry>, after: seq<Byte>, data: seq<Byte>,
    past: nat, warnings: seq<Warning>)
    requires |info| == 56 && info[0] == 1 && AreEntries(entries) && count as int >= |entries|
    requires data == SideBytes(info, count, entries, after) && past == 58 + |EntriesBytes(entries)|
    requires ParseFiles(side, info[25], data, |entries|, count as int, past) == Listing([], warnings)
    ensures ParsedSide(side, data) == Listing(AllListed(side, info[25], entries), warnings)
  {
    SideFront(info, count, EntriesBytes(entries) + after);
    SideParsed(side, data);
    EntriesThen(side, info[25], info + [2, count], entries, after, 0, count as int, 58, data, |entries|, past);
    ListedAlone(AllListed(side, info[25], entries), warnings);
  }

  /**
  Such a side is listed as exactly these files, every field of every header where it was put, and
  without a warning.
  */
  lemma DirectoryReadBack(side: nat, info: seq<Byte>, count: Byte, entries: seq<Entry>, after: seq<Byte>)
    requires |info| == 56 && info[0] == 1 && AreEntries(entries) && count as int == |entries|
    ensures ParsedSide(side, SideBytes(info, count, entries, after))
         == Listing(AllListed(side, info[25], entries), [])
  {
    SideThen(side, info, count, entries, after, SideBytes(info, count, entries, after),
             58 + |EntriesBytes(entries)|, []);
  }

  /** What is wrong with the bytes where a header block, number `index` at `pos`, should begin, if anything. */
  function Fault(side: nat, index: nat, pos: nat, rest: seq<Byte>): seq<Warning> {
    if |rest| < 16 then [HeaderTruncated(side, index)]
    else if rest[0] != 3 then [HeaderExpected(side, index, pos)]
    else if |rest| == 16 || rest[16] != 4 then [DataExpected(side, index, pos + 16)]
    else if 17 + (rest[13] as int) + 256 * (rest[14] as int) > |rest| then [DataTruncated(side, index)]
    else []
  }

  lemma FaultFound(
    side: nat, bootMax: Byte, data: seq<Byte>, index: nat, count: nat, pos: nat, rest: seq<Byte>)
    requires pos <= |data| && rest == data[pos..] && index < count && Fault(side, index, pos, rest) != []
    ensures ParseFiles(side, bootMax, data, index, count, pos)
         == Listing([], Fault(side, index, pos, rest))
  {
    assert |rest| == |data| - pos;
    assert forall i :: 0 <= i < |rest| ==> rest[i] == data[pos + i];
  }

  lemma AfterEntries(before: seq<Byte>, middle: seq<Byte>, after: seq<Byte>, past: nat)
    requires past == |before| + |middle|
    ensures past <= |before + (middle + after)| && (before + (middle + after))[past..] == after
  {
    assert before + (middle + after) == (before + middle) + after;
  }

  /**
  A side whose count promises more files than it holds is listed up to the first bad one, with exactly one
  warning, which says what is wrong there.
  */
  lemma FaultReported(side: nat, info: seq<Byte>, count: Byte, entries: seq<Entry>, after: seq<Byte>, pos: nat)
    requires |info| == 56 && info[0] == 1 && AreEntries(entries) && count as int > |entries|
    requires pos == 58 + |EntriesBytes(entries)| && Fault(side, |entries|, pos, after) != []
    ensures ParsedSide(side, SideBytes(info, count, entries, after))
         == Listing(AllListed(side, info[25], entries), Fault(side, |entries|, pos, after))
  {
    var data := SideBytes(info, count, entries, after);
    AfterEntries(info + [2, count], EntriesBytes(entries), after, pos);
    FaultFound(side, info[25], data, |entries|, count as int, pos, after);
    SideThen(side, info, count, entries, after, data, pos, Fault(side, |entries|, pos, after));
  }

  // ----- the drive's walk over the same side

  /** The blocks of the stored files, a header and a data block each. */
  function EntryBlocks(entries: seq<Entry>): seq<seq<Byte>>
    requires AreEntries(entries)
  {
    if entries == [] then [] else [HeaderBytes(entries[0]), [4] + entries[0].data] + EntryBlocks(entries[1..])
  }

  /** No block starts here: the side is over, or the byte is no block kind. */
  predicate NoBlock(after: seq<Byte>) {
    after == [] || after[0] < 1 || after[0] > 4
  }

  lemma WalkOne(
    raw: seq<Byte>, before: seq<Byte>, block: seq<Byte>, after: seq<Byte>, pos: nat, next: nat,
    fileSize: nat, nextSize: nat)
    requires raw == before + (block + after) && pos == |before| && next == pos + |block|
    requires |block| > 0 && |block| == BlockSize(block[0], fileSize)
    requires nextSize == NextFileSize(block, fileSize)
    ensures Blocks(raw, pos, fileSize) == [block] + Blocks(raw, next, nextSize)
    ensures raw == (before + block) + after && next == |before + block|
  {
    Piece(before, block, after, pos, next);
    assert raw[pos] == raw[pos..next][0];
    BlocksFront(raw, pos, fileSize, next, nextSize);
  }

  lemma WalkEnds(raw: seq<Byte>, before: seq<Byte>, after: seq<Byte>, fileSize: nat)
    requires raw == before + after && NoBlock(after)
    ensures Blocks(raw, |before|, fileSize) == []
  {
    if after != [] {
      assert raw[|before|] == after[0];
    }
  }

  lemma HeaderSize(e: Entry, fileSize: nat)
    requires IsEntry(e)
    ensures BlockSize(HeaderBytes(e)[0], fileSize) == 16 && NextFileSize(HeaderBytes(e), fileSize) == |e.data|
    ensures BlockSize(([4] + e.data)[0], |e.data|) == |[4] + e.data|
    ensures NextFileSize([4] + e.data, |e.data|) == |e.data|
  {
  }

  lemma EntryRegrouped(before: seq<Byte>, header: seq<Byte>, data: seq<Byte>, after: seq<Byte>)
    ensures before + ((header + data) + after) == before + (header + (data + after))
    ensures (before + header) + (data + after) == before + (header + (data + after))
  {
  }

  /** A stored file is walked as its two blocks. */
  lemma EntryWalked(
    raw: seq<Byte>, before: seq<Byte>, e: Entry, rest: seq<Byte>, pos: nat, middle: nat, past: nat,
    fileSize: nat)
    requires IsEntry(e) && raw == before + (EntryBytes(e) + rest) && pos == |before|
    requires middle == pos + 16 && past == middle + 1 + |e.data|
    ensures Blocks(raw, pos, fileSize)
         == [HeaderBytes(e)] + ([[4] + e.data] + Blocks(raw, past, |e.data|))
  {
    var header, data := HeaderBytes(e), [4] + e.data;
    EntryRegrouped(before, header, data, rest);
    HeaderSize(e, fileSize);
    WalkOne(raw, before, header, data + rest, pos, middle, fileSize, |e.data|);
    WalkOne(raw, before + header, data, rest, middle, past, |e.data|, |e.data|);
  }

  lemma TwoMore(header: seq<Byte>, data: seq<Byte>, rest: seq<seq<Byte>>)
    ensures [header] + ([data] + rest) == [header, data] + rest
  {
  }

  lemma {:induction false} EntriesWalked(
    raw: seq<Byte>, before: seq<Byte>, entries: seq<Entry>, after: seq<Byte>, pos: nat, fileSize: nat)
    requires AreEntries(entries) && raw == before + (EntriesBytes(entries) + after) && pos == |before|
    requires NoBlock(after)
    ensures Blocks(raw, pos, fileSize) == EntryBlocks(entries)
    decreases |entries|
  {
    if entries == [] {
      assert [] + after == after;
      WalkEnds(raw, before, after, fileSize);
    } else {
      var e, rest := entries[0], entries[1..];
      var past := pos + 16 + 1 + |e.data|;
      NextEntry(before, entries, after, raw);
      EntryWalked(raw, before, e, EntriesBytes(rest) + after, pos, pos + 16, past, fileSize);
      EntriesWalked(raw, before + EntryBytes(e), rest, after, past, |e.data|);
      TwoMore(HeaderBytes(e), [4] + e.data, EntryBlocks(rest));
    }
  }

  lemma SideRegrouped(info: seq<Byte>, number: seq<Byte>, rest: seq<Byte>)
    ensures (info + number) + rest == [] + (info + (number + rest)) && [] + info == info
  {
  }

  /** Information and count block come first. */
  lemma FrontWalked(raw: seq<Byte>, info: seq<Byte>, count: Byte, rest: seq<Byte>)
    requires |info| == 56 && info[0] == 1 && raw == (info + [2, count]) + rest
    ensures Blocks(raw, 0, 0) == [info] + ([[2, count]] + Blocks(raw, 58, 0))
  {
    SideRegrouped(info, [2, count], rest);
    WalkOne(raw, [], info, [2, count] + rest, 0, 56, 0, 0);
    WalkOne(raw, info, [2, count], rest, 56, 58, 0, 0);
  }

  /**
  The drive's walk cuts the same side into exactly the blocks it was written as: information, count, and a
  header and a data block for every file; what follows the first byte that starts no block is not read.
  */
  lemma SideWalked(info: seq<Byte>, count: Byte, entries: seq<Entry>, after: seq<Byte>)
    requires |info| == 56 && info[0] == 1 && AreEntries(entries) && NoBlock(after)
    ensures Blocks(SideBytes(info, count, entries, after), 0, 0) == [info, [2, count]] + EntryBlocks(entries)
  {
    var raw, rest := SideBytes(info, count, entries, after), EntriesBytes(entries) + after;
    FrontWalked(raw, info, count, rest);
    EntriesWalked(raw, info + [2, count], entries, after, 58, 0);
    TwoMore(info, [2, count], EntryBlocks(entries));
  }

  // ----- images

  predicate HeaderGiven(bytes: seq<Byte>) {
    |bytes| >= 16 && bytes[..4] == [0x46, 0x44, 0x53, 0x1A]
  }

  /** The number of sides: the header's, if it gives one, or as many as the data fills, up to 255. */
  lemma SidesCounted(bytes: seq<Byte>, data: seq<Byte>, n: nat)
    requires n >= 1 && data == if HeaderGiven(bytes) then bytes[16..] else bytes
    ensures SideData(bytes) == data
    ensures HeaderGiven(bytes) && bytes[4] != 0 ==> SideCount(bytes) == bytes[4] as int
    ensures (!HeaderGiven(bytes) || bytes[4] == 0) && 65_500 * (n - 1) < |data| <= 65_500 * n ==>
      SideCount(bytes) == if n < 255 then n else 255
  {
  }
}
