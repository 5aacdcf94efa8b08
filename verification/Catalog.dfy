/** The on-disk format of a transfer: whole blocks in numbered files of at most 160 frames, and the
    exact byte count beside them. Restoring any listing of the files gives the input back. */
module Catalogs {
  import opened Segmentation
  import opened ByteFrames
  import opened SegmentFiles
  import opened SegmentNames

  const FRAMES_PER_FILE: nat := 160

  const FILE_SIZE: nat := 10_485_760

  type Files = seq<Entry<seq<byte>>>

  /** Zeros that complete the last block. */
  function Padding(total: nat): nat {
    if total % BLOCK == 0 then 0 else BLOCK - total % BLOCK
  }

  function Zeros(n: nat): (r: seq<byte>)
    ensures |r| == n
  {
    seq(n, _ => 0)
  }

  function Padded(input: seq<byte>): seq<byte> {
    input + Zeros(Padding(|input|))
  }

  function Numbered(pieces: seq<seq<byte>>): Files {
    seq(|pieces|, k requires 0 <= k < |pieces| => Entry(FileName(k), pieces[k]))
  }

  /** What an upload of `input` must leave on disk. */
  function Stored(input: seq<byte>): Files {
    Numbered(Cut(Padded(input), FILE_SIZE))
  }

  // --- restoring -------------------------------------------------------------------------------

  predicate IsSegment(name: string) {
    |name| > 4 && name[|name| - 4..] == ".bin"
  }

  function Picked(listing: Files): Files {
    if listing == [] then []
    else (if IsSegment(listing[0].name) then [listing[0]] else []) + Picked(listing[1..])
  }

  predicate GoodSize(size: nat) {
    size > 0 && size % BLOCK == 0 && size <= FILE_SIZE
  }

  function TotalSize(files: Files): nat {
    if files == [] then 0 else |files[0].data| + TotalSize(files[1..])
  }

  /** Whether the segments found are whole blocks and as many as `total` bytes need. */
  predicate Matches(total: nat, listing: Files) {
    && (forall k :: 0 <= k < |Picked(listing)| ==> GoodSize(|Picked(listing)[k].data|))
    && TotalSize(Picked(listing)) / BLOCK == (total + BLOCK - 1) / BLOCK
  }

  function Joined(files: Files): seq<byte> {
    if files == [] then [] else files[0].data + Joined(files[1..])
  }

  /** The bytes a download sends: the sorted segments, cut off at the recorded length. */
  function Restored(total: nat, listing: Files): seq<byte> {
    var all := Joined(Sort(Picked(listing)));
    if total <= |all| then all[..total] else all
  }

  lemma {:induction false} InsertSize(e: Entry<seq<byte>>, s: Files)
    ensures TotalSize(Insert(e, s)) == |e.data| + TotalSize(s)
  {
    if s == [] || Less(e.name, s[0].name) {
      assert ([e] + s)[1..] == s;
    } else {
      InsertSize(e, s[1..]);
      assert ([s[0]] + Insert(e, s[1..]))[1..] == Insert(e, s[1..]);
    }
  }

  lemma {:induction false} SortSize(s: Files)
    ensures TotalSize(Sort(s)) == TotalSize(s)
  {
    if s != [] {
      SortSize(s[1..]);
      InsertSize(s[0], Sort(s[1..]));
    }
  }

  lemma {:induction false} JoinedSize(files: Files)
    ensures |Joined(files)| == TotalSize(files)
  {
    if files != [] {
      JoinedSize(files[1..]);
    }
  }

  lemma {:induction false} JoinedPieces(files: Files, pieces: seq<seq<byte>>)
    requires |files| == |pieces| && forall k :: 0 <= k < |files| ==> files[k].data == pieces[k]
    ensures Joined(files) == Flatten(pieces)
  {
    if files != [] {
      JoinedPieces(files[1..], pieces[1..]);
    }
  }

  lemma NumberedIsOrdered(pieces: seq<seq<byte>>)
    requires |pieces| <= NUMBERS
    ensures Ordered(Numbered(pieces))
  {
    var files := Numbered(pieces);
    forall i, j | 0 <= i < j < |files|
      ensures Less(files[i].name, files[j].name)
    {
      FileNameOrder(i, j);
    }
  }

  /** Cutting whole blocks into files gives files of whole blocks. */
  lemma {:induction false} PiecesAreGood(bytes: seq<byte>)
    requires |bytes| % BLOCK == 0
    ensures forall k :: 0 <= k < |Cut(bytes, FILE_SIZE)| ==> GoodSize(|Cut(bytes, FILE_SIZE)[k]|)
    decreases |bytes|
  {
    if |bytes| > FILE_SIZE {
      PiecesAreGood(bytes[FILE_SIZE..]);
    }
  }

  lemma PaddedIsWhole(input: seq<byte>)
    ensures |Padded(input)| % BLOCK == 0 && |Padded(input)| / BLOCK == (|input| + BLOCK - 1) / BLOCK
    ensures |input| <= |Padded(input)| && Padded(input)[..|input|] == input
  {
  }

  /** Main result. Whatever order the directory is listed in and whatever else it contains, the
      files an upload must leave pass the checks, sort back into place and restore the input. */
  lemma RestoredIsInput(input: seq<byte>, listing: Files)
    requires |Cut(Padded(input), FILE_SIZE)| <= NUMBERS
    requires multiset(Picked(listing)) == multiset(Stored(input))
    ensures Sort(Picked(listing)) == Stored(input)
    ensures Matches(|input|, listing) && Restored(|input|, listing) == input
  {
    var bytes := Padded(input);
    var pieces := Cut(bytes, FILE_SIZE);
    PaddedIsWhole(input);
    NumberedIsOrdered(pieces);
    SortRestores(Stored(input), Picked(listing));
    JoinedPieces(Stored(input), pieces);
    CutIsWhole(bytes, FILE_SIZE);
    SortSize(Picked(listing));
    JoinedSize(Stored(input));
    PiecesAreGood(bytes);
    forall k | 0 <= k < |Picked(listing)|
      ensures GoodSize(|Picked(listing)[k].data|)
    {
      assert Picked(listing)[k] in multiset(Stored(input));
    }
  }

  /** Exactly which listings are taken for an upload of `total` bytes: segments of whole blocks, of at
      most 160 of them, that hold as many bytes as the upload with its last block completed. */
  lemma MatchesExactly(total: nat, listing: Files)
    ensures Matches(total, listing) <==>
              && (forall k :: 0 <= k < |Picked(listing)| ==>
                    var size := |Picked(listing)[k].data|; 0 < size <= 160 * 65536 && size % 65536 == 0)
              && TotalSize(Picked(listing)) == total + Padding(total)
    ensures Padding(total) < 65536 && (total + Padding(total)) % 65536 == 0
  {
    hide Padding, Picked, TotalSize;
    if forall k :: 0 <= k < |Picked(listing)| ==> GoodSize(|Picked(listing)[k].data|) {
      SizeIsWhole(Picked(listing));
      SameBlocks(TotalSize(Picked(listing)), total);
    }
    SameBlocks(0, total);
  }

  /** A number of whole blocks is the right one exactly if it completes the last block. */
  lemma SameBlocks(size: nat, total: nat)
    requires size % BLOCK == 0
    ensures size / BLOCK == (total + BLOCK - 1) / BLOCK <==> size == total + Padding(total)
    ensures Padding(total) < BLOCK && (total + Padding(total)) % BLOCK == 0
  {
  }

  lemma {:induction false} SizeIsWhole(files: Files)
    requires forall k :: 0 <= k < |files| ==> GoodSize(|files[k].data|)
    ensures TotalSize(files) % BLOCK == 0
  {
    if files != [] {
      SizeIsWhole(files[1..]);
    }
  }

  /** The segments of a listing are its files with the extension, and nothing else. */
  lemma {:induction false} PickedExactly(listing: Files, e: Entry<seq<byte>>)
    ensures multiset(Picked(listing))[e]
            == if |e.name| > 4 && e.name[|e.name| - 4..] == ".bin" then multiset(listing)[e] else 0
  {
    hide IsSegment;
    SegmentSeen(e.name);
    if listing != [] {
      var head, rest := listing[0], listing[1..];
      PickedExactly(rest, e);
      assert listing == [head] + rest;
      assert multiset(listing) == multiset{head} + multiset(rest);
      if IsSegment(head.name) {
        assert multiset(Picked(listing)) == multiset{head} + multiset(Picked(rest));
      } else {
        assert Picked(listing) == Picked(rest);
      }
    }
  }

  lemma SegmentSeen(name: string)
    ensures IsSegment(name) <==> |name| > 4 && name[|name| - 4..] == ".bin"
  {
  }

  /** A download of a listing that matches sends exactly the recorded number of bytes. */
  lemma RestoredSize(total: nat, listing: Files)
    requires Matches(total, listing)
    ensures |Restored(total, listing)| == total && Restored(total, listing) <= Joined(Sort(Picked(listing)))
  {
    MatchesExactly(total, listing);
    SortSize(Picked(listing));
    JoinedSize(Sort(Picked(listing)));
  }

  // --- segments of frames are pieces of bytes -----------------------------------------------------

  lemma {:induction false} CutSplit(bytes: seq<byte>, n: nat)
    requires n * BLOCK < |bytes|
    ensures n <= |Cut(bytes, BLOCK)|
    ensures Cut(bytes, BLOCK)[..n] == Cut(bytes[..n * BLOCK], BLOCK)
    ensures Cut(bytes, BLOCK)[n..] == Cut(bytes[n * BLOCK..], BLOCK)
    decreases n
  {
    hide Cut;
    if n == 0 {
      assert bytes[0..] == bytes && bytes[..0] == [];
      CutNothing();
    } else {
      var rest := bytes[BLOCK..];
      CutSplit(rest, n - 1);
      CutHead(bytes);
      assert rest[..(n - 1) * BLOCK] == bytes[..n * BLOCK][BLOCK..];
      assert rest[(n - 1) * BLOCK..] == bytes[n * BLOCK..];
      assert bytes[..n * BLOCK][..BLOCK] == bytes[..BLOCK];
      CutHead(bytes[..n * BLOCK]);
    }
  }

  lemma CutNothing()
    ensures Cut([], BLOCK) == []
  {
  }

  lemma CutHead(bytes: seq<byte>)
    requires |bytes| >= BLOCK
    ensures Cut(bytes, BLOCK) == [bytes[..BLOCK]] + Cut(bytes[BLOCK..], BLOCK)
  {
    if |bytes| == BLOCK {
      assert bytes[..BLOCK] == bytes;
    }
  }

  lemma {:induction false} CutLength(bytes: seq<byte>, n: nat)
    requires |bytes| <= n * BLOCK
    ensures |Cut(bytes, BLOCK)| <= n
    decreases n
  {
    if |bytes| > BLOCK {
      CutLength(bytes[BLOCK..], n - 1);
    }
  }

  /** Segments of 160 frames are the pieces of 160 blocks of the same bytes. */
  lemma {:induction false} SegmentsArePieces(bytes: seq<byte>, sizes: seq<nat>)
    requires forall k :: 0 <= k < |sizes| ==> sizes[k] == FRAMES_PER_FILE
    requires |Segments(Cut(bytes, BLOCK), sizes)| <= |sizes|
    ensures var segments := Segments(Cut(bytes, BLOCK), sizes);
            && |segments| == |Cut(bytes, FILE_SIZE)|
            && forall k :: 0 <= k < |segments| ==> Flatten(segments[k]) == Cut(bytes, FILE_SIZE)[k]
    decreases |bytes|
  {
    var frames := Cut(bytes, BLOCK);
    CutIsWhole(bytes, BLOCK);
    if bytes == [] {
    } else if |bytes| <= FILE_SIZE {
      CutLength(bytes, FRAMES_PER_FILE);
      assert sizes != [];
      assert Segments(frames, sizes) == [frames];
    } else {
      LongSegments(bytes, sizes);
      SegmentsArePieces(bytes[FILE_SIZE..], sizes[1..]);
    }
  }

  /** More bytes than one file holds: the first segment is one file's worth of frames. */
  lemma LongSegments(bytes: seq<byte>, sizes: seq<nat>)
    requires |bytes| > FILE_SIZE && forall k :: 0 <= k < |sizes| ==> sizes[k] == FRAMES_PER_FILE
    requires |Segments(Cut(bytes, BLOCK), sizes)| <= |sizes|
    ensures sizes != []
    ensures Segments(Cut(bytes, BLOCK), sizes)
            == [Cut(bytes[..FILE_SIZE], BLOCK)] + Segments(Cut(bytes[FILE_SIZE..], BLOCK), sizes[1..])
    ensures Flatten(Cut(bytes[..FILE_SIZE], BLOCK)) == bytes[..FILE_SIZE]
  {
    var frames := Cut(bytes, BLOCK);
    CutSplit(bytes, FRAMES_PER_FILE);
    CutIsWhole(bytes[..FILE_SIZE], BLOCK);
    assert frames[FRAMES_PER_FILE..] == Cut(bytes[FILE_SIZE..], BLOCK) != [];
    assert sizes != [];
  }
}
