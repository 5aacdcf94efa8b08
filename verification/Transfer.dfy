/** The round trip: what was uploaded is what is downloaded, byte for byte. */
module Transfers {
  import opened Segmentation
  import opened ByteFrames
  import opened SegmentNames
  import opened Catalogs
  import opened WriteEnds
  import opened ReadEnds
  import opened ReadPasses
  import opened UploadSteps
  import opened Uploads
  import opened DownloadSteps
  import opened Downloads
  import opened Wrapping
  import opened StoredWrites
  import opened StoredReads

  lemma {:induction false} AllPicked(files: Files)
    requires forall k :: 0 <= k < |files| ==> IsSegment(files[k].name)
    ensures Picked(files) == files
  {
    if files != [] {
      AllPicked(files[1..]);
      assert files == [files[0]] + files[1..];
    }
  }

  /** Upload then download is the identity on bytes: for every fragmentation of the input, every
      backend timing inside both schedulers, every order `list` in which the directory may be read
      (with whatever other entries), and any word size of read positions, the stored files pass
      the checks and a completed download sends exactly the original bytes. The files in `stored`
      are what the upload's segments hold after short writes, and the bytes sent are what the
      download's segments take out of them by short reads. If all polls of both succeed, enough
      calls are allowed, and numbers and positions suffice, the bytes do come back. */
  method UploadThenDownload(fragments: seq<seq<byte>>, list: Files -> Files, modulus: Modulus, polls: nat)
    returns (r: Option<DownloadResult>, ghost written: seq<StoredWrites.ByteEvent>, ghost stored: Files,
      ghost read: seq<StoredReads.ByteEvent>)
    requires forall files :: multiset(Picked(list(files))) == multiset(Picked(files))
    ensures r.Some? ==> r.value != InvalidData
    ensures r.Some? && r.value.Downloaded? ==> r.value.bytes == Flatten(fragments)
    ensures r.Some? ==> stored == Stored(Flatten(fragments)) && Leaves(FIRST_WRITER, written, stored)
    ensures r.Some? && r.value.Downloaded? ==>
              Reads(FirstReader(modulus), read, DataOf(Sort(Picked(list(stored)))), |Flatten(fragments)|,
                    Flatten(fragments))
    ensures (&& Succeeds(written, 0) && Smooth(read, 0)
             && !Exhausts(|Padded(Flatten(fragments))|) && modulus >= MIN_MODULUS
             && polls > PollsToUpload(|Padded(Flatten(fragments))|)
             && polls > PollsToDownload(Sort(Picked(list(stored))))) ==>
              r == Some(Downloaded(Flatten(fragments)))
  {
    hide Stored, Picked, Matches, Restored, Leaves, Reads, PollsToUpload, PollsToDownload, Exhausts, Padded;
    read, stored := [], [];
    var uploaded;
    uploaded, written := Upload(fragments, polls);
    SuccessIsNoFailure(written);
    if !uploaded.Uploaded? {
      return None, written, stored, read;
    }
    stored := uploaded.files;
    StoredComesBack(Flatten(fragments), list);
    var downloaded;
    downloaded, read := Download(uploaded.total, list(uploaded.files), modulus, polls);
    SmoothIsNoFault(read);
    return Some(downloaded), written, stored, read;
  }

  lemma SuccessIsNoFailure(events: seq<StoredWrites.ByteEvent>)
    ensures !(Succeeds(events, 0) && Failure(events, 0))
  {
    if Failure(events, 0) {
      var k :| 0 <= k < |events| && FailureAt(events[k]);
    }
  }

  lemma SmoothIsNoFault(events: seq<StoredReads.ByteEvent>)
    ensures !(Smooth(events, 0) && Fault(events, 0))
  {
    if Fault(events, 0) {
      var k :| 0 <= k < |events| && FaultAt(events[k]);
    }
  }

  lemma StoredComesBack(input: seq<byte>, list: Files -> Files)
    requires forall files :: multiset(Picked(list(files))) == multiset(Picked(files))
    requires |Stored(input)| <= NUMBERS
    ensures Matches(|input|, list(Stored(input))) && Restored(|input|, list(Stored(input))) == input
  {
    var files := Stored(input);
    forall k | 0 <= k < |files|
      ensures IsSegment(files[k].name)
    {
      assert files[k].name[20..] == FileName(k)[20..] == ".bin";
    }
    AllPicked(files);
    RestoredIsInput(input, list(files));
  }
}
