/**
 * The tail reader of the game log (`readNewLogContent`, the offset
 * initialisation of `startLogWatcher`, `stopLogWatcher` and the body of the
 * debounced change callback in main.js).
 *
 * The file system is not modelled: each poll is given what `statSync` and
 * `readSync` would have seen, as a snapshot of the file's bytes, or the fact
 * that the call threw. The single module-level `lastFileSize` becomes the
 * `offset` field of a `Tailer` object.
 */
module LogTailer {
  import opened Wrappers
  import opened LogParser

  newtype byte = x: int | 0 <= x < 256

  /** What one poll sees of the file. */
  datatype Observation =
    | StatFailed                                  // `statSync` threw
    | Observed(data: seq<byte>, readFails: bool)  // the file's bytes; whether `openSync`/`readSync` threw

  /** What the start of the watcher sees of the file. */
  datatype StartProbe =
    | FileMissing         // `existsSync` is false
    | StatFails           // the file exists but `statSync` threw
    | FileSize(size: nat) // the file's size at start

  /** The offset after a poll and the bytes the poll returned. */
  datatype Poll = Poll(offset: nat, chunk: seq<byte>)

  /**
   * One call of `readNewLogContent` from offset `offset`: a file shorter than
   * the offset resets it to 0; a file longer than the (possibly reset) offset
   * is read from there to its end and the offset moves to the end; every
   * failure returns nothing.
   */
  function PollStep(offset: nat, obs: Observation): (r: Poll)
    ensures obs.StatFailed? ==> r == Poll(offset, [])
    ensures obs.Observed? ==> r.offset <= |obs.data| && |r.chunk| <= |obs.data|
    ensures obs.Observed? ==> r.chunk == obs.data[|obs.data| - |r.chunk|..]
    ensures obs.Observed? && r.chunk != [] ==> r.offset == |obs.data|
    ensures obs.Observed? && !obs.readFails && offset <= |obs.data| ==>
              r.chunk == obs.data[offset..] && r.offset == |obs.data|
    ensures obs.Observed? && !obs.readFails && |obs.data| < offset ==>
              r.chunk == obs.data && r.offset == |obs.data|
    ensures obs.Observed? && obs.readFails ==>
              r.chunk == [] && r.offset == (if |obs.data| < offset then 0 else offset)
  {
    match obs
    case StatFailed => Poll(offset, [])
    case Observed(data, readFails) =>
      var base := if |data| < offset then 0 else offset;
      if |data| > base && !readFails then Poll(|data|, data[base..])
      else Poll(base, [])
  }

  /** The offset after a run of polls and the concatenation of what they returned. */
  function Replay(offset: nat, obss: seq<Observation>): Poll
    decreases |obss|
  {
    if obss == [] then Poll(offset, [])
    else
      var first := PollStep(offset, obss[0]);
      var rest := Replay(first.offset, obss[1..]);
      Poll(rest.offset, first.chunk + rest.chunk)
  }

  /** The first poll of a run, then the rest of the run from where it left the offset. */
  lemma ReplayCons(offset: nat, obs: Observation, rest: seq<Observation>)
    ensures Replay(offset, [obs] + rest).offset == Replay(PollStep(offset, obs).offset, rest).offset
    ensures Replay(offset, [obs] + rest).chunk == PollStep(offset, obs).chunk + Replay(PollStep(offset, obs).offset, rest).chunk
  {
    assert ([obs] + rest)[0] == obs;
    assert ([obs] + rest)[1..] == rest;
  }

  /** What a run still owes after one more poll: that poll's bytes join what was already returned. */
  lemma ReplayAfterPoll(total: Poll, out: seq<byte>, offset: nat, obs: Observation, rest: seq<Observation>)
    requires total == Poll(Replay(offset, [obs] + rest).offset, out + Replay(offset, [obs] + rest).chunk)
    ensures total == Poll(Replay(PollStep(offset, obs).offset, rest).offset,
                          out + PollStep(offset, obs).chunk + Replay(PollStep(offset, obs).offset, rest).chunk)
  {
    ReplayCons(offset, obs, rest);
  }

  /** The file's content as last seen: the data of the latest observation, else `content`. */
  function LastContent(content: seq<byte>, obss: seq<Observation>): seq<byte>
    decreases |obss|
  {
    if obss == [] then content
    else LastContent(if obss[0].Observed? then obss[0].data else content, obss[1..])
  }

  /** Every observed snapshot extends the one before it, starting from `content`: the file only grows. */
  predicate GrowsOnly(content: seq<byte>, obss: seq<Observation>)
    decreases |obss|
  {
    obss == []
    || ((obss[0].Observed? ==> content <= obss[0].data)
        && GrowsOnly(if obss[0].Observed? then obss[0].data else content, obss[1..]))
  }

  /** On a file that only grows, the last snapshot extends every earlier one. */
  lemma {:induction false} LastContentExtends(content: seq<byte>, obss: seq<Observation>)
    requires GrowsOnly(content, obss)
    ensures content <= LastContent(content, obss)
    decreases |obss|
  {
    if obss != [] {
      var next := if obss[0].Observed? then obss[0].data else content;
      LastContentExtends(next, obss[1..]);
    }
  }

  /** One poll on a file that has not shrunk below the offset returns the bytes from the offset to the new offset. */
  lemma PollOnGrownFile(content: seq<byte>, offset: nat, obs: Observation, last: seq<byte>)
    requires offset <= |content|
    requires obs.Observed? ==> content <= obs.data
    requires (if obs.Observed? then obs.data else content) <= last
    ensures offset <= PollStep(offset, obs).offset <= |if obs.Observed? then obs.data else content|
    ensures PollStep(offset, obs).chunk == last[offset..PollStep(offset, obs).offset]
  {
  }

  /** Two adjacent slices of the same bytes join into one. */
  lemma AdjacentSlices(last: seq<byte>, i: nat, j: nat, k: nat, a: seq<byte>, b: seq<byte>)
    requires i <= j <= k <= |last| && a == last[i..j] && b == last[j..k]
    ensures a + b == last[i..k]
  {
  }

  /**
   * On a file that only grows, the polls return, concatenated, exactly the
   * bytes between the starting offset and the final offset of the last
   * snapshot, each once and in order.
   */
  lemma {:induction false} GrowingFileEmittedOnce(content: seq<byte>, offset: nat, obss: seq<Observation>)
    requires offset <= |content|
    requires GrowsOnly(content, obss)
    ensures offset <= Replay(offset, obss).offset <= |LastContent(content, obss)|
    ensures Replay(offset, obss).chunk == LastContent(content, obss)[offset..Replay(offset, obss).offset]
    decreases |obss|
  {
    LastContentExtends(content, obss);
    if obss != [] {
      var first := PollStep(offset, obss[0]);
      var next := if obss[0].Observed? then obss[0].data else content;
      var rest := obss[1..];
      GrowingFileEmittedOnce(next, first.offset, rest);
      LastContentExtends(next, rest);
      var last := LastContent(next, rest);
      PollOnGrownFile(content, offset, obss[0], last);
      AdjacentSlices(last, offset, first.offset, Replay(first.offset, rest).offset, first.chunk, Replay(first.offset, rest).chunk);
    }
  }

  /** When the last poll reads successfully, the offset ends at the end of the file as last seen. */
  lemma {:induction false} LastReadReachesEnd(content: seq<byte>, offset: nat, obss: seq<Observation>)
    requires offset <= |content|
    requires GrowsOnly(content, obss)
    requires obss != [] && obss[|obss| - 1].Observed? && !obss[|obss| - 1].readFails
    ensures Replay(offset, obss).offset == |LastContent(content, obss)|
    decreases |obss|
  {
    var first := PollStep(offset, obss[0]);
    var next := if obss[0].Observed? then obss[0].data else content;
    var rest := obss[1..];
    if rest != [] {
      assert rest[|rest| - 1] == obss[|obss| - 1];
      PollOnGrownFile(content, offset, obss[0], next);
      LastReadReachesEnd(next, first.offset, rest);
    }
  }

  /**
   * The watcher starts at the size of the file it finds; from then on, while
   * the file only grows, the polls return exactly the bytes appended after
   * the start.
   */
  lemma AppendedBytesEmittedOnce(atStart: seq<byte>, obss: seq<Observation>)
    requires GrowsOnly(atStart, obss)
    ensures |atStart| <= Replay(|atStart|, obss).offset <= |LastContent(atStart, obss)|
    ensures Replay(|atStart|, obss).chunk == LastContent(atStart, obss)[|atStart|..Replay(|atStart|, obss).offset]
    ensures obss != [] && obss[|obss| - 1].Observed? && !obss[|obss| - 1].readFails ==>
              Replay(|atStart|, obss).chunk == LastContent(atStart, obss)[|atStart|..]
  {
    GrowingFileEmittedOnce(atStart, |atStart|, obss);
    LastContentExtends(atStart, obss);
    if obss != [] && obss[|obss| - 1].Observed? && !obss[|obss| - 1].readFails {
      LastReadReachesEnd(atStart, |atStart|, obss);
    }
  }

  /** A file truncated below the offset and grown again is returned from its first byte. */
  lemma TruncatedFileReadFromStart(offset: nat, data: seq<byte>, next: seq<byte>)
    requires |data| < offset && data <= next
    ensures PollStep(offset, Observed(data, false)).offset == |data|
    ensures PollStep(offset, Observed(data, false)).chunk + PollStep(|data|, Observed(next, false)).chunk == next
  {
    assert data + next[|data|..] == next;
  }

  /** `buffer.toString`, one character per byte (exact for the ASCII text of the log). */
  function Decode(bytes: seq<byte>): (r: string)
    ensures |r| == |bytes|
  {
    seq(|bytes|, i requires 0 <= i < |bytes| => bytes[i] as int as char)
  }

  /** Decoding two runs of bytes one after the other gives the two texts one after the other. */
  lemma DecodeAppend(a: seq<byte>, b: seq<byte>)
    ensures Decode(a + b) == Decode(a) + Decode(b)
  {
    assert forall i :: 0 <= i < |a + b| ==> Decode(a + b)[i] == (Decode(a) + Decode(b))[i];
  }

  /** The watcher: the read offset (`lastFileSize`) and whether a watcher is registered. */
  class Tailer {
    var offset: nat
    var watching: bool

    constructor ()
      ensures offset == 0 && !watching
    {
      offset := 0;
      watching := false;
    }

    /**
     * `startLogWatcher`: the previous watcher is dropped; a missing file
     * gives `false` and no watcher; otherwise the offset is set to the file's
     * size (0 when it cannot be read) and watching starts.
     */
    method Start(probe: StartProbe) returns (started: bool)
      modifies this
      ensures started <==> !probe.FileMissing?
      ensures watching == started
      ensures probe.FileMissing? ==> offset == old(offset)
      ensures probe.StatFails? ==> offset == 0
      ensures probe.FileSize? ==> offset == probe.size
    {
      watching := false;
      if probe.FileMissing? {
        return false;
      }
      if probe.FileSize? {
        offset := probe.size;
      } else {
        offset := 0;
      }
      watching := true;
      started := true;
    }

    /** `stopLogWatcher`: the watcher is dropped and the offset kept. */
    method Stop()
      modifies this
      ensures !watching && offset == old(offset)
    {
      watching := false;
    }

    /** `readNewLogContent`: one poll, updating the offset in place. */
    method ReadNewContent(obs: Observation) returns (chunk: seq<byte>)
      modifies this
      ensures Poll(offset, chunk) == PollStep(old(offset), obs)
      ensures watching == old(watching)
    {
      chunk := [];
      match obs
      case StatFailed =>
      case Observed(data, readFails) =>
        if |data| < offset {
          offset := 0;
        }
        if |data| > offset && !readFails {
          chunk := data[offset..];
          offset := |data|;
        }
    }

    /**
     * A run of timer firings, one poll per observation: the bytes returned,
     * concatenated, and the final offset are those of `Replay`.
     */
    method Follow(obss: seq<Observation>) returns (out: seq<byte>)
      modifies this
      ensures Poll(offset, out) == Replay(old(offset), obss)
      ensures watching == old(watching)
    {
      out := [];
      ghost var start := offset;
      assert obss[0..] == obss;
      for i := 0 to |obss|
        invariant Replay(start, obss) == Poll(Replay(offset, obss[i..]).offset, out + Replay(offset, obss[i..]).chunk)
        invariant watching == old(watching)
      {
        assert obss[i..] == [obss[i]] + obss[i + 1..];
        ReplayAfterPoll(Replay(start, obss), out, offset, obss[i], obss[i + 1..]);
        var chunk := ReadNewContent(obss[i]);
        out := out + chunk;
      }
    }

    /**
     * The debounced change callback: read what is new, split it into lines
     * and send each parsed event to the window, when there is one.
     */
    method OnDebounceTimer(obs: Observation, matcher: Matcher, windowOpen: bool) returns (sent: seq<StandingEvent>)
      requires watching
      modifies this
      ensures offset == PollStep(old(offset), obs).offset && watching
      ensures sent == if windowOpen then ChunkEvents(Decode(PollStep(old(offset), obs).chunk), matcher) else []
    {
      var chunk := ReadNewContent(obs);
      var text := Decode(chunk);
      sent := [];
      if text != [] && windowOpen {
        sent := DispatchChunk(text, matcher);
      }
    }
  }
}
