/** From the host's mix calls to what a reader plays. */
module Streaming {
  import opened Types
  import opened SharedAudio
  import opened Reader
  import opened LogRefinement
  import opened Driver

  /** The call by which the host hands over one mixed block. */
  function Mix(block: seq<Stereo>, sampleTime: nat): Call {
    DoIO(ThisDevice, true, true, WriteMix, Some(block), Finite(sampleTime as real))
  }

  function Joined(blocks: seq<seq<Stereo>>): seq<Stereo> {
    if blocks == [] then [] else Joined(blocks[..|blocks| - 1]) + blocks[|blocks| - 1]
  }

  /** Blocks that follow one another without a gap from sample time `start` on. */
  function Mixes(start: nat, blocks: seq<seq<Stereo>>): seq<Call> {
    if blocks == [] then []
    else
      var before := blocks[..|blocks| - 1];
      Mixes(start, before) + [Mix(blocks[|blocks| - 1], start + |Joined(before)|)]
  }

  /** A valid ring on which no stream is active, whatever it holds. */
  predicate ReadyToMix(s: State) {
    HasSlots(s) && s.ring.Some? && IsValid(s.ring.value) && !s.ring.value.writerActive
  }

  predicate ReadyToStart(s: State) {
    s.running == 0 && HasSlots(s) && s.ring.Some? && IsValid(s.ring.value)
  }

  lemma {:induction false} AfterOneMore(s: State, calls: seq<Call>, call: Call)
    requires HasSlots(s)
    ensures After(s, calls + [call]) == Called(After(s, calls), call)
  {
    assert (calls + [call])[..|calls|] == calls;
  }

  /** The first start makes a valid ring ready, whatever it holds. */
  lemma {:induction false} Started(s: State, now: nat)
    requires ReadyToStart(s)
    ensures ReadyToMix(Called(s, StartIO(ThisDevice, now)))
    ensures Called(s, StartIO(ThisDevice, now)).ring.value.streamEpoch == now
  {
  }

  /** So does a rotation, which leaves the clients running and brings a ring as SVCAudioAllocate initialises it. */
  function Rotated(s: State, sampleRate: nat): State {
    s.(ring := Some(Initialized(sampleRate)))
  }

  lemma {:induction false} RotationIsReady(s: State, sampleRate: nat)
    requires sampleRate > 0
    ensures ReadyToMix(Rotated(s, sampleRate)) && Rotated(s, sampleRate).ring.value.streamEpoch == 0
  {
  }

  /** The ring of a session that began at `start` is a window on the log. */
  ghost predicate Streams(s: State, log: seq<Stereo>, start: nat, epoch: nat) {
    && s.ring.Some? && Backs(s.ring.value, log)
    && s.ring.value.streamStart == start && s.ring.value.streamEpoch == epoch
  }

  /** Counting a mix does not change the stream. */
  lemma {:induction false} CountingKeepsLog(ring: Ring, log: seq<Stereo>)
    requires Backs(ring, log)
    ensures Backs(ring.(writeMixCount := Incremented(ring.writeMixCount)), log)
  {
  }

  /** What is left of the first block, and the sample time it then starts at. */
  function Dropped(blocks: seq<seq<Stereo>>): nat
    requires blocks != []
  {
    Skipped(|blocks[0]|)
  }

  /** Everything mixed, without the frames skipped of an oversize first block. */
  function Heard(blocks: seq<seq<Stereo>>): seq<Stereo>
    requires blocks != [] && Dropped(blocks) <= |Joined(blocks)|
  {
    Joined(blocks)[Dropped(blocks)..]
  }

  lemma {:induction false} NextMix(s: State, log: seq<Stereo>, start: nat, epoch: nat, block: seq<Stereo>)
    requires HasSlots(s) && Streams(s, log, start, epoch) && (start + |log|) as real < SAMPLE_TIME_LIMIT
    ensures Streams(Called(s, Mix(block, start + |log|)), log + block, start, epoch)
  {
    var counted := s.ring.value.(writeMixCount := Incremented(s.ring.value.writeMixCount));
    CountingKeepsLog(s.ring.value, log);
    CaptureExtendsLog(counted, log, block);
  }

  lemma {:induction false} FirstMix(s: State, block: seq<Stereo>, sampleTime: nat)
    requires HasSlots(s) && s.ring.Some? && IsValid(s.ring.value) && !s.ring.value.writerActive
    requires block != [] && sampleTime as real < SAMPLE_TIME_LIMIT
    ensures Streams(Called(s, Mix(block, sampleTime)), block[Skipped(|block|)..], sampleTime + Skipped(|block|),
                    s.ring.value.streamEpoch)
  {
    var counted := s.ring.value.(writeMixCount := Incremented(s.ring.value.writeMixCount));
    FirstCaptureStartsLog(counted, block, Finite(sampleTime as real));
  }

  lemma {:induction false} MixesGrow(s: State, start: nat, blocks: seq<seq<Stereo>>)
    requires HasSlots(s) && blocks != []
    ensures var before, last := blocks[..|blocks| - 1], blocks[|blocks| - 1];
            && After(s, Mixes(start, blocks)) ==
               Called(After(s, Mixes(start, before)), Mix(last, start + |Joined(before)|))
            && Joined(blocks) == Joined(before) + last
            && (before == [] ==> After(s, Mixes(start, before)) == s && Joined(before) == [] && Joined(blocks) == last)
  {
    var before, last := blocks[..|blocks| - 1], blocks[|blocks| - 1];
    AfterOneMore(s, Mixes(start, before), Mix(last, start + |Joined(before)|));
  }

  lemma {:induction false} FirstBlockIsJoined(blocks: seq<seq<Stereo>>)
    requires blocks != []
    ensures |blocks[0]| <= |Joined(blocks)|
    decreases |blocks|
  {
    if |blocks| > 1 {
      FirstBlockIsJoined(blocks[..|blocks| - 1]);
    }
  }

  lemma {:induction false} HeardGrows(a: seq<Stereo>, b: seq<Stereo>, n: nat)
    requires n <= |a|
    ensures (a + b)[n..] == a[n..] + b
  {
  }

  lemma {:induction false} FirstBlock(s: State, start: nat, blocks: seq<seq<Stereo>>)
    requires ReadyToMix(s) && |blocks| == 1 && blocks[0] != [] && start as real < SAMPLE_TIME_LIMIT
    requires Dropped(blocks) <= |Joined(blocks)|
    ensures Streams(After(s, Mixes(start, blocks)), Heard(blocks), start + Dropped(blocks), s.ring.value.streamEpoch)
  {
    MixesGrow(s, start, blocks);
    FirstMix(s, blocks[0], start);
  }

  lemma {:induction false} NextBlock(s: State, start: nat, blocks: seq<seq<Stereo>>, epoch: nat)
    requires HasSlots(s) && |blocks| > 1 && (start + |Joined(blocks)|) as real < SAMPLE_TIME_LIMIT
    requires var before := blocks[..|blocks| - 1];
             && Dropped(before) <= |Joined(before)|
             && Streams(After(s, Mixes(start, before)), Heard(before), start + Dropped(before), epoch)
    ensures Dropped(blocks) <= |Joined(blocks)|
    ensures Streams(After(s, Mixes(start, blocks)), Heard(blocks), start + Dropped(blocks), epoch)
  {
    var before, last := blocks[..|blocks| - 1], blocks[|blocks| - 1];
    MixesGrow(s, start, blocks);
    HeardGrows(Joined(before), last, Dropped(before));
    NextMix(After(s, Mixes(start, before)), Heard(before), start + Dropped(before), epoch, last);
  }

  /**
   Main result: once no stream is active, any gap-free mixes make the ring a window on everything mixed since,
   whatever it held before; of an oversize first mix the frames skipped never belonged to the stream. A first
   start is such a moment, and so is a rotation while clients are running.
   */
  lemma {:induction false} MixesBackLog(s: State, start: nat, blocks: seq<seq<Stereo>>)
    requires ReadyToMix(s) && blocks != [] && blocks[0] != []
    requires (start + |Joined(blocks)|) as real < SAMPLE_TIME_LIMIT
    ensures Dropped(blocks) <= |Joined(blocks)|
    ensures Streams(After(s, Mixes(start, blocks)), Heard(blocks), start + Dropped(blocks), s.ring.value.streamEpoch)
    decreases |blocks|
  {
    FirstBlockIsJoined(blocks);
    if |blocks| == 1 {
      FirstBlock(s, start, blocks);
    } else {
      FirstBlockIsJoined(blocks[..|blocks| - 1]);
      MixesBackLog(s, start, blocks[..|blocks| - 1]);
      NextBlock(s, start, blocks, s.ring.value.streamEpoch);
    }
  }

  /** A call that renders plays interpolations of exactly the log. */
  ghost predicate ReadsLog(ring: Ring, log: seq<Stereo>, reader: ReaderState, n: nat)
    requires |ring.slots| == CAPACITY && reader.readFrame >= 0.0 && reader.targetLatencyFrames > 0
  {
    var outcome := ReadOutcome(reader, AtomicView(ring), n);
    outcome.rendered > 0 ==>
      && ring.streamStart + reader.targetLatencyFrames <= ring.writeFrame
      && PlayedFrom(Resynchronized(reader, AtomicView(ring)), ring.writeFrame, ring.streamStart, log, outcome.frames)
  }

  lemma {:induction false} ReaderPlaysStream(s: State, log: seq<Stereo>, start: nat, epoch: nat, reader: ReaderState,
                                             n: nat)
    requires Streams(s, log, start, epoch) && Follows(reader, epoch, start)
    ensures ReadsLog(s.ring.value, log, reader, n)
  {
    if ReadOutcome(reader, AtomicView(s.ring.value), n).rendered > 0 {
      ReadPlays(reader, s.ring.value, log, n);
    }
  }

  /**
   Main result, end to end: after a first start, a call that renders, of a reader that follows the session or has
   yet to synchronise with it, plays interpolations of exactly what the host has mixed.
   */
  lemma {:induction false} ReaderPlaysMixes(s: State, now: nat, start: nat, blocks: seq<seq<Stereo>>,
                                            reader: ReaderState, n: nat)
    requires ReadyToStart(s) && blocks != [] && blocks[0] != []
    requires (start + |Joined(blocks)|) as real < SAMPLE_TIME_LIMIT
    requires Follows(reader, now, start + Dropped(blocks))
    ensures Dropped(blocks) <= |Joined(blocks)|
    ensures var end := After(Called(s, StartIO(ThisDevice, now)), Mixes(start, blocks));
            end.ring.Some? && |end.ring.value.slots| == CAPACITY && ReadsLog(end.ring.value, Heard(blocks), reader, n)
  {
    Started(s, now);
    var started := Called(s, StartIO(ThisDevice, now));
    MixesBackLog(started, start, blocks);
    ReaderPlaysStream(After(started, Mixes(start, blocks)), Heard(blocks), start + Dropped(blocks), now, reader, n);
  }

  /** Main result: the same after a rotation, with any number of clients running and no start in between. */
  lemma {:induction false} ReaderPlaysAfterRotation(s: State, sampleRate: nat, start: nat, blocks: seq<seq<Stereo>>,
                                                    reader: ReaderState, n: nat)
    requires sampleRate > 0 && blocks != [] && blocks[0] != []
    requires (start + |Joined(blocks)|) as real < SAMPLE_TIME_LIMIT
    requires Follows(reader, 0, start + Dropped(blocks))
    ensures Dropped(blocks) <= |Joined(blocks)|
    ensures var end := After(Rotated(s, sampleRate), Mixes(start, blocks));
            end.ring.Some? && |end.ring.value.slots| == CAPACITY && ReadsLog(end.ring.value, Heard(blocks), reader, n)
  {
    RotationIsReady(s, sampleRate);
    MixesBackLog(Rotated(s, sampleRate), start, blocks);
    ReaderPlaysStream(After(Rotated(s, sampleRate), Mixes(start, blocks)), Heard(blocks), start + Dropped(blocks), 0,
                      reader, n);
  }
}
