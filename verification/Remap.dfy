/**
 Channel remapping of forwarder/AudioProcessor.c between interleaved or planar buffer lists.

 The input list is const in the source and separate from the output, so its buffers are values; the output
 buffers are arrays filled in place.
 */
module Remap {
  import opened Types
  import opened Gain

  const MAXIMUM_MAPPED_CHANNELS: nat := 64
  const SAMPLE_BYTES: nat := 4

  /** Frames of an interleaved buffer. */
  function FrameCount(byteSize: nat, channels: nat): nat
    requires channels > 0
  {
    byteSize / (SAMPLE_BYTES * channels)
  }

  // ---- Input channels ----

  datatype InputBuffer = InputBuffer(channels: UInt32, byteSize: UInt32, data: Option<seq<real>>)

  /** The data holds as many samples as its size in bytes announces. */
  predicate WellSizedInput(buffer: InputBuffer) {
    buffer.data.Some? ==> |buffer.data.value| == buffer.byteSize / SAMPLE_BYTES
  }

  predicate UsableInput(buffer: InputBuffer) {
    buffer.data.Some? && buffer.channels != 0
  }

  datatype InputChannel = InputChannel(samples: seq<real>, channelCount: nat, channelIndex: nat, frameCount: nat)

  function ChannelsUpTo(buffer: InputBuffer, n: nat): (r: seq<InputChannel>)
    requires UsableInput(buffer)
    ensures |r| == n
  {
    seq(n, i requires 0 <= i < n =>
      InputChannel(buffer.data.value, buffer.channels, i, FrameCount(buffer.byteSize, buffer.channels)))
  }

  /** All channels of a list in order; unusable buffers contribute none. */
  function AllChannels(list: seq<InputBuffer>): seq<InputChannel> {
    if list == [] then []
    else
      var last := list[|list| - 1];
      AllChannels(list[..|list| - 1]) + if UsableInput(last) then ChannelsUpTo(last, last.channels) else []
  }

  function Take<T>(s: seq<T>, n: nat): seq<T> {
    if n < |s| then s[..n] else s
  }

  /** The channels the processor uses; a NULL list has none. */
  function Mapped(input: Option<seq<InputBuffer>>): seq<InputChannel> {
    if input == None then [] else Take(AllChannels(input.value), MAXIMUM_MAPPED_CHANNELS)
  }

  method MapInputChannels(input: Option<seq<InputBuffer>>, capacity: nat) returns (mapped: seq<InputChannel>)
    ensures mapped == if input == None then [] else Take(AllChannels(input.value), capacity)
  {
    mapped := [];
    if input == None {
      return;
    }
    var list := input.value;
    var bufferIndex := 0;
    while bufferIndex < |list| && |mapped| < capacity
      invariant bufferIndex <= |list|
      invariant mapped == Take(AllChannels(list[..bufferIndex]), capacity)
    {
      var buffer := list[bufferIndex];
      assert list[..bufferIndex + 1][..bufferIndex] == list[..bufferIndex];
      if UsableInput(buffer) {
        var frameCount := FrameCount(buffer.byteSize, buffer.channels);
        var channelIndex: nat := 0;
        ghost var before := mapped;
        while channelIndex < buffer.channels && |mapped| < capacity
          invariant channelIndex <= buffer.channels && |mapped| <= capacity
          invariant mapped == before + ChannelsUpTo(buffer, channelIndex)
        {
          mapped := mapped + [InputChannel(buffer.data.value, buffer.channels, channelIndex, frameCount)];
          channelIndex := channelIndex + 1;
        }
        assert ChannelsUpTo(buffer, channelIndex) == ChannelsUpTo(buffer, buffer.channels)[..channelIndex];
      }
      bufferIndex := bufferIndex + 1;
    }
    TakeOfPrefix(list, bufferIndex, capacity);
    assert list[..|list|] == list;
  }

  lemma {:induction false} TakeOfPrefix(list: seq<InputBuffer>, i: nat, capacity: nat)
    requires i <= |list| && (i == |list| || |AllChannels(list[..i])| >= capacity)
    ensures Take(AllChannels(list), capacity) == Take(AllChannels(list[..i]), capacity)
    decreases |list|
  {
    if i < |list| {
      assert list[..|list| - 1][..i] == list[..i];
      TakeOfPrefix(list[..|list| - 1], i, capacity);
      LongEnough(list, i);
      if i < |list| - 1 {
        LongEnough(list[..|list| - 1], i);
      }
    } else {
      assert list[..i] == list;
    }
  }

  lemma {:induction false} LongEnough(list: seq<InputBuffer>, i: nat)
    requires i <= |list|
    ensures |AllChannels(list[..i])| <= |AllChannels(list)|
    decreases |list|
  {
    if i < |list| {
      assert list[..|list| - 1][..i] == list[..i];
      LongEnough(list[..|list| - 1], i);
    } else {
      assert list[..i] == list;
    }
  }

  // ---- The output list ----

  /** One AudioBuffer to fill; the data pointer may be NULL. */
  datatype AudioBuffer = AudioBuffer(channels: UInt32, byteSize: UInt32, data: array?<real>)

  ghost predicate WellSized(buffer: AudioBuffer) {
    buffer.data != null ==> buffer.data.Length == buffer.byteSize / SAMPLE_BYTES
  }

  predicate Usable(buffer: AudioBuffer) {
    buffer.data != null && buffer.channels != 0
  }

  function MostFrames(list: seq<AudioBuffer>): nat {
    if list == [] then 0
    else
      var last, most := list[|list| - 1], MostFrames(list[..|list| - 1]);
      if Usable(last) then Max(FrameCount(last.byteSize, last.channels), most) else most
  }

  method MaximumOutputFrames(list: seq<AudioBuffer>) returns (maximum: nat)
    ensures maximum == MostFrames(list)
    ensures forall b | b in list && Usable(b) :: FrameCount(b.byteSize, b.channels) <= maximum
    ensures maximum > 0 ==> exists b :: b in list && Usable(b) && FrameCount(b.byteSize, b.channels) == maximum
  {
    maximum := 0;
    var bufferIndex := 0;
    while bufferIndex < |list|
      invariant bufferIndex <= |list|
      invariant maximum == MostFrames(list[..bufferIndex])
      invariant forall b | b in list[..bufferIndex] && Usable(b) :: FrameCount(b.byteSize, b.channels) <= maximum
      invariant maximum > 0 ==>
                  exists b :: b in list[..bufferIndex] && Usable(b) && FrameCount(b.byteSize, b.channels) == maximum
    {
      assert list[..bufferIndex + 1] == list[..bufferIndex] + [list[bufferIndex]];
      var buffer := list[bufferIndex];
      if Usable(buffer) {
        var frames := FrameCount(buffer.byteSize, buffer.channels);
        if frames > maximum {
          maximum := frames;
        }
      }
      bufferIndex := bufferIndex + 1;
    }
    assert list[..bufferIndex] == list;
  }

  // ---- Channels by number ----

  /** A channel of one buffer of a list. */
  datatype Place = Place(buffer: nat, channel: nat)

  /** The channels of buffers that have so many each, one after the other; a channel's number is its index here. */
  function Places(counts: seq<nat>): (places: seq<Place>)
    ensures forall k | 0 <= k < |places| ::
              places[k].buffer < |counts| && places[k].channel < counts[places[k].buffer]
  {
    if counts == [] then []
    else
      var last := |counts| - 1;
      Places(counts[..last]) + seq(counts[last], c requires 0 <= c < counts[last] => Place(last, c))
  }

  /** Unusable output buffers keep their channels' numbers. */
  function Counts(list: seq<AudioBuffer>): (counts: seq<nat>)
    ensures |counts| == |list| && forall i | 0 <= i < |list| :: counts[i] == list[i].channels
  {
    seq(|list|, i requires 0 <= i < |list| => list[i].channels)
  }

  /** Unusable input buffers have no channels. */
  function InputCounts(list: seq<InputBuffer>): (counts: seq<nat>)
    ensures |counts| == |list|
    ensures forall i | 0 <= i < |list| :: counts[i] == if UsableInput(list[i]) then list[i].channels else 0
  {
    seq(|list|, i requires 0 <= i < |list| => if UsableInput(list[i]) then list[i].channels else 0)
  }

  /** A channel's number is the number of channels of the buffers before it, and its index in its own. */
  lemma {:induction false} NumberOfPlace(counts: seq<nat>, number: nat)
    requires number < |Places(counts)|
    ensures var place := Places(counts)[number];
            number == |Places(counts[..place.buffer])| + place.channel
    decreases |counts|
  {
    var last, before := |counts| - 1, Places(counts[..|counts| - 1]);
    if number < |before| {
      NumberOfPlace(counts[..last], number);
      assert counts[..last][..before[number].buffer] == counts[..before[number].buffer];
    } else {
      assert Places(counts)[number] == Place(last, number - |before|);
    }
  }

  // ---- The reference ----

  predicate InBounds(c: InputChannel) {
    c.channelIndex < c.channelCount && c.frameCount * c.channelCount <= |c.samples|
  }

  predicate AllInBounds(channels: seq<InputChannel>) {
    forall g | 0 <= g < |channels| :: InBounds(channels[g])
  }

  /** Sample (global channel, frame) of the input; a channel or frame that does not exist is silent. */
  function SourceSample(channels: seq<InputChannel>, g: nat, frame: nat): real
    requires AllInBounds(channels)
  {
    if g < |channels| && frame < channels[g].frameCount then
      var c := channels[g];
      IndexInBounds(frame, c.channelIndex, c.frameCount, c.channelCount);
      c.samples[frame * c.channelCount + c.channelIndex]
    else 0.0
  }

  /** The global channel of a buffer's first channel, as a 32-bit sum. */
  function ChannelBase(list: seq<AudioBuffer>, i: nat): (base: nat)
    requires i <= |list|
    ensures base < UINT32_RANGE
  {
    if i == 0 then 0 else (ChannelBase(list, i - 1) + list[i - 1].channels) % UINT32_RANGE
  }

  lemma {:induction false} BaseCountsChannels(list: seq<AudioBuffer>, i: nat)
    requires i <= |list|
    ensures ChannelBase(list, i) == |Places(Counts(list)[..i])| % UINT32_RANGE
  {
    if i > 0 {
      BaseCountsChannels(list, i - 1);
      assert Counts(list)[..i][..i - 1] == Counts(list)[..i - 1];
      SumModulo(|Places(Counts(list)[..i - 1])|, list[i - 1].channels);
    }
  }

  lemma {:induction false} SumModulo(a: nat, b: nat)
    ensures (a % UINT32_RANGE + b) % UINT32_RANGE == (a + b) % UINT32_RANGE
  {
  }

  /** The source's 32-bit sum is the channel's number, as far as 32 bits go. */
  lemma {:induction false} GlobalChannelIsNumber(list: seq<AudioBuffer>, number: nat)
    requires number < |Places(Counts(list))|
    ensures var place := Places(Counts(list))[number];
            (ChannelBase(list, place.buffer) + place.channel) % UINT32_RANGE == number % UINT32_RANGE
  {
    var place := Places(Counts(list))[number];
    NumberOfPlace(Counts(list), number);
    BaseCountsChannels(list, place.buffer);
    SumModulo(|Places(Counts(list)[..place.buffer])|, place.channel);
  }

  /** Sample k of an interleaved output buffer once n frames are done. */
  ghost function OutputSample(sources: seq<InputChannel>, ramp: Ramp, base: nat, buffer: AudioBuffer, k: nat,
                              n: nat): real
    requires AllInBounds(sources)
  {
    if Usable(buffer) && k / buffer.channels < n
       && k / buffer.channels < FrameCount(buffer.byteSize, buffer.channels) then
      var frame, channel := k / buffer.channels, k % buffer.channels;
      SourceSample(sources, (base + channel) % UINT32_RANGE, frame) * GainOfFrame(ramp, frame)
    else 0.0
  }

  ghost function Reference(sources: seq<InputChannel>, ramp: Ramp, base: nat, buffer: AudioBuffer,
                           n: nat): (r: seq<real>)
    requires AllInBounds(sources)
    ensures |r| == buffer.byteSize / SAMPLE_BYTES
  {
    seq(buffer.byteSize / SAMPLE_BYTES, k requires 0 <= k => OutputSample(sources, ramp, base, buffer, k, n))
  }

  /** The reference contents of every buffer of a list. */
  ghost function References(sources: seq<InputChannel>, ramp: Ramp, list: seq<AudioBuffer>, n: nat): (r: seq<seq<real>>)
    requires AllInBounds(sources)
    ensures |r| == |list|
  {
    seq(|list|, i requires 0 <= i < |list| => Reference(sources, ramp, ChannelBase(list, i), list[i], n))
  }

  ghost function Arrays(list: seq<AudioBuffer>): set<array?<real>> {
    set i | 0 <= i < |list| && list[i].data != null :: list[i].data
  }

  /** Each buffer that has data contains the given samples. */
  ghost predicate Contains(list: seq<AudioBuffer>, contents: seq<seq<real>>)
    reads Arrays(list)
  {
    && |contents| == |list|
    && forall i {:trigger contents[i]} | 0 <= i < |list| && list[i].data != null :: list[i].data[..] == contents[i]
  }

  /** The buffers of the list are different arrays. */
  ghost predicate Separate(list: seq<AudioBuffer>) {
    forall i, j | 0 <= i < j < |list| && list[i].data != null :: list[i].data != list[j].data
  }

  // ---- Index arithmetic ----

  lemma {:induction false} IndexInBounds(frame: nat, channel: nat, frames: nat, channels: nat)
    requires frame < frames && channel < channels
    ensures 0 <= frame * channels + channel < frames * channels
  {
    assert (frames - frame - 1) * channels >= 0;
    assert (frames - frame - 1) * channels == frames * channels - frame * channels - channels;
  }

  lemma {:induction false} FramesFit(byteSize: nat, channels: nat)
    requires channels > 0
    ensures FrameCount(byteSize, channels) * channels <= byteSize / SAMPLE_BYTES
  {
    var frames := FrameCount(byteSize, channels);
    assert frames * (SAMPLE_BYTES * channels) <= byteSize;
    assert (frames * channels) * SAMPLE_BYTES == frames * (SAMPLE_BYTES * channels);
  }

  lemma {:induction false} Division(k: nat, d: nat)
    requires d > 0
    ensures k == (k / d) * d + k % d
  {
  }

  lemma {:induction false} Difference(x: int, y: int, d: int)
    ensures (x - y) * d == x * d - y * d
  {
  }

  lemma {:induction false} MoreRows(m: nat, x: nat, d: nat)
    requires m <= x
    ensures m * d <= x * d
  {
    assert (x - m) * d >= 0;
  }

  lemma {:induction false} DivAtLeast(k: nat, m: nat, d: nat)
    requires d > 0 && k >= m * d
    ensures k / d >= m
  {
    Division(k, d);
    if k / d < m {
      MoreRows(k / d + 1, m, d);
    }
  }

  lemma {:induction false} DivBelow(k: nat, m: nat, d: nat)
    requires d > 0 && k < m * d
    ensures k / d < m
  {
    Division(k, d);
    if k / d >= m {
      MoreRows(m, k / d, d);
    }
  }

  lemma {:induction false} DivMod(q: nat, r: nat, d: nat)
    requires r < d
    ensures (q * d + r) / d == q && (q * d + r) % d == r
  {
    var k := q * d + r;
    DivAtLeast(k, q, d);
    Difference(q, -1, d);
    DivBelow(k, q + 1, d);
    Division(k, d);
  }

  /** Where sample k stands relative to the row of a frame. */
  lemma {:induction false} RowOf(frame: nat, d: nat, k: nat)
    requires d > 0
    ensures k < frame * d ==> k / d < frame
    ensures k >= frame * d + d ==> k / d > frame
    ensures frame * d <= k < frame * d + d ==> k / d == frame && k % d == k - frame * d
  {
    if k >= frame * d + d {
      Difference(frame, -1, d);
      DivAtLeast(k, frame + 1, d);
    } else if k >= frame * d {
      DivMod(frame, k - frame * d, d);
    } else {
      DivBelow(k, frame, d);
    }
  }

  // ---- Processing ----

  ghost predicate AllZero(data: array?<real>)
    reads if data == null then {} else {data}
  {
    data != null ==> forall k | 0 <= k < data.Length :: data[k] == 0.0
  }

  method Clear(list: seq<AudioBuffer>)
    requires forall i | 0 <= i < |list| :: WellSized(list[i])
    modifies Arrays(list)
    ensures forall i | 0 <= i < |list| :: AllZero(list[i].data)
  {
    var i := 0;
    while i < |list|
      invariant i <= |list|
      invariant forall j | 0 <= j < i :: AllZero(list[j].data)
    {
      var buffer := list[i];
      if buffer.data != null && buffer.byteSize > 0 {
        forall k | 0 <= k < buffer.data.Length {
          buffer.data[k] := 0.0;
        }
      }
      i := i + 1;
    }
  }

  /** The samples of one frame have been written from `start` on, everything else is as before. */
  ghost predicate RowWritten(sources: seq<InputChannel>, base: nat, frame: nat, gain: real,
                             before: seq<real>, after: seq<real>, start: nat, count: nat)
    requires AllInBounds(sources)
  {
    && |before| == |after|
    && forall k | 0 <= k < |after| ::
         after[k] == if start <= k < start + count
                     then SourceSample(sources, (base + (k - start)) % UINT32_RANGE, frame) * gain
                     else before[k]
  }

  lemma {:induction false} RowStep(sources: seq<InputChannel>, base: nat, frame: nat, gain: real, before: seq<real>,
                                   mid: seq<real>, after: seq<real>, start: nat, count: nat, scaled: real)
    requires AllInBounds(sources) && start + count < |before|
    requires RowWritten(sources, base, frame, gain, before, mid, start, count)
    requires scaled == SourceSample(sources, (base + count) % UINT32_RANGE, frame) * gain
    requires after == mid[start + count := scaled]
    ensures RowWritten(sources, base, frame, gain, before, after, start, count + 1)
  {
  }

  /** One step of the channel loop: a source that does not exist leaves the sample alone. */
  method RenderSample(data: array<real>, at: nat, frame: nat, globalChannel: nat, gain: real,
                      sources: seq<InputChannel>, ghost scaled: real)
    requires AllInBounds(sources) && at < data.Length && data[at] == 0.0
    requires scaled == SourceSample(sources, globalChannel, frame) * gain
    modifies data
    ensures data[..] == old(data[..])[at := scaled]
  {
    if globalChannel < |sources| && frame < sources[globalChannel].frameCount {
      var source := sources[globalChannel];
      IndexInBounds(frame, source.channelIndex, source.frameCount, source.channelCount);
      var sample := source.samples[frame * source.channelCount + source.channelIndex];
      var product := sample * gain;
      data[at] := product;
      assert product == scaled;
    }
  }

  lemma {:induction false} RowUnwritten(sources: seq<InputChannel>, base: nat, frame: nat, gain: real,
                                        before: seq<real>, now: seq<real>, start: nat, count: nat)
    requires AllInBounds(sources) && start + count < |now|
    requires RowWritten(sources, base, frame, gain, before, now, start, count)
    ensures now[start + count] == before[start + count]
  {
  }

  /** The channel loop: one frame of one buffer. */
  method RenderRow(data: array<real>, frame: nat, outputChannels: nat, base: nat, gain: real,
                   sources: seq<InputChannel>, start: nat)
    requires start == frame * outputChannels
    requires AllInBounds(sources) && start + outputChannels <= data.Length
    requires forall k | start <= k < start + outputChannels :: data[k] == 0.0
    modifies data
    ensures RowWritten(sources, base, frame, gain, old(data[..]), data[..], start, outputChannels)
  {
    ghost var before := data[..];
    var channel: nat := 0;
    while channel < outputChannels
      invariant channel <= outputChannels
      invariant RowWritten(sources, base, frame, gain, before, data[..], start, channel)
    {
      ghost var mid := data[..];
      RowUnwritten(sources, base, frame, gain, before, mid, start, channel);
      var globalChannel := (base + channel) % UINT32_RANGE;
      ghost var scaled := SourceSample(sources, globalChannel, frame) * gain;
      RenderSample(data, start + channel, frame, globalChannel, gain, sources, scaled);
      RowStep(sources, base, frame, gain, before, mid, data[..], start, channel, scaled);
      channel := channel + 1;
    }
  }

  /** Writing row `frame` turns the reference output after `frame` frames into that after frame + 1. */
  lemma {:induction false} RowRenders(sources: seq<InputChannel>, ramp: Ramp, base: nat, buffer: AudioBuffer,
                                      frame: nat, before: seq<real>, after: seq<real>, k: nat)
    requires AllInBounds(sources) && Usable(buffer) && frame < FrameCount(buffer.byteSize, buffer.channels)
    requires RowWritten(sources, base, frame, GainOfFrame(ramp, frame), before, after,
                        frame * buffer.channels, buffer.channels)
    requires k < |after| && before[k] == OutputSample(sources, ramp, base, buffer, k, frame)
    ensures after[k] == OutputSample(sources, ramp, base, buffer, k, frame + 1)
  {
    RowOf(frame, buffer.channels, k);
  }

  lemma {:induction false} RowCompletes(sources: seq<InputChannel>, ramp: Ramp, base: nat, buffer: AudioBuffer,
                                        frame: nat, before: seq<real>, after: seq<real>)
    requires AllInBounds(sources) && Usable(buffer) && frame < FrameCount(buffer.byteSize, buffer.channels)
    requires before == Reference(sources, ramp, base, buffer, frame)
    requires RowWritten(sources, base, frame, GainOfFrame(ramp, frame), before, after,
                        frame * buffer.channels, buffer.channels)
    ensures after == Reference(sources, ramp, base, buffer, frame + 1)
  {
    forall k | 0 <= k < |after| ensures after[k] == Reference(sources, ramp, base, buffer, frame + 1)[k] {
      RowRenders(sources, ramp, base, buffer, frame, before, after, k);
    }
  }

  lemma {:induction false} RowIsStillZero(sources: seq<InputChannel>, ramp: Ramp, base: nat, buffer: AudioBuffer,
                                          frame: nat)
    requires AllInBounds(sources) && Usable(buffer) && frame < FrameCount(buffer.byteSize, buffer.channels)
    ensures var r, start := Reference(sources, ramp, base, buffer, frame), frame * buffer.channels;
            && start + buffer.channels <= |r|
            && forall k | start <= k < start + buffer.channels :: r[k] == 0.0
  {
    var c, r := buffer.channels, Reference(sources, ramp, base, buffer, frame);
    FramesFit(buffer.byteSize, c);
    IndexInBounds(frame, c - 1, FrameCount(buffer.byteSize, c), c);
    forall k | frame * c <= k < frame * c + c ensures r[k] == 0.0 {
      RowOf(frame, c, k);
    }
  }

  method RenderBuffer(buffer: AudioBuffer, frame: nat, base: nat, gain: real, sources: seq<InputChannel>,
                      ghost ramp: Ramp)
    requires Usable(buffer) && WellSized(buffer) && AllInBounds(sources)
    requires frame < FrameCount(buffer.byteSize, buffer.channels) && gain == GainOfFrame(ramp, frame)
    requires buffer.data[..] == Reference(sources, ramp, base, buffer, frame)
    modifies buffer.data
    ensures buffer.data[..] == Reference(sources, ramp, base, buffer, frame + 1)
  {
    ghost var before := buffer.data[..];
    RowIsStillZero(sources, ramp, base, buffer, frame);
    assert forall k | 0 <= k < buffer.data.Length :: buffer.data[k] == before[k];
    RenderRow(buffer.data, frame, buffer.channels, base, gain, sources, frame * buffer.channels);
    RowCompletes(sources, ramp, base, buffer, frame, before, buffer.data[..]);
  }

  lemma {:induction false} SkippedBuffer(sources: seq<InputChannel>, ramp: Ramp, base: nat, buffer: AudioBuffer,
                                         frame: nat)
    requires AllInBounds(sources)
    requires !Usable(buffer) || frame >= FrameCount(buffer.byteSize, buffer.channels)
    ensures Reference(sources, ramp, base, buffer, frame) == Reference(sources, ramp, base, buffer, frame + 1)
  {
  }

  /** A name for an index, so that the link below is used only where it is needed. */
  ghost predicate At(i: nat) {
    true
  }

  /** `contents` is the reference after n frames. */
  ghost predicate IsReference(contents: seq<seq<real>>, sources: seq<InputChannel>, ramp: Ramp,
                              list: seq<AudioBuffer>, n: nat)
    requires AllInBounds(sources)
  {
    && |contents| == |list|
    && forall i {:trigger At(i)} | 0 <= i < |list| && At(i) ::
         contents[i] == Reference(sources, ramp, ChannelBase(list, i), list[i], n)
  }

  lemma {:induction false} ReferencesAre(sources: seq<InputChannel>, ramp: Ramp, list: seq<AudioBuffer>, n: nat)
    requires AllInBounds(sources)
    ensures IsReference(References(sources, ramp, list, n), sources, ramp, list, n)
  {
  }

  /** One step of the buffer loop. */
  method RenderAt(output: seq<AudioBuffer>, i: nat, frame: nat, base: nat, gain: real, sources: seq<InputChannel>,
                  ghost ramp: Ramp, ghost now: seq<seq<real>>, ghost next: seq<seq<real>>)
    requires i < |output| && WellSized(output[i]) && AllInBounds(sources) && base == ChannelBase(output, i)
    requires gain == GainOfFrame(ramp, frame)
    requires IsReference(now, sources, ramp, output, frame) && IsReference(next, sources, ramp, output, frame + 1)
    requires output[i].data != null ==> output[i].data[..] == now[i]
    modifies if output[i].data == null then {} else {output[i].data}
    ensures output[i].data != null ==> output[i].data[..] == next[i]
  {
    var buffer := output[i];
    assert At(i);
    if Usable(buffer) && frame < FrameCount(buffer.byteSize, buffer.channels) {
      RenderBuffer(buffer, frame, base, gain, sources, ramp);
    } else {
      SkippedBuffer(sources, ramp, base, buffer, frame);
    }
  }

  /** The buffer loop of one frame. */
  method RenderFrame(output: seq<AudioBuffer>, frame: nat, gain: real, sources: seq<InputChannel>,
                     ghost ramp: Ramp, ghost now: seq<seq<real>>, ghost next: seq<seq<real>>)
    requires forall i | 0 <= i < |output| :: WellSized(output[i])
    requires Separate(output) && AllInBounds(sources)
    requires gain == GainOfFrame(ramp, frame)
    requires IsReference(now, sources, ramp, output, frame) && IsReference(next, sources, ramp, output, frame + 1)
    requires Contains(output, now)
    modifies Arrays(output)
    ensures Contains(output, next)
  {
    var outputChannelBase: nat := 0;
    var i := 0;
    while i < |output|
      invariant i <= |output|
      invariant outputChannelBase == ChannelBase(output, i)
      invariant forall j {:trigger next[j]} | 0 <= j < i && output[j].data != null :: output[j].data[..] == next[j]
      invariant forall j {:trigger now[j]} | i <= j < |output| && output[j].data != null :: output[j].data[..] == now[j]
    {
      RenderAt(output, i, frame, outputChannelBase, gain, sources, ramp, now, next);
      outputChannelBase := (outputChannelBase + output[i].channels) % UINT32_RANGE;
      i := i + 1;
    }
  }

  lemma {:induction false} ClearedIsReference(sources: seq<InputChannel>, ramp: Ramp, list: seq<AudioBuffer>,
                                              contents: seq<seq<real>>)
    requires AllInBounds(sources) && IsReference(contents, sources, ramp, list, 0)
    requires forall i | 0 <= i < |list| :: WellSized(list[i]) && AllZero(list[i].data)
    ensures Contains(list, contents)
  {
    forall i | 0 <= i < |list| && list[i].data != null ensures list[i].data[..] == contents[i] {
      assert At(i);
    }
  }

  lemma {:induction false} ChannelsAreInBounds(list: seq<InputBuffer>)
    requires forall i | 0 <= i < |list| :: WellSizedInput(list[i])
    ensures AllInBounds(AllChannels(list))
    decreases |list|
  {
    if list != [] {
      var last := list[|list| - 1];
      ChannelsAreInBounds(list[..|list| - 1]);
      if UsableInput(last) {
        FramesFit(last.byteSize, last.channels);
        assert AllInBounds(ChannelsUpTo(last, last.channels));
        BothInBounds(AllChannels(list[..|list| - 1]), ChannelsUpTo(last, last.channels));
      }
    }
  }

  lemma {:induction false} BothInBounds(a: seq<InputChannel>, b: seq<InputChannel>)
    requires AllInBounds(a) && AllInBounds(b)
    ensures AllInBounds(a + b)
  {
  }

  /** The announced sizes keep every read of a mapped channel in bounds. */
  lemma {:induction false} MappedInBounds(input: Option<seq<InputBuffer>>)
    requires input.Some? ==> forall i | 0 <= i < |input.value| :: WellSizedInput(input.value[i])
    ensures AllInBounds(Mapped(input))
  {
    if input.Some? {
      ChannelsAreInBounds(input.value);
    }
  }

  /** The memset loop. */
  method Prepare(output: seq<AudioBuffer>, ghost sources: seq<InputChannel>, ghost ramp: Ramp)
    requires AllInBounds(sources) && forall i | 0 <= i < |output| :: WellSized(output[i])
    modifies Arrays(output)
    ensures Contains(output, References(sources, ramp, output, 0))
  {
    Clear(output);
    ReferencesAre(sources, ramp, output, 0);
    ClearedIsReference(sources, ramp, output, References(sources, ramp, output, 0));
  }

  /** One step of the frame loop: the gain advances once, then every buffer gets its row. */
  method RenderNext(processor: GainProcessor, output: seq<AudioBuffer>, frame: nat, sources: seq<InputChannel>,
                    ghost ramp: Ramp)
    requires AllInBounds(sources) && forall i | 0 <= i < |output| :: WellSized(output[i])
    requires Separate(output) && processor.Value() == AfterFrames(ramp, frame)
    requires Contains(output, References(sources, ramp, output, frame))
    modifies processor, Arrays(output)
    ensures processor.Value() == AfterFrames(ramp, frame + 1)
    ensures Contains(output, References(sources, ramp, output, frame + 1))
  {
    var gain := processor.GainForNextFrame();
    ReferencesAre(sources, ramp, output, frame);
    ReferencesAre(sources, ramp, output, frame + 1);
    RenderFrame(output, frame, gain, sources, ramp, References(sources, ramp, output, frame),
                References(sources, ramp, output, frame + 1));
  }

  /** The frame loop. */
  method RenderAll(processor: GainProcessor, output: seq<AudioBuffer>, frames: nat, sources: seq<InputChannel>,
                   ghost ramp: Ramp)
    requires AllInBounds(sources) && forall i | 0 <= i < |output| :: WellSized(output[i])
    requires Separate(output) && processor.Value() == ramp
    requires Contains(output, References(sources, ramp, output, 0))
    modifies processor, Arrays(output)
    ensures processor.Value() == AfterFrames(ramp, frames)
    ensures Contains(output, References(sources, ramp, output, frames))
  {
    var frame := 0;
    while frame < frames
      invariant frame <= frames
      invariant processor.Value() == AfterFrames(ramp, frame)
      invariant Contains(output, References(sources, ramp, output, frame))
    {
      RenderNext(processor, output, frame, sources, ramp);
      frame := frame + 1;
    }
  }

  /**
   Main result: after the call every output buffer shows the reference: sample (frame, channel) is the input's
   sample of the same global channel and frame times that frame's gain, or silence; the gain advances once
   per frame whatever the number of channels.
   */
  method Process(processor: GainProcessor, input: Option<seq<InputBuffer>>, output: seq<AudioBuffer>)
    returns (frames: nat)
    requires forall i | 0 <= i < |output| :: WellSized(output[i])
    requires input.Some? ==> forall i | 0 <= i < |input.value| :: WellSizedInput(input.value[i])
    requires Separate(output)
    modifies processor, Arrays(output)
    ensures AllInBounds(Mapped(input))
    ensures frames == MostFrames(output)
    ensures processor.Value() == AfterFrames(old(processor.Value()), frames)
    ensures Contains(output, References(Mapped(input), old(processor.Value()), output, frames))
  {
    MappedInBounds(input);
    var channels := MapInputChannels(input, MAXIMUM_MAPPED_CHANNELS);
    frames := MaximumOutputFrames(output);
    ghost var ramp := processor.Value();
    Prepare(output, channels, ramp);
    RenderAll(processor, output, frames, channels, ramp);
  }

  lemma {:induction false} MostFramesBounds(list: seq<AudioBuffer>, i: nat)
    requires i < |list| && Usable(list[i])
    ensures FrameCount(list[i].byteSize, list[i].channels) <= MostFrames(list)
    decreases |list|
  {
    if i < |list| - 1 {
      MostFramesBounds(list[..|list| - 1], i);
    }
  }

  /** The contents of an interleaved buffer at one frame and channel: input times gain. */
  ghost predicate ShowsSample(contents: seq<real>, channels: nat, sources: seq<InputChannel>, ramp: Ramp,
                              globalChannel: nat, frame: nat, channel: nat)
    requires AllInBounds(sources)
  {
    var k := frame * channels + channel;
    && 0 <= k < |contents|
    && contents[k] == SourceSample(sources, globalChannel, frame) * GainOfFrame(ramp, frame)
  }

  lemma {:induction false} ReferenceOfBuffer(sources: seq<InputChannel>, ramp: Ramp, list: seq<AudioBuffer>,
                                             contents: seq<seq<real>>, i: nat, base: nat, frame: nat, channel: nat,
                                             g: nat)
    requires AllInBounds(sources) && IsReference(contents, sources, ramp, list, MostFrames(list))
    requires i < |list| && Usable(list[i]) && base == ChannelBase(list, i) && channel < list[i].channels
    requires frame < FrameCount(list[i].byteSize, list[i].channels) && g == (base + channel) % UINT32_RANGE
    ensures ShowsSample(contents[i], list[i].channels, sources, ramp, g, frame, channel)
  {
    MostFramesBounds(list, i);
    assert At(i);
    SampleByChannel(sources, ramp, base, list[i], frame, channel, MostFrames(list));
  }

  /** The place that has a number. */
  predicate Numbers(list: seq<AudioBuffer>, number: nat, place: Place) {
    number < |Places(Counts(list))| && place == Places(Counts(list))[number]
  }

  /**
   What the reference says in channel terms: the output channel with a number shows, frame by frame, the input
   channel with that number, g as a 32-bit value, times the gain of the frame.
   */
  lemma {:induction false} ReferenceByChannel(sources: seq<InputChannel>, ramp: Ramp, list: seq<AudioBuffer>,
                                              contents: seq<seq<real>>, number: nat, place: Place, g: nat, frame: nat)
    requires AllInBounds(sources) && IsReference(contents, sources, ramp, list, MostFrames(list))
    requires Numbers(list, number, place) && g == number % UINT32_RANGE && Usable(list[place.buffer])
    requires frame < FrameCount(list[place.buffer].byteSize, list[place.buffer].channels)
    ensures ShowsSample(contents[place.buffer], list[place.buffer].channels, sources, ramp, g, frame, place.channel)
  {
    GlobalChannelIsNumber(list, number);
    ReferenceOfBuffer(sources, ramp, list, contents, place.buffer, ChannelBase(list, place.buffer), frame,
                      place.channel, g);
  }

  lemma {:induction false} SampleByChannel(sources: seq<InputChannel>, ramp: Ramp, base: nat, buffer: AudioBuffer,
                                           frame: nat, channel: nat, n: nat)
    requires AllInBounds(sources) && Usable(buffer) && channel < buffer.channels
    requires frame < FrameCount(buffer.byteSize, buffer.channels) && frame < n
    ensures ShowsSample(Reference(sources, ramp, base, buffer, n), buffer.channels, sources, ramp,
                        (base + channel) % UINT32_RANGE, frame, channel)
  {
    var c := buffer.channels;
    IndexInBounds(frame, channel, FrameCount(buffer.byteSize, c), c);
    FramesFit(buffer.byteSize, c);
    DivMod(frame, channel, c);
  }

  // ---- From input buffers to output buffers ----

  /** The frame count is the largest number of whole frames that fit. */
  lemma {:induction false} WholeFrames(byteSize: nat, channels: nat, n: nat)
    requires channels > 0
    ensures n <= FrameCount(byteSize, channels) <==> n * (SAMPLE_BYTES * channels) <= byteSize
  {
    var size := SAMPLE_BYTES * channels;
    if n * size <= byteSize {
      DivAtLeast(byteSize, n, size);
    } else {
      DivBelow(byteSize, n, size);
    }
  }

  /** Channel number g of a list, and what it plays. */
  lemma {:induction false} ChannelByNumber(list: seq<InputBuffer>, g: nat)
    requires g < |Places(InputCounts(list))|
    ensures |AllChannels(list)| == |Places(InputCounts(list))|
    ensures var place := Places(InputCounts(list))[g];
            var buffer := list[place.buffer];
            && UsableInput(buffer)
            && AllChannels(list)[g] == InputChannel(buffer.data.value, buffer.channels, place.channel,
                                                    FrameCount(buffer.byteSize, buffer.channels))
    decreases |list|
  {
    var last := |list| - 1;
    assert InputCounts(list)[..last] == InputCounts(list[..last]);
    ChannelsAreNumbered(list[..last]);
    if g < |Places(InputCounts(list[..last]))| {
      ChannelByNumber(list[..last], g);
    }
  }

  lemma {:induction false} ChannelsAreNumbered(list: seq<InputBuffer>)
    ensures |AllChannels(list)| == |Places(InputCounts(list))|
    decreases |list|
  {
    if list != [] {
      var last := |list| - 1;
      assert InputCounts(list)[..last] == InputCounts(list[..last]);
      ChannelsAreNumbered(list[..last]);
    }
  }

  /** One frame of a channel as it stands in its buffer; a frame that does not fit is silent. */
  function BufferSample(buffer: InputBuffer, channel: nat, frame: nat): real
    requires WellSizedInput(buffer) && UsableInput(buffer) && channel < buffer.channels
  {
    if (frame + 1) * (SAMPLE_BYTES * buffer.channels) <= buffer.byteSize then
      WholeFrames(buffer.byteSize, buffer.channels, frame + 1);
      FramesFit(buffer.byteSize, buffer.channels);
      IndexInBounds(frame, channel, FrameCount(buffer.byteSize, buffer.channels), buffer.channels);
      buffer.data.value[frame * buffer.channels + channel]
    else 0.0
  }

  /** The same for input channel number g; what does not exist, or is past the sixty-fourth, is silent. */
  function InputSample(list: seq<InputBuffer>, g: nat, frame: nat): real
    requires forall i | 0 <= i < |list| :: WellSizedInput(list[i])
  {
    if g < |Places(InputCounts(list))| && g < 64 then
      var place := Places(InputCounts(list))[g];
      BufferSample(list[place.buffer], place.channel, frame)
    else 0.0
  }

  lemma {:induction false} ChannelIsBufferSample(sources: seq<InputChannel>, g: nat, buffer: InputBuffer, channel: nat,
                                                 frame: nat)
    requires AllInBounds(sources) && g < |sources|
    requires WellSizedInput(buffer) && UsableInput(buffer) && channel < buffer.channels
    requires sources[g] == InputChannel(buffer.data.value, buffer.channels, channel,
                                        FrameCount(buffer.byteSize, buffer.channels))
    ensures SourceSample(sources, g, frame) == BufferSample(buffer, channel, frame)
  {
    WholeFrames(buffer.byteSize, buffer.channels, frame + 1);
  }

  lemma {:induction false} SourceIsInput(list: seq<InputBuffer>, sources: seq<InputChannel>, g: nat, frame: nat)
    requires forall i | 0 <= i < |list| :: WellSizedInput(list[i])
    requires sources == Mapped(Some(list)) && AllInBounds(sources)
    ensures SourceSample(sources, g, frame) == InputSample(list, g, frame)
  {
    ChannelsAreNumbered(list);
    if g < |sources| {
      ChannelByNumber(list, g);
      var place := Places(InputCounts(list))[g];
      ChannelIsBufferSample(sources, g, list[place.buffer], place.channel, frame);
    }
  }

  /**
   Main result: whatever the buffers of either list are, interleaved, planar or unusable, the output channel with
   a number shows the input channel with that number, sample by sample, times the gain of the frame. Channels past
   the sixty-fourth and frames the input does not have are silent.
   */
  lemma {:induction false} OutputShowsInput(input: seq<InputBuffer>, sources: seq<InputChannel>, ramp: Ramp,
                                            list: seq<AudioBuffer>, contents: seq<seq<real>>, number: nat,
                                            place: Place, g: nat, frame: nat)
    requires forall i | 0 <= i < |input| :: WellSizedInput(input[i])
    requires sources == Mapped(Some(input)) && AllInBounds(sources)
    requires IsReference(contents, sources, ramp, list, MostFrames(list))
    requires Numbers(list, number, place) && g == number % UINT32_RANGE && Usable(list[place.buffer])
    requires (frame + 1) * (SAMPLE_BYTES * list[place.buffer].channels) <= list[place.buffer].byteSize
    ensures var k := frame * list[place.buffer].channels + place.channel;
            && 0 <= k < |contents[place.buffer]|
            && contents[place.buffer][k] == InputSample(input, g, frame) * GainOfFrame(ramp, frame)
  {
    WholeFrames(list[place.buffer].byteSize, list[place.buffer].channels, frame + 1);
    ReferenceByChannel(sources, ramp, list, contents, number, place, g, frame);
    SourceIsInput(input, sources, g, frame);
  }

  /** Without input everything is silent, and so is whatever of a buffer is not a whole frame. */
  lemma {:induction false} RestIsSilent(sources: seq<InputChannel>, ramp: Ramp, list: seq<AudioBuffer>,
                                        contents: seq<seq<real>>, n: nat, i: nat, k: nat)
    requires AllInBounds(sources) && IsReference(contents, sources, ramp, list, n)
    requires i < |list| && k < |contents[i]|
    requires sources == [] || !Usable(list[i])
             || k >= FrameCount(list[i].byteSize, list[i].channels) * list[i].channels
    ensures contents[i][k] == 0.0
  {
    assert At(i);
    if Usable(list[i]) && k >= FrameCount(list[i].byteSize, list[i].channels) * list[i].channels {
      DivAtLeast(k, FrameCount(list[i].byteSize, list[i].channels), list[i].channels);
    }
  }
}
