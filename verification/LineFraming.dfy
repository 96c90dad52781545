/**
 How app/main.m turns the helper's output into lines, and how it ignores a helper it has given up.

 Output arrives in chunks of any size, tagged with the launch it comes from. What handling a line does is a
 parameter: `stops` says, from all lines handled so far, whether handling the last one stops the helper.
 */
module LineFraming {
  type Byte = x: int | 0 <= x < 256
  type Line = seq<Byte>

  const NEWLINE: Byte := 10

  // ---- Lines of a stream ----

  function FirstNewline(bytes: seq<Byte>): (index: nat)
    ensures index <= |bytes|
    ensures index < |bytes| ==> bytes[index] == NEWLINE
    ensures forall i | 0 <= i < index :: bytes[i] != NEWLINE
  {
    if bytes == [] || bytes[0] == NEWLINE then 0 else 1 + FirstNewline(bytes[1..])
  }

  /** The complete lines of a stream. */
  function Lines(bytes: seq<Byte>): seq<Line>
    decreases |bytes|
  {
    var i := FirstNewline(bytes);
    if i == |bytes| then [] else [bytes[..i]] + Lines(bytes[i + 1..])
  }

  /** What follows the last newline. */
  function Rest(bytes: seq<Byte>): (rest: seq<Byte>)
    ensures |rest| <= |bytes|
    decreases |bytes|
  {
    var i := FirstNewline(bytes);
    if i == |bytes| then bytes else Rest(bytes[i + 1..])
  }

  /** The lines put together again, each with its newline. */
  function Joined(lines: seq<Line>): seq<Byte> {
    if lines == [] then [] else lines[0] + [NEWLINE] + Joined(lines[1..])
  }

  lemma {:induction false} NewlineIsUnique(bytes: seq<Byte>, i: nat)
    requires i <= |bytes| && (i < |bytes| ==> bytes[i] == NEWLINE)
    requires forall k | 0 <= k < i :: bytes[k] != NEWLINE
    ensures FirstNewline(bytes) == i
  {
  }

  lemma {:induction false} Regrouped<T>(a: seq<T>, b: seq<T>, c: seq<T>)
    ensures a + b + c == a + (b + c)
  {
  }

  /** A line, its newline and what follows. */
  function Before(line: Line, tail: seq<Byte>): (bytes: seq<Byte>)
    ensures |bytes| == |line| + 1 + |tail|
  {
    line + [NEWLINE] + tail
  }

  lemma {:induction false} FirstLine(line: Line, tail: seq<Byte>)
    requires NEWLINE !in line
    ensures Lines(Before(line, tail)) == [line] + Lines(tail)
    ensures Rest(Before(line, tail)) == Rest(tail)
  {
    var bytes := Before(line, tail);
    NewlineIsUnique(bytes, |line|);
    assert bytes[..|line|] == line && bytes[|line| + 1..] == tail;
  }

  lemma {:induction false} CutFirst(bytes: seq<Byte>) returns (line: Line, tail: seq<Byte>)
    requires FirstNewline(bytes) < |bytes|
    ensures NEWLINE !in line && bytes == Before(line, tail) && |tail| < |bytes|
  {
    var i := FirstNewline(bytes);
    line, tail := bytes[..i], bytes[i + 1..];
  }

  lemma {:induction false} JoinedFirst(line: Line, lines: seq<Line>)
    ensures Joined([line] + lines) == line + [NEWLINE] + Joined(lines)
  {
    assert ([line] + lines)[1..] == lines;
  }

  /** Splitting loses nothing and leaves no newline in a line or in the rest. */
  lemma {:induction false} SplitIsFaithful(bytes: seq<Byte>)
    ensures Joined(Lines(bytes)) + Rest(bytes) == bytes
    ensures forall line | line in Lines(bytes) :: 10 !in line
    ensures 10 !in Rest(bytes)
    decreases |bytes|
  {
    if FirstNewline(bytes) < |bytes| {
      var line, tail := CutFirst(bytes);
      SplitIsFaithful(tail);
      FirstLine(line, tail);
      JoinedFirst(line, Lines(tail));
      Regrouped(line + [NEWLINE], Joined(Lines(tail)), Rest(tail));
    }
  }

  /** More bytes extend the rest and add the lines that it then completes. */
  lemma {:induction false} SplitContinues(a: seq<Byte>, b: seq<Byte>)
    ensures Lines(a + b) == Lines(a) + Lines(Rest(a) + b)
    ensures Rest(a + b) == Rest(Rest(a) + b)
    decreases |a|
  {
    if FirstNewline(a) < |a| {
      var line, tail := CutFirst(a);
      SplitContinues(tail, b);
      FirstLine(line, tail);
      FirstLine(line, tail + b);
      Regrouped(line + [NEWLINE], tail, b);
      Regrouped([line], Lines(tail), Lines(Rest(tail) + b));
    }
  }

  // ---- Handling lines until one stops the helper ----

  /** Whether handling the lines one after the other, after `before`, stops the helper. */
  predicate Stopped(stops: seq<Line> -> bool, before: seq<Line>, lines: seq<Line>)
    decreases |lines|
  {
    lines != [] && (stops(before + [lines[0]]) || Stopped(stops, before + [lines[0]], lines[1..]))
  }

  /** The lines up to and including the first one that stops the helper, or all of them. */
  function UpToStop(stops: seq<Line> -> bool, before: seq<Line>, lines: seq<Line>): seq<Line>
    decreases |lines|
  {
    if lines == [] then []
    else if stops(before + [lines[0]]) then [lines[0]]
    else [lines[0]] + UpToStop(stops, before + [lines[0]], lines[1..])
  }

  lemma {:induction false} OneByOne(stops: seq<Line> -> bool, before: seq<Line>, line: Line, rest: seq<Line>)
    ensures var now := before + [line];
            && (Stopped(stops, before, [line] + rest) <==> stops(now) || Stopped(stops, now, rest))
            && UpToStop(stops, before, [line] + rest) ==
               [line] + if stops(now) then [] else UpToStop(stops, now, rest)
  {
    var lines := [line] + rest;
    assert lines[0] == line && lines[1..] == rest;
  }

  lemma {:induction false} AllHandled(stops: seq<Line> -> bool, before: seq<Line>, lines: seq<Line>)
    requires !Stopped(stops, before, lines)
    ensures UpToStop(stops, before, lines) == lines
    decreases |lines|
  {
    if lines != [] {
      AllHandled(stops, before + [lines[0]], lines[1..]);
    }
  }

  /** Handling two runs of lines is handling the first, and the second unless the first has stopped the helper. */
  ghost predicate InParts(stops: seq<Line> -> bool, before: seq<Line>, a: seq<Line>, b: seq<Line>) {
    && (Stopped(stops, before, a + b) <==> Stopped(stops, before, a) || Stopped(stops, before + a, b))
    && UpToStop(stops, before, a + b) ==
       UpToStop(stops, before, a) + if Stopped(stops, before, a) then [] else UpToStop(stops, before + a, b)
  }

  lemma {:induction false} InPartsFirst(stops: seq<Line> -> bool, before: seq<Line>, line: Line, a: seq<Line>,
                                        b: seq<Line>)
    requires InParts(stops, before + [line], a, b)
    ensures InParts(stops, before, [line] + a, b)
  {
    var now := before + [line];
    Regrouped([line], a, b);
    Regrouped(before, [line], a);
    OneByOne(stops, before, line, a + b);
    OneByOne(stops, before, line, a);
    Regrouped([line], UpToStop(stops, now, a), if Stopped(stops, now, a) then [] else UpToStop(stops, now + a, b));
  }

  lemma {:induction false} StopInParts(stops: seq<Line> -> bool, before: seq<Line>, a: seq<Line>, b: seq<Line>)
    ensures InParts(stops, before, a, b)
    decreases |a|
  {
    if a == [] {
      assert a + b == b && before + a == before;
    } else {
      StopInParts(stops, before + [a[0]], a[1..], b);
      InPartsFirst(stops, before, a[0], a[1..], b);
      assert a == [a[0]] + a[1..];
    }
  }

  // ---- The application ----

  datatype App = App(lineBuffer: seq<Byte>, launchGeneration: nat, handled: seq<Line>)

  /** The state after handling lines, of which the last unfinished one is `rest`. */
  function AfterLines(app: App, stops: seq<Line> -> bool, lines: seq<Line>, rest: seq<Byte>): App {
    var stopped := Stopped(stops, app.handled, lines);
    App(if stopped then [] else rest,
        app.launchGeneration + if stopped then 1 else 0,
        app.handled + UpToStop(stops, app.handled, lines))
  }

  /** The state after consuming a chunk. */
  function Consumed(app: App, stops: seq<Line> -> bool, data: seq<Byte>): App {
    var bytes := app.lineBuffer + data;
    AfterLines(app, stops, Lines(bytes), Rest(bytes))
  }

  /** A new launch, a stop from outside, or a chunk of the given launch. */
  datatype Event = Launch | Stop | Chunk(generation: nat, data: seq<Byte>)

  function Apply(app: App, stops: seq<Line> -> bool, event: Event): App {
    match event
    case Launch => app.(lineBuffer := [], launchGeneration := app.launchGeneration + 1)
    case Stop => app.(launchGeneration := app.launchGeneration + 1)
    case Chunk(generation, data) => if generation == app.launchGeneration then Consumed(app, stops, data) else app
  }

  class AppDelegate {
    var lineBuffer: seq<Byte>
    var launchGeneration: nat
    var handled: seq<Line>  // what the rest of the application has made of the lines depends on these

    ghost function Value(): App
      reads this
    {
      App(lineBuffer, launchGeneration, handled)
    }

    constructor ()
      ensures Value() == App([], 0, [])
    {
      lineBuffer, launchGeneration, handled := [], 0, [];
    }

    method LaunchForwarder()
      modifies this`lineBuffer, this`launchGeneration
      ensures Value() == old(Value()).(lineBuffer := [], launchGeneration := old(launchGeneration) + 1)
    {
      lineBuffer := [];
      launchGeneration := launchGeneration + 1;
    }

    method StopForwarder()
      modifies this`launchGeneration
      ensures Value() == old(Value()).(launchGeneration := old(launchGeneration) + 1)
    {
      launchGeneration := launchGeneration + 1;
    }

    /** The block that each readable chunk queues on the main thread. */
    method DeliverChunk(generation: nat, data: seq<Byte>, stops: seq<Line> -> bool)
      modifies this
      ensures Value() == Apply(old(Value()), stops, Chunk(generation, data))
    {
      if generation == launchGeneration {
        ConsumeForwarderData(data, stops);
      }
    }

    method ConsumeForwarderLine(line: Line, stops: seq<Line> -> bool)
      modifies this`handled, this`launchGeneration
      ensures handled == old(handled) + [line]
      ensures launchGeneration == old(launchGeneration) + if stops(handled) then 1 else 0
    {
      handled := handled + [line];
      if stops(handled) {
        StopForwarder();
      }
    }

    method FindNewline() returns (newline: nat)
      ensures newline == FirstNewline(lineBuffer)
    {
      newline := 0;
      while newline < |lineBuffer|
        invariant newline <= |lineBuffer|
        invariant forall k | 0 <= k < newline :: lineBuffer[k] != NEWLINE
      {
        if lineBuffer[newline] == NEWLINE {
          break;
        }
        newline := newline + 1;
      }
      NewlineIsUnique(lineBuffer, newline);
    }

    method ConsumeForwarderData(data: seq<Byte>, stops: seq<Line> -> bool)
      modifies this
      ensures Value() == Consumed(old(Value()), stops, data)
    {
      var generation := launchGeneration;
      lineBuffer := lineBuffer + data;
      assert lineBuffer + [] == lineBuffer;
      while true
        invariant launchGeneration == generation
        invariant Consumed(Value(), stops, []) == Consumed(old(Value()), stops, data)
        decreases |lineBuffer|
      {
        ghost var before := Value();
        assert lineBuffer + [] == lineBuffer;
        var newline := FindNewline();
        if newline == |lineBuffer| {
          break;
        }
        var line := lineBuffer[..newline];
        lineBuffer := lineBuffer[newline + 1..];
        ConsumeForwarderLine(line, stops);
        ConsumedByLine(before, stops);
        if generation != launchGeneration {
          lineBuffer := [];
          break;
        }
      }
    }
  }

  lemma {:induction false} AfterOneLine(app: App, stops: seq<Line> -> bool, line: Line, lines: seq<Line>,
                                        rest: seq<Byte>)
    ensures var now := app.(handled := app.handled + [line]);
            AfterLines(app, stops, [line] + lines, rest) ==
              if stops(now.handled) then App([], app.launchGeneration + 1, now.handled)
              else AfterLines(now, stops, lines, rest)
  {
    OneByOne(stops, app.handled, line, lines);
    Regrouped(app.handled, [line], UpToStop(stops, app.handled + [line], lines));
  }

  lemma {:induction false} ConsumedAtOnce(app: App, stops: seq<Line> -> bool)
    ensures Consumed(app, stops, []) == AfterLines(app, stops, Lines(app.lineBuffer), Rest(app.lineBuffer))
  {
    assert app.lineBuffer + [] == app.lineBuffer;
  }

  /** One turn of the loop. */
  lemma {:induction false} ConsumedByLine(app: App, stops: seq<Line> -> bool)
    requires FirstNewline(app.lineBuffer) < |app.lineBuffer|
    ensures var i := FirstNewline(app.lineBuffer);
            var handled := app.handled + [app.lineBuffer[..i]];
            Consumed(app, stops, []) ==
              if stops(handled) then App([], app.launchGeneration + 1, handled)
              else Consumed(App(app.lineBuffer[i + 1..], app.launchGeneration, handled), stops, [])
  {
    var i, buffer := FirstNewline(app.lineBuffer), app.lineBuffer;
    var line, tail := buffer[..i], buffer[i + 1..];
    assert buffer == Before(line, tail);
    FirstLine(line, tail);
    ConsumedAtOnce(app, stops);
    AfterOneLine(app, stops, line, Lines(tail), Rest(tail));
    ConsumedAtOnce(App(tail, app.launchGeneration, app.handled + [line]), stops);
  }

  lemma {:induction false} AfterMoreLines(app: App, stops: seq<Line> -> bool, base: seq<Line>, lines: seq<Line>,
                                          more: seq<Line>, rest: seq<Byte>)
    requires app.handled == base + lines && !Stopped(stops, base, lines)
    ensures AfterLines(app, stops, more, rest) == AfterLines(app.(handled := base), stops, lines + more, rest)
  {
    StopInParts(stops, base, lines, more);
    AllHandled(stops, base, lines);
    Regrouped(base, lines, UpToStop(stops, app.handled, more));
  }

  /** A chunk after a stream that has not stopped the helper leads where the longer stream does. */
  lemma {:induction false} ConsumedContinues(app: App, stops: seq<Line> -> bool, base: seq<Line>, stream: seq<Byte>,
                                             data: seq<Byte>)
    requires app.lineBuffer == Rest(stream) && app.handled == base + Lines(stream)
    requires !Stopped(stops, base, Lines(stream))
    ensures Consumed(app, stops, data) ==
            AfterLines(app.(handled := base), stops, Lines(stream + data), Rest(stream + data))
  {
    SplitContinues(stream, data);
    AfterMoreLines(app, stops, base, Lines(stream), Lines(Rest(stream) + data), Rest(stream + data));
  }

  // ---- Any chunking of any stream ----

  function Concat(chunks: seq<seq<Byte>>): seq<Byte> {
    if chunks == [] then [] else Concat(chunks[..|chunks| - 1]) + chunks[|chunks| - 1]
  }

  /** All chunks of one launch, each delivered with that launch's generation. */
  function Fed(app: App, stops: seq<Line> -> bool, generation: nat, chunks: seq<seq<Byte>>): App {
    if chunks == [] then app
    else Apply(Fed(app, stops, generation, chunks[..|chunks| - 1]), stops, Chunk(generation, chunks[|chunks| - 1]))
  }

  /**
   Main result: however the output of a launch is cut into chunks, the lines handled are those of the whole
   output, up to and including the first that stops the helper, and then the generation moves on once.
   */
  lemma {:induction false} ChunksDoNotMatter(app: App, stops: seq<Line> -> bool, chunks: seq<seq<Byte>>)
    requires app.lineBuffer == []
    ensures var lines := Lines(Concat(chunks));
            Fed(app, stops, app.launchGeneration, chunks) ==
              if Stopped(stops, app.handled, lines)
              then App([], app.launchGeneration + 1, app.handled + UpToStop(stops, app.handled, lines))
              else App(Rest(Concat(chunks)), app.launchGeneration, app.handled + lines)
    decreases |chunks|
  {
    if chunks != [] {
      var before, data := chunks[..|chunks| - 1], chunks[|chunks| - 1];
      ChunksDoNotMatter(app, stops, before);
      var lines := Lines(Concat(before));
      SplitContinues(Concat(before), data);
      StopInParts(stops, app.handled, lines, Lines(Rest(Concat(before)) + data));
      if !Stopped(stops, app.handled, Lines(Concat(chunks))) {
        AllHandled(stops, app.handled, Lines(Concat(chunks)));
      }
      if !Stopped(stops, app.handled, lines) {
        AllHandled(stops, app.handled, lines);
        ConsumedContinues(Fed(app, stops, app.launchGeneration, before), stops, app.handled, Concat(before), data);
      }
    }
  }

  // ---- Launches, stops and chunks of launches given up ----

  /**
   The reference: the lines of all launches before the last one, the last one's whole output, and whether it
   is still being listened to.
   */
  datatype Reference = Reference(
    base: seq<Line>,
    stream: seq<Byte>,
    live: bool,
    generation: nat,
    launches: set<nat>)

  function HandledLines(r: Reference, stops: seq<Line> -> bool): seq<Line> {
    r.base + UpToStop(stops, r.base, Lines(r.stream))
  }

  function RefApply(r: Reference, stops: seq<Line> -> bool, event: Event): Reference {
    match event
    case Launch =>
      Reference(HandledLines(r, stops), [], true, r.generation + 1, r.launches + {r.generation + 1})
    case Stop => r.(live := false, generation := r.generation + 1)
    case Chunk(generation, data) =>
      if !r.live || generation != r.generation then r
      else
        var stream := r.stream + data;
        if Stopped(stops, r.base, Lines(stream)) then
          r.(stream := stream, live := false, generation := r.generation + 1)
        else r.(stream := stream)
  }

  /** A chunk carries the generation of some launch so far. */
  predicate Tagged(r: Reference, event: Event) {
    event.Chunk? ==> event.generation in r.launches
  }

  ghost predicate Run(apps: seq<App>, refs: seq<Reference>, events: seq<Event>, stops: seq<Line> -> bool) {
    && |apps| == |refs| == |events| + 1
    && apps[0] == App([], 0, []) && refs[0] == Reference([], [], false, 0, {})
    && forall i | 0 <= i < |events| ::
         && Tagged(refs[i], events[i])
         && apps[i + 1] == Apply(apps[i], stops, events[i]) && refs[i + 1] == RefApply(refs[i], stops, events[i])
  }

  ghost predicate Refines(app: App, r: Reference, stops: seq<Line> -> bool) {
    && app.launchGeneration == r.generation && app.handled == HandledLines(r, stops)
    && (r.live ==> app.lineBuffer == Rest(r.stream) && !Stopped(stops, r.base, Lines(r.stream)))
    && (forall g | g in r.launches :: g <= r.generation)
    && (r.generation in r.launches ==> r.live)
  }

  lemma {:induction false} StepRefines(app: App, r: Reference, stops: seq<Line> -> bool, event: Event)
    requires Refines(app, r, stops) && Tagged(r, event)
    ensures Refines(Apply(app, stops, event), RefApply(r, stops, event), stops)
  {
    if event.Chunk? && event.generation == r.generation {
      AllHandled(stops, r.base, Lines(r.stream));
      ConsumedContinues(app, stops, r.base, r.stream, event.data);
    }
  }

  /**
   Main result: over any run of launches, stops and chunks, late ones included, the lines handled are, launch
   by launch, those of its output while it was listened to, up to the first that stops it.
   */
  lemma {:induction false} FramingFollowsReference(apps: seq<App>, refs: seq<Reference>, events: seq<Event>,
                                                   stops: seq<Line> -> bool, i: nat)
    requires Run(apps, refs, events, stops) && i <= |events|
    ensures Refines(apps[i], refs[i], stops)
  {
    if i > 0 {
      FramingFollowsReference(apps, refs, events, stops, i - 1);
      StepRefines(apps[i - 1], refs[i - 1], stops, events[i - 1]);
    }
  }
}
