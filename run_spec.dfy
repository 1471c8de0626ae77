/**
 * What one FF2J.parse run does, as functions of its configuration and input: the
 * per-line step (skip, progress check, mapping, dispatch, no-entity callback), the loop
 * over all lines, and the callbacks fired before and after it, recorded as a trace.
 */
module Run {
  import opened Wrappers
  import opened JavaTypes
  import opened EntityMeta
  import opened Mapping
  import opened Stats

  /** An entity handler, with the entity class its generic type argument names. */
  datatype EntityHandler = EntityHandler(id: nat, entityClass: ClassId)
  datatype NoEntityHandler = NoEntityHandler(id: nat)
  datatype ProgressListener = ProgressListener(id: nat)

  /** What a boolean callback does: answer, or throw. */
  datatype Reply = Answer(goOn: bool) | Raise(error: Exception)

  /**
   * The user callbacks' behaviour, by line number: ProgressListener.inProgress,
   * NoEntityHandler.handleNoEntity, and EntityHandler.handleEntity (None when it returns
   * normally). Line numbers are distinct within a run, so a callback may behave differently
   * on every call, as a stateful handler object does.
   */
  datatype Callbacks = Callbacks(
    inProgress: (ProgressListener, int) -> Reply,
    handleNoEntity: (NoEntityHandler, int, string) -> Reply,
    handleEntity: (EntityHandler, int, Entity) -> Option<Exception>)

  /** The reader: its lines, and whether reading past them throws instead of signalling the end. */
  datatype Input = Input(lines: seq<string>, readFailure: Option<Exception>)

  /** A call the engine makes to a handler or listener. */
  datatype Event =
    | BeforeFirstEntity(handler: EntityHandler)
    | Started
    | InProgress(lineNumber: int)
    | HandleEntity(handler: EntityHandler, entity: Entity)
    | HandleNoEntity(lineNumber: int, lineText: string)
    | AfterLastEntity(handler: EntityHandler)
    | Ended(success: bool)

  /** A call made while processing a line. */
  predicate LineEvent(e: Event) {
    e.InProgress? || e.HandleEntity? || e.HandleNoEntity?
  }

  /** The state parse reads: the FF2J fields, the mapper's descriptors, and the external behaviour. */
  datatype Config = Config(
    skipLines: int,
    handlers: seq<EntityHandler>,
    cache: map<ClassId, EntityHandler>,
    noEntityHandler: Option<NoEntityHandler>,
    progressListener: Option<ProgressListener>,
    descriptors: seq<Descriptor>,
    runtime: Runtime,
    callbacks: Callbacks)

  /** createEntityHandlersCache: each handler put under its entity class, in set order. */
  function CacheOf(hs: seq<EntityHandler>): (r: map<ClassId, EntityHandler>)
    ensures r.Keys == set h | h in hs :: h.entityClass
    ensures forall c :: c in r ==> r[c] in hs && r[c].entityClass == c
    decreases |hs|
  {
    if hs == [] then map[]
    else
      var last := hs[|hs| - 1];
      var init := hs[..|hs| - 1];
      assert hs == init + [last];
      assert forall h :: h in hs <==> h in init || h == last;
      CacheOf(init)[last.entityClass := last]
  }

  /** The handler cached for a class is the last handler, in set order, declared for it. */
  lemma {:induction false} CacheHoldsLastHandler(hs: seq<EntityHandler>, i: int)
    requires 0 <= i < |hs|
    requires forall j :: i < j < |hs| ==> hs[j].entityClass != hs[i].entityClass
    ensures hs[i].entityClass in CacheOf(hs) && CacheOf(hs)[hs[i].entityClass] == hs[i]
  {
    if i < |hs| - 1 {
      CacheHoldsLastHandler(hs[..|hs| - 1], i);
    }
  }

  /** How processing a line ends: go on, stop on a callback's request, or abort on an exception. */
  datatype Verdict = Continue | Stop | Abort(error: Exception)

  /** The effect of one line: its verdict, the calls made, and the class whose counter rises (if any). */
  datatype LineResult = LineResult(verdict: Verdict, events: seq<Event>, counted: Option<ClassId>)

  /**
   * onFileLine: a mapped entity goes to the handler cached for its class and is counted
   * once that handler returns; an entity with no handler is dropped uncounted; only an
   * unmatched line reaches the no-entity handler, whose answer decides whether to go on;
   * an exception from mapping or a callback aborts.
   */
  function OnFileLine(cfg: Config, lineNumber: int, lineText: string): (r: LineResult)
    requires AllOrdered(cfg.descriptors)
    ensures MapLine(cfg.descriptors, lineText, cfg.runtime).Failed? ==>
      r == LineResult(Abort(MapLine(cfg.descriptors, lineText, cfg.runtime).error), [], None)
    ensures MapLine(cfg.descriptors, lineText, cfg.runtime).Mapped? ==>
      var e := MapLine(cfg.descriptors, lineText, cfg.runtime).entity;
      if e.entityClass in cfg.cache then
        var h := cfg.cache[e.entityClass];
        && r.events == [HandleEntity(h, e)]
        && (r.counted == Some(e.entityClass) <==> cfg.callbacks.handleEntity(h, lineNumber, e).None?)
        && (r.counted.None? ==> r.verdict == Abort(cfg.callbacks.handleEntity(h, lineNumber, e).value))
        && (r.counted.Some? ==> r.verdict == Continue)
      else r == LineResult(Continue, [], None)
    ensures MapLine(cfg.descriptors, lineText, cfg.runtime).NoMatch? ==>
      && r.counted.None?
      && (cfg.noEntityHandler.None? ==> r == LineResult(Continue, [], None))
      && (cfg.noEntityHandler.Some? ==>
            var reply := cfg.callbacks.handleNoEntity(cfg.noEntityHandler.value, lineNumber, lineText);
            && r.events == [HandleNoEntity(lineNumber, lineText)]
            && (r.verdict == Stop <==> reply == Answer(false))
            && (r.verdict == Continue <==> reply == Answer(true))
            && (reply.Raise? ==> r.verdict == Abort(reply.error)))
    ensures r.counted.Some? ==>
      && MapLine(cfg.descriptors, lineText, cfg.runtime).Mapped?
      && var e := MapLine(cfg.descriptors, lineText, cfg.runtime).entity;
      && r.counted == Some(e.entityClass) && e.entityClass in cfg.cache
      && r.events == [HandleEntity(cfg.cache[e.entityClass], e)] && r.verdict == Continue
    ensures (exists t :: HandleNoEntity(lineNumber, t) in r.events) ==>
      MapLine(cfg.descriptors, lineText, cfg.runtime).NoMatch? && cfg.noEntityHandler.Some?
    ensures forall e :: e in r.events ==> LineEvent(e) && !e.InProgress?
  {
    match MapLine(cfg.descriptors, lineText, cfg.runtime)
    case Failed(e) => LineResult(Abort(e), [], None)
    case Mapped(entity) =>
      if entity.entityClass in cfg.cache then
        var handler := cfg.cache[entity.entityClass];
        match cfg.callbacks.handleEntity(handler, lineNumber, entity)
        case Some(e) => LineResult(Abort(e), [HandleEntity(handler, entity)], None)
        case None => LineResult(Continue, [HandleEntity(handler, entity)], Some(entity.entityClass))
      else LineResult(Continue, [], None)
    case NoMatch =>
      match cfg.noEntityHandler
      case None => LineResult(Continue, [], None)
      case Some(nh) =>
        match cfg.callbacks.handleNoEntity(nh, lineNumber, lineText)
        case Raise(e) => LineResult(Abort(e), [HandleNoEntity(lineNumber, lineText)], None)
        case Answer(goOn) => LineResult(if goOn then Continue else Stop, [HandleNoEntity(lineNumber, lineText)], None)
  }

  /**
   * The body of parse's loop for line number lineNumber: a skipped line does nothing;
   * otherwise the progress listener is asked first, and a negative answer stops before mapping.
   */
  function LineStep(cfg: Config, lineNumber: int, lineText: string): (r: LineResult)
    requires AllOrdered(cfg.descriptors)
    ensures lineNumber <= cfg.skipLines ==> r == LineResult(Continue, [], None)
    ensures (lineNumber > cfg.skipLines && cfg.progressListener.Some? &&
             cfg.callbacks.inProgress(cfg.progressListener.value, lineNumber) == Answer(false)) ==>
      r == LineResult(Stop, [InProgress(lineNumber)], None)
    ensures (lineNumber > cfg.skipLines && cfg.progressListener.Some? &&
             cfg.callbacks.inProgress(cfg.progressListener.value, lineNumber).Raise?) ==>
      r == LineResult(Abort(cfg.callbacks.inProgress(cfg.progressListener.value, lineNumber).error),
                      [InProgress(lineNumber)], None)
    ensures (lineNumber > cfg.skipLines && cfg.progressListener.None?) ==>
      r == OnFileLine(cfg, lineNumber, lineText)
    ensures (lineNumber > cfg.skipLines && cfg.progressListener.Some? &&
             cfg.callbacks.inProgress(cfg.progressListener.value, lineNumber) == Answer(true)) ==>
      var o := OnFileLine(cfg, lineNumber, lineText);
      r.verdict == o.verdict && r.counted == o.counted && r.events == [InProgress(lineNumber)] + o.events
    ensures forall e :: e in r.events ==> LineEvent(e)
    ensures forall e :: e in r.events && (e.InProgress? || e.HandleNoEntity?) ==> e.lineNumber == lineNumber
  {
    if lineNumber <= cfg.skipLines then LineResult(Continue, [], None)
    else
      match cfg.progressListener
      case None => OnFileLine(cfg, lineNumber, lineText)
      case Some(pl) =>
        match cfg.callbacks.inProgress(pl, lineNumber)
        case Raise(e) => LineResult(Abort(e), [InProgress(lineNumber)], None)
        case Answer(goOn) =>
          if goOn then
            var r := OnFileLine(cfg, lineNumber, lineText);
            LineResult(r.verdict, [InProgress(lineNumber)] + r.events, r.counted)
          else LineResult(Stop, [InProgress(lineNumber)], None)
  }

  /** The counters after a line that counted an entity, or did not. */
  function Count(counters: map<ClassId, int>, counted: Option<ClassId>): (r: map<ClassId, int>)
    ensures counted.None? ==> r == counters
    ensures counted.Some? ==> counted.value in r && r.Keys == counters.Keys + {counted.value}
  {
    if counted.Some? then Incremented(counters, counted.value) else counters
  }

  /** The effect of every line of the input, line index k having line number k + 1. */
  function Steps(cfg: Config, lines: seq<string>): (r: seq<LineResult>)
    requires AllOrdered(cfg.descriptors)
    ensures |r| == |lines| && forall k :: 0 <= k < |lines| ==> r[k] == LineStep(cfg, k + 1, lines[k])
  {
    seq(|lines|, k requires 0 <= k < |lines| => LineStep(cfg, k + 1, lines[k]))
  }

  /** Lines numbered up to skip have no effect. */
  ghost predicate SkippedQuiet(steps: seq<LineResult>, skip: int) {
    forall k :: 0 <= k < |steps| && k < skip ==> steps[k] == LineResult(Continue, [], None)
  }

  /** Each line only makes line calls, and those that carry a line number carry its own. */
  ghost predicate EventsLabelled(steps: seq<LineResult>) {
    forall k :: 0 <= k < |steps| ==>
      forall e :: e in steps[k].events ==>
        LineEvent(e) && (e.InProgress? || e.HandleNoEntity? ==> e.lineNumber == k + 1)
  }

  /** What every line's step promises, gathered over the whole input. */
  lemma StepsWellFormed(cfg: Config, lines: seq<string>)
    requires AllOrdered(cfg.descriptors)
    ensures SkippedQuiet(Steps(cfg, lines), cfg.skipLines)
    ensures EventsLabelled(Steps(cfg, lines))
  {
  }

  /** Only the lines after the skip decide the steps. */
  lemma {:induction false} SkippedLinesIgnored(cfg: Config, lines1: seq<string>, lines2: seq<string>)
    requires AllOrdered(cfg.descriptors) && |lines1| == |lines2|
    requires forall k :: 0 <= k < |lines1| && k >= cfg.skipLines ==> lines1[k] == lines2[k]
    ensures Steps(cfg, lines1) == Steps(cfg, lines2)
  {
    forall k | 0 <= k < |lines1|
      ensures Steps(cfg, lines1)[k] == Steps(cfg, lines2)[k]
    {
      if k < cfg.skipLines {
        assert LineStep(cfg, k + 1, lines1[k]) == LineResult(Continue, [], None);
        assert LineStep(cfg, k + 1, lines2[k]) == LineResult(Continue, [], None);
      }
    }
  }

  /** How the loop ended. */
  datatype Status = Completed | Stopped | Aborted(error: Exception)

  /** The state when the loop ends: last line number read, counters, calls made, status. */
  datatype LoopEnd = LoopEnd(lineNumber: int, counters: map<ClassId, int>, trace: seq<Event>, status: Status)

  /**
   * parse's loop from line index i on (i lines read so far), with the counters and calls
   * so far; readFailure is what reading after the last line throws, if anything.
   */
  function RunFrom(steps: seq<LineResult>, readFailure: Option<Exception>, i: nat,
                   counters: map<ClassId, int>, trace: seq<Event>): (r: LoopEnd)
    requires i <= |steps|
    ensures i <= r.lineNumber <= |steps|
    ensures !r.status.Completed? || r.lineNumber == |steps|
    ensures r.status.Completed? ==> readFailure.None?
    decreases |steps| - i
  {
    if i == |steps| then
      match readFailure
      case None => LoopEnd(i, counters, trace, Completed)
      case Some(e) => LoopEnd(i, counters, trace, Aborted(e))
    else
      var counters' := Count(counters, steps[i].counted);
      var trace' := trace + steps[i].events;
      match steps[i].verdict
      case Continue => RunFrom(steps, readFailure, i + 1, counters', trace')
      case Stop => LoopEnd(i + 1, counters', trace', Stopped)
      case Abort(e) => LoopEnd(i + 1, counters', trace', Aborted(e))
  }

  /** Every line with index in [a, b) lets the loop go on. */
  ghost predicate AllContinue(steps: seq<LineResult>, a: int, b: int) {
    forall k :: 0 <= a <= k < b <= |steps| ==> steps[k].verdict == Continue
  }

  /**
   * The loop runs to the first line whose processing stops or throws, and that line's
   * number is the last one read; it completes only when every line goes on and the
   * reader then signals the end; a reader failure aborts after the last line read.
   */
  lemma {:induction false} RunEndsAtFirstHalt(steps: seq<LineResult>, readFailure: Option<Exception>, i: nat,
                                              counters: map<ClassId, int>, trace: seq<Event>)
    requires i <= |steps|
    ensures var r := RunFrom(steps, readFailure, i, counters, trace);
      && (r.status.Completed? ==>
            r.lineNumber == |steps| && readFailure.None? && AllContinue(steps, i, |steps|))
      && (r.status.Stopped? ==>
            i < r.lineNumber && AllContinue(steps, i, r.lineNumber - 1) &&
            steps[r.lineNumber - 1].verdict == Stop)
      && (r.status.Aborted? ==>
            || (i < r.lineNumber && AllContinue(steps, i, r.lineNumber - 1) &&
                steps[r.lineNumber - 1].verdict == Abort(r.status.error))
            || (r.lineNumber == |steps| && AllContinue(steps, i, |steps|) &&
                readFailure == Some(r.status.error)))
    decreases |steps| - i
  {
    if i < |steps| && steps[i].verdict == Continue {
      RunEndsAtFirstHalt(steps, readFailure, i + 1, Count(counters, steps[i].counted), trace + steps[i].events);
    }
  }

  /** How many of the line numbers in (from, to] lie beyond skip. */
  function Processed(skip: int, from: int, to: int): (n: nat)
    ensures n <= if to >= from then to - from else 0
  {
    var first := if from > skip then from else skip;
    if to > first then to - first else 0
  }

  /** Counters only grow, and by at most one per line processed after the skip. */
  lemma {:induction false} CountersBounded(steps: seq<LineResult>, skip: int, readFailure: Option<Exception>, i: nat,
                                           counters: map<ClassId, int>, trace: seq<Event>)
    requires i <= |steps| && SkippedQuiet(steps, skip)
    ensures var r := RunFrom(steps, readFailure, i, counters, trace);
      Total(counters) <= Total(r.counters) <= Total(counters) + Processed(skip, i, r.lineNumber)
    decreases |steps| - i
  {
    if i < |steps| {
      if steps[i].counted.Some? {
        IncrementedSpec(counters, steps[i].counted.value);
      }
      if steps[i].verdict == Continue {
        CountersBounded(steps, skip, readFailure, i + 1, Count(counters, steps[i].counted), trace + steps[i].events);
      }
    }
  }

  /** The loop only appends calls made while processing lines, each naming a line it read after the skip. */
  lemma {:induction false} LoopTraceShape(steps: seq<LineResult>, skip: int, readFailure: Option<Exception>, i: nat,
                                          counters: map<ClassId, int>, trace: seq<Event>)
    requires i <= |steps| && SkippedQuiet(steps, skip) && EventsLabelled(steps)
    ensures var r := RunFrom(steps, readFailure, i, counters, trace);
      && |trace| <= |r.trace| && r.trace[..|trace|] == trace
      && (forall k :: |trace| <= k < |r.trace| ==> LineEvent(r.trace[k]))
      && forall k :: |trace| <= k < |r.trace| && (r.trace[k].InProgress? || r.trace[k].HandleNoEntity?) ==>
           skip < r.trace[k].lineNumber && i < r.trace[k].lineNumber <= r.lineNumber
    decreases |steps| - i
  {
    if i < |steps| {
      var trace' := trace + steps[i].events;
      forall k | |trace| <= k < |trace'|
        ensures LineEvent(trace'[k])
        ensures trace'[k].InProgress? || trace'[k].HandleNoEntity? ==>
          skip < trace'[k].lineNumber && trace'[k].lineNumber == i + 1
      {
        assert trace'[k] in steps[i].events;
      }
      if steps[i].verdict == Continue {
        LoopTraceShape(steps, skip, readFailure, i + 1, Count(counters, steps[i].counted), trace');
        assert trace'[..|trace|] == trace;
      }
    }
  }

  /** beforeFirstEntity of every handler, in set order. */
  function Befores(hs: seq<EntityHandler>): (r: seq<Event>)
    ensures |r| == |hs| && forall k :: 0 <= k < |hs| ==> r[k] == BeforeFirstEntity(hs[k])
  {
    seq(|hs|, k requires 0 <= k < |hs| => BeforeFirstEntity(hs[k]))
  }

  /** afterLastEntity of every handler, in set order. */
  function Afters(hs: seq<EntityHandler>): (r: seq<Event>)
    ensures |r| == |hs| && forall k :: 0 <= k < |hs| ==> r[k] == AfterLastEntity(hs[k])
  {
    seq(|hs|, k requires 0 <= k < |hs| => AfterLastEntity(hs[k]))
  }

  /** The calls before the loop: every beforeFirstEntity, then started(). */
  function PreEvents(cfg: Config): (r: seq<Event>)
    ensures |cfg.handlers| <= |r| && r[..|cfg.handlers|] == Befores(cfg.handlers)
    ensures cfg.progressListener.Some? <==> Started in r
  {
    Befores(cfg.handlers) + if cfg.progressListener.Some? then [Started] else []
  }

  /** The calls after the loop: every afterLastEntity, then ended(success). */
  function PostEvents(cfg: Config, success: bool): (r: seq<Event>)
    ensures |cfg.handlers| <= |r| && r[..|cfg.handlers|] == Afters(cfg.handlers)
    ensures cfg.progressListener.Some? ==> 0 < |r| && r[|r| - 1] == Ended(success)
    ensures cfg.progressListener.None? ==> r == Afters(cfg.handlers)
  {
    Afters(cfg.handlers) + if cfg.progressListener.Some? then [Ended(success)] else []
  }

  /** What parse leaves behind: statistics.endLineNumber, the counters, the calls made, success and error. */
  datatype RunResult = RunResult(
    endLineNumber: int, counters: map<ClassId, int>, trace: seq<Event>, success: bool, error: Option<Exception>)

  /** parse's loop over the whole input. */
  function Loop(cfg: Config, input: Input, counters: map<ClassId, int>): (r: LoopEnd)
    requires AllOrdered(cfg.descriptors)
    ensures 0 <= r.lineNumber <= |input.lines|
    ensures r.status.Completed? ==> r.lineNumber == |input.lines| && input.readFailure.None?
  {
    RunFrom(Steps(cfg, input.lines), input.readFailure, 0, counters, [])
  }

  /** parse, from the counters and error left by earlier runs. */
  function Parse(cfg: Config, input: Input, counters: map<ClassId, int>, error: Option<Exception>): (r: RunResult)
    requires AllOrdered(cfg.descriptors)
    ensures 0 <= r.endLineNumber <= |input.lines|
    ensures r.success ==> r.endLineNumber == |input.lines| && input.readFailure.None? && r.error == error
    ensures |r.trace| >= 2 * |cfg.handlers|
  {
    var loop := Loop(cfg, input, counters);
    var success := loop.status.Completed?;
    RunResult(
      loop.lineNumber, loop.counters,
      PreEvents(cfg) + loop.trace + PostEvents(cfg, success),
      success,
      if loop.status.Aborted? then Some(loop.status.error) else error)
  }

  /** parse's result, assembled from its loop's end and the calls made around the loop. */
  lemma ParseAssembled(cfg: Config, input: Input, counters: map<ClassId, int>, error: Option<Exception>,
                       loop: LoopEnd, success: bool, error': Option<Exception>, calls: seq<Event>)
    requires AllOrdered(cfg.descriptors) && loop == Loop(cfg, input, counters)
    requires success == loop.status.Completed?
    requires error' == if loop.status.Aborted? then Some(loop.status.error) else error
    requires calls == PreEvents(cfg) + loop.trace + PostEvents(cfg, success)
    ensures Parse(cfg, input, counters, error) == RunResult(loop.lineNumber, loop.counters, calls, success, error')
  {
  }

  /** Inputs that differ only in skipped lines give the same run. */
  lemma SkippedLinesNeverRead(cfg: Config, in1: Input, in2: Input, counters: map<ClassId, int>, error: Option<Exception>)
    requires AllOrdered(cfg.descriptors)
    requires |in1.lines| == |in2.lines| && in1.readFailure == in2.readFailure
    requires forall k :: 0 <= k < |in1.lines| && k >= cfg.skipLines ==> in1.lines[k] == in2.lines[k]
    ensures Parse(cfg, in1, counters, error) == Parse(cfg, in2, counters, error)
  {
    SkippedLinesIgnored(cfg, in1.lines, in2.lines);
  }

  /** A run only adds to the counters, and at most one per line read after the skip. */
  lemma ParseCountersBounded(cfg: Config, input: Input, counters: map<ClassId, int>, error: Option<Exception>)
    requires AllOrdered(cfg.descriptors)
    ensures var r := Parse(cfg, input, counters, error);
      Total(counters) <= Total(r.counters) <= Total(counters) + Processed(cfg.skipLines, 0, r.endLineNumber)
  {
    StepsWellFormed(cfg, input.lines);
    CountersBounded(Steps(cfg, input.lines), cfg.skipLines, input.readFailure, 0, counters, []);
  }

  /** Where a loop over precomputed steps ends, in terms of the steps' verdicts. */
  lemma EndOfRun(steps: seq<LineResult>, readFailure: Option<Exception>, counters: map<ClassId, int>)
    ensures var r := RunFrom(steps, readFailure, 0, counters, []);
      && (forall k :: 0 <= k < r.lineNumber - 1 ==> steps[k].verdict == Continue)
      && (r.status.Completed? ==>
            && r.lineNumber == |steps| && readFailure.None?
            && (|steps| == 0 || steps[|steps| - 1].verdict == Continue))
      && (!r.status.Completed? ==>
            || (0 < r.lineNumber && steps[r.lineNumber - 1].verdict != Continue)
            || (r.lineNumber == |steps| && readFailure.Some? && r.status == Aborted(readFailure.value)))
  {
    RunEndsAtFirstHalt(steps, readFailure, 0, counters, []);
    var r := RunFrom(steps, readFailure, 0, counters, []);
    if r.status.Completed? && |steps| > 0 {
      assert steps[|steps| - 1].verdict == Continue;
    }
    forall k | 0 <= k < r.lineNumber - 1
      ensures steps[k].verdict == Continue
    {
    }
  }

  /**
   * statistics.endLineNumber is the number of the last line read: every line when the run
   * succeeds, otherwise the first line whose processing stopped or threw, or every line
   * when reading past the last one threw.
   */
  lemma ParseEndLine(cfg: Config, input: Input, counters: map<ClassId, int>, error: Option<Exception>)
    requires AllOrdered(cfg.descriptors)
    ensures var r := Parse(cfg, input, counters, error);
      var lines := input.lines;
      && 0 <= r.endLineNumber <= |lines|
      && (forall k :: 0 <= k < r.endLineNumber - 1 ==> LineStep(cfg, k + 1, lines[k]).verdict == Continue)
      && (r.success ==>
            && r.endLineNumber == |lines| && input.readFailure.None?
            && (|lines| == 0 || LineStep(cfg, |lines|, lines[|lines| - 1]).verdict == Continue))
      && (!r.success ==>
            || (0 < r.endLineNumber && LineStep(cfg, r.endLineNumber, lines[r.endLineNumber - 1]).verdict != Continue)
            || (r.endLineNumber == |lines| && input.readFailure.Some? && r.error == input.readFailure))
  {
    EndOfRun(Steps(cfg, input.lines), input.readFailure, counters);
  }

  /** No handler appears twice (the handlers form a set). */
  ghost predicate Distinct(hs: seq<EntityHandler>) {
    forall i, j :: 0 <= i < j < |hs| ==> hs[i] != hs[j]
  }

  lemma {:induction false} BeforesCount(hs: seq<EntityHandler>, h: EntityHandler)
    requires Distinct(hs)
    ensures multiset(Befores(hs))[BeforeFirstEntity(h)] == if h in hs then 1 else 0
  {
    if hs != [] {
      var init := hs[..|hs| - 1];
      assert Befores(hs) == Befores(init) + [BeforeFirstEntity(hs[|hs| - 1])];
      assert h in hs <==> h in init || h == hs[|hs| - 1];
      BeforesCount(init, h);
    }
  }

  lemma {:induction false} AftersCount(hs: seq<EntityHandler>, h: EntityHandler)
    requires Distinct(hs)
    ensures multiset(Afters(hs))[AfterLastEntity(h)] == if h in hs then 1 else 0
  {
    if hs != [] {
      var init := hs[..|hs| - 1];
      assert Afters(hs) == Afters(init) + [AfterLastEntity(hs[|hs| - 1])];
      assert h in hs <==> h in init || h == hs[|hs| - 1];
      AftersCount(init, h);
    }
  }

  lemma LineEventsCount(s: seq<Event>, e: Event)
    requires forall k :: 0 <= k < |s| ==> LineEvent(s[k])
    requires !LineEvent(e)
    ensures multiset(s)[e] == 0
  {
    assert e !in s;
  }

  lemma Framed<T>(a: seq<T>, b: seq<T>, c: seq<T>, n: nat)
    requires n <= |a|
    ensures (a + b + c)[..n] == a[..n]
    ensures (a + b + c)[|a + b + c| - |c|..] == c
    ensures 0 < |c| ==> (a + b + c)[|a + b + c| - 1] == c[|c| - 1]
  {
    assert a + b + c == a + (b + c);
  }

  /**
   * Whatever happens in the loop, every handler's beforeFirstEntity and afterLastEntity run
   * exactly once each.
   */
  lemma HooksPaired(cfg: Config, input: Input, counters: map<ClassId, int>, error: Option<Exception>, h: EntityHandler)
    requires AllOrdered(cfg.descriptors) && Distinct(cfg.handlers) && h in cfg.handlers
    ensures var r := Parse(cfg, input, counters, error);
      && multiset(r.trace)[BeforeFirstEntity(h)] == 1
      && multiset(r.trace)[AfterLastEntity(h)] == 1
  {
    var loop := Loop(cfg, input, counters);
    StepsWellFormed(cfg, input.lines);
    LoopTraceShape(Steps(cfg, input.lines), cfg.skipLines, input.readFailure, 0, counters, []);
    var success := loop.status.Completed?;
    var pre := if cfg.progressListener.Some? then [Started] else [];
    var post := if cfg.progressListener.Some? then [Ended(success)] else [];
    assert PreEvents(cfg) == Befores(cfg.handlers) + pre;
    assert PostEvents(cfg, success) == Afters(cfg.handlers) + post;
    HookCounts(cfg.handlers, pre, loop.trace, post, h);
  }

  lemma HookCounts(hs: seq<EntityHandler>, pre: seq<Event>, loop: seq<Event>, post: seq<Event>, h: EntityHandler)
    requires Distinct(hs) && h in hs
    requires forall k :: 0 <= k < |loop| ==> LineEvent(loop[k])
    requires pre == [] || pre == [Started]
    requires post == [] || post == [Ended(false)] || post == [Ended(true)]
    ensures multiset((Befores(hs) + pre) + loop + (Afters(hs) + post))[BeforeFirstEntity(h)] == 1
    ensures multiset((Befores(hs) + pre) + loop + (Afters(hs) + post))[AfterLastEntity(h)] == 1
  {
    BeforesCount(hs, h);
    AftersCount(hs, h);
    LineEventsCount(loop, BeforeFirstEntity(h));
    LineEventsCount(loop, AfterLastEntity(h));
    assert AfterLastEntity(h) !in Befores(hs) && BeforeFirstEntity(h) !in Afters(hs);
  }

  /**
   * The befores run ahead of every line and the afters after them; the listener's ended
   * call comes last and reports whether the loop completed; an exception caught in the
   * loop becomes the error, and otherwise the previous error stays.
   */
  lemma ParseOutline(cfg: Config, input: Input, counters: map<ClassId, int>, error: Option<Exception>)
    requires AllOrdered(cfg.descriptors)
    ensures var r := Parse(cfg, input, counters, error);
      var loop := Loop(cfg, input, counters);
      && r.trace[..|cfg.handlers|] == Befores(cfg.handlers)
      && r.trace[|r.trace| - |PostEvents(cfg, r.success)|..] == PostEvents(cfg, r.success)
      && (cfg.progressListener.Some? ==> r.trace[|r.trace| - 1] == Ended(r.success))
      && (r.success <==> loop.status.Completed?)
      && r.error == (if loop.status.Aborted? then Some(loop.status.error) else error)
  {
    var loop := Loop(cfg, input, counters);
    var pre, post := PreEvents(cfg), PostEvents(cfg, loop.status.Completed?);
    Framed(pre, loop.trace, post, |cfg.handlers|);
    assert Parse(cfg, input, counters, error).trace == pre + loop.trace + post;
  }
}
