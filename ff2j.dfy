/**
 * The FF2J engine: its fluent configuration methods and parse, which reads a file line
 * by line, maps each line after the skipped ones to an entity and dispatches it to the
 * handler registered for its class.
 */
module Engine {
  import opened Wrappers
  import opened JavaTypes
  import opened EntityMeta
  import opened Mapping
  import opened Stats
  import opened Run
  import opened ConverterRegistries

  /** BufferedReader.readLine after `read` lines: the next line, None at the end, or the read failure. */
  function ReadLine(input: Input, read: nat): (r: Result<Option<string>, Exception>)
    ensures read < |input.lines| ==> r == Success(Some(input.lines[read]))
    ensures read >= |input.lines| ==>
      (r.Failure? <==> input.readFailure.Some?) && (r.Failure? ==> r.error == input.readFailure.value)
    ensures r.Success? && r.value.None? ==> read >= |input.lines| && input.readFailure.None?
  {
    if read < |input.lines| then Success(Some(input.lines[read]))
    else if input.readFailure.Some? then Failure(input.readFailure.value)
    else Success(None)
  }

  class FF2J {
    var skipLines: int
    const mapper: Mapper
    /** The entity handlers, in the iteration order of their set. */
    var entityHandlers: seq<EntityHandler>
    var noEntityHandler: Option<NoEntityHandler>
    var progressListener: Option<ProgressListener>
    /** Entity class to handler, rebuilt at the start of every parse. */
    var entityHandlersCache: map<ClassId, EntityHandler>
    const statistics: Statistics
    /** The exception caught by the last parse that failed with one. */
    var error: Option<Exception>

    ghost predicate Valid()
      reads this`entityHandlers, mapper, mapper.entitiesMetaData
    {
      mapper.Valid() && Distinct(entityHandlers)
    }

    /** The configuration parse works from, with the callbacks' and runtime's behaviour. */
    ghost function Cfg(rt: Runtime, cb: Callbacks): (cfg: Config)
      requires AllOrdered(mapper.descriptors)
      reads this`skipLines, this`entityHandlers, this`entityHandlersCache, this`noEntityHandler,
        this`progressListener, mapper`descriptors
      ensures AllOrdered(cfg.descriptors)
    {
      Config(skipLines, entityHandlers, entityHandlersCache, noEntityHandler, progressListener,
             mapper.descriptors, rt, cb)
    }

    constructor ()
      ensures Valid() && fresh(mapper) && fresh(statistics)
      ensures mapper.mappedClasses == [] && mapper.entitiesMetaData == []
      ensures entityHandlers == [] && entityHandlersCache == map[] && error.None?
      ensures noEntityHandler.None? && progressListener.None? && skipLines == 0
      ensures statistics.startLineNumber == 0 && statistics.endLineNumber == 0
      ensures statistics.startTime == 0 && statistics.endTime == 0 && statistics.entitiesCounter == map[]
    {
      skipLines := 0;
      mapper := new Mapper();
      entityHandlers := [];
      noEntityHandler := None;
      progressListener := None;
      entityHandlersCache := map[];
      statistics := new Statistics();
      error := None;
    }

    /** skipLines(n): lines numbered up to n are not processed, and statistics count from n. */
    method SkipLines(n: int)
      modifies this`skipLines, statistics
      ensures skipLines == n && statistics.startLineNumber == n
      ensures statistics.endLineNumber == old(statistics.endLineNumber)
      ensures statistics.entitiesCounter == old(statistics.entitiesCounter)
      ensures statistics.startTime == old(statistics.startTime) && statistics.endTime == old(statistics.endTime)
    {
      skipLines := n;
      statistics.startLineNumber := n;
    }

    /** map(entityClass): validates and registers the class unless it is mapped already. */
    method Map(c: EntityClass, rt: Runtime) returns (ghost added: Option<EntityMetaData>)
      requires Valid()
      modifies mapper
      ensures Valid()
      ensures old(mapper.IsMapped(c.id)) || PatternOf(c, rt).Failure? ==>
        && mapper.mappedClasses == old(mapper.mappedClasses)
        && mapper.entitiesMetaData == old(mapper.entitiesMetaData)
        && added.None?
      ensures !old(mapper.IsMapped(c.id)) && PatternOf(c, rt).Success? ==>
        && mapper.mappedClasses == old(mapper.mappedClasses) + [c.id]
        && added.Some? && fresh(added.value)
        && multiset(mapper.entitiesMetaData) == multiset(old(mapper.entitiesMetaData)) + multiset{added.value}
        && added.value.entityClass == c.id
        && added.value.pattern == Some(PatternOf(c, rt).value)
        && added.value.fields == AnnotatedFields(c.declaredFields)
      ensures old(mapper.IsMapped(c.id)) || PatternOf(c, rt).Success? ==> mapper.IsMapped(c.id)
    {
      added := None;
      if !mapper.IsMapped(c.id) {
        added := mapper.AddMappedClass(c, rt);
      }
    }

    /** setEntityHandlers(set): replaces the handlers. */
    method SetEntityHandlers(hs: seq<EntityHandler>)
      requires Distinct(hs)
      modifies this`entityHandlers
      ensures entityHandlers == hs
    {
      entityHandlers := hs;
    }

    /** addEntityHandler(h): a null handler or one already present leaves the set as it is. */
    method AddEntityHandler(h: Option<EntityHandler>)
      requires Distinct(entityHandlers)
      modifies this`entityHandlers
      ensures Distinct(entityHandlers)
      ensures h.None? || h.value in old(entityHandlers) ==> entityHandlers == old(entityHandlers)
      ensures h.Some? && h.value !in old(entityHandlers) ==> entityHandlers == old(entityHandlers) + [h.value]
    {
      if h.Some? && h.value !in entityHandlers {
        entityHandlers := entityHandlers + [h.value];
      }
    }

    method SetNoEntityHandler(h: Option<NoEntityHandler>)
      modifies this`noEntityHandler
      ensures noEntityHandler == h
    {
      noEntityHandler := h;
    }

    method SetProgressListener(l: Option<ProgressListener>)
      modifies this`progressListener
      ensures progressListener == l
    {
      progressListener := l;
    }

    /** registerConverter(c): registers c with the converter registry. */
    method RegisterConverter(registry: ConverterRegistry, c: Option<Converter>)
      requires registry.Valid()
      modifies registry
      ensures registry.Valid()
      ensures c.None? ==> registry.converters == old(registry.converters)
      ensures c.Some? ==> registry.converters == old(registry.converters)[c.value.target := c.value]
    {
      registry.Register(c);
    }

    function GetError(): (e: Option<Exception>)
      reads this`error
    {
      error
    }

    /** createEntityHandlersCache: every handler under its entity class, a later one replacing an earlier one. */
    method CreateEntityHandlersCache()
      modifies this`entityHandlersCache
      ensures entityHandlersCache == CacheOf(entityHandlers)
    {
      entityHandlersCache := map[];
      for i := 0 to |entityHandlers|
        invariant entityHandlersCache == CacheOf(entityHandlers[..i])
      {
        var h := entityHandlers[i];
        assert entityHandlers[..i + 1][..i] == entityHandlers[..i];
        entityHandlersCache := entityHandlersCache[h.entityClass := h];
      }
      assert entityHandlers[..|entityHandlers|] == entityHandlers;
    }

    /** onFileLine: maps the line and dispatches the entity, or reports an unmatched line. */
    method OnFileLine(lineNumber: int, lineText: string, rt: Runtime, cb: Callbacks)
      returns (verdict: Verdict, calls: seq<Event>)
      requires mapper.Valid()
      modifies statistics`entitiesCounter
      ensures var r := Run.OnFileLine(Cfg(rt, cb), lineNumber, lineText);
        && verdict == r.verdict && calls == r.events
        && statistics.entitiesCounter == Count(old(statistics.entitiesCounter), r.counted)
      ensures statistics.startLineNumber == old(statistics.startLineNumber)
      ensures statistics.endLineNumber == old(statistics.endLineNumber)
      ensures statistics.startTime == old(statistics.startTime) && statistics.endTime == old(statistics.endTime)
    {
      ghost var cfg := Cfg(rt, cb);
      var entity := mapper.MapEntity(lineText, rt);
      calls := [];
      verdict := Continue;
      match entity
      case Failed(e) =>
        verdict := Abort(e);
        assert Run.OnFileLine(cfg, lineNumber, lineText) == LineResult(verdict, calls, None);
      case Mapped(e) =>
        if e.entityClass in entityHandlersCache {
          var handler := entityHandlersCache[e.entityClass];
          calls := [HandleEntity(handler, e)];
          var thrown := cb.handleEntity(handler, lineNumber, e);
          if thrown.Some? {
            verdict := Abort(thrown.value);
            assert Run.OnFileLine(cfg, lineNumber, lineText) == LineResult(verdict, calls, None);
          } else {
            statistics.IncrementCounter(e.entityClass);
            assert Run.OnFileLine(cfg, lineNumber, lineText) == LineResult(verdict, calls, Some(e.entityClass));
          }
        } else {
          assert Run.OnFileLine(cfg, lineNumber, lineText) == LineResult(verdict, calls, None);
        }
      case NoMatch =>
        if noEntityHandler.Some? {
          calls := [HandleNoEntity(lineNumber, lineText)];
          match cb.handleNoEntity(noEntityHandler.value, lineNumber, lineText)
          case Raise(e) => verdict := Abort(e);
          case Answer(goNext) => verdict := if goNext then Continue else Stop;
        }
        assert Run.OnFileLine(cfg, lineNumber, lineText) == LineResult(verdict, calls, None);
    }

    /** The body of parse's loop for a line after the skip: ask the listener, then onFileLine. */
    method ProcessLine(lineNumber: int, lineText: string, rt: Runtime, cb: Callbacks)
      returns (verdict: Verdict, calls: seq<Event>)
      requires mapper.Valid() && lineNumber > skipLines
      modifies statistics`entitiesCounter
      ensures var r := LineStep(Cfg(rt, cb), lineNumber, lineText);
        && verdict == r.verdict && calls == r.events
        && statistics.entitiesCounter == Count(old(statistics.entitiesCounter), r.counted)
      ensures statistics.startLineNumber == old(statistics.startLineNumber)
      ensures statistics.startTime == old(statistics.startTime)
      ensures statistics.endLineNumber == old(statistics.endLineNumber) && statistics.endTime == old(statistics.endTime)
    {
      verdict := Continue;
      calls := [];
      if progressListener.Some? {
        calls := [InProgress(lineNumber)];
        match cb.inProgress(progressListener.value, lineNumber)
        case Raise(e) => verdict := Abort(e);
        case Answer(goNext) => verdict := if goNext then Continue else Stop;
      }
      if verdict == Continue {
        var events;
        verdict, events := OnFileLine(lineNumber, lineText, rt, cb);
        calls := calls + events;
      }
    }

    /**
     * One line read by parse's loop: skipped, or processed by ProcessLine. The loop's remaining
     * run from this line is the verdict's continuation over the line's step.
     */
    method ReadOne(ghost steps: seq<LineResult>, input: Input, i: nat, lineText: string, rt: Runtime, cb: Callbacks,
                   calls: seq<Event>)
      returns (verdict: Verdict, calls': seq<Event>)
      requires mapper.Valid() && steps == Steps(Cfg(rt, cb), input.lines)
      requires i < |input.lines| && lineText == input.lines[i]
      modifies statistics`entitiesCounter
      ensures RunFrom(steps, input.readFailure, i, old(statistics.entitiesCounter), calls) ==
        match verdict
        case Continue => RunFrom(steps, input.readFailure, i + 1, statistics.entitiesCounter, calls')
        case Stop => LoopEnd(i + 1, statistics.entitiesCounter, calls', Stopped)
        case Abort(e) => LoopEnd(i + 1, statistics.entitiesCounter, calls', Aborted(e))
      ensures statistics.startLineNumber == old(statistics.startLineNumber)
      ensures statistics.startTime == old(statistics.startTime)
      ensures statistics.endLineNumber == old(statistics.endLineNumber) && statistics.endTime == old(statistics.endTime)
    {
      ghost var step, counters := steps[i], statistics.entitiesCounter;
      assert step == LineStep(Cfg(rt, cb), i + 1, lineText);
      verdict, calls' := Continue, calls;
      if i + 1 > skipLines {
        var events;
        verdict, events := ProcessLine(i + 1, lineText, rt, cb);
        calls' := calls + events;
      } else {
        assert step == LineResult(Continue, [], None);
        assert calls + step.events == calls';
      }
      assert step.verdict == verdict && calls + step.events == calls';
      assert statistics.entitiesCounter == Count(counters, step.counted);
    }

    /**
     * parse's loop: reads lines until the end, a stop or an exception, which it catches
     * and returns as caught; success tells whether it reached the end normally.
     */
    method ReadLines(input: Input, rt: Runtime, cb: Callbacks)
      returns (lineNumber: int, calls: seq<Event>, success: bool, caught: Option<Exception>, ghost loop: LoopEnd)
      requires mapper.Valid()
      modifies statistics`entitiesCounter
      ensures loop == Loop(Cfg(rt, cb), input, old(statistics.entitiesCounter))
      ensures lineNumber == loop.lineNumber && calls == loop.trace
      ensures statistics.entitiesCounter == loop.counters
      ensures success <==> loop.status.Completed?
      ensures caught == if loop.status.Aborted? then Some(loop.status.error) else None
      ensures statistics.startLineNumber == old(statistics.startLineNumber)
      ensures statistics.startTime == old(statistics.startTime)
      ensures statistics.endLineNumber == old(statistics.endLineNumber) && statistics.endTime == old(statistics.endTime)
      ensures mapper.Valid()
    {
      ghost var cfg := Cfg(rt, cb);
      ghost var steps := Steps(cfg, input.lines);
      success, caught := true, None;
      lineNumber := 0;
      calls := [];
      ghost var status := Completed;
      ghost var target := Loop(cfg, input, old(statistics.entitiesCounter));
      while true
        invariant 0 <= lineNumber <= |input.lines|
        invariant cfg == Cfg(rt, cb) && caught.None?
        invariant mapper.Valid()
        invariant statistics.startLineNumber == old(statistics.startLineNumber)
        invariant statistics.startTime == old(statistics.startTime)
        invariant statistics.endLineNumber == old(statistics.endLineNumber) && statistics.endTime == old(statistics.endTime)
        invariant target == RunFrom(steps, input.readFailure, lineNumber, statistics.entitiesCounter, calls)
        decreases |input.lines| - lineNumber
      {
        var next := ReadLine(input, lineNumber);
        if next.Failure? {
          success := false;
          caught := Some(next.error);
          status := Aborted(next.error);
          break;
        }
        if next.value.None? {
          break;
        }
        var verdict;
        verdict, calls := ReadOne(steps, input, lineNumber, next.value.value, rt, cb, calls);
        lineNumber := lineNumber + 1;
        match verdict
        case Continue =>
        case Stop =>
          success := false;
          status := Stopped;
          break;
        case Abort(e) =>
          success := false;
          caught := Some(e);
          status := Aborted(e);
          break;
      }
      loop := LoopEnd(lineNumber, statistics.entitiesCounter, calls, status);
      assert target == loop;
    }

    /** parse's catch block: an exception that ended the loop becomes the error. */
    method Catch(caught: Option<Exception>)
      modifies this`error
      ensures error == if caught.Some? then caught else old(error)
    {
      if caught.Some? {
        error := caught;
      }
    }

    /**
     * parse's pre-parse phase: rebuilds the handler cache, calls beforeFirstEntity on every
     * handler, then started(), and records the start time.
     */
    method PreParse(startTime: int) returns (calls: seq<Event>)
      modifies this`entityHandlersCache, statistics`startTime
      ensures entityHandlersCache == CacheOf(entityHandlers)
      ensures calls == Befores(entityHandlers) + if progressListener.Some? then [Started] else []
      ensures statistics.startTime == startTime
    {
      CreateEntityHandlersCache();
      calls := [];
      for i := 0 to |entityHandlers|
        invariant calls == Befores(entityHandlers[..i])
      {
        assert entityHandlers[..i + 1] == entityHandlers[..i] + [entityHandlers[i]];
        calls := calls + [BeforeFirstEntity(entityHandlers[i])];
      }
      assert entityHandlers[..|entityHandlers|] == entityHandlers;
      if progressListener.Some? {
        calls := calls + [Started];
      }
      statistics.startTime := startTime;
    }

    /**
     * parse's post-parse phase: records the last line read and the end time, calls
     * afterLastEntity on every handler, then ended(success).
     */
    method PostParse(lineNumber: int, success: bool, endTime: int) returns (calls: seq<Event>)
      modifies statistics`endLineNumber, statistics`endTime
      ensures calls == Afters(entityHandlers) + if progressListener.Some? then [Ended(success)] else []
      ensures statistics.endLineNumber == lineNumber && statistics.endTime == endTime
    {
      statistics.endLineNumber := lineNumber;
      statistics.endTime := endTime;
      calls := [];
      for i := 0 to |entityHandlers|
        invariant calls == Afters(entityHandlers[..i])
      {
        assert entityHandlers[..i + 1] == entityHandlers[..i] + [entityHandlers[i]];
        calls := calls + [AfterLastEntity(entityHandlers[i])];
      }
      assert entityHandlers[..|entityHandlers|] == entityHandlers;
      if progressListener.Some? {
        calls := calls + [Ended(success)];
      }
    }

    /**
     * parse(input): the run Run.Parse describes, with startTime and endTime the clock's
     * readings; returns the statistics and the calls made to handlers and the listener.
     */
    method Parse(input: Input, rt: Runtime, cb: Callbacks, startTime: int, endTime: int)
      returns (stats: Statistics, calls: seq<Event>)
      requires Valid()
      modifies this`entityHandlersCache, this`error, statistics
      ensures Valid() && stats == statistics
      ensures entityHandlersCache == CacheOf(entityHandlers)
      ensures var r := Run.Parse(Cfg(rt, cb), input, old(statistics.entitiesCounter), old(error));
        && statistics.endLineNumber == r.endLineNumber
        && statistics.entitiesCounter == r.counters
        && calls == r.trace
        && error == r.error
      ensures statistics.startLineNumber == old(statistics.startLineNumber)
      ensures statistics.startTime == startTime && statistics.endTime == endTime
      ensures Total(old(statistics.entitiesCounter)) <= Total(statistics.entitiesCounter)
        <= Total(old(statistics.entitiesCounter)) + Processed(skipLines, 0, statistics.endLineNumber)
    {
      ghost var counters0 := statistics.entitiesCounter;
      var before := PreParse(startTime);
      ghost var loop;
      var lineNumber, lineCalls, success, caught;
      lineNumber, lineCalls, success, caught, loop := ReadLines(input, rt, cb);
      Catch(caught);
      var after := PostParse(lineNumber, success, endTime);
      calls := before + lineCalls + after;
      ParseAssembled(Cfg(rt, cb), input, counters0, old(error), loop, success, error, calls);
      ParseCountersBounded(Cfg(rt, cb), input, counters0, old(error));
      stats := statistics;
    }
  }
}
