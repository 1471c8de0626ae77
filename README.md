# ff2j — a Dafny model of the flat-file-to-Java mapping engine

ff2j reads a text file line by line and turns each line into a Java object (an *entity*).
An entity class carries a `@RegexEntity` annotation that names a regular-expression constant.
Each of its `@RegexField` fields names a capture group and a converter.
`FF2J.parse` does three things:

- it skips the first `skipLines` lines;
- it asks an optional progress listener whether to go on;
- it maps each remaining line with the `Mapper`, which uses the first pattern, in the iteration order of its metadata set, that matches the whole line.

A mapped entity goes to the entity handler registered for its class, and the per-class counter in `Statistics` rises.
An unmatched line goes to an optional no-entity handler, which may stop the run.
An exception ends the loop and is kept in `error`.
The handlers' `beforeFirstEntity` hooks run before the loop, and their `afterLastEntity` hooks run after it.

The model has one module per source file:

| module | file | models |
|---|---|---|
| `BooleanConversion` | `boolean_converter.dfy` | `BooleanConverter`, its presets and `decode` |
| `ConverterRegistries` | `converter_registry.dfy` | `ConverterRegistry`: register, lookup, unregister, the built-in converters |
| `EntityMeta` | `entity_metadata.dfy` | `EntityMetaData` and `FieldMetaData` |
| `Mapping` | `mapper.dfy` | `Mapper`, its `Validator`, `mapEntity` and `setFieldValue` |
| `Stats` | `statistics.dfy` | `FF2J.Statistics` |
| `Run` | `run_spec.dfy` | what one `parse` run does, as functions of its configuration and input |
| `Engine` | `ff2j.dfy` | class `FF2J`: the fluent setters, `onFileLine`, `createEntityHandlersCache`, `parse` |

`Wrappers` holds `Option` (Java's `null`) and `Result` (a thrown exception).
`JavaTypes` makes the Java world explicit:

- classes are tags;
- a reflected field is a name and a type;
- converted values and exceptions are data;
- the regex engine, `ConverterUtils.convert` and user converter classes are functions in a `Runtime` value passed in.

The user's handler and listener callbacks are functions in a `Callbacks` value.
The calls made to them are recorded as a trace of `Event`s.

The imperative classes (`FF2J`, `Mapper`, `EntityMetaData`, `ConverterRegistry`, `Statistics`) are Dafny classes with the source's fields.
Their methods are proved against pure specification functions: `Run.Parse`, `Run.LineStep`, `Mapping.MapLine`, `ConverterRegistries.RegisterAll` and others.
The lemmas about those functions carry the properties.

Hash collections are sequences in their iteration order:

- the `HashSet` of entity metadata in `Mapper`;
- the key set of the `HashMap` in `EntityMetaData`;
- the `LinkedHashSet` of handlers.

Adding a new element to the `HashSet` or to the `HashMap`'s key set may reorder it arbitrarily, while the `LinkedHashSet` appends it. So "the first matching pattern" is the first in the set's iteration order, not in registration order.

Four behaviours of the code shape the model:

- Registration order is not the tie-break between overlapping patterns. The metadata live in a `HashSet`, so the first match in iteration order wins (`Mapper.java:35,40,64`).
- Group indices and converters are not checked when a class is registered. A bad group index throws `IndexOutOfBounds` from `Matcher.group` when a line matches (`Mapper.java:74`).
- A conversion failure does not leave the line unmapped. The exception propagates out of `mapEntity` and aborts the whole run (`Mapper.java:63,75`, `FF2J.java:160-163`).
- A validation failure does not reach the caller. `addMappedClass` swallows it (`Mapper.java:49-54`).

## Model

| member | source | states |
|---|---|---|
| BooleanConversion.BooleanConverter.Decode | ff2j/src/main/java/ro/fortsoft/ff2j/converter/BooleanConverter.java:38-45 | case-sensitive: true iff the text equals the positive literal; otherwise true iff it equals it ignoring case; null decodes to false |
| BooleanConversion.UpperCase | ff2j/src/main/java/ro/fortsoft/ff2j/converter/BooleanConverter.java:43 | `Character.toUpperCase` on ASCII: 'a'..'z' map to 'A'..'Z' (code point minus 32), anything else is kept, and the result is never a lower-case letter |
| BooleanConversion.LowerCase | ff2j/src/main/java/ro/fortsoft/ff2j/converter/BooleanConverter.java:43 | `Character.toLowerCase` on ASCII: 'A'..'Z' map to 'a'..'z' (code point plus 32), anything else is kept, and the result is never an upper-case letter |
| BooleanConversion.EqualsIgnoreCase | ff2j/src/main/java/ro/fortsoft/ff2j/converter/BooleanConverter.java:43 | `equalsIgnoreCase`: equal lengths are needed, and equal strings always match |
| BooleanConversion.Lowered | ff2j/src/main/java/ro/fortsoft/ff2j/converter/BooleanConverter.java:43 | reference definition for ignoring case: every character lowered, length kept |
| BooleanConversion.EqualsIgnoreCaseIffLoweredEqual | ff2j/src/main/java/ro/fortsoft/ff2j/converter/BooleanConverter.java:43 | `equalsIgnoreCase`'s per-character test agrees with comparing the lowered strings, both directions |
| BooleanConversion.NewBooleanConverter | ff2j/src/main/java/ro/fortsoft/ff2j/converter/BooleanConverter.java:28-30 | the no-argument constructor builds the TRUE_FALSE preset |
| BooleanConversion.NegativeLiteralIgnored | ff2j/src/main/java/ro/fortsoft/ff2j/converter/BooleanConverter.java:39-45 | decode never consults the negative literal |
| BooleanConversion.NegativeDecodesFalse | ff2j/src/main/java/ro/fortsoft/ff2j/converter/BooleanConverter.java:39-45 | the negative literal decodes to false unless it equals the positive one |
| BooleanConversion.PresetExamples | ff2j/src/main/java/ro/fortsoft/ff2j/converter/BooleanConverter.java:20-22 | YES_NO accepts "YES" and "Yes"; BINARY accepts "1" and rejects "0" and "01"; TRUE_FALSE accepts "TRUE" and rejects "false" and null |
| ConverterRegistries.RegisterAll | log2j/src/main/java/ro/fortsoft/log2j/converter/ConverterRegistry.java:37-56 | after registering a sequence, the keys are the old keys plus the targets; every entry is old or one of the converters; keyed-by-target is kept |
| ConverterRegistries.RegisterAllLastWins | log2j/src/main/java/ro/fortsoft/log2j/converter/ConverterRegistry.java:50-56 | the entry for a type is the last registered converter targeting that type |
| ConverterRegistries.RegisterAllOthers | log2j/src/main/java/ro/fortsoft/log2j/converter/ConverterRegistry.java:50-56 | registering converters of other types leaves a type's entry, or its absence, as it was |
| ConverterRegistries.FreshRegistryTable | log2j/src/main/java/ro/fortsoft/log2j/converter/ConverterRegistry.java:29-45 | a fresh registry holds exactly Boolean, Byte, Short, Integer, Long, Float and Double, each bound to its built-in converter |
| ConverterRegistries.Unregistered | log2j/src/main/java/ro/fortsoft/log2j/converter/ConverterRegistry.java:68-77 | exactly the entries bound to another converter stay, unchanged; every key bound to the converter is removed |
| ConverterRegistries.ConverterRegistry.constructor | log2j/src/main/java/ro/fortsoft/log2j/converter/ConverterRegistry.java:29-31 | the table is the built-ins registered into an empty table |
| ConverterRegistries.ConverterRegistry.RegisterDefaultConverters | log2j/src/main/java/ro/fortsoft/log2j/converter/ConverterRegistry.java:37-45 | the table becomes the seven built-ins registered in order over the old table |
| ConverterRegistries.ConverterRegistry.Register | log2j/src/main/java/ro/fortsoft/log2j/converter/ConverterRegistry.java:50-56 | null changes nothing; otherwise the converter replaces its target's entry and nothing else changes |
| ConverterRegistries.ConverterRegistry.Lookup | log2j/src/main/java/ro/fortsoft/log2j/converter/ConverterRegistry.java:61-63 | null iff nothing is registered for the target; otherwise the stored converter, whose target is that type |
| ConverterRegistries.ConverterRegistry.Unregister | log2j/src/main/java/ro/fortsoft/log2j/converter/ConverterRegistry.java:68-77 | null changes nothing; otherwise the table becomes `Unregistered(old, c)` |
| EntityMeta.Reordered | log2j/src/main/java/ro/fortsoft/log2j/EntityMetaData.java:46-48 | after a new key the iteration order holds the old keys and the new one, each once |
| EntityMeta.EntityMetaData.constructor | log2j/src/main/java/ro/fortsoft/log2j/EntityMetaData.java:32-36 | records the entity class, maps no field, has no pattern |
| EntityMeta.EntityMetaData.GetMappedFields | log2j/src/main/java/ro/fortsoft/log2j/EntityMetaData.java:42-44 | exactly the key set of the field table |
| EntityMeta.EntityMetaData.AddFieldMetaData | log2j/src/main/java/ro/fortsoft/log2j/EntityMetaData.java:46-48 | the table becomes `old[field := metaData]`; re-adding a field keeps the iteration order; the pattern is unchanged |
| EntityMeta.EntityMetaData.GetFieldMetaData | log2j/src/main/java/ro/fortsoft/log2j/EntityMetaData.java:50-52 | null iff the field is not mapped; otherwise its stored binding |
| EntityMeta.EntityMetaData.SetPattern | log2j/src/main/java/ro/fortsoft/log2j/EntityMetaData.java:58-60 | sets the pattern and leaves the fields alone |
| Mapping.FindDeclaredField | ff2j/src/main/java/ro/fortsoft/ff2j/Mapper.java:113-117 | none iff no declared field has the name; otherwise a declared field of that name |
| Mapping.PatternOf | ff2j/src/main/java/ro/fortsoft/ff2j/Mapper.java:102-123 | a returned regular expression is the value of the declared constant the annotation names, and it compiles; an unannotated class fails with NotAnnotated and a missing field with MissingConstant |
| Mapping.PatternOfSucceedsIff | ff2j/src/main/java/ro/fortsoft/ff2j/Mapper.java:106-123 | validation passes its checks iff the class is annotated and names a declared String constant that compiles |
| Mapping.AnnotatedFields | ff2j/src/main/java/ro/fortsoft/ff2j/Mapper.java:124-132 | the table's keys are exactly the annotated declared fields |
| Mapping.AnnotatedFieldBinding | ff2j/src/main/java/ro/fortsoft/ff2j/Mapper.java:126-130 | each annotated field is bound to its declared group and converter; the group is not range-checked |
| Mapping.FieldValue | ff2j/src/main/java/ro/fortsoft/ff2j/Mapper.java:74-98 | a group the match lacks throws IndexOutOfBounds; a String field gets the group text verbatim; the Boolean converter class decodes with TRUE_FALSE; the default converter converts by the field's type and a custom converter class decodes with that class |
| Mapping.SetFields | ff2j/src/main/java/ro/fortsoft/ff2j/Mapper.java:72-76 | setting fields keeps the fields already set; a failure comes from a field still to set |
| Mapping.Populate | ff2j/src/main/java/ro/fortsoft/ff2j/Mapper.java:69-78 | a full match never yields "no match"; a mapped entity has the metadata's class; the line fails iff some mapped field fails to convert |
| Mapping.SetFieldsSpec | ff2j/src/main/java/ro/fortsoft/ff2j/Mapper.java:72-76 | setting fields in iteration order succeeds iff every field converts, setting each to its own converted value; otherwise a failing field's exception comes out |
| Mapping.PopulateSpec | ff2j/src/main/java/ro/fortsoft/ff2j/Mapper.java:69-78 | a full match yields an entity of the metadata's class whose fields are exactly the mapped fields, each converted from its own group, iff all convert; otherwise the exception of a failing field |
| Mapping.MapLine | ff2j/src/main/java/ro/fortsoft/ff2j/Mapper.java:63-83 | no match iff no registered pattern fully matches the line |
| Mapping.MapLineUsesFirstMatch | ff2j/src/main/java/ro/fortsoft/ff2j/Mapper.java:64-79 | the first fully matching metadata alone decides the result; later ones are never tried |
| Mapping.Mapper.constructor | ff2j/src/main/java/ro/fortsoft/ff2j/Mapper.java:38-42 | no mapped classes, no metadata |
| Mapping.Mapper.IsMapped | ff2j/src/main/java/ro/fortsoft/ff2j/Mapper.java:44-46 | true iff the class occurs in `mappedClasses` |
| Mapping.Mapper.Validate | ff2j/src/main/java/ro/fortsoft/ff2j/Mapper.java:102-135 | on failure returns the error and adds nothing; on success adds exactly one fresh metadata, with the class, its pattern and the annotated bindings; `mappedClasses` is unchanged |
| Mapping.Mapper.NewMetaData | ff2j/src/main/java/ro/fortsoft/ff2j/Mapper.java:122-132 | the new metadata has the class, the compiled pattern and exactly the annotated bindings |
| Mapping.Mapper.AddDeclared | ff2j/src/main/java/ro/fortsoft/ff2j/Mapper.java:126-131 | one declared field adds its binding iff it is annotated; an unannotated or already bound field keeps the iteration order |
| Mapping.Mapper.Insert | ff2j/src/main/java/ro/fortsoft/ff2j/Mapper.java:134 | the set gains exactly the new metadata, in some iteration order |
| Mapping.Mapper.Reordered | ff2j/src/main/java/ro/fortsoft/ff2j/Mapper.java:134 | the new iteration order holds the old elements and the new one, all of them valid |
| Mapping.Mapper.AddMappedClass | ff2j/src/main/java/ro/fortsoft/ff2j/Mapper.java:48-57 | a validation failure is swallowed and changes nothing; on success the class is appended and its metadata added |
| Mapping.Mapper.NewEntity | ff2j/src/main/java/ro/fortsoft/ff2j/Mapper.java:69-78 | the populated entity, or the first conversion failure, is that of `Populate` for this metadata |
| Mapping.Mapper.MapEntity | ff2j/src/main/java/ro/fortsoft/ff2j/Mapper.java:63-83 | the result is `MapLine` over the registered metadata in iteration order |
| Stats.Incremented | ff2j/src/main/java/ro/fortsoft/ff2j/FF2J.java:278-286 | the counted class gains a counter, no other key appears, other counters are unchanged |
| Stats.IncrementedSpec | ff2j/src/main/java/ro/fortsoft/ff2j/FF2J.java:278-286 | an absent class starts at 1, a present one gains 1, other classes are unchanged, the total rises by exactly 1 |
| Stats.JavaDiv | ff2j/src/main/java/ro/fortsoft/ff2j/FF2J.java:256-261 | truncating division: the remainder has the dividend's sign and is smaller than the divisor |
| Stats.Statistics.constructor | ff2j/src/main/java/ro/fortsoft/ff2j/FF2J.java:222-224 | all numbers zero and no counters |
| Stats.Statistics.ElapsedTime | ff2j/src/main/java/ro/fortsoft/ff2j/FF2J.java:239-241 | the elapsed time added to the start time gives the end time; it is non-negative iff the end is not before the start |
| Stats.Statistics.ElapsedTimeParts | ff2j/src/main/java/ro/fortsoft/ff2j/FF2J.java:252-264 | h·3600000 + m·60000 + s·1000 + ms equals the elapsed time; for a non-negative time m < 60, s < 60, ms < 1000, all non-negative |
| Stats.Statistics.IncrementCounter | ff2j/src/main/java/ro/fortsoft/ff2j/FF2J.java:278-286 | the counters become `Incremented(old, c)` and nothing else changes |
| Run.CacheOf | ff2j/src/main/java/ro/fortsoft/ff2j/FF2J.java:194-206 | the cache's keys are the handlers' classes; each entry is one of the handlers, declared for that class |
| Run.CacheHoldsLastHandler | ff2j/src/main/java/ro/fortsoft/ff2j/FF2J.java:196-205 | a later handler for the same class replaces an earlier one |
| Run.OnFileLine | ff2j/src/main/java/ro/fortsoft/ff2j/FF2J.java:179-192 | a parse failure aborts with no call; a mapped entity of a cached class is handed to that handler, counted and goes on iff the handler returns normally, and aborts with the handler's exception otherwise; a mapped entity without a handler is neither counted nor reported; an unmatched line reaches the no-entity handler if one is set, stopping iff it answers false, going on iff it answers true, aborting iff it throws |
| Run.LineStep | ff2j/src/main/java/ro/fortsoft/ff2j/FF2J.java:144-158 | a skipped line does nothing; without a listener the line is `Run.OnFileLine`; a `true` from the listener gives `Run.OnFileLine`'s verdict and counter, its calls after `inProgress`; a `false` stops and an exception aborts, before mapping; line calls carry the line's own number |
| Run.Steps | ff2j/src/main/java/ro/fortsoft/ff2j/FF2J.java:143-144 | line index k is processed as line number k+1 |
| Run.StepsWellFormed | ff2j/src/main/java/ro/fortsoft/ff2j/FF2J.java:143-158 | every skipped line is quiet and every line call is labelled with its line |
| Run.SkippedLinesIgnored | ff2j/src/main/java/ro/fortsoft/ff2j/FF2J.java:143-145 | the contents of skipped lines do not influence any step |
| Run.RunFrom | ff2j/src/main/java/ro/fortsoft/ff2j/FF2J.java:141-163 | the last line number read lies between the start and the line count, and a completed loop read every line and met no read failure |
| Run.RunEndsAtFirstHalt | ff2j/src/main/java/ro/fortsoft/ff2j/FF2J.java:143-163 | the loop completes only when every line goes on and the reader ends cleanly; otherwise it ends at the first line that stops or throws, or after the last line when reading further throws |
| Run.CountersBounded | ff2j/src/main/java/ro/fortsoft/ff2j/FF2J.java:143-186 | the counters' total never falls, and rises by at most one per line read after the skip |
| Run.LoopTraceShape | ff2j/src/main/java/ro/fortsoft/ff2j/FF2J.java:143-158 | the loop only appends line calls, and each names a line after the skip and no later than the last line read |
| Run.Count | ff2j/src/main/java/ro/fortsoft/ff2j/FF2J.java:185 | a counted line adds its class to the counters; an uncounted one leaves them alone |
| Run.Loop | ff2j/src/main/java/ro/fortsoft/ff2j/FF2J.java:141-163 | the loop reads at most every line; if it completes it read every line and the reader ended cleanly |
| Run.Befores | ff2j/src/main/java/ro/fortsoft/ff2j/FF2J.java:128-130 | one beforeFirstEntity per handler, in set order |
| Run.Afters | ff2j/src/main/java/ro/fortsoft/ff2j/FF2J.java:168-170 | one afterLastEntity per handler, in set order |
| Run.PreEvents | ff2j/src/main/java/ro/fortsoft/ff2j/FF2J.java:126-135 | the befores come first, and `started` is called iff a listener is set |
| Run.PostEvents | ff2j/src/main/java/ro/fortsoft/ff2j/FF2J.java:165-173 | the afters come first, and `ended(success)` is the last call iff a listener is set |
| Run.Parse | ff2j/src/main/java/ro/fortsoft/ff2j/FF2J.java:125-176 | the end line lies within the input; a successful run read every line, the reader ended cleanly and the error is the previous one; each handler contributes at least two calls |
| Run.SkippedLinesNeverRead | ff2j/src/main/java/ro/fortsoft/ff2j/FF2J.java:143-158 | inputs that differ only in skipped lines give the same run: same calls, counters, end line and error |
| Run.ParseCountersBounded | ff2j/src/main/java/ro/fortsoft/ff2j/FF2J.java:125-192 | a run adds to the counters at most one per line read after the skip, and never lowers them |
| Run.ParseEndLine | ff2j/src/main/java/ro/fortsoft/ff2j/FF2J.java:141-166 | the end line number is the line count when the run succeeds; otherwise it is the first line that stopped or threw, or every line when the reader threw |
| Run.BeforesCount | ff2j/src/main/java/ro/fortsoft/ff2j/FF2J.java:128-130 | each handler's beforeFirstEntity occurs once among the befores |
| Run.AftersCount | ff2j/src/main/java/ro/fortsoft/ff2j/FF2J.java:168-170 | each handler's afterLastEntity occurs once among the afters |
| Run.HooksPaired | ff2j/src/main/java/ro/fortsoft/ff2j/FF2J.java:125-176 | whatever the loop does, each handler's beforeFirstEntity and afterLastEntity occur exactly once in the run |
| Run.ParseOutline | ff2j/src/main/java/ro/fortsoft/ff2j/FF2J.java:125-176 | the befores come first and the afters last; `ended(success)` is the last call; success iff the loop completed; a caught exception becomes the error, and otherwise the previous error stays |
| Engine.ReadLine | ff2j/src/main/java/ro/fortsoft/ff2j/FF2J.java:143 | the next line while lines remain; then the read failure if there is one; end of input otherwise |
| Engine.FF2J.constructor | ff2j/src/main/java/ro/fortsoft/ff2j/FF2J.java:44-48 | a new mapper, no handlers, no error, zero statistics |
| Engine.FF2J.SkipLines | ff2j/src/main/java/ro/fortsoft/ff2j/FF2J.java:56-61 | sets both the skip count and `statistics.startLineNumber` to n, and nothing else |
| Engine.FF2J.Map | ff2j/src/main/java/ro/fortsoft/ff2j/FF2J.java:70-76 | an already mapped class changes nothing, so repeating it is a no-op; an invalid one changes nothing; a new valid class is appended and exactly one fresh metadata joins, holding the class, its pattern and its annotated bindings |
| Engine.FF2J.SetEntityHandlers | ff2j/src/main/java/ro/fortsoft/ff2j/FF2J.java:78-82 | replaces the handlers |
| Engine.FF2J.AddEntityHandler | ff2j/src/main/java/ro/fortsoft/ff2j/FF2J.java:84-90 | null or a present handler changes nothing; a new one is appended; the set stays duplicate-free |
| Engine.FF2J.SetNoEntityHandler | ff2j/src/main/java/ro/fortsoft/ff2j/FF2J.java:92-96 | sets the no-entity handler |
| Engine.FF2J.SetProgressListener | ff2j/src/main/java/ro/fortsoft/ff2j/FF2J.java:98-102 | sets the progress listener |
| Engine.FF2J.RegisterConverter | ff2j/src/main/java/ro/fortsoft/ff2j/FF2J.java:110-114 | the registry changes exactly as `register` changes it |
| Engine.FF2J.CreateEntityHandlersCache | ff2j/src/main/java/ro/fortsoft/ff2j/FF2J.java:194-206 | the cache becomes `CacheOf(handlers)` |
| Engine.FF2J.OnFileLine | ff2j/src/main/java/ro/fortsoft/ff2j/FF2J.java:179-192 | verdict, calls and counters are those of `Run.OnFileLine`; the other statistics are unchanged |
| Engine.FF2J.ProcessLine | ff2j/src/main/java/ro/fortsoft/ff2j/FF2J.java:145-158 | verdict, calls and counters are those of `Run.LineStep` for a line after the skip; the other statistics are unchanged |
| Engine.FF2J.ReadOne | ff2j/src/main/java/ro/fortsoft/ff2j/FF2J.java:144-158 | one line read: a line up to the skip goes on with no call, a later one is `ProcessLine`; the rest of the loop continues from this line's step; the other statistics are unchanged |
| Engine.FF2J.ReadLines | ff2j/src/main/java/ro/fortsoft/ff2j/FF2J.java:137-163 | line number, calls, counters and success are those of `Run.Loop` over the input, and the exception it catches is the one that aborted the loop, if any; the other statistics are unchanged |
| Engine.FF2J.Catch | ff2j/src/main/java/ro/fortsoft/ff2j/FF2J.java:160-163 | a caught exception becomes the error; with none the error is unchanged |
| Engine.FF2J.PreParse | ff2j/src/main/java/ro/fortsoft/ff2j/FF2J.java:126-135 | rebuilds the cache, makes the befores and `started`, and records the start time |
| Engine.FF2J.PostParse | ff2j/src/main/java/ro/fortsoft/ff2j/FF2J.java:165-173 | records the end line and end time, and makes the afters and `ended(success)` |
| Engine.FF2J.Parse | ff2j/src/main/java/ro/fortsoft/ff2j/FF2J.java:125-176 | end line, counters, calls and error are those of `Run.Parse`; the counters grow by at most one per processed line; the returned statistics are the instance's own |

## Left out

- Regular expressions: `Pattern.compile` and `Matcher.matches`/`group` are the functions `compiles` and `fullMatch` of a `Runtime` parameter.
- Reflection is replaced by explicit data. This covers annotation lookup, `getDeclaredField`, `newInstance`, `Field.set`, and the generic type argument read from a handler or converter class. An entity is a class tag plus a map of field values, and a handler or converter carries its class.
- The failures of `newInstance` and `Field.set` are left out. These are a class without a public no-argument constructor, and a converter result of the wrong type.
- `ConverterUtils.convert` and custom converters' `decode` are the possibly failing functions `convertByType` and `decodeWith`. The Float, Double and Date converters are not part of this model (floating point and date formatting).
- I/O: the `Reader` is an `Input` made of its lines, plus the exception a read past the last line throws, if any. The clock readings are the `startTime` and `endTime` parameters of `Parse`.
- The user callbacks are functions of a `Callbacks` parameter. `handleEntity` may throw, while `inProgress` and `handleNoEntity` may answer or throw.
- Engine.FF2J.Parse: exceptions thrown by `beforeFirstEntity`, `started`, `afterLastEntity` or `ended` are not modelled. They occur outside the `try` block and would escape `parse`.
- `Statistics.toString`, `EntityMetaData.toString`, the `String.format` rendering of the elapsed time and `e.printStackTrace()` produce text only, so they are left out.
- Stats.Statistics.IncrementCounter: the counters are unbounded integers, so 64-bit `long` overflow is not modelled. The same holds for `Stats.Statistics.ElapsedTimeParts` and line numbers.
- BooleanConversion.BooleanConverter.Decode: case folding covers ASCII letters only. Java's Unicode case mapping is not modelled.
- ConverterRegistries.ConverterRegistry.Unregister: it states the intended result, with every entry bound to the converter removed. The Java loop removes from the `Hashtable` while iterating its key set, which can throw `ConcurrentModificationException` when more keys follow; that is not modelled.
- The registry singleton `ConverterRegistry.getInstance()` is an explicit registry parameter of `RegisterConverter`.
- Mapping.Mapper.Insert and EntityMeta.EntityMetaData.AddFieldMetaData: a hash collection's iteration order after an insertion is left unconstrained. The model keeps only the multiset of elements, not Java's actual bucket order.
- Engine.FF2J.AddEntityHandler: it appends to the iteration order, as the default `LinkedHashSet` does. A set installed by `setEntityHandlers` is taken in the iteration order it is given; if that set is a plain `HashSet`, a later `addEntityHandler` may reorder it, which is not modelled.
- Engine.FF2J.SetEntityHandlers: it copies the handlers. The source keeps a reference to the caller's `Set`, so later changes made through either side show in both; that aliasing is not modelled.
- The callbacks are functions of the handler and the line number (and the entity or the line text). A handler whose behaviour depends on its own state across runs, such as one that throws on its n-th entity counted over several `parse` calls, is captured only within one run, where line numbers are distinct.
- Engine.FF2J.constructor: `entityHandlersCache` starts empty instead of `null`. Nothing reads it before `parse` rebuilds it.
- `getError`, `getMappedClasses`, `getEntityClass`, `getPattern` and the `Statistics` getters other than `getElapsedTime` return a field. They are plain field reads of the classes, with no contract of their own.
- A pattern constant that holds `null` is treated like any other constant that does not compile.
