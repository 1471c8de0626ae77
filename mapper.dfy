/**
 * ff2j's Mapper: registers entity classes after validating their annotations, and maps a
 * line to a new entity of the first registered class whose pattern matches the whole line.
 * The registered metadata live in a HashSet, so "first" is that set's iteration order.
 */
module Mapping {
  import opened Wrappers
  import opened JavaTypes
  import opened EntityMeta
  import BooleanConversion

  /** A @RegexField annotation: the capture group and the converter class. */
  datatype RegexField = RegexField(group: int, converter: ConverterRef)

  /**
   * A declared field of an entity class: constant is the value of a public static String field
   * (None for an instance field, and for a private one, whose value reflection cannot read
   * without setAccessible), annotation its @RegexField if it has one.
   */
  datatype FieldDecl = FieldDecl(field: Field, constant: Option<string>, annotation: Option<RegexField>)

  /**
   * An entity class as reflection shows it: patternName is the pattern() of its
   * @RegexEntity annotation (None when the class is not annotated).
   */
  datatype EntityClass = EntityClass(id: ClassId, patternName: Option<string>, declaredFields: seq<FieldDecl>)

  /** Why validate throws. */
  datatype ValidationError =
    | NotAnnotated              // no @RegexEntity on the class
    | MissingConstant(name: string)   // getDeclaredField finds no field of that name
    | NotAConstant(name: string)      // the field is not a static String, so reading it throws
    | InvalidRegex(regex: string)     // Pattern.compile throws

  /** A Java class never declares two fields of the same name. */
  ghost predicate DistinctNames(decls: seq<FieldDecl>) {
    forall i, j :: 0 <= i < j < |decls| ==> decls[i].field.name != decls[j].field.name
  }

  /** getDeclaredField(name). */
  function FindDeclaredField(decls: seq<FieldDecl>, name: string): (r: Option<FieldDecl>)
    ensures r.None? <==> forall d :: d in decls ==> d.field.name != name
    ensures r.Some? ==> r.value in decls && r.value.field.name == name
  {
    if decls == [] then None
    else if decls[0].field.name == name then Some(decls[0])
    else FindDeclaredField(decls[1..], name)
  }

  /** The first steps of validate: the regular expression the class declares, or why there is none. */
  function PatternOf(c: EntityClass, rt: Runtime): (r: Result<string, ValidationError>)
    ensures r.Success? ==> rt.compiles(r.value)
    ensures r.Success? ==>
      c.patternName.Some? &&
      exists d :: d in c.declaredFields && d.field.name == c.patternName.value && d.constant == Some(r.value)
    ensures c.patternName.None? ==> r == Failure(NotAnnotated)
    ensures c.patternName.Some? && (forall d :: d in c.declaredFields ==> d.field.name != c.patternName.value) ==>
      r == Failure(MissingConstant(c.patternName.value))
  {
    match c.patternName
    case None => Failure(NotAnnotated)
    case Some(name) =>
      match FindDeclaredField(c.declaredFields, name)
      case None => Failure(MissingConstant(name))
      case Some(decl) =>
        match decl.constant
        case None => Failure(NotAConstant(name))
        case Some(regex) => if rt.compiles(regex) then Success(regex) else Failure(InvalidRegex(regex))
  }

  /** Validation succeeds exactly when the class is annotated and names a static String constant that compiles. */
  lemma PatternOfSucceedsIff(c: EntityClass, rt: Runtime)
    requires DistinctNames(c.declaredFields)
    ensures PatternOf(c, rt).Success? <==>
      c.patternName.Some? &&
      exists d :: d in c.declaredFields && d.field.name == c.patternName.value &&
        d.constant.Some? && rt.compiles(d.constant.value)
  {
    if c.patternName.Some? && PatternOf(c, rt).Failure? {
      var name := c.patternName.value;
      forall d | d in c.declaredFields && d.field.name == name
        ensures !(d.constant.Some? && rt.compiles(d.constant.value))
      {
        var found := FindDeclaredField(c.declaredFields, name);
        var i :| 0 <= i < |c.declaredFields| && c.declaredFields[i] == found.value;
        var j :| 0 <= j < |c.declaredFields| && c.declaredFields[j] == d;
        assert i == j;
      }
    }
  }

  /** The field table validate builds: every annotated field, put in declaration order. */
  function AnnotatedFields(decls: seq<FieldDecl>): (r: map<Field, FieldMetaData>)
    ensures r.Keys == set d | d in decls && d.annotation.Some? :: d.field
    decreases |decls|
  {
    if decls == [] then map[]
    else
      var last := decls[|decls| - 1];
      var init := decls[..|decls| - 1];
      assert decls == init + [last];
      assert forall d :: d in decls <==> d in init || d == last;
      var r := AnnotatedFields(init);
      if last.annotation.Some? then
        r[last.field := FieldMetaData(last.annotation.value.group, last.annotation.value.converter)]
      else r
  }

  /** One more declaration adds its binding when it is annotated, and nothing otherwise. */
  lemma AnnotatedFieldsStep(decls: seq<FieldDecl>, i: int)
    requires 0 <= i < |decls|
    ensures AnnotatedFields(decls[..i + 1]) ==
      if decls[i].annotation.Some? then
        AnnotatedFields(decls[..i])[decls[i].field :=
          FieldMetaData(decls[i].annotation.value.group, decls[i].annotation.value.converter)]
      else AnnotatedFields(decls[..i])
  {
    assert decls[..i + 1][..i] == decls[..i];
  }

  /** Each annotated field is bound to the group and converter it declares; group indices are not checked. */
  lemma {:induction false} AnnotatedFieldBinding(decls: seq<FieldDecl>, i: int)
    requires DistinctNames(decls)
    requires 0 <= i < |decls| && decls[i].annotation.Some?
    ensures decls[i].field in AnnotatedFields(decls)
    ensures AnnotatedFields(decls)[decls[i].field] ==
      FieldMetaData(decls[i].annotation.value.group, decls[i].annotation.value.converter)
  {
    var init := decls[..|decls| - 1];
    assert decls == init + [decls[|decls| - 1]];
    if i < |decls| - 1 {
      assert DistinctNames(init);
      AnnotatedFieldBinding(init, i);
      assert decls[|decls| - 1].field != decls[i].field;
    }
  }

  /** The outcome of mapping one line. */
  datatype MapResult = NoMatch | Mapped(entity: Entity) | Failed(error: Exception)

  /** matcher.group(group) followed by setFieldValue: the value one field receives. */
  function FieldValue(f: Field, m: FieldMetaData, groups: seq<Option<string>>, rt: Runtime): (r: Result<Value, Exception>)
    ensures !(0 <= m.group < |groups|) ==> r == Failure(IndexOutOfBounds(m.group))
    ensures 0 <= m.group < |groups| && f.fieldType == StringType ==> r == Success(Str(groups[m.group]))
    ensures 0 <= m.group < |groups| && f.fieldType != StringType && m.converter == BooleanConverterClass ==>
      r == Success(Bool(BooleanConversion.TrueFalse.Decode(groups[m.group])))
    ensures 0 <= m.group < |groups| && f.fieldType != StringType && m.converter == DefaultConverter ==>
      r == rt.convertByType(groups[m.group], f.fieldType)
    ensures 0 <= m.group < |groups| && f.fieldType != StringType && m.converter.CustomConverter? ==>
      r == rt.decodeWith(m.converter.className, groups[m.group])
  {
    if !(0 <= m.group < |groups|) then Failure(IndexOutOfBounds(m.group))
    else
      var text := groups[m.group];
      if f.fieldType == StringType then Success(Str(text))
      else
        match m.converter
        case DefaultConverter => rt.convertByType(text, f.fieldType)
        case BooleanConverterClass => Success(Bool(BooleanConversion.NewBooleanConverter().Decode(text)))
        case CustomConverter(name) => rt.decodeWith(name, text)
  }

  /** Every field in the iteration order is bound in the table. */
  ghost predicate OrderInTable(d: Descriptor) {
    forall f :: f in d.order ==> f in d.fields
  }

  /** Sets the fields d.order[j..] in turn on an entity whose fields so far are acc; the first failure propagates. */
  function SetFields(d: Descriptor, groups: seq<Option<string>>, rt: Runtime, j: nat, acc: map<Field, Value>)
    : (r: Result<map<Field, Value>, Exception>)
    requires OrderInTable(d) && j <= |d.order|
    ensures r.Success? ==> acc.Keys <= r.value.Keys
    ensures r.Failure? ==> j < |d.order|
    decreases |d.order| - j
  {
    if j == |d.order| then Success(acc)
    else
      var f := d.order[j];
      match FieldValue(f, d.fields[f], groups, rt)
      case Failure(e) => Failure(e)
      case Success(v) => SetFields(d, groups, rt, j + 1, acc[f := v])
  }

  /** The result of populating a new entity of d's class from the groups of a full match. */
  function Populate(d: Descriptor, groups: seq<Option<string>>, rt: Runtime): (r: MapResult)
    requires OrderInTable(d)
    ensures !r.NoMatch?
    ensures r.Mapped? ==> r.entity.entityClass == d.entityClass
    ensures r.Failed? <==> exists f :: f in d.order && FieldValue(f, d.fields[f], groups, rt).Failure?
  {
    SetFieldsSpec(d, groups, rt, 0, map[]);
    assert d.order[0..] == d.order;
    match SetFields(d, groups, rt, 0, map[])
    case Success(values) => Mapped(Entity(d.entityClass, values))
    case Failure(e) => Failed(e)
  }

  lemma {:induction false} SetFieldsSpec(d: Descriptor, groups: seq<Option<string>>, rt: Runtime, j: nat, acc: map<Field, Value>)
    requires OrderInTable(d) && j <= |d.order|
    ensures SetFields(d, groups, rt, j, acc).Success? <==>
      forall f :: f in d.order[j..] ==> FieldValue(f, d.fields[f], groups, rt).Success?
    ensures SetFields(d, groups, rt, j, acc).Success? ==>
      var vs := SetFields(d, groups, rt, j, acc).value;
      && (forall f :: f in vs <==> f in acc || f in d.order[j..])
      && (forall f :: f in d.order[j..] ==> FieldValue(f, d.fields[f], groups, rt) == Success(vs[f]))
      && (forall f :: f in acc && f !in d.order[j..] ==> vs[f] == acc[f])
    ensures SetFields(d, groups, rt, j, acc).Failure? ==>
      exists f :: f in d.order[j..] && FieldValue(f, d.fields[f], groups, rt) == Failure(SetFields(d, groups, rt, j, acc).error)
    decreases |d.order| - j
  {
    if j < |d.order| {
      var f := d.order[j];
      assert d.order[j..] == [f] + d.order[j + 1..];
      match FieldValue(f, d.fields[f], groups, rt)
      case Failure(e) =>
      case Success(v) =>
        SetFieldsSpec(d, groups, rt, j + 1, acc[f := v]);
    }
  }

  /**
   * A full match yields an entity exactly when every mapped field converts: the entity has
   * the descriptor's class and each mapped field holds the value converted from its own
   * group; otherwise the exception of a failing field comes out instead of an entity.
   */
  lemma PopulateSpec(d: Descriptor, groups: seq<Option<string>>, rt: Runtime)
    requires EnumeratesKeys(d.order, d.fields)
    ensures OrderInTable(d)
    ensures Populate(d, groups, rt).Mapped? <==>
      forall f :: f in d.fields ==> FieldValue(f, d.fields[f], groups, rt).Success?
    ensures Populate(d, groups, rt).Mapped? ==>
      var e := Populate(d, groups, rt).entity;
      && e.entityClass == d.entityClass
      && e.values.Keys == d.fields.Keys
      && forall f :: f in d.fields ==> FieldValue(f, d.fields[f], groups, rt) == Success(e.values[f])
    ensures Populate(d, groups, rt).Failed? ==>
      exists f :: f in d.fields && FieldValue(f, d.fields[f], groups, rt) == Failure(Populate(d, groups, rt).error)
  {
    forall f ensures f in d.order <==> f in d.fields {
      EnumeratedKeysMembership(d.order, d.fields, f);
    }
    assert d.order[0..] == d.order;
    SetFieldsSpec(d, groups, rt, 0, map[]);
    assert d.order[0..] == d.order;
  }

  /** Every descriptor's iteration order lies within its table. */
  ghost predicate AllOrdered(ds: seq<Descriptor>) {
    forall k :: 0 <= k < |ds| ==> OrderInTable(ds[k])
  }

  /** mapEntity over a snapshot of the registered metadata, in the set's iteration order. */
  function MapLine(ds: seq<Descriptor>, line: string, rt: Runtime): (r: MapResult)
    requires AllOrdered(ds)
    ensures r.NoMatch? <==> forall k :: 0 <= k < |ds| ==> rt.fullMatch(ds[k].pattern, line).None?
    decreases |ds|
  {
    if ds == [] then NoMatch
    else
      match rt.fullMatch(ds[0].pattern, line)
      case Some(groups) => Populate(ds[0], groups, rt)
      case None =>
        var r := MapLine(ds[1..], line, rt);
        assert forall k :: 1 <= k < |ds| ==> ds[k] == ds[1..][k - 1];
        r
  }

  /**
   * The first descriptor whose pattern fully matches decides the outcome on its own:
   * descriptors after it are never tried.
   */
  lemma {:induction false} MapLineUsesFirstMatch(ds: seq<Descriptor>, line: string, rt: Runtime, k: int)
    requires AllOrdered(ds)
    requires 0 <= k < |ds| && rt.fullMatch(ds[k].pattern, line).Some?
    requires forall j :: 0 <= j < k ==> rt.fullMatch(ds[j].pattern, line).None?
    ensures MapLine(ds, line, rt) == Populate(ds[k], rt.fullMatch(ds[k].pattern, line).value, rt)
    ensures MapLine(ds, line, rt) == MapLine(ds[..k + 1], line, rt)
  {
    if k > 0 {
      assert ds[1..][k - 1] == ds[k];
      MapLineUsesFirstMatch(ds[1..], line, rt, k - 1);
      assert ds[1..][..k] == ds[..k + 1][1..];
    }
  }

  /** The descriptors of a sequence of metadata whose patterns are set. */
  function Snapshots(mds: seq<EntityMetaData>): (ds: seq<Descriptor>)
    requires forall m :: m in mds ==> m.pattern.Some?
    reads mds
    ensures |ds| == |mds|
    ensures forall k :: 0 <= k < |mds| ==> ds[k] == mds[k].Snapshot()
  {
    if mds == [] then [] else [mds[0].Snapshot()] + Snapshots(mds[1..])
  }

  class Mapper {
    /** The classes validated for mapping, in registration order. */
    var mappedClasses: seq<ClassId>
    /** The HashSet of registered metadata, in its current iteration order. */
    var entitiesMetaData: seq<EntityMetaData>

    /** The registered descriptors, in iteration order: a snapshot of entitiesMetaData. */
    ghost var descriptors: seq<Descriptor>

    ghost predicate Valid()
      reads this, entitiesMetaData
    {
      && (forall m :: m in entitiesMetaData ==> m.Valid() && m.pattern.Some?)
      && descriptors == Snapshots(entitiesMetaData)
      && AllOrdered(descriptors)
    }

    /** Every valid metadata's snapshot lists each of its fields in its table. */
    static lemma SnapshotsOrdered(mds: seq<EntityMetaData>)
      requires forall m :: m in mds ==> m.Valid() && m.pattern.Some?
      ensures AllOrdered(Snapshots(mds))
    {
      var ds := Snapshots(mds);
      forall k | 0 <= k < |ds| ensures OrderInTable(ds[k]) {
        var m := mds[k];
        assert m in mds;
        forall f | f in m.order ensures f in m.fields {
          EnumeratedKeysMembership(m.order, m.fields, f);
        }
      }
    }

    constructor ()
      ensures Valid()
      ensures mappedClasses == [] && entitiesMetaData == [] && descriptors == []
    {
      mappedClasses := [];
      entitiesMetaData := [];
      descriptors := [];
    }

    /** isMapped(entityClass). */
    function IsMapped(c: ClassId): (b: bool)
      reads this
      ensures b <==> exists i :: 0 <= i < |mappedClasses| && mappedClasses[i] == c
    {
      c in mappedClasses
    }

    /**
     * Validator.validate: throws (returns the error) and registers nothing when the class
     * is not annotated, its pattern constant is missing or unreadable, or the pattern does
     * not compile; otherwise adds one new metadata, as its last step.
     */
    method Validate(c: EntityClass, rt: Runtime) returns (error: Option<ValidationError>, ghost added: Option<EntityMetaData>)
      requires Valid()
      modifies this
      ensures Valid()
      ensures mappedClasses == old(mappedClasses)
      ensures PatternOf(c, rt).Failure? ==>
        error == Some(PatternOf(c, rt).error) && added.None? && entitiesMetaData == old(entitiesMetaData)
      ensures PatternOf(c, rt).Success? ==>
        && error.None? && added.Some? && fresh(added.value)
        && multiset(entitiesMetaData) == multiset(old(entitiesMetaData)) + multiset{added.value}
        && added.value.entityClass == c.id
        && added.value.pattern == Some(PatternOf(c, rt).value)
        && added.value.fields == AnnotatedFields(c.declaredFields)
    {
      added := None;
      if c.patternName.None? {
        return Some(NotAnnotated), added;
      }
      var name := c.patternName.value;
      var patternField := FindDeclaredField(c.declaredFields, name);
      if patternField.None? {
        return Some(MissingConstant(name)), added;
      }
      if patternField.value.constant.None? {
        return Some(NotAConstant(name)), added;
      }
      var regex := patternField.value.constant.value;
      if !rt.compiles(regex) {
        return Some(InvalidRegex(regex)), added;
      }
      var md := NewMetaData(c, regex);
      Insert(md);
      error, added := None, Some(md);
    }

    /** The metadata validate builds: the class, its compiled pattern and one binding per annotated field. */
    static method NewMetaData(c: EntityClass, regex: string) returns (md: EntityMetaData)
      ensures fresh(md) && md.Valid()
      ensures md.entityClass == c.id && md.pattern == Some(regex)
      ensures md.fields == AnnotatedFields(c.declaredFields)
    {
      md := new EntityMetaData(c.id);
      md.SetPattern(regex);
      var decls := c.declaredFields;
      var i := 0;
      while i < |decls|
        invariant 0 <= i <= |decls|
        invariant fresh(md) && md.Valid() && md.entityClass == c.id && md.pattern == Some(regex)
        invariant md.fields == AnnotatedFields(decls[..i])
        modifies md
      {
        AnnotatedFieldsStep(decls, i);
        AddDeclared(md, decls[i]);
        i := i + 1;
      }
      assert decls[..i] == decls;
    }

    /** One step of validate's field scan: an annotated field is bound to its group and converter. */
    static method AddDeclared(md: EntityMetaData, d: FieldDecl)
      requires md.Valid()
      modifies md
      ensures md.Valid() && md.pattern == old(md.pattern)
      ensures md.fields == if d.annotation.Some? then
        old(md.fields)[d.field := FieldMetaData(d.annotation.value.group, d.annotation.value.converter)]
        else old(md.fields)
      ensures d.annotation.None? || d.field in old(md.fields) ==> md.order == old(md.order)
    {
      var ann := d.annotation;
      if ann.Some? {
        md.AddFieldMetaData(d.field, FieldMetaData(ann.value.group, ann.value.converter));
      }
    }

    /** HashSet.add of a new element: it joins the set, and the iteration order may change throughout. */
    method Insert(md: EntityMetaData)
      requires Valid() && md.Valid() && md.pattern.Some?
      modifies this`entitiesMetaData, this`descriptors
      ensures Valid()
      ensures multiset(entitiesMetaData) == multiset(old(entitiesMetaData)) + multiset{md}
    {
      var reordered := Reordered(entitiesMetaData, md);
      ghost var ds := Snapshots(reordered);
      SnapshotsOrdered(reordered);
      entitiesMetaData, descriptors := reordered, ds;
    }

    /** The set's iteration order after md joins: some order of the old elements and md, all of them valid. */
    static method Reordered(mds: seq<EntityMetaData>, md: EntityMetaData) returns (reordered: seq<EntityMetaData>)
      requires forall m :: m in mds ==> m.Valid() && m.pattern.Some?
      requires md.Valid() && md.pattern.Some?
      ensures multiset(reordered) == multiset(mds) + multiset{md}
      ensures forall m :: m in reordered ==> m.Valid() && m.pattern.Some?
    {
      assert multiset(mds + [md]) == multiset(mds) + multiset{md};
      reordered :| multiset(reordered) == multiset(mds) + multiset{md};
      forall m | m in reordered ensures m.Valid() && m.pattern.Some? {
        assert m in multiset(reordered);
        assert m in mds || m == md;
      }
    }

    /** addMappedClass: the class is appended once validation succeeds; a validation failure is swallowed. */
    method AddMappedClass(c: EntityClass, rt: Runtime) returns (ghost added: Option<EntityMetaData>)
      requires Valid()
      modifies this
      ensures Valid()
      ensures PatternOf(c, rt).Failure? ==>
        mappedClasses == old(mappedClasses) && entitiesMetaData == old(entitiesMetaData) && added.None?
      ensures PatternOf(c, rt).Success? ==>
        && mappedClasses == old(mappedClasses) + [c.id]
        && added.Some? && fresh(added.value)
        && multiset(entitiesMetaData) == multiset(old(entitiesMetaData)) + multiset{added.value}
        && added.value.entityClass == c.id
        && added.value.pattern == Some(PatternOf(c, rt).value)
        && added.value.fields == AnnotatedFields(c.declaredFields)
    {
      var error;
      error, added := Validate(c, rt);
      if error.Some? {
        return;
      }
      mappedClasses := mappedClasses + [c.id];
    }

    /** The part of mapEntity after a full match: a new entity of md's class with each mapped field set in turn. */
    static method NewEntity(md: EntityMetaData, groups: seq<Option<string>>, rt: Runtime) returns (r: MapResult)
      requires md.pattern.Some? && OrderInTable(md.Snapshot())
      ensures r == Populate(md.Snapshot(), groups, rt)
    {
      ghost var d := md.Snapshot();
      var values := map[];
      var j := 0;
      while j < |md.order|
        invariant 0 <= j <= |md.order|
        invariant SetFields(d, groups, rt, 0, map[]) == SetFields(d, groups, rt, j, values)
      {
        var field := md.order[j];
        var value := FieldValue(field, md.fields[field], groups, rt);
        if value.Failure? {
          return Failed(value.error);
        }
        values := values[field := value.value];
        j := j + 1;
      }
      return Mapped(Entity(md.entityClass, values));
    }

    /** mapEntity(lineText): the outcome for the first registered pattern, in iteration order, that matches the whole line. */
    method MapEntity(lineText: string, rt: Runtime) returns (r: MapResult)
      requires Valid()
      ensures r == MapLine(descriptors, lineText, rt)
    {
      ghost var ds := descriptors;
      var i := 0;
      while i < |entitiesMetaData|
        invariant 0 <= i <= |entitiesMetaData|
        invariant MapLine(ds, lineText, rt) == MapLine(ds[i..], lineText, rt)
      {
        var md := entitiesMetaData[i];
        assert ds[i] == md.Snapshot() && ds[i..][0] == ds[i] && ds[i..][1..] == ds[i + 1..];
        var matcher := rt.fullMatch(md.pattern.value, lineText);
        if matcher.Some? {
          r := NewEntity(md, matcher.value, rt);
          return;
        }
        i := i + 1;
      }
      return NoMatch;
    }
  }
}
