/**
 * log2j's EntityMetaData: for one entity class, its compiled pattern and the binding of
 * each mapped field to a capture group and a converter. The field table is a HashMap;
 * the order in which its key set is iterated is kept beside it, since the mapper
 * populates fields in that order.
 */
module EntityMeta {
  import opened Wrappers
  import opened JavaTypes

  /** FieldMetaData: the capture group and converter class of one mapped field. */
  datatype FieldMetaData = FieldMetaData(group: int, converter: ConverterRef)

  /**
   * A value snapshot of a registered EntityMetaData: entity class, pattern text
   * (a compiled Pattern, identified by its source), field table and key-set iteration order.
   */
  datatype Descriptor = Descriptor(
    entityClass: ClassId, pattern: string, fields: map<Field, FieldMetaData>, order: seq<Field>)

  /** The key-set iteration order lists every key of the table exactly once. */
  ghost predicate EnumeratesKeys(order: seq<Field>, fields: map<Field, FieldMetaData>) {
    multiset(order) == multiset(fields.Keys)
  }

  lemma EnumeratedKeysMembership(order: seq<Field>, fields: map<Field, FieldMetaData>, f: Field)
    requires EnumeratesKeys(order, fields)
    ensures f in order <==> f in fields
  {
    assert f in order <==> f in multiset(order);
    assert f in fields.Keys <==> f in multiset(fields.Keys);
  }

  /** Putting a new key adds exactly that key to the key set. */
  lemma KeysGrow(fields: map<Field, FieldMetaData>, field: Field, metaData: FieldMetaData)
    requires field !in fields
    ensures multiset(fields[field := metaData].Keys) == multiset(fields.Keys) + multiset{field}
  {
    assert fields[field := metaData].Keys == fields.Keys + {field};
  }

  /** The key set's iteration order after a new key joins: some order of the old keys and the new one. */
  method Reordered(order: seq<Field>, field: Field) returns (reordered: seq<Field>)
    ensures multiset(reordered) == multiset(order) + multiset{field}
  {
    assert multiset(order + [field]) == multiset(order) + multiset{field};
    reordered :| multiset(reordered) == multiset(order) + multiset{field};
  }

  class EntityMetaData {
    const entityClass: ClassId
    var fields: map<Field, FieldMetaData>
    /** The iteration order of fields' key set. */
    var order: seq<Field>
    /** The compiled pattern, null until SetPattern. */
    var pattern: Option<string>

    ghost predicate Valid()
      reads this
    {
      EnumeratesKeys(order, fields)
    }

    /** A new descriptor records its entity class, maps no field and has no pattern yet. */
    constructor (entityClass: ClassId)
      ensures Valid()
      ensures this.entityClass == entityClass && fields == map[] && order == [] && pattern == None
    {
      this.entityClass := entityClass;
      fields := map[];
      order := [];
      pattern := None;
    }

    /** getMappedFields(): the key set of the field table, as its iteration presents it. */
    function GetMappedFields(): (s: set<Field>)
      requires Valid()
      reads this
      ensures s == fields.Keys
    {
      EnumeratedKeysSet(order, fields);
      set f | f in order
    }

    /** addFieldMetaData(field, metaData): HashMap.put; a new key may reorder the key set. */
    method AddFieldMetaData(field: Field, metaData: FieldMetaData)
      requires Valid()
      modifies this
      ensures Valid()
      ensures fields == old(fields)[field := metaData]
      ensures field in old(fields) ==> order == old(order)
      ensures pattern == old(pattern)
    {
      if field !in fields {
        KeysGrow(fields, field, metaData);
        order := Reordered(order, field);
      }
      fields := fields[field := metaData];
    }

    /** getFieldMetaData(field): the binding of a mapped field, or null for a field never added. */
    function GetFieldMetaData(field: Field): (r: Option<FieldMetaData>)
      requires Valid()
      reads this
      ensures r.None? <==> field !in GetMappedFields()
      ensures r.Some? ==> r.value == fields[field]
    {
      if field in fields then Some(fields[field]) else None
    }

    /** setPattern(pattern). */
    method SetPattern(p: string)
      modifies this
      ensures pattern == Some(p)
      ensures fields == old(fields) && order == old(order)
    {
      pattern := Some(p);
    }

    /** The value this metadata stands for once its pattern is set. */
    function Snapshot(): (d: Descriptor)
      requires pattern.Some?
      reads this
    {
      Descriptor(entityClass, pattern.value, fields, order)
    }
  }

  lemma EnumeratedKeysSet(order: seq<Field>, fields: map<Field, FieldMetaData>)
    requires EnumeratesKeys(order, fields)
    ensures (set f | f in order) == fields.Keys
  {
    forall f ensures f in order <==> f in fields {
      EnumeratedKeysMembership(order, fields, f);
    }
  }
}
