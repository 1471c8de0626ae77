/**
 * log2j's ConverterRegistry: a table from a converter's target type to one converter
 * instance, seeded with the built-in converters. The target type, which the source reads
 * from the converter class's generic interface, is carried by the converter itself.
 */
module ConverterRegistries {
  import opened Wrappers
  import opened JavaTypes

  /** A converter instance: its identity and the type argument of its Converter<T> interface. */
  datatype Converter = Converter(id: nat, target: JavaType)

  /** The seven built-in converters, in the order the registry registers them. */
  const BuiltIns: seq<Converter> := [
    Converter(0, BooleanType), Converter(1, ByteType), Converter(2, ShortType),
    Converter(3, IntegerType), Converter(4, LongType), Converter(5, FloatType),
    Converter(6, DoubleType)]

  /** The target types of the built-in converters. */
  const BuiltInTargets: set<JavaType> :=
    {BooleanType, ByteType, ShortType, IntegerType, LongType, FloatType, DoubleType}

  /** Every entry is keyed by the target type of the converter it holds. */
  ghost predicate KeyedByTarget(table: map<JavaType, Converter>) {
    forall t :: t in table ==> table[t].target == t
  }

  /** The table after registering each converter of cs in turn. */
  function RegisterAll(table: map<JavaType, Converter>, cs: seq<Converter>): (r: map<JavaType, Converter>)
    ensures r.Keys == table.Keys + set c | c in cs :: c.target
    ensures forall t :: t in r ==> (t in table && r[t] == table[t]) || r[t] in cs
    ensures KeyedByTarget(table) ==> KeyedByTarget(r)
    decreases |cs|
  {
    if cs == [] then table
    else
      var last := cs[|cs| - 1];
      var r := RegisterAll(table, cs[..|cs| - 1]);
      assert forall c :: c in cs[..|cs| - 1] ==> c in cs;
      assert cs == cs[..|cs| - 1] + [last];
      assert (set c | c in cs :: c.target) == (set c | c in cs[..|cs| - 1] :: c.target) + {last.target};
      r[last.target := last]
  }

  lemma RegisterOneMore(table: map<JavaType, Converter>, cs: seq<Converter>, c: Converter)
    ensures RegisterAll(table, cs + [c]) == RegisterAll(table, cs)[c.target := c]
  {
    assert (cs + [c])[..|cs|] == cs;
  }

  /** A converter registered after which no other converter targets its type is the one the table keeps. */
  lemma {:induction false} RegisterAllLastWins(table: map<JavaType, Converter>, cs: seq<Converter>, i: int)
    requires 0 <= i < |cs| && forall j :: i < j < |cs| ==> cs[j].target != cs[i].target
    ensures cs[i].target in RegisterAll(table, cs) && RegisterAll(table, cs)[cs[i].target] == cs[i]
    decreases |cs|
  {
    var init, last := cs[..|cs| - 1], cs[|cs| - 1];
    assert init + [last] == cs;
    RegisterOneMore(table, init, last);
    if i < |cs| - 1 {
      assert init[i] == cs[i];
      RegisterAllLastWins(table, init, i);
    }
  }

  /** Registering converters of other types leaves the entry for t (or its absence) as it was. */
  lemma {:induction false} RegisterAllOthers(table: map<JavaType, Converter>, cs: seq<Converter>, t: JavaType)
    requires forall c :: c in cs ==> c.target != t
    ensures t in RegisterAll(table, cs) <==> t in table
    ensures t in table ==> RegisterAll(table, cs)[t] == table[t]
    decreases |cs|
  {
    if cs != [] {
      var init, last := cs[..|cs| - 1], cs[|cs| - 1];
      assert init + [last] == cs;
      assert forall c :: c in init ==> c in cs;
      RegisterOneMore(table, init, last);
      RegisterAllOthers(table, init, t);
    }
  }

  /** The table of a fresh registry holds exactly the seven built-in types, each bound to its built-in converter. */
  lemma {:induction false} FreshRegistryTable()
    ensures RegisterAll(map[], BuiltIns).Keys == BuiltInTargets
    ensures forall t :: t in RegisterAll(map[], BuiltIns) ==> RegisterAll(map[], BuiltIns)[t] in BuiltIns
    ensures KeyedByTarget(RegisterAll(map[], BuiltIns))
  {
    var ts := set c | c in BuiltIns :: c.target;
    assert ts == BuiltInTargets by {
      assert forall c :: c in BuiltIns ==> c.target in BuiltInTargets;
      assert BuiltIns[0] in BuiltIns && BuiltIns[1] in BuiltIns && BuiltIns[2] in BuiltIns;
      assert BuiltIns[3] in BuiltIns && BuiltIns[4] in BuiltIns && BuiltIns[5] in BuiltIns;
      assert BuiltIns[6] in BuiltIns;
    }
  }

  /** The table after removing every entry bound to c. */
  function Unregistered(table: map<JavaType, Converter>, c: Converter): (r: map<JavaType, Converter>)
    ensures forall t :: t in r ==> r[t] != c
    ensures forall t :: t in table && table[t] != c ==> t in r && r[t] == table[t]
    ensures r.Keys <= table.Keys
    ensures forall t :: t in r ==> t in table && r[t] == table[t]
  {
    map t | t in table && table[t] != c :: table[t]
  }

  class ConverterRegistry {
    /** The Hashtable converters: target type to converter. */
    var converters: map<JavaType, Converter>

    ghost predicate Valid()
      reads this
    {
      KeyedByTarget(converters)
    }

    /** A new registry, seeded with the built-in converters. */
    constructor ()
      ensures Valid()
      ensures converters == RegisterAll(map[], BuiltIns)
    {
      converters := map[];
      new;
      RegisterDefaultConverters();
    }

    /** Registers the built-in converters one after the other. */
    method RegisterDefaultConverters()
      requires Valid()
      modifies this
      ensures Valid()
      ensures converters == RegisterAll(old(converters), BuiltIns)
    {
      ghost var start, done := converters, [];
      Register(Some(BuiltIns[0]));
      RegisterOneMore(start, done, BuiltIns[0]);
      done := done + [BuiltIns[0]];
      Register(Some(BuiltIns[1]));
      RegisterOneMore(start, done, BuiltIns[1]);
      done := done + [BuiltIns[1]];
      Register(Some(BuiltIns[2]));
      RegisterOneMore(start, done, BuiltIns[2]);
      done := done + [BuiltIns[2]];
      Register(Some(BuiltIns[3]));
      RegisterOneMore(start, done, BuiltIns[3]);
      done := done + [BuiltIns[3]];
      Register(Some(BuiltIns[4]));
      RegisterOneMore(start, done, BuiltIns[4]);
      done := done + [BuiltIns[4]];
      Register(Some(BuiltIns[5]));
      RegisterOneMore(start, done, BuiltIns[5]);
      done := done + [BuiltIns[5]];
      Register(Some(BuiltIns[6]));
      RegisterOneMore(start, done, BuiltIns[6]);
      done := done + [BuiltIns[6]];
      assert done == BuiltIns;
    }

    /** register(converter): a null converter changes nothing; otherwise it replaces whatever its target type held. */
    method Register(converter: Option<Converter>)
      requires Valid()
      modifies this
      ensures Valid()
      ensures converter.None? ==> converters == old(converters)
      ensures converter.Some? ==> converters == old(converters)[converter.value.target := converter.value]
    {
      if converter.Some? {
        converters := converters[converter.value.target := converter.value];
      }
    }

    /** lookup(target): the converter registered for target, or null. */
    function Lookup(target: JavaType): (r: Option<Converter>)
      requires Valid()
      reads this
      ensures r.None? <==> target !in converters
      ensures r.Some? ==> r.value.target == target && converters[target] == r.value
    {
      if target in converters then Some(converters[target]) else None
    }

    /** unregister(converter): drops every entry bound to converter; a null converter changes nothing. */
    method Unregister(converter: Option<Converter>)
      requires Valid()
      modifies this
      ensures Valid()
      ensures converter.None? ==> converters == old(converters)
      ensures converter.Some? ==> converters == Unregistered(old(converters), converter.value)
    {
      if converter.Some? {
        var c := converter.value;
        var keys := converters.Keys;
        while keys != {}
          invariant keys <= old(converters).Keys
          invariant converters.Keys <= old(converters).Keys
          invariant forall t :: t in converters ==> converters[t] == old(converters)[t]
          invariant forall t :: t in keys ==> t in converters
          invariant forall t :: t in old(converters) && t !in keys ==> (t in converters <==> old(converters)[t] != c)
          decreases keys
        {
          var t :| t in keys;
          if converters[t] == c {
            converters := converters - {t};
          }
          keys := keys - {t};
        }
      }
    }
  }
}
