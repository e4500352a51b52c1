/** The NHibernate entity-mapping builder, a Fluent class map that providers
    configure. Each directive adds one part to the class map and applies the
    options that kind of part supports; the rest are ignored. A length that
    does not fit a 32-bit int stops the configuration with an overflow, the
    part already holding what was applied before the conversion. */
module NHibernateMapping {
  import opened Common
  import opened MappingOptions

  const Int32Min: int := -0x8000_0000
  const Int32Max: int := 0x7fff_ffff

  /** `checked((int)x)` succeeds. */
  predicate InInt32(x: int) {
    Int32Min <= x <= Int32Max
  }

  /** `checked((int)…)` threw on this length. */
  datatype OverflowException = OverflowException(length: int)

  /** The cascade style of a collection part. */
  datatype Cascade = AllDeleteOrphan | CascadeNone

  /** A part of the class map, with the settings applied to it. `nullable`
      is `Some(true)` after `Nullable()`, `Some(false)` after `Not.Nullable()`;
      `jsonSerialized` stands for the JSON-serialised custom type. */
  datatype Part =
    | IdPart(member: string, column: Option<string>, length: Option<int>,
             customSqlType: Option<string>, jsonSerialized: bool)
    | PropertyPart(member: string, column: Option<string>, length: Option<int>, unique: bool,
                   nullable: Option<bool>, index: Option<string>, customSqlType: Option<string>,
                   jsonSerialized: bool)
    | ManyToOnePart(member: string, column: Option<string>, nullable: Option<bool>)
    | OneToManyPart(member: string, cascade: Option<Cascade>)
    | ManyToManyPart(member: string, cascade: Option<Cascade>)

  /** The part one directive added, and the overflow it raised, if any. */
  datatype Translation = Translation(part: Part, error: Option<OverflowException>)

  /** A string option that is applied only when non-empty. */
  function Given(s: Option<string>): (r: Option<string>)
    ensures r.Some? <==> NonEmpty(s)
    ensures r.Some? ==> r == s
  {
    if NonEmpty(s) then s else None
  }

  /** The cascade a `CascadeDelete` option selects. */
  function CascadeFor(cascadeDelete: Option<bool>): (r: Option<Cascade>)
    ensures r == Some(AllDeleteOrphan) <==> cascadeDelete == Some(true)
    ensures r == Some(CascadeNone) <==> cascadeDelete == Some(false)
    ensures r.None? <==> cascadeDelete.None?
  {
    match cascadeDelete
    case None => None
    case Some(b) => if b then Some(AllDeleteOrphan) else Some(CascadeNone)
  }

  /** `Id`: Column, Length, CustomSqlType and WithSerialization apply. */
  function TranslateId(member: string, o: EntityMappingOptions): (r: Translation)
    ensures r.error.Some? <==> o.length.Some? && !InInt32(o.length.value)
    ensures r.error.Some? ==> r.error.value.length == o.length.value
    ensures r.part.IdPart? && r.part.member == member && r.part.column == Given(o.column)
    ensures r.error.None? ==>
      r.part.length == o.length && r.part.customSqlType == Given(o.customSqlType) &&
      (r.part.jsonSerialized <==> o.withSerialization == Some(true))
    ensures r.error.Some? ==> r.part.length.None? && r.part.customSqlType.None? && !r.part.jsonSerialized
  {
    if o.length.Some? && !InInt32(o.length.value) then
      Translation(IdPart(member, Given(o.column), None, None, false), Some(OverflowException(o.length.value)))
    else
      Translation(IdPart(member, Given(o.column), o.length, Given(o.customSqlType), o.withSerialization == Some(true)), None)
  }

  /** `Map`: every option but CascadeDelete applies; Unique only when true. */
  function TranslateMap(member: string, o: EntityMappingOptions): (r: Translation)
    ensures r.error.Some? <==> o.length.Some? && !InInt32(o.length.value)
    ensures r.error.Some? ==> r.error.value.length == o.length.value
    ensures r.part.PropertyPart? && r.part.member == member && r.part.column == Given(o.column)
    ensures r.error.None? ==>
      r.part.length == o.length && (r.part.unique <==> o.unique == Some(true)) &&
      r.part.nullable == o.nullable && r.part.index == Given(o.index) &&
      r.part.customSqlType == Given(o.customSqlType) &&
      (r.part.jsonSerialized <==> o.withSerialization == Some(true))
    ensures r.error.Some? ==>
      r.part == PropertyPart(member, Given(o.column), None, false, None, None, None, false)
  {
    if o.length.Some? && !InInt32(o.length.value) then
      Translation(PropertyPart(member, Given(o.column), None, false, None, None, None, false),
                  Some(OverflowException(o.length.value)))
    else
      Translation(PropertyPart(member, Given(o.column), o.length, o.unique == Some(true), o.nullable,
                               Given(o.index), Given(o.customSqlType), o.withSerialization == Some(true)), None)
  }

  /** The part a directive adds, null options read as defaults. */
  function Translate(d: Directive): (r: Translation)
    ensures r.part.member == d.member
    ensures r.error.Some? ==> (d.Id? || d.Map?)
    ensures d.References? ==>
      r.part == ManyToOnePart(d.member, Given(OrDefault(d.options).column), OrDefault(d.options).nullable)
    ensures d.HasMany? ==> r.part == OneToManyPart(d.member, CascadeFor(OrDefault(d.options).cascadeDelete))
    ensures d.HasManyToMany? ==> r.part == ManyToManyPart(d.member, CascadeFor(OrDefault(d.options).cascadeDelete))
  {
    var o := OrDefault(d.options);
    match d
    case Id(member, _) => TranslateId(member, o)
    case Map(member, _) => TranslateMap(member, o)
    case References(member, _) => Translation(ManyToOnePart(member, Given(o.column), o.nullable), None)
    case HasMany(member, _) => Translation(OneToManyPart(member, CascadeFor(o.cascadeDelete)), None)
    case HasManyToMany(member, _) => Translation(ManyToManyPart(member, CascadeFor(o.cascadeDelete)), None)
  }

  /** Options each directive does not support change nothing in its part. */
  lemma IgnoredOptions(d: Directive, o: EntityMappingOptions, other: EntityMappingOptions)
    ensures d.Id? && other == o.(unique := other.unique, nullable := other.nullable,
                                 index := other.index, cascadeDelete := other.cascadeDelete) ==>
      TranslateId(d.member, other) == TranslateId(d.member, o)
    ensures d.Map? && other == o.(cascadeDelete := other.cascadeDelete) ==>
      TranslateMap(d.member, other) == TranslateMap(d.member, o)
    ensures d.References? && other.column == o.column && other.nullable == o.nullable ==>
      Translate(References(d.member, Some(other))) == Translate(References(d.member, Some(o)))
    ensures d.HasMany? && other.cascadeDelete == o.cascadeDelete ==>
      Translate(HasMany(d.member, Some(other))) == Translate(HasMany(d.member, Some(o)))
    ensures d.HasManyToMany? && other.cascadeDelete == o.cascadeDelete ==>
      Translate(HasManyToMany(d.member, Some(other))) == Translate(HasManyToMany(d.member, Some(o)))
  {
  }

  /** A null options object is the same as one with nothing set. */
  lemma NullOptionsAreDefault(d: Directive)
    requires d.options.None?
    ensures Translate(d) == Translate(d.(options := Some(DefaultOptions)))
  {
  }

  /** The class map's parts and the overflow that ended its configuration, if any. */
  datatype ClassMapState = ClassMapState(parts: seq<Part>, error: Option<OverflowException>)

  const Unconfigured := ClassMapState([], None)

  /** The state after one more directive; after an overflow nothing runs. */
  function Step(s: ClassMapState, d: Directive): ClassMapState {
    if s.error.Some? then s
    else
      var t := Translate(d);
      ClassMapState(s.parts + [t.part], t.error)
  }

  function Run(s: ClassMapState, ds: seq<Directive>): ClassMapState {
    if |ds| == 0 then s else Step(Run(s, ds[..|ds| - 1]), ds[|ds| - 1])
  }

  lemma {:induction false} RunAppend(s: ClassMapState, a: seq<Directive>, b: seq<Directive>)
    ensures Run(s, a + b) == Run(Run(s, a), b)
    decreases |b|
  {
    if |b| == 0 {
      assert a + b == a;
    } else {
      assert (a + b)[..|a + b| - 1] == a + b[..|b| - 1];
      assert (a + b)[|a + b| - 1] == b[|b| - 1];
      RunAppend(s, a, b[..|b| - 1]);
    }
  }

  /** Once a directive has overflowed, the remaining ones have no effect. */
  lemma {:induction false} RunAfterOverflow(s: ClassMapState, ds: seq<Directive>)
    requires s.error.Some?
    ensures Run(s, ds) == s
    decreases |ds|
  {
    if |ds| > 0 {
      RunAfterOverflow(s, ds[..|ds| - 1]);
    }
  }

  lemma {:induction false} FlattenAppend(a: seq<seq<Directive>>, b: seq<seq<Directive>>)
    ensures Flatten(a + b) == Flatten(a) + Flatten(b)
    decreases |b|
  {
    if |b| == 0 {
      assert a + b == a;
    } else {
      var front, last := b[..|b| - 1], b[|b| - 1];
      assert a + b == (a + front) + [last];
      FlattenAppend(a, front);
      ConcatAssoc(Flatten(a), Flatten(front), last);
    }
  }

  lemma ConcatAssoc<T>(x: seq<T>, y: seq<T>, z: seq<T>)
    ensures x + y + z == x + (y + z)
  {
  }

  /** The configured class map: part i comes from directive i; the
      directives before the last part all translated cleanly, and the
      configuration fails exactly when the last part's directive overflowed,
      the directives after it never running. */
  lemma RunParts(ds: seq<Directive>)
    ensures var r := Run(Unconfigured, ds);
      |r.parts| <= |ds| &&
      (forall i | 0 <= i < |r.parts| :: r.parts[i] == Translate(ds[i]).part) &&
      (forall i | 0 <= i < |r.parts| - 1 :: Translate(ds[i]).error.None?) &&
      (r.error.None? ==> |r.parts| == |ds| && forall i | 0 <= i < |ds| :: Translate(ds[i]).error.None?) &&
      (r.error.Some? ==> |r.parts| > 0 && r.error == Translate(ds[|r.parts| - 1]).error)
  {
    RunPartsFrom(ds);
    RunErrors(ds);
  }

  /** Part i of the class map comes from directive i. */
  lemma {:induction false} RunPartsFrom(ds: seq<Directive>)
    ensures var r := Run(Unconfigured, ds);
      |r.parts| <= |ds| && (r.error.None? ==> |r.parts| == |ds|) &&
      forall i | 0 <= i < |r.parts| :: r.parts[i] == Translate(ds[i]).part
    decreases |ds|
  {
    if |ds| > 0 {
      var last := |ds| - 1;
      var front := ds[..last];
      RunPartsFrom(front);
      var prev := Run(Unconfigured, front);
      assert forall i | 0 <= i < |prev.parts| :: front[i] == ds[i];
      if prev.error.None? {
        var t := Translate(ds[last]);
        var r := Run(Unconfigured, ds);
        assert r.parts == prev.parts + [t.part];
        assert forall i | 0 <= i < |prev.parts| :: r.parts[i] == prev.parts[i];
      }
    }
  }

  /** Every directive before the last part translated cleanly, and the
      configuration fails exactly when the last part's directive overflowed. */
  lemma {:induction false} RunErrors(ds: seq<Directive>)
    ensures var r := Run(Unconfigured, ds);
      |r.parts| <= |ds| &&
      (forall i | 0 <= i < |r.parts| - 1 :: Translate(ds[i]).error.None?) &&
      (r.error.None? ==> |r.parts| == |ds| && forall i | 0 <= i < |ds| :: Translate(ds[i]).error.None?) &&
      (r.error.Some? ==> 0 < |r.parts| && r.error == Translate(ds[|r.parts| - 1]).error)
    decreases |ds|
  {
    if |ds| > 0 {
      var last := |ds| - 1;
      var front := ds[..last];
      RunErrors(front);
      var prev := Run(Unconfigured, front);
      assert forall i | 0 <= i < last :: front[i] == ds[i];
      if prev.error.None? {
        var t := Translate(ds[last]);
        var r := Run(Unconfigured, ds);
        assert r == ClassMapState(prev.parts + [t.part], t.error);
      }
    }
  }

  /** `if (x == true) set(true) else if (x == false) set(false)` leaves the
      setting equal to the option. */
  lemma SettingFollowsOption(setting: Option<bool>, option: Option<bool>)
    requires option == Some(true) ==> setting == Some(true)
    requires option == Some(false) ==> setting == Some(false)
    requires option.None? ==> setting.None?
    ensures setting == option
  {
    if option.Some? {
      var v := option.value;
      assert option == Some(v);
      assert v || !v;
    }
  }

  class NHibernateEntityMappingBuilder {
    /** The parts of the class map, in the order the directives created them. */
    var parts: seq<Part>
    /** The overflow the construction threw, if any. */
    var error: Option<OverflowException>

    function State(): ClassMapState
      reads this
    {
      ClassMapState(parts, error)
    }

    /** Runs every provider's `Configure`, in resolution order, until one throws. */
    constructor (providers: seq<seq<Directive>>)
      ensures State() == Run(Unconfigured, Flatten(providers))
    {
      parts := [];
      error := None;
      new;
      var i := 0;
      while i < |providers| && error.None?
        invariant 0 <= i <= |providers|
        invariant State() == Run(Unconfigured, Flatten(providers[..i]))
      {
        var directives := providers[i];
        var before := State();
        var j := 0;
        while j < |directives| && error.None?
          invariant 0 <= j <= |directives|
          invariant State() == Run(before, directives[..j])
        {
          var r := Apply(directives[j]);
          if r.Fail? {
            error := Some(r.error);
          }
          assert directives[..j + 1][..j] == directives[..j];
          j := j + 1;
        }
        if j < |directives| {
          assert directives == directives[..j] + directives[j..];
          RunAppend(before, directives[..j], directives[j..]);
          RunAfterOverflow(State(), directives[j..]);
        }
        assert directives[..j] == directives || State() == Run(before, directives);
        assert State() == Run(before, directives);
        RunAppend(Unconfigured, Flatten(providers[..i]), directives);
        assert providers[..i + 1][..i] == providers[..i];
        i := i + 1;
      }
      if i < |providers| {
        assert providers == providers[..i] + providers[i..];
        FlattenAppend(providers[..i], providers[i..]);
        RunAppend(Unconfigured, Flatten(providers[..i]), Flatten(providers[i..]));
        RunAfterOverflow(State(), Flatten(providers[i..]));
      } else {
        assert providers[..i] == providers;
      }
    }

    /** One directive of a provider's `Configure`; an overflow is returned. */
    method Apply(d: Directive) returns (r: Outcome<OverflowException>)
      modifies this
      ensures parts == old(parts) + [Translate(d).part]
      ensures r.Fail? <==> Translate(d).error.Some?
      ensures r.Fail? ==> r.error == Translate(d).error.value
      ensures error == old(error)
    {
      match d
      case Id(member, options) => r := Id(member, options);
      case Map(member, options) => r := Map(member, options);
      case References(member, options) => References(member, options); r := Pass;
      case HasMany(member, options) => HasMany(member, options); r := Pass;
      case HasManyToMany(member, options) => HasManyToMany(member, options); r := Pass;
    }

    method Id(member: string, options: Option<EntityMappingOptions>) returns (r: Outcome<OverflowException>)
      modifies this
      ensures parts == old(parts) + [TranslateId(member, OrDefault(options)).part]
      ensures r.Fail? <==> TranslateId(member, OrDefault(options)).error.Some?
      ensures r.Fail? ==> r.error == TranslateId(member, OrDefault(options)).error.value
      ensures error == old(error)
    {
      var o := OrDefault(options);
      var column: Option<string> := None;
      var length: Option<int> := None;
      var customSqlType: Option<string> := None;
      var jsonSerialized := false;
      if NonEmpty(o.column) {
        column := o.column;
      }
      if o.length.Some? {
        if !InInt32(o.length.value) {
          parts := parts + [IdPart(member, column, length, customSqlType, jsonSerialized)];
          return Fail(OverflowException(o.length.value));
        }
        length := o.length;
      }
      if NonEmpty(o.customSqlType) {
        customSqlType := o.customSqlType;
      }
      if o.withSerialization == Some(true) {
        jsonSerialized := true;
      }
      parts := parts + [IdPart(member, column, length, customSqlType, jsonSerialized)];
      r := Pass;
    }

    method Map(member: string, options: Option<EntityMappingOptions>) returns (r: Outcome<OverflowException>)
      modifies this
      ensures parts == old(parts) + [TranslateMap(member, OrDefault(options)).part]
      ensures r.Fail? <==> TranslateMap(member, OrDefault(options)).error.Some?
      ensures r.Fail? ==> r.error == TranslateMap(member, OrDefault(options)).error.value
      ensures error == old(error)
    {
      var o := OrDefault(options);
      var column: Option<string> := None;
      var length: Option<int> := None;
      var unique := false;
      var nullable: Option<bool> := None;
      var index: Option<string> := None;
      var customSqlType: Option<string> := None;
      var jsonSerialized := false;
      if NonEmpty(o.column) {
        column := o.column;
      }
      if o.length.Some? {
        if !InInt32(o.length.value) {
          parts := parts + [PropertyPart(member, column, length, unique, nullable, index, customSqlType, jsonSerialized)];
          return Fail(OverflowException(o.length.value));
        }
        length := o.length;
      }
      if o.unique == Some(true) {
        unique := true;
      }
      if o.nullable == Some(true) {
        nullable := Some(true);
      } else if o.nullable == Some(false) {
        nullable := Some(false);
      }
      if NonEmpty(o.index) {
        index := o.index;
      }
      if NonEmpty(o.customSqlType) {
        customSqlType := o.customSqlType;
      }
      if o.withSerialization == Some(true) {
        jsonSerialized := true;
      }
      SettingFollowsOption(nullable, o.nullable);
      parts := parts + [PropertyPart(member, column, length, unique, nullable, index, customSqlType, jsonSerialized)];
      r := Pass;
    }

    method References(member: string, options: Option<EntityMappingOptions>)
      modifies this
      ensures parts == old(parts) + [Translate(Directive.References(member, options)).part]
      ensures error == old(error)
    {
      var o := OrDefault(options);
      var column: Option<string> := None;
      var nullable: Option<bool> := None;
      if NonEmpty(o.column) {
        column := o.column;
      }
      if o.nullable == Some(true) {
        nullable := Some(true);
      } else if o.nullable == Some(false) {
        nullable := Some(false);
      }
      SettingFollowsOption(nullable, o.nullable);
      parts := parts + [ManyToOnePart(member, column, nullable)];
    }

    method HasMany(member: string, options: Option<EntityMappingOptions>)
      modifies this
      ensures parts == old(parts) + [Translate(Directive.HasMany(member, options)).part]
      ensures error == old(error)
    {
      var o := OrDefault(options);
      var cascade: Option<Cascade> := None;
      if o.cascadeDelete == Some(true) {
        cascade := Some(AllDeleteOrphan);
      } else if o.cascadeDelete == Some(false) {
        cascade := Some(CascadeNone);
      }
      parts := parts + [OneToManyPart(member, cascade)];
    }

    method HasManyToMany(member: string, options: Option<EntityMappingOptions>)
      modifies this
      ensures parts == old(parts) + [Translate(Directive.HasManyToMany(member, options)).part]
      ensures error == old(error)
    {
      var o := OrDefault(options);
      var cascade: Option<Cascade> := None;
      if o.cascadeDelete == Some(true) {
        cascade := Some(AllDeleteOrphan);
      } else if o.cascadeDelete == Some(false) {
        cascade := Some(CascadeNone);
      }
      parts := parts + [ManyToManyPart(member, cascade)];
    }
  }
}
