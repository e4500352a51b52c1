/** The MongoDB entity-mapping builder. Providers describe an entity; the
    builder records one class-map action per `Id`/`Map` call and one index
    action per indexed member, registers the class map once per entity
    type, converts the collection name through the initialize handlers and
    then creates the queued indexes on that collection. Relationships are
    not supported by this backend: they are only reported in the error log. */
module MongoMapping {
  import opened Common
  import opened MappingOptions

  /** A recorded class-map action: `MapIdMember` or `MapMember`, with the
      element name and the `SetIsRequired` argument it applies, if any. */
  datatype MemberMap =
    | IdMemberMap(member: string, elementName: Option<string>)
    | OrdinaryMemberMap(member: string, elementName: Option<string>, isRequired: Option<bool>)

  /** `CreateIndexOptions` as the builder fills it. */
  datatype IndexOptions = IndexOptions(background: bool, unique: Option<bool>, sparse: Option<bool>)

  /** A queued collection action: an ascending index on one member. */
  datatype CreateIndex = CreateIndex(member: string, options: IndexOptions)

  /** C#'s `!` on a `bool?`: null stays null. */
  function LiftedNot(b: Option<bool>): (r: Option<bool>)
    ensures r.Some? <==> b.Some?
    ensures b.Some? ==> r.value == !b.value
  {
    match b
    case None => None
    case Some(v) => Some(!v)
  }

  /** The element name a member is stored under: the Column option when it
      is non-empty, otherwise the member's own name (no `SetElementName`). */
  function ElementName(o: EntityMappingOptions): (r: Option<string>)
    ensures r.Some? <==> NonEmpty(o.column)
    ensures r.Some? ==> r == o.column
  {
    if NonEmpty(o.column) then o.column else None
  }

  /** The index a `Map` call queues for `member`, if any. */
  function IndexFor(member: string, o: EntityMappingOptions): (r: Option<CreateIndex>)
    ensures r.Some? <==> (o.unique == Some(true) || NonEmpty(o.index))
    ensures r.Some? ==> r.value.member == member && r.value.options.background
    ensures r.Some? ==> r.value.options.unique == o.unique
    ensures r.Some? ==> r.value.options.sparse == LiftedNot(o.unique)
  {
    if o.unique == Some(true) || NonEmpty(o.index) then
      Some(CreateIndex(member, IndexOptions(true, o.unique, LiftedNot(o.unique))))
    else None
  }

  /** A unique index is never sparse; an index asked for only by name is
      sparse exactly when Unique was set to false, and leaves both unset when
      Unique was not given. */
  lemma IndexSparseness(member: string, o: EntityMappingOptions)
    ensures o.unique == Some(true) ==>
      IndexFor(member, o) == Some(CreateIndex(member, IndexOptions(true, Some(true), Some(false))))
    ensures o.unique == Some(false) && NonEmpty(o.index) ==>
      IndexFor(member, o) == Some(CreateIndex(member, IndexOptions(true, Some(false), Some(true))))
    ensures o.unique.None? && NonEmpty(o.index) ==>
      IndexFor(member, o) == Some(CreateIndex(member, IndexOptions(true, None, None)))
  {
  }

  function AsSeq<T>(o: Option<T>): (r: seq<T>)
    ensures |r| <= 1
    ensures o.Some? ==> r == [o.value]
    ensures o.None? ==> r == []
  {
    if o.Some? then [o.value] else []
  }

  /** The message logged for a relationship kind this backend does not map. */
  function UnsupportedMessage(kind: string, member: string): string {
    kind + " is unsupported with mongodb, expression: " + member
  }

  /** The builder's state, apart from the collection name. */
  datatype Mapping = Mapping(
    mapActions: seq<MemberMap>,
    collectionActions: seq<CreateIndex>,
    idMember: Option<string>,
    ordinaryMembers: seq<string>,
    errors: seq<string>)

  const Initial := Mapping([], [], None, [], [])

  /** The state after one directive. */
  function Step(m: Mapping, d: Directive): Mapping {
    var o := OrDefault(d.options);
    match d
    case Id(member, _) =>
      m.(idMember := Some(member), mapActions := m.mapActions + [IdMemberMap(member, ElementName(o))])
    case Map(member, _) =>
      m.(ordinaryMembers := m.ordinaryMembers + [member],
         mapActions := m.mapActions + [OrdinaryMemberMap(member, ElementName(o), o.nullable)],
         collectionActions := m.collectionActions + AsSeq(IndexFor(member, o)))
    case References(member, _) => m.(errors := m.errors + [UnsupportedMessage("References", member)])
    case HasMany(member, _) => m.(errors := m.errors + [UnsupportedMessage("HasMany", member)])
    case HasManyToMany(member, _) => m.(errors := m.errors + [UnsupportedMessage("HasManyToMany", member)])
  }

  /** The state after the directives `ds`, in order. */
  function Run(m: Mapping, ds: seq<Directive>): Mapping {
    if |ds| == 0 then m else Step(Run(m, ds[..|ds| - 1]), ds[|ds| - 1])
  }

  /** Running two lists of directives one after the other is running their concatenation. */
  lemma {:induction false} RunAppend(m: Mapping, a: seq<Directive>, b: seq<Directive>)
    ensures Run(m, a + b) == Run(Run(m, a), b)
    decreases |b|
  {
    if |b| == 0 {
      assert a + b == a;
    } else {
      assert (a + b)[..|a + b| - 1] == a + b[..|b| - 1];
      assert (a + b)[|a + b| - 1] == b[|b| - 1];
      RunAppend(m, a, b[..|b| - 1]);
    }
  }

  /** The members named by `Map` directives, in order. */
  function MappedMembers(ds: seq<Directive>): seq<string> {
    if |ds| == 0 then []
    else (if ds[0].Map? then [ds[0].member] else []) + MappedMembers(ds[1..])
  }

  lemma {:induction false} MappedMembersAppend(a: seq<Directive>, b: seq<Directive>)
    ensures MappedMembers(a + b) == MappedMembers(a) + MappedMembers(b)
    decreases |a|
  {
    if |a| == 0 {
      assert a + b == b;
    } else {
      assert (a + b)[0] == a[0];
      assert (a + b)[1..] == a[1..] + b;
      MappedMembersAppend(a[1..], b);
    }
  }

  /** `OrdinaryMembers` gains exactly the member of every `Map` directive, in order. */
  lemma {:induction false} RunOrdinaryMembers(m: Mapping, ds: seq<Directive>)
    ensures Run(m, ds).ordinaryMembers == m.ordinaryMembers + MappedMembers(ds)
    decreases |ds|
  {
    if |ds| > 0 {
      var last := |ds| - 1;
      RunOrdinaryMembers(m, ds[..last]);
      assert ds == ds[..last] + [ds[last]];
      MappedMembersAppend(ds[..last], [ds[last]]);
      assert MappedMembers([ds[last]]) == if ds[last].Map? then [ds[last].member] else [];
    }
  }

  /** The member of the last `Id` directive, if there is one. */
  function LastId(ds: seq<Directive>): (r: Option<string>)
    ensures r.Some? ==> exists i | 0 <= i < |ds| :: ds[i] == Directive.Id(r.value, ds[i].options)
    ensures r.None? ==> forall i | 0 <= i < |ds| :: !ds[i].Id?
  {
    if |ds| == 0 then None
    else if ds[|ds| - 1].Id? then Some(ds[|ds| - 1].member)
    else LastId(ds[..|ds| - 1])
  }

  /** `IdMember` is the member of the last `Id` directive; without one it is unchanged. */
  lemma {:induction false} RunIdMember(m: Mapping, ds: seq<Directive>)
    ensures Run(m, ds).idMember == if LastId(ds).Some? then LastId(ds) else m.idMember
    decreases |ds|
  {
    if |ds| > 0 {
      RunIdMember(m, ds[..|ds| - 1]);
    }
  }

  /** The indexes the `Map` directives among `ds` queue, in order. */
  function QueuedIndexes(ds: seq<Directive>): seq<CreateIndex> {
    if |ds| == 0 then []
    else
      var d := ds[|ds| - 1];
      QueuedIndexes(ds[..|ds| - 1]) + (if d.Map? then AsSeq(IndexFor(d.member, OrDefault(d.options))) else [])
  }

  /** Only `Map` directives queue collection actions, one index per indexed member. */
  lemma {:induction false} RunCollectionActions(m: Mapping, ds: seq<Directive>)
    ensures Run(m, ds).collectionActions == m.collectionActions + QueuedIndexes(ds)
    decreases |ds|
  {
    if |ds| > 0 {
      RunCollectionActions(m, ds[..|ds| - 1]);
    }
  }

  /** A relationship directive only logs an error: no mapping state changes. */
  lemma RelationshipsOnlyLog(m: Mapping, d: Directive)
    requires d.References? || d.HasMany? || d.HasManyToMany?
    ensures Step(m, d).(errors := m.errors) == m
    ensures |Step(m, d).errors| == |m.errors| + 1
  {
  }

  /** A registered class map: its actions and `SetIgnoreExtraElements`. */
  datatype ClassMap = ClassMap(actions: seq<MemberMap>, ignoreExtraElements: bool)

  /** `RegisterClassMap` guarded by `IsClassMapRegistered`: an entity type
      keeps the first class map registered for it. */
  function Register(registry: map<string, ClassMap>, typeName: string, actions: seq<MemberMap>)
    : (r: map<string, ClassMap>)
    ensures typeName in r && r.Keys == registry.Keys + {typeName}
    ensures typeName in registry ==> r == registry
    ensures typeName !in registry ==> r[typeName] == ClassMap(actions, true)
    ensures forall t | t in registry :: r[t] == registry[t]
  {
    if typeName in registry then registry else registry[typeName := ClassMap(actions, true)]
  }

  /** A second configuration of the same entity type is ignored. */
  lemma RegisterOnce(registry: map<string, ClassMap>, typeName: string, first: seq<MemberMap>, later: seq<MemberMap>)
    ensures Register(Register(registry, typeName, first), typeName, later) == Register(registry, typeName, first)
    ensures Register(Register(registry, typeName, first), typeName, later)[typeName].actions ==
      if typeName in registry then registry[typeName].actions else first
  {
  }

  /** The collection name after the handlers' `ConvertTableName`, in order. */
  function ConvertAll(handlers: seq<string -> string>, name: string): string {
    if |handlers| == 0 then name
    else handlers[|handlers| - 1](ConvertAll(handlers[..|handlers| - 1], name))
  }

  /** Converting through two groups of handlers is converting through the first, then the second. */
  lemma {:induction false} ConvertAllAppend(a: seq<string -> string>, b: seq<string -> string>, name: string)
    ensures ConvertAll(a + b, name) == ConvertAll(b, ConvertAll(a, name))
    decreases |b|
  {
    if |b| == 0 {
      assert a + b == a;
    } else {
      assert (a + b)[..|a + b| - 1] == a + b[..|b| - 1];
      assert (a + b)[|a + b| - 1] == b[|b| - 1];
      ConvertAllAppend(a, b[..|b| - 1], name);
    }
  }

  /** The index actions run on the collection `name`. */
  function OnCollection(name: string, actions: seq<CreateIndex>): (r: seq<(string, CreateIndex)>)
    ensures |r| == |actions|
    ensures forall i | 0 <= i < |r| :: r[i] == (name, actions[i])
  {
    if |actions| == 0 then [] else OnCollection(name, actions[..|actions| - 1]) + [(name, actions[|actions| - 1])]
  }

  /** The process-wide class-map registry. */
  class ClassMapRegistry {
    var maps: map<string, ClassMap>

    constructor ()
      ensures maps == map[]
    {
      maps := map[];
    }
  }

  /** The database: the indexes created so far, by collection. */
  class MongoDatabase {
    var indexes: seq<(string, CreateIndex)>

    constructor ()
      ensures indexes == []
    {
      indexes := [];
    }
  }

  class MongoEntityMappingBuilder {
    var mapActions: seq<MemberMap>
    var collectionActions: seq<CreateIndex>
    var collectionName: string
    var idMember: Option<string>
    var ordinaryMembers: seq<string>
    /** The error log of the log manager. */
    var errors: seq<string>

    function State(): Mapping
      reads this
    {
      Mapping(mapActions, collectionActions, idMember, ordinaryMembers, errors)
    }

    /** Configures the entity `typeName` with the providers' directives,
        registers its class map unless one exists, converts the collection
        name and creates the queued indexes on that collection. */
    constructor (typeName: string, providers: seq<seq<Directive>>, registry: ClassMapRegistry,
                 handlers: seq<string -> string>, database: MongoDatabase)
      modifies registry, database
      ensures State() == Run(Initial, Flatten(providers))
      ensures registry.maps == Register(old(registry.maps), typeName, mapActions)
      ensures collectionName == ConvertAll(handlers, typeName)
      ensures database.indexes == old(database.indexes) + OnCollection(collectionName, collectionActions)
    {
      mapActions := [];
      collectionActions := [];
      collectionName := typeName;
      idMember := None;
      ordinaryMembers := [];
      errors := [];
      new;
      Configure(providers);
      if typeName !in registry.maps {
        registry.maps := registry.maps[typeName := ClassMap(mapActions, true)];
      }
      ConvertName(handlers);
      CreateIndexes(database);
    }

    /** Calls every provider's `Configure`, in order. */
    method Configure(providers: seq<seq<Directive>>)
      modifies this
      ensures State() == Run(old(State()), Flatten(providers))
      ensures collectionName == old(collectionName)
    {
      ghost var start := State();
      var i := 0;
      while i < |providers|
        invariant 0 <= i <= |providers|
        invariant State() == Run(start, Flatten(providers[..i]))
        invariant collectionName == old(collectionName)
      {
        RunDirectives(providers[i]);
        RunAppend(start, Flatten(providers[..i]), providers[i]);
        assert providers[..i + 1][..i] == providers[..i];
        i := i + 1;
      }
      assert providers[..i] == providers;
    }

    /** Applies one provider's directives, in order. */
    method RunDirectives(directives: seq<Directive>)
      modifies this
      ensures State() == Run(old(State()), directives)
      ensures collectionName == old(collectionName)
    {
      ghost var start := State();
      var j := 0;
      while j < |directives|
        invariant 0 <= j <= |directives|
        invariant State() == Run(start, directives[..j])
        invariant collectionName == old(collectionName)
      {
        Apply(directives[j]);
        assert directives[..j + 1][..j] == directives[..j];
        j := j + 1;
      }
      assert directives[..j] == directives;
    }

    /** Passes the collection name through every handler's `ConvertTableName`. */
    method ConvertName(handlers: seq<string -> string>)
      modifies this
      ensures collectionName == ConvertAll(handlers, old(collectionName))
      ensures State() == old(State())
    {
      var k := 0;
      while k < |handlers|
        invariant 0 <= k <= |handlers|
        invariant collectionName == ConvertAll(handlers[..k], old(collectionName))
        invariant State() == old(State())
      {
        collectionName := handlers[k](collectionName);
        assert handlers[..k + 1][..k] == handlers[..k];
        k := k + 1;
      }
      assert handlers[..k] == handlers;
    }

    /** Runs the queued index actions on the collection. */
    method CreateIndexes(database: MongoDatabase)
      modifies database
      ensures database.indexes == old(database.indexes) + OnCollection(collectionName, collectionActions)
    {
      var k := 0;
      while k < |collectionActions|
        invariant 0 <= k <= |collectionActions|
        invariant database.indexes == old(database.indexes) + OnCollection(collectionName, collectionActions[..k])
      {
        database.indexes := database.indexes + [(collectionName, collectionActions[k])];
        assert collectionActions[..k + 1][..k] == collectionActions[..k];
        k := k + 1;
      }
      assert collectionActions[..k] == collectionActions;
    }

    /** Runs one directive of a provider's `Configure`. */
    method Apply(d: Directive)
      modifies this
      ensures State() == Step(old(State()), d)
      ensures collectionName == old(collectionName)
    {
      match d
      case Id(member, options) => Id(member, options);
      case Map(member, options) => Map(member, options);
      case References(member, options) => References(member, options);
      case HasMany(member, options) => HasMany(member, options);
      case HasManyToMany(member, options) => HasManyToMany(member, options);
    }

    /** Selects the primary key; only Column is supported. */
    method Id(member: string, options: Option<EntityMappingOptions>)
      modifies this
      ensures idMember == Some(member)
      ensures mapActions == old(mapActions) + [IdMemberMap(member, ElementName(OrDefault(options)))]
      ensures collectionActions == old(collectionActions) && ordinaryMembers == old(ordinaryMembers)
      ensures errors == old(errors) && collectionName == old(collectionName)
    {
      var o := OrDefault(options);
      idMember := Some(member);
      mapActions := mapActions + [IdMemberMap(member, ElementName(o))];
    }

    /** Maps an ordinary member; Column and Nullable go to the class map,
        Unique and Index may queue an index. */
    method Map(member: string, options: Option<EntityMappingOptions>)
      modifies this
      ensures ordinaryMembers == old(ordinaryMembers) + [member]
      ensures mapActions == old(mapActions) +
        [OrdinaryMemberMap(member, ElementName(OrDefault(options)), OrDefault(options).nullable)]
      ensures collectionActions == old(collectionActions) + AsSeq(IndexFor(member, OrDefault(options)))
      ensures idMember == old(idMember) && errors == old(errors) && collectionName == old(collectionName)
    {
      var o := OrDefault(options);
      ordinaryMembers := ordinaryMembers + [member];
      var isRequired: Option<bool> := None;
      if o.nullable == Some(true) {
        isRequired := Some(true);
      } else if o.nullable == Some(false) {
        isRequired := Some(false);
      }
      assert isRequired == o.nullable by {
        if o.nullable.Some? {
          var v := o.nullable.value;
          assert o.nullable == Some(v);
          assert v || !v;
        }
      }
      mapActions := mapActions + [OrdinaryMemberMap(member, ElementName(o), isRequired)];
      if o.unique == Some(true) || NonEmpty(o.index) {
        collectionActions := collectionActions + [CreateIndex(member, IndexOptions(true, o.unique, LiftedNot(o.unique)))];
      }
    }

    method References(member: string, options: Option<EntityMappingOptions>)
      modifies this
      ensures errors == old(errors) + [UnsupportedMessage("References", member)]
      ensures old(State()).(errors := errors) == State() && collectionName == old(collectionName)
    {
      errors := errors + [UnsupportedMessage("References", member)];
    }

    method HasMany(member: string, options: Option<EntityMappingOptions>)
      modifies this
      ensures errors == old(errors) + [UnsupportedMessage("HasMany", member)]
      ensures old(State()).(errors := errors) == State() && collectionName == old(collectionName)
    {
      errors := errors + [UnsupportedMessage("HasMany", member)];
    }

    method HasManyToMany(member: string, options: Option<EntityMappingOptions>)
      modifies this
      ensures errors == old(errors) + [UnsupportedMessage("HasManyToMany", member)]
      ensures old(State()).(errors := errors) == State() && collectionName == old(collectionName)
    {
      errors := errors + [UnsupportedMessage("HasManyToMany", member)];
    }
  }
}
