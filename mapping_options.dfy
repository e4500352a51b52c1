/** What an entity-mapping provider may ask of a mapping builder: one
    directive per `Id`, `Map`, `References`, `HasMany` or `HasManyToMany`
    call, each with tri-state options that every backend reads its own way. */
module MappingOptions {
  import opened Common

  /** The options of one mapped member. Every field may be left unset; the
      length is a 64-bit integer in the original. */
  datatype EntityMappingOptions = EntityMappingOptions(
    column: Option<string>,
    length: Option<int>,
    unique: Option<bool>,
    nullable: Option<bool>,
    index: Option<string>,
    customSqlType: Option<string>,
    cascadeDelete: Option<bool>,
    withSerialization: Option<bool>)

  /** `new EntityMappingOptions()`: nothing set. */
  const DefaultOptions := EntityMappingOptions(None, None, None, None, None, None, None, None)

  /** `options ?? new EntityMappingOptions()`. */
  function OrDefault(options: Option<EntityMappingOptions>): (r: EntityMappingOptions)
    ensures options.Some? ==> r == options.value
    ensures options.None? ==> r == DefaultOptions
  {
    options.GetOr(DefaultOptions)
  }

  /** One call a provider's `Configure` makes on the builder; members are
      named by their property name. */
  datatype Directive =
    | Id(member: string, options: Option<EntityMappingOptions>)
    | Map(member: string, options: Option<EntityMappingOptions>)
    | References(member: string, options: Option<EntityMappingOptions>)
    | HasMany(member: string, options: Option<EntityMappingOptions>)
    | HasManyToMany(member: string, options: Option<EntityMappingOptions>)

  /** The directives of several providers, in resolution order. */
  function Flatten(providers: seq<seq<Directive>>): seq<Directive>
  {
    if |providers| == 0 then []
    else Flatten(providers[..|providers| - 1]) + providers[|providers| - 1]
  }
}
