/** Plugin information read from a plugin's `plugin.json`: after loading,
    the directory is the one it was read from and the name, description and
    dependency list are never null. JSON parsing is not modelled; loading
    starts from the object the parser produced. */
module PluginInfo {
  import opened Common

  /** The fields of a plugin description; None is a null reference. Names
      and descriptions map a language code to text. */
  datatype PluginData = PluginData(
    directory: Option<string>,
    name: Option<map<string, string>>,
    description: Option<map<string, string>>,
    dependencies: Option<seq<string>>)

  /** The information `FromDirectory(dir)` returns for the deserialised `parsed`. */
  function Normalized(parsed: PluginData, dir: string): (r: PluginData)
    ensures r.directory == Some(dir)
    ensures r.name == Some(parsed.name.GetOr(map[]))
    ensures r.description == Some(parsed.description.GetOr(map[]))
    ensures r.dependencies == Some(parsed.dependencies.GetOr([]))
  {
    PluginData(Some(dir), Some(parsed.name.GetOr(map[])), Some(parsed.description.GetOr(map[])),
      Some(parsed.dependencies.GetOr([])))
  }

  /** Whatever directory the JSON names, the one read from wins; loading
      again from the same directory changes nothing. */
  lemma NormalizedIdempotent(parsed: PluginData, dir: string)
    ensures Normalized(Normalized(parsed, dir), dir) == Normalized(parsed, dir)
  {
  }

  /** Information loaded from a file that sets every field keeps the file's
      values, except the directory. */
  lemma FieldsKept(parsed: PluginData, dir: string)
    requires parsed.name.Some? && parsed.description.Some? && parsed.dependencies.Some?
    ensures Normalized(parsed, dir) == parsed.(directory := Some(dir))
  {
  }

  /** A plugin description; `FromDirectory` fixes up the deserialised one in place. */
  class PluginInfo {
    var directory: Option<string>
    var name: Option<map<string, string>>
    var description: Option<map<string, string>>
    var dependencies: Option<seq<string>>

    function Data(): PluginData
      reads this
    {
      PluginData(directory, name, description, dependencies)
    }

    /** The object as the JSON parser fills it. */
    constructor (parsed: PluginData)
      ensures Data() == parsed
    {
      directory := parsed.directory;
      name := parsed.name;
      description := parsed.description;
      dependencies := parsed.dependencies;
    }

    /** `PluginInfo.FromDirectory` after `plugin.json` in `dir` is read and parsed. */
    static method FromDirectory(dir: string, parsed: PluginData) returns (info: PluginInfo)
      ensures fresh(info)
      ensures info.Data() == Normalized(parsed, dir)
    {
      info := new PluginInfo(parsed);
      info.directory := Some(dir);
      info.name := Some(info.name.GetOr(map[]));
      info.description := Some(info.description.GetOr(map[]));
      info.dependencies := Some(info.dependencies.GetOr([]));
    }
  }
}
