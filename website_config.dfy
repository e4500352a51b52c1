/** The website configuration read from App_Data: after loading, the plugin
    directory list is never missing or empty, and the plugin list and the
    extra settings are never null. JSON parsing is not modelled; loading
    starts from the object the parser produced. */
module WebsiteConfig {
  import opened Common

  /** A value of the `Extra` dictionary, kept as its JSON text. */
  datatype ExtraValue = ExtraValue(json: string)

  /** The fields of a configuration; None is a null reference. */
  datatype ConfigData = ConfigData(
    database: Option<string>,
    connectionString: Option<string>,
    pluginDirectories: Option<seq<string>>,
    plugins: Option<seq<string>>,
    extra: Option<map<string, ExtraValue>>)

  /** The plugin directory used when the configuration names none. */
  const DefaultPluginDirectory := "App_Data/Plugins"

  /** The configuration `FromFile` returns for the deserialised `parsed`. */
  function Normalized(parsed: ConfigData): (r: ConfigData)
    ensures r.pluginDirectories.Some? && |r.pluginDirectories.value| > 0
    ensures parsed.pluginDirectories.Some? && |parsed.pluginDirectories.value| > 0 ==>
      r.pluginDirectories == parsed.pluginDirectories
    ensures parsed.pluginDirectories.None? || |parsed.pluginDirectories.value| == 0 ==>
      r.pluginDirectories == Some([DefaultPluginDirectory])
    ensures r.plugins == Some(parsed.plugins.GetOr([]))
    ensures r.extra == Some(parsed.extra.GetOr(map[]))
    ensures r.database == parsed.database && r.connectionString == parsed.connectionString
  {
    var dirs := parsed.pluginDirectories.GetOr([]);
    parsed.(pluginDirectories := Some(if |dirs| == 0 then [DefaultPluginDirectory] else dirs),
            plugins := Some(parsed.plugins.GetOr([])),
            extra := Some(parsed.extra.GetOr(map[])))
  }

  /** Loading an already loaded configuration changes nothing. */
  lemma NormalizedIdempotent(parsed: ConfigData)
    ensures Normalized(Normalized(parsed)) == Normalized(parsed)
  {
  }

  /** A configuration object; `FromFile` fixes up the deserialised one in place. */
  class WebsiteConfig {
    var database: Option<string>
    var connectionString: Option<string>
    var pluginDirectories: Option<seq<string>>
    var plugins: Option<seq<string>>
    var extra: Option<map<string, ExtraValue>>

    function Data(): ConfigData
      reads this
    {
      ConfigData(database, connectionString, pluginDirectories, plugins, extra)
    }

    /** The object as the JSON parser fills it. */
    constructor (parsed: ConfigData)
      ensures Data() == parsed
    {
      database := parsed.database;
      connectionString := parsed.connectionString;
      pluginDirectories := parsed.pluginDirectories;
      plugins := parsed.plugins;
      extra := parsed.extra;
    }

    /** `WebsiteConfig.FromFile` after the file is read and parsed. */
    static method FromFile(parsed: ConfigData) returns (config: WebsiteConfig)
      ensures fresh(config)
      ensures config.Data() == Normalized(parsed)
    {
      config := new WebsiteConfig(parsed);
      config.pluginDirectories := Some(config.pluginDirectories.GetOr([]));
      if |config.pluginDirectories.value| == 0 {
        assert config.pluginDirectories.value + [DefaultPluginDirectory] == [DefaultPluginDirectory];
        config.pluginDirectories := Some(config.pluginDirectories.value + [DefaultPluginDirectory]);
      }
      config.plugins := Some(config.plugins.GetOr([]));
      config.extra := Some(config.extra.GetOr(map[]));
    }
  }
}
