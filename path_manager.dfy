/** Path lookup of the path manager: templates and resources are searched in
    App_Data first and then in each loaded plugin, and a template may name
    its plugin explicitly as "plugin:path". Path combination, the file
    system and the directory constants are parameters. */
module PathManager {
  import opened Common

  /** The operations the lookups call but that are not modelled:
      `PathUtils.SecureCombine`, `File.Exists`, and the full path of a
      directory given relative to the web root. */
  datatype FileSystem = FileSystem(
    combine: seq<string> -> string,
    fileExists: string -> bool,
    rootedPath: string -> string)

  /** The two `PathConfig` constants the lookups use. */
  datatype PathConfig = PathConfig(appDataDirectory: string, templateDirectoryName: string)

  /** The absolute plugin root directories, one per configured directory, in order. */
  function GetPluginDirectories(fs: FileSystem, pluginDirectories: seq<string>): (r: seq<string>)
    ensures |r| == |pluginDirectories|
    ensures forall i | 0 <= i < |r| :: r[i] == fs.rootedPath(pluginDirectories[i])
  {
    seq(|pluginDirectories|, i requires 0 <= i < |pluginDirectories| => fs.rootedPath(pluginDirectories[i]))
  }

  /** The first candidate that exists, as `FirstOrDefault(File.Exists)`. */
  function FirstExisting(fs: FileSystem, candidates: seq<string>): (r: Option<string>)
    ensures r.None? <==> forall i | 0 <= i < |candidates| :: !fs.fileExists(candidates[i])
    ensures r.Some? ==> r.value in candidates && fs.fileExists(r.value)
  {
    if |candidates| == 0 then None
    else if fs.fileExists(candidates[0]) then Some(candidates[0])
    else
      var r := FirstExisting(fs, candidates[1..]);
      assert forall i | 1 <= i < |candidates| :: candidates[i] == candidates[1..][i - 1];
      r
  }

  /** The candidate found is the first existing one: every candidate before it is missing. */
  lemma {:induction false} FirstExistingAt(fs: FileSystem, candidates: seq<string>, k: nat)
    requires k < |candidates| && fs.fileExists(candidates[k])
    requires forall j | 0 <= j < k :: !fs.fileExists(candidates[j])
    ensures FirstExisting(fs, candidates) == Some(candidates[k])
  {
    if k > 0 {
      assert !fs.fileExists(candidates[0]);
      assert forall j | 0 <= j < k - 1 :: candidates[1..][j] == candidates[j + 1];
      FirstExistingAt(fs, candidates[1..], k - 1);
    }
  }

  /** Skipping a missing candidate does not change the search. */
  lemma FirstExistingSkip(fs: FileSystem, candidates: seq<string>, i: nat)
    requires i < |candidates| && !fs.fileExists(candidates[i])
    ensures FirstExisting(fs, candidates[i..]) == FirstExisting(fs, candidates[i + 1..])
  {
    assert candidates[i..][1..] == candidates[i + 1..];
  }

  /** `path.IndexOf(':')` splits off the explicitly named plugin; the
      remainder may be empty. */
  function SplitPlugin(path: string): (r: (Option<string>, string))
    ensures r.0.None? <==> ':' !in path
    ensures r.0.None? ==> r.1 == path
    ensures r.0.Some? ==> ':' !in r.0.value && path == r.0.value + ":" + r.1
  {
    var index := IndexOf(path, ':');
    if index >= 0 then
      assert path == path[..index] + ":" + path[index + 1..];
      (Some(path[..index]), path[index + 1..])
    else (None, path)
  }

  /** Splitting undoes writing "plugin:path" for a plugin name without ':'. */
  lemma SplitJoin(plugin: string, path: string)
    requires ':' !in plugin
    ensures SplitPlugin(plugin + ":" + path) == (Some(plugin), path)
  {
    var s := plugin + ":" + path;
    var r := SplitPlugin(s);
    assert s[..|plugin|] == plugin && s[|plugin|] == ':';
    assert s[|plugin| + 1..] == path;
    var index := IndexOf(s, ':');
    assert index == |plugin| by {
      assert ':' in s[..|plugin| + 1] by { assert s[..|plugin| + 1][|plugin|] == ':'; }
    }
  }

  /** With an explicit plugin: the plugin's template in every plugin directory, in order. */
  function ExplicitCandidates(fs: FileSystem, config: PathConfig, pluginDirectories: seq<string>,
                              plugin: string, path: string): (r: seq<string>)
    ensures |r| == |pluginDirectories|
    ensures forall i | 0 <= i < |r| ::
      r[i] == fs.combine([path, plugin, config.templateDirectoryName, pluginDirectories[i]])
  {
    seq(|pluginDirectories|, i requires 0 <= i < |pluginDirectories| =>
      fs.combine([path, plugin, config.templateDirectoryName, pluginDirectories[i]]))
  }

  /** Without an explicit plugin: the template in each loaded plugin's directory, in order. */
  function PluginTemplateCandidates(fs: FileSystem, config: PathConfig, plugins: seq<string>, path: string)
    : (r: seq<string>)
    ensures |r| == |plugins|
    ensures forall i | 0 <= i < |r| :: r[i] == fs.combine([plugins[i], config.templateDirectoryName, path])
  {
    seq(|plugins|, i requires 0 <= i < |plugins| => fs.combine([plugins[i], config.templateDirectoryName, path]))
  }

  /** The App_Data location of a template. */
  function AppDataTemplate(fs: FileSystem, config: PathConfig, path: string): string {
    fs.combine([config.appDataDirectory, config.templateDirectoryName, path])
  }

  /** The full path `GetTemplateFullPath` returns, or None for null.
      `pluginDirectories` are the absolute plugin roots and `plugins` the
      directories of the loaded plugins in the order the plugin manager lists them. */
  function TemplateFullPath(fs: FileSystem, config: PathConfig, pluginDirectories: seq<string>,
                            plugins: seq<string>, path: string): Option<string>
  {
    var (plugin, rest) := SplitPlugin(path);
    if plugin.Some? then
      FirstExisting(fs, ExplicitCandidates(fs, config, pluginDirectories, plugin.value, rest))
    else if fs.fileExists(AppDataTemplate(fs, config, rest)) then Some(AppDataTemplate(fs, config, rest))
    else FirstExisting(fs, PluginTemplateCandidates(fs, config, plugins, rest))
  }

  /** A template named with its plugin is only looked up in that plugin's
      templates, never in App_Data or another plugin. */
  lemma ExplicitPluginOnly(fs: FileSystem, config: PathConfig, pluginDirectories: seq<string>,
                           plugins: seq<string>, plugin: string, path: string)
    requires ':' !in plugin
    ensures var r := TemplateFullPath(fs, config, pluginDirectories, plugins, plugin + ":" + path);
      r.Some? ==> exists i | 0 <= i < |pluginDirectories| ::
        r.value == fs.combine([path, plugin, config.templateDirectoryName, pluginDirectories[i]])
  {
    SplitJoin(plugin, path);
    var r := TemplateFullPath(fs, config, pluginDirectories, plugins, plugin + ":" + path);
    if r.Some? {
      var c := ExplicitCandidates(fs, config, pluginDirectories, plugin, path);
      var i :| 0 <= i < |c| && c[i] == r.value;
    }
  }

  /** A template in App_Data overrides every plugin's. */
  lemma AppDataOverridesTemplate(fs: FileSystem, config: PathConfig, pluginDirectories: seq<string>,
                                 plugins: seq<string>, path: string)
    requires ':' !in path && fs.fileExists(AppDataTemplate(fs, config, path))
    ensures TemplateFullPath(fs, config, pluginDirectories, plugins, path) == Some(AppDataTemplate(fs, config, path))
  {
  }

  /** Otherwise the first loaded plugin holding the template supplies it. */
  lemma FirstPluginTemplate(fs: FileSystem, config: PathConfig, pluginDirectories: seq<string>,
                            plugins: seq<string>, path: string, k: nat)
    requires ':' !in path && !fs.fileExists(AppDataTemplate(fs, config, path))
    requires k < |plugins| && fs.fileExists(fs.combine([plugins[k], config.templateDirectoryName, path]))
    requires forall j | 0 <= j < k :: !fs.fileExists(fs.combine([plugins[j], config.templateDirectoryName, path]))
    ensures TemplateFullPath(fs, config, pluginDirectories, plugins, path) ==
      Some(fs.combine([plugins[k], config.templateDirectoryName, path]))
  {
    FirstExistingAt(fs, PluginTemplateCandidates(fs, config, plugins, path), k);
  }

  /** `GetTemplateFullPath`: the explicit case is a single query over the
      plugin directories; otherwise App_Data, then a loop over the plugins
      that returns at the first file that exists. */
  method GetTemplateFullPath(fs: FileSystem, config: PathConfig, pluginDirectories: seq<string>,
                             plugins: seq<string>, path: string) returns (r: Option<string>)
    ensures r == TemplateFullPath(fs, config, pluginDirectories, plugins, path)
  {
    var (explicitPlugin, rest) := SplitPlugin(path);
    if explicitPlugin.Some? {
      return FirstExisting(fs, ExplicitCandidates(fs, config, pluginDirectories, explicitPlugin.value, rest));
    }
    var fullPath := AppDataTemplate(fs, config, rest);
    if fs.fileExists(fullPath) {
      return Some(fullPath);
    }
    ghost var candidates := PluginTemplateCandidates(fs, config, plugins, rest);
    var i := 0;
    while i < |plugins|
      invariant 0 <= i <= |plugins|
      invariant FirstExisting(fs, candidates) == FirstExisting(fs, candidates[i..])
    {
      fullPath := fs.combine([plugins[i], config.templateDirectoryName, rest]);
      if fs.fileExists(fullPath) {
        assert candidates[i..][0] == fullPath;
        return Some(fullPath);
      }
      FirstExistingSkip(fs, candidates, i);
      i := i + 1;
    }
    return None;
  }

  /** The App_Data location of a resource; `GetStorageFullPath` returns it
      whether or not the file exists. */
  function GetStorageFullPath(fs: FileSystem, config: PathConfig, pathParts: seq<string>): string {
    fs.combine([config.appDataDirectory, fs.combine(pathParts)])
  }

  /** The resource in each loaded plugin's directory, in order. */
  function PluginResourceCandidates(fs: FileSystem, plugins: seq<string>, path: string): (r: seq<string>)
    ensures |r| == |plugins|
    ensures forall i | 0 <= i < |r| :: r[i] == fs.combine([plugins[i], path])
  {
    seq(|plugins|, i requires 0 <= i < |plugins| => fs.combine([plugins[i], path]))
  }

  /** The full path `GetResourceFullPath` returns, or None for null. */
  function ResourceFullPath(fs: FileSystem, config: PathConfig, plugins: seq<string>, pathParts: seq<string>)
    : Option<string>
  {
    var storage := GetStorageFullPath(fs, config, pathParts);
    if fs.fileExists(storage) then Some(storage)
    else FirstExisting(fs, PluginResourceCandidates(fs, plugins, fs.combine(pathParts)))
  }

  /** The storage path is where a resource is looked up first: once a file
      is stored there it overrides every plugin's resource. */
  lemma StoredResourceFound(fs: FileSystem, config: PathConfig, plugins: seq<string>, pathParts: seq<string>)
    requires fs.fileExists(GetStorageFullPath(fs, config, pathParts))
    ensures ResourceFullPath(fs, config, plugins, pathParts) == Some(GetStorageFullPath(fs, config, pathParts))
  {
  }

  /** A resource is found iff it is stored in App_Data or some plugin has it,
      and what is found exists. */
  lemma ResourceFoundIff(fs: FileSystem, config: PathConfig, plugins: seq<string>, pathParts: seq<string>)
    ensures var r := ResourceFullPath(fs, config, plugins, pathParts);
      (r.Some? <==>
        (fs.fileExists(GetStorageFullPath(fs, config, pathParts)) ||
         exists i | 0 <= i < |plugins| :: fs.fileExists(fs.combine([plugins[i], fs.combine(pathParts)])))) &&
      (r.Some? ==> fs.fileExists(r.value))
  {
    var c := PluginResourceCandidates(fs, plugins, fs.combine(pathParts));
    if FirstExisting(fs, c).None? {
      assert forall i | 0 <= i < |plugins| :: c[i] == fs.combine([plugins[i], fs.combine(pathParts)]);
    }
  }

  /** `GetResourceFullPath`: App_Data first, then a loop over the plugins
      that returns at the first file that exists. */
  method GetResourceFullPath(fs: FileSystem, config: PathConfig, plugins: seq<string>, pathParts: seq<string>)
    returns (r: Option<string>)
    ensures r == ResourceFullPath(fs, config, plugins, pathParts)
  {
    var path := fs.combine(pathParts);
    var fullPath := fs.combine([config.appDataDirectory, path]);
    if fs.fileExists(fullPath) {
      return Some(fullPath);
    }
    ghost var candidates := PluginResourceCandidates(fs, plugins, path);
    var i := 0;
    while i < |plugins|
      invariant 0 <= i <= |plugins|
      invariant FirstExisting(fs, candidates) == FirstExisting(fs, candidates[i..])
    {
      fullPath := fs.combine([plugins[i], path]);
      if fs.fileExists(fullPath) {
        assert candidates[i..][0] == fullPath;
        return Some(fullPath);
      }
      FirstExistingSkip(fs, candidates, i);
      i := i + 1;
    }
    return None;
  }
}
