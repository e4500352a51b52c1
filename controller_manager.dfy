/** The action registry of the web layer: a table from (normalised path,
    HTTP method) to the action that serves it. */
module Routing {
  import opened Common

  /** The HTTP method names the framework uses. */
  const GET: string := "GET"
  const POST: string := "POST"
  const PUT: string := "PUT"
  const DELETE: string := "DELETE"
  const PATCH: string := "PATCH"

  /** `s.TrimEnd(c)`: drops every trailing `c`. */
  function TrimEnd(s: string, c: char): (r: string)
    ensures |r| <= |s| && r == s[..|r|]
    ensures r == [] || r[|r| - 1] != c
    ensures forall i | |r| <= i < |s| :: s[i] == c
  {
    if |s| == 0 then s
    else if s[|s| - 1] == c then TrimEnd(s[..|s| - 1], c)
    else s
  }

  /** A path as the registry stores it: it starts with "/" and has no
      trailing "/" unless it is the root itself. */
  predicate Normalized(p: string) {
    |p| >= 1 && p[0] == '/' && (p == "/" || p[|p| - 1] != '/')
  }

  /** Adds a leading "/" when missing and removes trailing "/"s from any
      path longer than one character. */
  function NormalizePath(path: string): (r: string)
    ensures Normalized(r)
  {
    var trimmed := if |path| > 1 && EndsWith(path, "/") then TrimEnd(path, '/') else path;
    if StartsWith(trimmed, "/") then trimmed else "/" + trimmed
  }

  /** A normalised path is left as it is, so normalising twice is normalising once. */
  lemma NormalizedIsFixedPoint(p: string)
    requires Normalized(p)
    ensures NormalizePath(p) == p
  {
    assert !(|p| > 1 && EndsWith(p, "/"));
    assert StartsWith(p, "/");
  }

  lemma NormalizePathIdempotent(path: string)
    ensures NormalizePath(NormalizePath(path)) == NormalizePath(path)
  {
    NormalizedIsFixedPoint(NormalizePath(path));
  }

  /** A path is normalised exactly when normalisation leaves it unchanged. */
  lemma NormalizedIffUnchanged(p: string)
    ensures Normalized(p) <==> NormalizePath(p) == p
  {
    if Normalized(p) { NormalizedIsFixedPoint(p); }
  }

  lemma TrimEndAppend(s: string, c: char)
    ensures TrimEnd(s + [c], c) == TrimEnd(s, c)
  {
    assert (s + [c])[..|s + [c]| - 1] == s;
  }

  lemma TrimEndPrepend(s: string, c: char, d: char)
    requires d != c || TrimEnd(s, c) != []
    ensures TrimEnd([d] + s, c) == [d] + TrimEnd(s, c)
    decreases |s|
  {
    if |s| > 0 && s[|s| - 1] == c {
      assert ([d] + s)[..|[d] + s| - 1] == [d] + s[..|s| - 1];
      TrimEndPrepend(s[..|s| - 1], c, d);
    }
  }

  /** "abc" and "/abc" address the same entry. */
  lemma LeadingSlashIrrelevant(p: string)
    requires !StartsWith(p, "/")
    ensures NormalizePath("/" + p) == NormalizePath(p)
  {
    if |p| > 0 {
      assert p[0] != '/' by { assert p[..1] == [p[0]]; }
      TrimEndPrepend(p, '/', '/');
      if EndsWith(p, "/") {
        assert EndsWith("/" + p, "/") by { assert ("/" + p)[|"/" + p| - 1..] == p[|p| - 1..]; }
        assert TrimEnd(p, '/') != [];
        assert TrimEnd(p, '/')[0] == p[0];
        assert !StartsWith(TrimEnd(p, '/'), "/") by { assert TrimEnd(p, '/')[..1] == [p[0]]; }
        assert TrimEnd("/" + p, '/') == "/" + TrimEnd(p, '/');
      } else {
        assert !EndsWith("/" + p, "/") by {
          assert ("/" + p)[|"/" + p| - 1..] == p[|p| - 1..];
        }
      }
    }
  }

  /** "/abc/" and "/abc" address the same entry. */
  lemma TrailingSlashIrrelevant(p: string)
    ensures NormalizePath(p + "/") == NormalizePath(p)
  {
    var q := p + "/";
    EndsWithSlash(q);
    EndsWithSlash(p);
    TrimEndAppend(p, '/');
    if |p| == 0 {
      assert q == "/";
    } else if p == "/" {
      assert TrimEnd(p, '/') == TrimEnd([] + "/", '/');
      TrimEndAppend([], '/');
    }
  }

  /** Ending with "/" is having '/' as the last character. */
  lemma EndsWithSlash(s: string)
    ensures EndsWith(s, "/") <==> |s| > 0 && s[|s| - 1] == '/'
  {
    if |s| > 0 {
      assert s[|s| - 1..] == [s[|s| - 1]];
    }
  }

  /** `RegisterAction` threw: the (path, method) pair was already taken. */
  datatype ArgumentException = ArgumentException(message: string)

  /** The registry. `A` stands for the action delegate. */
  class ControllerManager<A> {
    /** { (Path, Method): Action } */
    var actions: map<(string, string), A>

    ghost predicate Valid()
      reads this
    {
      forall key | key in actions :: Normalized(key.0)
    }

    constructor ()
      ensures Valid() && actions == map[]
    {
      actions := map[];
    }

    /** Registration without override: a taken (path, method) pair is an error. */
    method RegisterAction(path: string, httpMethod: string, action: A) returns (r: Outcome<ArgumentException>)
      requires Valid()
      modifies this
      ensures Valid()
      ensures var key := (NormalizePath(path), httpMethod);
        if key in old(actions) then r.Fail? && actions == old(actions)
        else r == Pass && actions == old(actions)[key := action]
    {
      r := RegisterActionWithOverride(path, httpMethod, action, false);
    }

    /** Registration; with `overrideExists` an existing entry for the same
        (path, method) is replaced, otherwise the call fails and changes nothing. */
    method RegisterActionWithOverride(path: string, httpMethod: string, action: A, overrideExists: bool)
      returns (r: Outcome<ArgumentException>)
      requires Valid()
      modifies this
      ensures Valid()
      ensures var key := (NormalizePath(path), httpMethod);
        if !overrideExists && key in old(actions) then
          r == Fail(ArgumentException("action for " + key.0 + " already registered, try option `overrideExists`"))
          && actions == old(actions)
        else r == Pass && actions == old(actions)[key := action]
    {
      var p := NormalizePath(path);
      var key := (p, httpMethod);
      if !overrideExists && key in actions {
        return Fail(ArgumentException("action for " + p + " already registered, try option `overrideExists`"));
      }
      actions := actions[key := action];
      r := Pass;
    }

    /** Removes the entry; tells whether there was one. */
    method UnregisterAction(path: string, httpMethod: string) returns (removed: bool)
      requires Valid()
      modifies this
      ensures Valid()
      ensures var key := (NormalizePath(path), httpMethod);
        removed == (key in old(actions)) && actions == old(actions) - {key}
    {
      var key := (NormalizePath(path), httpMethod);
      removed := key in actions;
      actions := actions - {key};
    }

    /** The action registered for the normalised path and method, or null. */
    method GetAction(path: string, httpMethod: string) returns (r: Option<A>)
      ensures var key := (NormalizePath(path), httpMethod);
        (r.Some? <==> key in actions) && (r.Some? ==> r.value == actions[key])
    {
      var key := (NormalizePath(path), httpMethod);
      if key in actions {
        r := Some(actions[key]);
      } else {
        r := None;
      }
    }
  }

  /** The registry's own test sequence, for any path given without its
      leading "/": register GET and POST, a second GET fails, override
      replaces only GET, unregister twice, then the lookup is null. */
  method RegistryScenario<A>(path: string, get: A, post: A, other: A)
    requires !StartsWith(path, "/")
  {
    LeadingSlashIrrelevant(path);
    TrailingSlashIrrelevant("/" + path);
    ghost var key := NormalizePath(path);
    assert NormalizePath("/" + path + "/") == key;
    assert GET != POST;
    var m := new ControllerManager<A>();
    var r := m.RegisterAction(path, GET, get);
    assert r == Pass;
    r := m.RegisterAction(path, POST, post);
    assert r == Pass;
    r := m.RegisterAction(path, GET, other);
    assert r.Fail?;
    var a := m.GetAction("/" + path + "/", GET);
    assert a == Some(get);
    r := m.RegisterActionWithOverride(path, GET, other, true);
    a := m.GetAction(path, GET);
    assert a == Some(other);
    a := m.GetAction(path, POST);
    assert a == Some(post);
    var removed := m.UnregisterAction(path, GET);
    assert removed;
    removed := m.UnregisterAction(path, GET);
    assert !removed;
    a := m.GetAction(path, GET);
    assert a == None;
  }
}
