/** The request helpers: header checks, the Accept-Language split, and
    argument lookup where form values take precedence over query values. */
module HttpRequestExtensions {
  import opened Common

  /** A request argument: a name with every value given for it. */
  type Argument = (string, seq<string>)

  /** What the helpers read of a request: its headers (a missing header is
      absent from the map) and its form and query arguments in request order. */
  datatype Request = Request(headers: map<string, string>, form: seq<Argument>, query: seq<Argument>)

  /** `.NET DateTime.MinValue`, in ticks. */
  const MinValue: int := 0

  function GetHeader(req: Request, name: string): (r: Option<string>)
    ensures r.Some? <==> name in req.headers
    ensures r.Some? ==> r.value == req.headers[name]
  {
    if name in req.headers then Some(req.headers[name]) else None
  }

  /** True exactly when the X-Requested-With header is present and is the
      string "XMLHttpRequest". */
  function IsAjaxRequest(req: Request): (r: bool)
    ensures r <==> "X-Requested-With" in req.headers && req.headers["X-Requested-With"] == "XMLHttpRequest"
  {
    GetHeader(req, "X-Requested-With") == Some("XMLHttpRequest")
  }

  /** `s.Split(sep)`: the pieces between separators, empty pieces kept, so
      there is always at least one. */
  function Split(s: string, sep: char): (r: seq<string>)
    ensures |r| >= 1
    ensures forall i | 0 <= i < |r| :: sep !in r[i]
    decreases |s|
  {
    var i := IndexOf(s, sep);
    if i < 0 then [s] else [s[..i]] + Split(s[i + 1..], sep)
  }

  /** `string.Join(sep, parts)`. */
  function Join(parts: seq<string>, sep: char): string
    requires |parts| >= 1
  {
    if |parts| == 1 then parts[0] else parts[0] + [sep] + Join(parts[1..], sep)
  }

  /** Splitting loses nothing: joining the pieces gives the input back. */
  lemma {:induction false} JoinSplit(s: string, sep: char)
    ensures Join(Split(s, sep), sep) == s
    decreases |s|
  {
    var i := IndexOf(s, sep);
    if i >= 0 {
      var head, tail := s[..i], s[i + 1..];
      JoinSplit(tail, sep);
      SplitAt(s, sep);
      JoinCons(head, Split(tail, sep), sep);
      AroundSeparator(s, i);
    }
  }

  /** Pieces free of the separator are recovered exactly by a split of their join. */
  lemma {:induction false} SplitJoin(parts: seq<string>, sep: char)
    requires |parts| >= 1
    requires forall i | 0 <= i < |parts| :: sep !in parts[i]
    ensures Split(Join(parts, sep), sep) == parts
  {
    if |parts| > 1 {
      var head, rest := parts[0], Join(parts[1..], sep);
      JoinCons(head, parts[1..], sep);
      assert [head] + parts[1..] == parts;
      Pieces(head, sep, rest);
      IndexOfAfterFree(head, [sep] + rest, sep);
      SplitAt(head + [sep] + rest, sep);
      SplitJoin(parts[1..], sep);
    } else {
      assert IndexOf(parts[0], sep) == -1;
    }
  }

  /** One step of `Split`, at the first separator. */
  lemma SplitAt(s: string, sep: char)
    requires IndexOf(s, sep) >= 0
    ensures var i := IndexOf(s, sep); Split(s, sep) == [s[..i]] + Split(s[i + 1..], sep)
  {
  }

  /** One step of `Join`, on a list with a first piece and at least one more. */
  lemma JoinCons(head: string, pieces: seq<string>, sep: char)
    requires |pieces| >= 1
    ensures Join([head] + pieces, sep) == head + [sep] + Join(pieces, sep)
  {
    assert ([head] + pieces)[1..] == pieces;
  }

  /** A string is what comes before a position, that character and what follows. */
  lemma AroundSeparator(s: string, i: int)
    requires 0 <= i < |s|
    ensures s == s[..i] + [s[i]] + s[i + 1..]
  {
  }

  /** The pieces of `a + [c] + b` on either side of the `c` after `a`. */
  lemma Pieces(a: string, c: char, b: string)
    ensures (a + [c] + b)[..|a|] == a && (a + [c] + b)[|a| + 1..] == b && a + [c] + b == a + ([c] + b)
  {
  }

  /** The first `c` in `a + b`, where `a` has none and `b` starts with `c`, is at `|a|`. */
  lemma IndexOfAfterFree(a: string, b: string, c: char)
    requires c !in a && |b| > 0 && b[0] == c
    ensures IndexOf(a + b, c) == |a|
  {
    var s := a + b;
    assert s[|a|] == c;
    assert s[..|a|] == a;
  }

  /** `s.Split(c)[0]`: everything before the first `c`. */
  function BeforeFirst(s: string, c: char): (r: string)
    ensures c !in r
    ensures StartsWith(s, r)
    ensures r == s || s[|r|] == c
  {
    var i := IndexOf(s, c);
    if i < 0 then s else s[..i]
  }

  /** Each ','-separated piece of the Accept-Language header, cut at its
      first ';' (a missing header reads as ""). The quality parameters are
      dropped, not used for ordering. */
  function GetAcceptLanguages(req: Request): (r: seq<string>)
    ensures var pieces := Split(GetHeader(req, "Accept-Language").GetOr(""), ',');
      |r| == |pieces| &&
      forall i | 0 <= i < |r| :: r[i] == BeforeFirst(pieces[i], ';')
  {
    var pieces := Split(GetHeader(req, "Accept-Language").GetOr(""), ',');
    seq(|pieces|, i requires 0 <= i < |pieces| => BeforeFirst(pieces[i], ';'))
  }

  /** Every language is free of ',' and ';', and a missing header gives [""]. */
  lemma AcceptLanguagesShape(req: Request)
    ensures forall i | 0 <= i < |GetAcceptLanguages(req)| ::
      ',' !in GetAcceptLanguages(req)[i] && ';' !in GetAcceptLanguages(req)[i]
    ensures "Accept-Language" !in req.headers ==> GetAcceptLanguages(req) == [""]
  {
    var pieces := Split(GetHeader(req, "Accept-Language").GetOr(""), ',');
    forall i | 0 <= i < |pieces|
      ensures ',' !in BeforeFirst(pieces[i], ';')
    {
      var r := BeforeFirst(pieces[i], ';');
      assert forall j | 0 <= j < |r| :: r[j] == pieces[i][j];
    }
  }

  /** Index of the first argument named `key`, or -1. */
  function FirstIndexOfKey(args: seq<Argument>, key: string): (r: int)
    ensures -1 <= r < |args|
    ensures r >= 0 ==> args[r].0 == key
    ensures forall j | 0 <= j < |args| && (r == -1 || j < r) :: args[j].0 != key
  {
    if |args| == 0 then -1
    else
      var r := FirstIndexOfKey(args[..|args| - 1], key);
      if r >= 0 then r else if args[|args| - 1].0 == key then |args| - 1 else -1
  }

  /** `GetFormValue(key)` / `GetQueryValue(key)`: the values of the first
      argument with that name, or null. */
  function ValuesOf(args: seq<Argument>, key: string): (r: Option<seq<string>>)
    ensures r.Some? <==> FirstIndexOfKey(args, key) >= 0
    ensures r.Some? ==> r.value == args[FirstIndexOfKey(args, key)].1
  {
    var i := FirstIndexOfKey(args, key);
    if i >= 0 then Some(args[i].1) else None
  }

  /** `Get<T>`: the first form value when the form gives a non-empty list for
      `key`, else the first query value when that list is non-empty, else
      `defaultValue`; the chosen string goes through `convert` (the
      conversion helper, falling back to `defaultValue`). */
  function Get<T>(req: Request, key: string, defaultValue: T, convert: (string, T) -> T): (r: T)
    ensures var f := ValuesOf(req.form, key); var q := ValuesOf(req.query, key);
      if f.Some? && |f.value| > 0 then r == convert(f.value[0], defaultValue)
      else if q.Some? && |q.value| > 0 then r == convert(q.value[0], defaultValue)
      else r == defaultValue
  {
    var values := ValuesOf(req.form, key);
    var values' := if values.None? || |values.value| <= 0 then ValuesOf(req.query, key) else values;
    if values'.None? || |values'.value| <= 0 then defaultValue
    else convert(values'.value[0], defaultValue)
  }

  /** `GetAll`: every form argument, then every query argument, each in request order. */
  function GetAll(req: Request): (r: seq<Argument>)
    ensures |r| == |req.form| + |req.query|
    ensures r[..|req.form|] == req.form && r[|req.form|..] == req.query
  {
    req.form + req.query
  }

  /** The dictionary built from `args` in order, keeping the first value seen for each name. */
  function FirstOccurrence(args: seq<Argument>): map<string, seq<string>>
  {
    if |args| == 0 then map[]
    else
      var m := FirstOccurrence(args[..|args| - 1]);
      var last := args[|args| - 1];
      if last.0 in m then m else m[last.0 := last.1]
  }

  /** The names of the dictionary are exactly the names in `args`, and each
      maps to the values of its first argument. */
  lemma {:induction false} FirstOccurrenceSpec(args: seq<Argument>, key: string)
    ensures key in FirstOccurrence(args) <==> FirstIndexOfKey(args, key) >= 0
    ensures key in FirstOccurrence(args) ==> FirstOccurrence(args)[key] == args[FirstIndexOfKey(args, key)].1
  {
    if |args| > 0 {
      FirstOccurrenceSpec(args[..|args| - 1], key);
    }
  }

  /** `GetAllDictionary`: one entry per argument name, first occurrence wins. */
  method GetAllDictionary(req: Request) returns (result: map<string, seq<string>>)
    ensures result == FirstOccurrence(GetAll(req))
  {
    var all := GetAll(req);
    result := map[];
    var i := 0;
    while i < |all|
      invariant 0 <= i <= |all|
      invariant result == FirstOccurrence(all[..i])
    {
      assert all[..i + 1][..i] == all[..i];
      if all[i].0 !in result {
        result := result[all[i].0 := all[i].1];
      }
      i := i + 1;
    }
    assert all[..i] == all;
  }

  /** Form beats query in the dictionary: a name given in the form maps to
      its first form values, a name given only in the query to its first
      query values, and no other name appears. */
  lemma FormWinsInDictionary(req: Request, key: string)
    ensures var d := FirstOccurrence(GetAll(req));
      (ValuesOf(req.form, key).Some? ==> key in d && d[key] == ValuesOf(req.form, key).value) &&
      (ValuesOf(req.form, key).None? && ValuesOf(req.query, key).Some? ==>
         key in d && d[key] == ValuesOf(req.query, key).value) &&
      (ValuesOf(req.form, key).None? && ValuesOf(req.query, key).None? ==> key !in d)
  {
    var all := GetAll(req);
    FirstOccurrenceSpec(all, key);
    FirstIndexOfKeyAppend(req.form, req.query, key);
    var f := FirstIndexOfKey(req.form, key);
    var q := FirstIndexOfKey(req.query, key);
    if f >= 0 {
      assert all[f] == req.form[f];
    } else if q >= 0 {
      assert all[|req.form| + q] == req.query[q];
    }
  }

  /** The first argument named `key` in `a + b` is the first in `a`, else the first in `b`. */
  lemma {:induction false} FirstIndexOfKeyAppend(a: seq<Argument>, b: seq<Argument>, key: string)
    ensures FirstIndexOfKey(a + b, key) ==
      if FirstIndexOfKey(a, key) >= 0 then FirstIndexOfKey(a, key)
      else if FirstIndexOfKey(b, key) >= 0 then |a| + FirstIndexOfKey(b, key)
      else -1
    decreases |b|
  {
    if |b| == 0 {
      assert a + b == a;
    } else {
      assert (a + b)[..|a + b| - 1] == a + b[..|b| - 1];
      assert (a + b)[|a + b| - 1] == b[|b| - 1];
      FirstIndexOfKeyAppend(a, b[..|b| - 1], key);
    }
  }

  /** When the form gives a non-empty list for `key`, `Get` converts the
      first value of the dictionary's entry for `key`. */
  lemma GetAgreesWithDictionary<T>(req: Request, key: string, defaultValue: T, convert: (string, T) -> T)
    requires ValuesOf(req.form, key).Some? && |ValuesOf(req.form, key).value| > 0
    ensures var d := FirstOccurrence(GetAll(req));
      key in d && |d[key]| > 0 && Get(req, key, defaultValue, convert) == convert(d[key][0], defaultValue)
  {
    FormWinsInDictionary(req, key);
  }

  /** `GetIfModifiedSince`: a missing or empty header is `MinValue`; otherwise
      the header goes through `parse` (RFC 1123 date to UTC ticks), whose
      failure is `MinValue` too. */
  function GetIfModifiedSince(req: Request, parse: string -> Option<int>): (r: int)
    ensures !NonEmpty(GetHeader(req, "If-Modified-Since")) ==> r == MinValue
    ensures NonEmpty(GetHeader(req, "If-Modified-Since")) ==>
      r == parse(req.headers["If-Modified-Since"]).GetOr(MinValue)
  {
    var value := GetHeader(req, "If-Modified-Since");
    if !NonEmpty(value) then MinValue
    else
      var parsed := parse(value.value);
      if parsed.None? then MinValue else parsed.value
  }

  /** `GetReferer`: a missing header is null; otherwise the header goes
      through `parse` (absolute URI parsing), whose failure is null too. */
  function GetReferer<U>(req: Request, parse: string -> Option<U>): (r: Option<U>)
    ensures "Referer" !in req.headers ==> r == None
    ensures "Referer" in req.headers ==> r == parse(req.headers["Referer"])
  {
    var referer := GetHeader(req, "Referer");
    if referer.None? then None else parse(referer.value)
  }
}
