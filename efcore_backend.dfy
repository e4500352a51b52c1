/** Backend selection of the EF Core base database context: the database
    identifier, compared without regard to case, picks one provider; the
    connection string is passed on unchanged except that SQLite has every
    `{{App_Data}}` replaced by the App_Data directory. */
module EFCoreBackend {
  import opened Common

  /** The provider `OnConfiguring` selects, with the connection string it receives. */
  datatype Backend =
    | SqlServer(connectionString: string, rowNumberPaging: bool)
    | Sqlite(connectionString: string)
    | MySql(connectionString: string)
    | Npgsql(connectionString: string)
    | InMemory

  datatype ArgumentException = ArgumentException(message: string)

  const AppDataPlaceholder := "{{App_Data}}"

  /** What `{Database}` in the error message formats to: the context's
      database facade, whose type name is printed, not the identifier. */
  const DatabaseFacadeName := "Microsoft.EntityFrameworkCore.Infrastructure.DatabaseFacade"

  /** Case folding of the current culture (`string.Compare(a, b, true)`),
      restricted to ASCII letters. */
  function Fold(c: char): (r: char)
    ensures 'A' <= c <= 'Z' ==> r as int == c as int + 32
    ensures !('A' <= c <= 'Z') ==> r == c
  {
    if 'A' <= c <= 'Z' then (c as int + 32) as char else c
  }

  /** `string.Compare(a, b, true) == 0`. */
  predicate EqualsIgnoreCase(a: string, b: string) {
    |a| == |b| && forall i | 0 <= i < |a| :: Fold(a[i]) == Fold(b[i])
  }

  /** `s.Replace(pattern, replacement)`: every occurrence, scanning left to
      right without overlaps. */
  function ReplaceAll(s: string, pattern: string, replacement: string): string
    requires |pattern| > 0
    decreases |s|
  {
    if |s| < |pattern| then s
    else if s[..|pattern|] == pattern then replacement + ReplaceAll(s[|pattern|..], pattern, replacement)
    else [s[0]] + ReplaceAll(s[1..], pattern, replacement)
  }

  /** `pattern` occurs in `s`. */
  predicate Occurs(s: string, pattern: string)
    decreases |s|
  {
    |s| >= |pattern| && (s[..|pattern|] == pattern || (|s| > 0 && Occurs(s[1..], pattern)))
  }

  /** A string without the pattern is left as it is. */
  lemma {:induction false} ReplaceAbsent(s: string, pattern: string, replacement: string)
    requires |pattern| > 0 && !Occurs(s, pattern)
    ensures ReplaceAll(s, pattern, replacement) == s
    decreases |s|
  {
    if |s| >= |pattern| {
      ReplaceAbsent(s[1..], pattern, replacement);
      assert s == [s[0]] + s[1..];
    }
  }

  /** A pattern occurrence with no occurrence before it is replaced, and the
      text before it kept. */
  lemma {:induction false} ReplaceFirst(prefix: string, pattern: string, replacement: string, rest: string)
    requires |pattern| > 0 && !Occurs(prefix + pattern[..|pattern| - 1], pattern)
    ensures ReplaceAll(prefix + pattern + rest, pattern, replacement) ==
      prefix + replacement + ReplaceAll(rest, pattern, replacement)
    decreases |prefix|
  {
    if |prefix| == 0 {
      ReplaceFirstAtStart(pattern, replacement, rest);
    } else {
      ReplaceFirstStep(prefix, pattern, replacement, rest);
      ReplaceFirst(prefix[1..], pattern, replacement, rest);
      ConsConcat(prefix, replacement, ReplaceAll(rest, pattern, replacement));
    }
  }

  /** Putting the first character back in front of the rest of a string. */
  lemma ConsConcat(a: string, b: string, c: string)
    requires |a| > 0
    ensures [a[0]] + (a[1..] + b + c) == a + b + c
  {
    assert a == [a[0]] + a[1..];
  }

  /** The base case of `ReplaceFirst`: the pattern comes first. */
  lemma ReplaceFirstAtStart(pattern: string, replacement: string, rest: string)
    requires |pattern| > 0
    ensures ReplaceAll(pattern + rest, pattern, replacement) == replacement + ReplaceAll(rest, pattern, replacement)
  {
    ReplaceAt(pattern + rest, pattern, replacement);
    assert (pattern + rest)[|pattern|..] == rest;
  }

  /** One step of `ReplaceFirst`: the first character of the prefix is kept. */
  lemma ReplaceFirstStep(prefix: string, pattern: string, replacement: string, rest: string)
    requires |prefix| > 0 && |pattern| > 0 && !Occurs(prefix + pattern[..|pattern| - 1], pattern)
    ensures !Occurs(prefix[1..] + pattern[..|pattern| - 1], pattern)
    ensures ReplaceAll(prefix + pattern + rest, pattern, replacement) ==
      [prefix[0]] + ReplaceAll(prefix[1..] + pattern + rest, pattern, replacement)
  {
    var n := |pattern|;
    var t := prefix + pattern[..n - 1];
    NotOccursFront(t, pattern);
    TailConcat(prefix, pattern[..n - 1]);
    SameFront(prefix, pattern, rest);
    ReplaceSkip(prefix + pattern + rest, pattern, replacement);
    TailConcat(prefix + pattern, rest);
    TailConcat(prefix, pattern);
  }

  /** Dropping the first character of a concatenation with a non-empty front. */
  lemma TailConcat(a: string, b: string)
    requires |a| > 0
    ensures (a + b)[1..] == a[1..] + b && (a + b)[0] == a[0]
  {
  }

  /** A pattern after a non-empty prefix begins the same whatever follows its last character. */
  lemma SameFront(prefix: string, pattern: string, rest: string)
    requires |prefix| > 0 && |pattern| > 0
    ensures (prefix + pattern + rest)[..|pattern|] == (prefix + pattern[..|pattern| - 1])[..|pattern|]
  {
  }

  /** A string starting with the pattern has it replaced there. */
  lemma ReplaceAt(s: string, pattern: string, replacement: string)
    requires 0 < |pattern| <= |s| && s[..|pattern|] == pattern
    ensures ReplaceAll(s, pattern, replacement) == replacement + ReplaceAll(s[|pattern|..], pattern, replacement)
  {
  }

  /** A string not starting with the pattern keeps its first character. */
  lemma ReplaceSkip(s: string, pattern: string, replacement: string)
    requires 0 < |pattern| <= |s| && s[..|pattern|] != pattern
    ensures ReplaceAll(s, pattern, replacement) == [s[0]] + ReplaceAll(s[1..], pattern, replacement)
  {
  }

  /** A string long enough for the pattern, without it, neither starts with
      it nor has it after its first character. */
  lemma NotOccursFront(t: string, pattern: string)
    requires 0 < |pattern| <= |t| && !Occurs(t, pattern)
    ensures t[..|pattern|] != pattern && !Occurs(t[1..], pattern)
  {
  }

  /** A SQLite connection string with one placeholder gets the App_Data directory in its place. */
  lemma SqliteAppData(prefix: string, rest: string, appDataDirectory: string)
    requires !Occurs(prefix + AppDataPlaceholder[..|AppDataPlaceholder| - 1], AppDataPlaceholder)
    requires !Occurs(rest, AppDataPlaceholder)
    ensures Configure("SQLite", prefix + AppDataPlaceholder + rest, appDataDirectory) ==
      Ok(Sqlite(prefix + appDataDirectory + rest))
  {
    ReplaceFirst(prefix, AppDataPlaceholder, appDataDirectory, rest);
    ReplaceAbsent(rest, AppDataPlaceholder, appDataDirectory);
    BackendOf("SQLite", prefix + AppDataPlaceholder + rest, appDataDirectory);
  }

  /** One of the five identifiers matches. */
  predicate Supported(database: string) {
    EqualsIgnoreCase(database, "MSSQL") || EqualsIgnoreCase(database, "SQLite") ||
    EqualsIgnoreCase(database, "MySQL") || EqualsIgnoreCase(database, "PostgreSQL") ||
    EqualsIgnoreCase(database, "InMemory")
  }

  /** The provider chosen for `database`, or the error `OnConfiguring` throws. */
  function Configure(database: string, connectionString: string, appDataDirectory: string)
    : (r: Result<Backend, ArgumentException>)
    ensures r.Err? <==> !Supported(database)
    ensures r.Err? ==> r.error == ArgumentException("unsupported database type " + DatabaseFacadeName)
  {
    if EqualsIgnoreCase(database, "MSSQL") then Ok(SqlServer(connectionString, true))
    else if EqualsIgnoreCase(database, "SQLite") then
      Ok(Sqlite(ReplaceAll(connectionString, AppDataPlaceholder, appDataDirectory)))
    else if EqualsIgnoreCase(database, "MySQL") then Ok(MySql(connectionString))
    else if EqualsIgnoreCase(database, "PostgreSQL") then Ok(Npgsql(connectionString))
    else if EqualsIgnoreCase(database, "InMemory") then Ok(InMemory)
    else Err(ArgumentException("unsupported database type " + DatabaseFacadeName))
  }

  /** No identifier matches two of the names, so the order of the checks does not matter. */
  lemma NamesDisjoint(database: string)
    ensures !(EqualsIgnoreCase(database, "MSSQL") && EqualsIgnoreCase(database, "MySQL"))
  {
    if EqualsIgnoreCase(database, "MSSQL") {
      assert Fold(database[1]) == 's';
    }
  }

  /** Each identifier selects its own backend whatever its case; only SQLite
      rewrites the connection string and InMemory drops it. */
  lemma BackendOf(database: string, connectionString: string, appDataDirectory: string)
    ensures EqualsIgnoreCase(database, "MSSQL") ==>
      Configure(database, connectionString, appDataDirectory) == Ok(SqlServer(connectionString, true))
    ensures EqualsIgnoreCase(database, "SQLite") ==>
      Configure(database, connectionString, appDataDirectory) ==
        Ok(Sqlite(ReplaceAll(connectionString, AppDataPlaceholder, appDataDirectory)))
    ensures EqualsIgnoreCase(database, "MySQL") ==>
      Configure(database, connectionString, appDataDirectory) == Ok(MySql(connectionString))
    ensures EqualsIgnoreCase(database, "PostgreSQL") ==>
      Configure(database, connectionString, appDataDirectory) == Ok(Npgsql(connectionString))
    ensures EqualsIgnoreCase(database, "InMemory") ==>
      Configure(database, connectionString, appDataDirectory) == Ok(InMemory)
  {
    NamesDisjoint(database);
  }

  /** The identifier is matched without regard to case. */
  lemma LowerCaseNames()
    ensures Configure("mssql", "cs", "dir") == Ok(SqlServer("cs", true))
    ensures Configure("postgresql", "cs", "dir") == Ok(Npgsql("cs"))
  {
    assert EqualsIgnoreCase("mssql", "MSSQL");
    assert EqualsIgnoreCase("postgresql", "PostgreSQL");
    BackendOf("mssql", "cs", "dir");
    BackendOf("postgresql", "cs", "dir");
  }

  /** An identifier outside the five is an error. */
  lemma UnknownName()
    ensures Configure("Oracle", "cs", "dir").Err?
  {
    assert !EqualsIgnoreCase("Oracle", "MSSQL") by {
      assert |"Oracle"| != |"MSSQL"|;
    }
    assert !EqualsIgnoreCase("Oracle", "SQLite") by {
      assert Fold("Oracle"[0]) != Fold("SQLite"[0]);
    }
  }

  /** The context only remembers its identifier and connection string;
      nothing is checked until it is configured. */
  class EFCoreDatabaseContextBase {
    const databaseName: string
    const connectionString: string

    constructor (database: string, connectionString: string)
      ensures databaseName == database && this.connectionString == connectionString
    {
      databaseName := database;
      this.connectionString := connectionString;
    }

    method OnConfiguring(appDataDirectory: string) returns (r: Result<Backend, ArgumentException>)
      ensures r == Configure(databaseName, connectionString, appDataDirectory)
    {
      if EqualsIgnoreCase(databaseName, "MSSQL") {
        r := Ok(SqlServer(connectionString, true));
      } else if EqualsIgnoreCase(databaseName, "SQLite") {
        r := Ok(Sqlite(ReplaceAll(connectionString, AppDataPlaceholder, appDataDirectory)));
      } else if EqualsIgnoreCase(databaseName, "MySQL") {
        r := Ok(MySql(connectionString));
      } else if EqualsIgnoreCase(databaseName, "PostgreSQL") {
        r := Ok(Npgsql(connectionString));
      } else if EqualsIgnoreCase(databaseName, "InMemory") {
        r := Ok(InMemory);
      } else {
        r := Err(ArgumentException("unsupported database type " + DatabaseFacadeName));
      }
    }
  }
}
