/** Values shared by every part of the model: nullable references, error
    returns, small string helpers and the clock unit. */
module Common {

  /** A C# reference that may be null. */
  datatype Option<+T> = None | Some(value: T) {
    function GetOr(default: T): T {
      match this
      case Some(v) => v
      case None => default
    }
  }

  /** A call that either returns a value or throws. */
  datatype Result<+T, +E> = Ok(value: T) | Err(error: E)

  /** A call returning nothing that may throw. */
  datatype Outcome<+E> = Pass | Fail(error: E)

  /** .NET time is counted in ticks of 100 ns. */
  const TicksPerSecond: int := 10_000_000

  /** `DateTime.Truncate()`, which both file results apply to the write
      time: drop the fraction of a second (ticks are not negative). */
  function Truncate(ticks: nat): (r: nat)
    ensures r <= ticks < r + TicksPerSecond
    ensures r % TicksPerSecond == 0
  {
    ticks - ticks % TicksPerSecond
  }

  /** Truncating twice is truncating once. */
  lemma TruncateIdempotent(ticks: nat)
    ensures Truncate(Truncate(ticks)) == Truncate(ticks)
  {
  }

  /** `string.IsNullOrEmpty(s)` negated. */
  predicate NonEmpty(s: Option<string>) {
    s.Some? && |s.value| > 0
  }

  /** `s.StartsWith(p)` read ordinally: the one-argument .NET call compares
      under the current culture, which differs only for strings holding
      characters the culture ignores. */
  predicate StartsWith(s: string, p: string) {
    |p| <= |s| && s[..|p|] == p
  }

  /** `s.EndsWith(p)` read ordinally, as `StartsWith` is. */
  predicate EndsWith(s: string, p: string) {
    |p| <= |s| && s[|s| - |p|..] == p
  }

  /** Index of the first occurrence of `c` in `s`, as `s.IndexOf(c)` (-1 when absent). */
  function IndexOf(s: string, c: char): (r: int)
    ensures -1 <= r < |s|
    ensures r == -1 <==> c !in s
    ensures r >= 0 ==> s[r] == c && c !in s[..r]
  {
    if |s| == 0 then -1
    else if s[0] == c then 0
    else
      var k := IndexOf(s[1..], c);
      assert s[1..][..(if k >= 0 then k else 0)] == s[1..1 + (if k >= 0 then k else 0)];
      if k == -1 then -1 else k + 1
  }
}
