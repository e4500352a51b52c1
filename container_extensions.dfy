/** Factory building for the IoC container. A factory built for a reuse
    type either is the original factory (transient) or wraps it so that the
    first non-null instance is kept and returned from then on (singleton).
    A factory built for a type picks a constructor and resolves one
    argument per parameter; that choice is made once per type and cached. */
module ContainerExtensions {
  import opened Common

  /** The reuse types; an enum value outside the named ones is `Other`,
      carrying how it formats. */
  datatype ReuseType = Transient | Singleton | Other(display: string)

  datatype ContainerException =
    | ArgumentException(message: string)
    | NotSupportedException(message: string)

  function UnsupportedReuse(reuseType: ReuseType): ContainerException {
    NotSupportedException("unsupported reuse type " + match reuseType
      case Transient => "Transient"
      case Singleton => "Singleton"
      case Other(display) => display)
  }

  /** An original factory: `original(n)` is what its n-th call (from 0)
      returns, `None` standing for null. */
  type Original<V> = nat -> Option<V>

  /** A factory built by `BuildFactory`: it counts the calls it makes to
      the original and, for a singleton, holds the kept instance. */
  class BuiltFactory<V> {
    const original: Original<V>
    const singleton: bool
    /** How often the original factory has been called. */
    var calls: nat
    /** The instance a singleton keeps; null until the original returns one. */
    var value: Option<V>

    constructor (original: Original<V>, singleton: bool)
      ensures this.original == original && this.singleton == singleton
      ensures calls == 0 && value == None
    {
      this.original := original;
      this.singleton := singleton;
      calls := 0;
      value := None;
    }

    /** Calls the factory. Transient: the original is called. Singleton: a
        kept instance is returned; otherwise the original is called and its
        result kept, which a null result leaves empty. */
    method Invoke() returns (r: Option<V>)
      modifies this
      ensures !singleton ==> r == original(old(calls)) && calls == old(calls) + 1 && value == old(value)
      ensures singleton ==> SingletonState(value, calls) == SingletonStep(original, SingletonState(old(value), old(calls)))
      ensures singleton ==> r == value
    {
      if !singleton {
        r := original(calls);
        calls := calls + 1;
        return;
      }
      if value.Some? {
        return value;
      }
      value := original(calls);
      calls := calls + 1;
      r := value;
    }
  }

  /** `BuildFactory(originalFactory, reuseType)`. */
  method BuildFactory<V>(original: Original<V>, reuseType: ReuseType)
    returns (r: Result<BuiltFactory<V>, ContainerException>)
    ensures reuseType.Other? <==> r.Err?
    ensures r.Err? ==> r.error == UnsupportedReuse(reuseType)
    ensures r.Ok? ==> fresh(r.value) && r.value.original == original
    ensures r.Ok? ==> r.value.calls == 0 && r.value.value == None
    ensures r.Ok? ==> (r.value.singleton <==> reuseType == Singleton)
  {
    if reuseType == Transient {
      var f := new BuiltFactory(original, false);
      return Ok(f);
    } else if reuseType == Singleton {
      var f := new BuiltFactory(original, true);
      return Ok(f);
    } else {
      return Err(UnsupportedReuse(reuseType));
    }
  }

  /** A singleton wrapper's state: the kept instance and the original's call count. */
  datatype SingletonState<V> = SingletonState(value: Option<V>, calls: nat)

  function SingletonStep<V>(original: Original<V>, s: SingletonState<V>): SingletonState<V> {
    if s.value.Some? then s else SingletonState(original(s.calls), s.calls + 1)
  }

  /** The state after `n` calls of a fresh singleton wrapper. */
  function SingletonAfter<V>(original: Original<V>, n: nat): SingletonState<V> {
    if n == 0 then SingletonState(None, 0) else SingletonStep(original, SingletonAfter(original, n - 1))
  }

  /** After n calls, the singleton wrapper has called the original until it
      first returned an instance, and no more: every earlier call returned
      null, and while none returned one the original was called every time. */
  lemma {:induction false} SingletonCallsUntilInstance<V>(original: Original<V>, n: nat)
    ensures var s := SingletonAfter(original, n);
      s.calls <= n &&
      (forall k | 0 <= k < s.calls - 1 :: original(k).None?) &&
      (s.value.None? ==> s.calls == n && forall k | 0 <= k < n :: original(k).None?) &&
      (s.value.Some? ==> s.calls > 0 && s.value == original(s.calls - 1))
  {
    if n > 0 {
      SingletonCallsUntilInstance(original, n - 1);
    }
  }

  /** Once the singleton holds an instance, every later call returns that
      same instance without calling the original. */
  lemma {:induction false} SingletonKeepsInstance<V>(original: Original<V>, n: nat, m: nat)
    requires SingletonAfter(original, n).value.Some?
    requires n <= m
    ensures SingletonAfter(original, m) == SingletonAfter(original, n)
    decreases m - n
  {
    if n < m {
      SingletonKeepsInstance(original, n, m - 1);
    }
  }

  /** The container's own test: a transient factory returns a new object on
      each call, a singleton factory the same one. */
  method FactoryScenario(a: int, b: int)
    requires a != b
  {
    var original: Original<int> := (n: nat) => if n == 0 then Some(a) else Some(b);
    var built := BuildFactory(original, Transient);
    var f := built.value;
    var x := f.Invoke();
    var y := f.Invoke();
    assert x != y;
    built := BuildFactory(original, Singleton);
    f := built.value;
    x := f.Invoke();
    y := f.Invoke();
    assert x == y == Some(a) && f.calls == 1;
  }

  /** A constructor parameter: its type, and for `IEnumerable<X>` the element type X. */
  datatype Parameter = Parameter(typeName: string, enumerableOf: Option<string>)

  /** A constructor as `GetConstructors()` reports it. That call returns the
      public constructors only, so in the lists it yields `isPublic` always
      holds; the flag is kept because the most-parameters rule filters on it
      again. */
  datatype ConstructorInfo = ConstructorInfo(isPublic: bool, hasInject: bool, parameters: seq<Parameter>)

  /** How an argument is obtained from the container. */
  datatype Argument =
    | ResolveMany(elementType: string)
    | ResolveOrDefault(typeName: string)

  /** The index of the first constructor with the Inject attribute, or -1. */
  function FirstInject(cs: seq<ConstructorInfo>): (r: int)
    ensures -1 <= r < |cs|
    ensures r == -1 <==> forall i | 0 <= i < |cs| :: !cs[i].hasInject
    ensures r >= 0 ==> cs[r].hasInject && forall i | 0 <= i < r :: !cs[i].hasInject
  {
    if |cs| == 0 then -1
    else if cs[0].hasInject then 0
    else
      var k := FirstInject(cs[1..]);
      if k == -1 then -1 else k + 1
  }

  /** The index of the public constructor with the most parameters, the
      first of them on a tie (a stable descending sort, then the first), or -1. */
  function MostParameters(cs: seq<ConstructorInfo>): (r: int)
    ensures -1 <= r < |cs|
    ensures r == -1 <==> forall i | 0 <= i < |cs| :: !cs[i].isPublic
    ensures r >= 0 ==> cs[r].isPublic
    ensures r >= 0 ==> forall i | 0 <= i < |cs| && cs[i].isPublic :: |cs[i].parameters| <= |cs[r].parameters|
    ensures r >= 0 ==> forall i | 0 <= i < r && cs[i].isPublic :: |cs[i].parameters| < |cs[r].parameters|
  {
    if |cs| == 0 then -1
    else
      var last := |cs| - 1;
      var b := MostParameters(cs[..last]);
      assert forall i | 0 <= i < last :: cs[..last][i] == cs[i];
      if cs[last].isPublic && (b == -1 || |cs[last].parameters| > |cs[b].parameters|) then last else b
  }

  /** The constructor the factory uses: the first marked Inject, else the
      public one with the most parameters, else an error. */
  function ChooseConstructor(typeName: string, cs: seq<ConstructorInfo>): (r: Result<nat, ContainerException>)
    ensures r.Ok? ==> r.value < |cs|
    ensures FirstInject(cs) >= 0 ==> r == Ok(FirstInject(cs) as nat)
    ensures FirstInject(cs) == -1 ==> (r.Ok? <==> exists i | 0 <= i < |cs| :: cs[i].isPublic)
    ensures FirstInject(cs) == -1 && r.Ok? ==> r.value == MostParameters(cs)
    ensures r.Err? ==>
      r.error == ArgumentException("Type " + typeName + " should have atleast one public constructor")
  {
    var inject := FirstInject(cs);
    if inject >= 0 then Ok(inject as nat)
    else
      var most := MostParameters(cs);
      if most >= 0 then Ok(most as nat)
      else Err(ArgumentException("Type " + typeName + " should have atleast one public constructor"))
  }

  /** How one parameter is resolved. */
  function ArgumentFor(p: Parameter): (r: Argument)
    ensures r.ResolveMany? <==> p.enumerableOf.Some?
    ensures r.ResolveMany? ==> r.elementType == p.enumerableOf.value
    ensures r.ResolveOrDefault? ==> r.typeName == p.typeName
  {
    match p.enumerableOf
    case Some(x) => ResolveMany(x)
    case None => ResolveOrDefault(p.typeName)
  }

  /** The argument expressions of `c`, one per parameter, in order. */
  method ArgumentExpressions(c: ConstructorInfo) returns (args: seq<Argument>)
    ensures |args| == |c.parameters|
    ensures forall i | 0 <= i < |args| :: args[i] == ArgumentFor(c.parameters[i])
  {
    args := [];
    var i := 0;
    while i < |c.parameters|
      invariant 0 <= i <= |c.parameters|
      invariant |args| == i
      invariant forall k | 0 <= k < i :: args[k] == ArgumentFor(c.parameters[k])
    {
      args := args + [ArgumentFor(c.parameters[i])];
      i := i + 1;
    }
  }

  /** A compiled per-type factory: the container its argument expressions
      resolve from (by identity), the chosen constructor and its arguments. */
  datatype TypeFactory = TypeFactory(container: nat, constructorIndex: nat, arguments: seq<Argument>)

  /** The per-type factory `container` builds for `typeName`, or the error
      its construction throws. */
  function MakeTypeFactory(container: nat, typeName: string, cs: seq<ConstructorInfo>)
    : (r: Result<TypeFactory, ContainerException>)
    ensures r.Ok? <==> ChooseConstructor(typeName, cs).Ok?
    ensures r.Ok? ==> r.value.container == container
    ensures r.Ok? ==> r.value.constructorIndex == ChooseConstructor(typeName, cs).value
    ensures r.Ok? ==> |r.value.arguments| == |cs[r.value.constructorIndex].parameters|
    ensures r.Ok? ==> forall i | 0 <= i < |r.value.arguments| ::
      r.value.arguments[i] == ArgumentFor(cs[r.value.constructorIndex].parameters[i])
    ensures r.Err? ==> r.error == ChooseConstructor(typeName, cs).error
  {
    match ChooseConstructor(typeName, cs)
    case Err(e) => Err(e)
    case Ok(k) => Ok(TypeFactory(container, k, seq(|cs[k].parameters|, i requires 0 <= i < |cs[k].parameters| =>
                                        ArgumentFor(cs[k].parameters[i]))))
  }

  /** An object the compiled constructor call creates: the factory that
      made it and how many it had made before (never null). */
  datatype Instance = Instance(factory: TypeFactory, serial: nat)

  /** The compiled per-type factory as an original factory: its n-th call
      creates a new instance. */
  function Construct(factory: TypeFactory): Original<Instance>
  {
    (n: nat) => Some(Instance(factory, n))
  }

  /** The process-wide cache of per-type factories, keyed by type alone. */
  class TypeFactoryCache {
    var cache: map<string, TypeFactory>

    constructor ()
      ensures cache == map[]
    {
      cache := map[];
    }

    /** `BuildFactory(type, reuseType)`: the per-type factory, built and
        cached on first use (a failed build caches nothing), wrapped by
        `BuildFactory(factory, reuseType)` in a new transient or singleton
        factory. A cached factory keeps resolving from the container that
        built it, whichever container asks. */
    method BuildTypeFactory(container: nat, typeName: string, constructors: seq<ConstructorInfo>,
                            reuseType: ReuseType)
      returns (r: Result<BuiltFactory<Instance>, ContainerException>)
      modifies this
      ensures typeName in old(cache) ==> cache == old(cache)
      ensures typeName !in old(cache) ==>
        var made := MakeTypeFactory(container, typeName, constructors);
        (made.Err? ==> cache == old(cache) && r == Err(made.error)) &&
        (made.Ok? ==> cache == old(cache)[typeName := made.value])
      ensures typeName in cache ==> (r.Err? <==> reuseType.Other?)
      ensures typeName in cache && r.Err? ==> r.error == UnsupportedReuse(reuseType)
      ensures r.Ok? ==>
        typeName in cache && fresh(r.value) && r.value.original == Construct(cache[typeName]) &&
        (r.value.singleton <==> reuseType == Singleton) && r.value.calls == 0 && r.value.value == None
    {
      var factory: TypeFactory;
      if typeName in cache {
        factory := cache[typeName];
      } else {
        var chosen := ChooseConstructor(typeName, constructors);
        if chosen.Err? {
          return Err(chosen.error);
        }
        var args := ArgumentExpressions(constructors[chosen.value]);
        ghost var made := MakeTypeFactory(container, typeName, constructors);
        assert args == made.value.arguments;
        factory := TypeFactory(container, chosen.value, args);
        cache := cache[typeName := factory];
      }
      r := BuildFactory(Construct(factory), reuseType);
    }
  }

  /** Two containers asking for the same type: the second gets a wrapper
      around the factory cached for the first, which resolves its arguments
      from the first container. */
  method SecondContainerGetsFirst(typeName: string, cs: seq<ConstructorInfo>, first: nat, second: nat)
    returns (factory: TypeFactory, r1: Result<BuiltFactory<Instance>, ContainerException>,
             r2: Result<BuiltFactory<Instance>, ContainerException>)
    requires ChooseConstructor(typeName, cs).Ok?
    ensures factory.container == first
    ensures r1.Ok? && r1.value.original == Construct(factory)
    ensures r2.Ok? && r2.value.original == Construct(factory)
  {
    var cache := new TypeFactoryCache();
    r1 := cache.BuildTypeFactory(first, typeName, cs, Transient);
    factory := cache.cache[typeName];
    r2 := cache.BuildTypeFactory(second, typeName, cs, Transient);
  }

  /** Resolving a type registered as a singleton: the factory returns one
      instance on every call; registered as transient, a new one each call. */
  method TypeReuseScenario(typeName: string, cs: seq<ConstructorInfo>, container: nat)
    returns (s1: Instance, s2: Instance, t1: Instance, t2: Instance)
    requires ChooseConstructor(typeName, cs).Ok?
    ensures s1 == s2
    ensures t1 != t2
  {
    var cache := new TypeFactoryCache();
    var single := cache.BuildTypeFactory(container, typeName, cs, Singleton);
    var f := single.value;
    var x := f.Invoke();
    var y := f.Invoke();
    s1, s2 := x.value, y.value;
    var transient := cache.BuildTypeFactory(container, typeName, cs, Transient);
    var g := transient.value;
    x := g.Invoke();
    y := g.Invoke();
    t1, t2 := x.value, y.value;
  }
}
