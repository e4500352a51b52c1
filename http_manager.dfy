/** The current-context slot of the web layer. An override installs a
    context and hands back a disposer; disposing puts the previous context
    back, but only while the overriding context is still the current one. */
module HttpManager {
  import opened Common

  /** `CurrentContext` threw: no context is in use. */
  datatype NullReferenceException = NullReferenceException(message: string)

  /** What the disposer returned by an override remembers. */
  datatype OverrideDisposer<C> = OverrideDisposer(context: C, original: Option<C>)

  /** The slot after the disposer `d` has run on slot value `current`. */
  function AfterDispose<C(==)>(current: Option<C>, d: OverrideDisposer<C>): (r: Option<C>)
    ensures current == Some(d.context) ==> r == d.original
    ensures current != Some(d.context) ==> r == current
  {
    if current == Some(d.context) then d.original else current
  }

  /** The slot after overriding with `cs[0]`, then with `cs[1]` inside it,
      and so on, each disposer run when its block ends (innermost first). */
  function Nested<C(==)>(current: Option<C>, cs: seq<C>): Option<C>
    decreases |cs|
  {
    if |cs| == 0 then current
    else AfterDispose(Nested(Some(cs[0]), cs[1..]), OverrideDisposer(cs[0], current))
  }

  /** Properly nested overrides disposed in reverse order leave the slot as
      it was before the outermost one. */
  lemma {:induction false} NestedRestores<C>(current: Option<C>, cs: seq<C>)
    ensures Nested(current, cs) == current
    decreases |cs|
  {
    if |cs| > 0 {
      NestedRestores(Some(cs[0]), cs[1..]);
    }
  }

  /** A disposer run out of turn, while another context is current, changes nothing. */
  lemma StaleDisposeIsIgnored<C>(current: Option<C>, d: OverrideDisposer<C>)
    requires current.Some? && current.value != d.context
    ensures AfterDispose(current, d) == current
  {
  }

  /** The context slot of one thread. `C` stands for the context type,
      compared by reference. */
  class HttpManager<C(==)> {
    var current: Option<C>

    constructor ()
      ensures current == None
    {
      current := None;
    }

    /** The context in use, or an error when there is none. */
    method CurrentContext() returns (r: Result<C, NullReferenceException>)
      ensures r.Err? <==> current.None?
      ensures r.Ok? ==> r.value == current.value
      ensures r.Err? ==> r.error == NullReferenceException("Context does not exists")
    {
      if current.None? {
        return Err(NullReferenceException("Context does not exists"));
      }
      r := Ok(current.value);
    }

    method CurrentContextExists() returns (b: bool)
      ensures b <==> current.Some?
    {
      b := current != None;
    }

    /** Makes `context` current; the disposer remembers what it replaced. */
    method OverrideContext(context: C) returns (d: OverrideDisposer<C>)
      modifies this
      ensures current == Some(context)
      ensures d == OverrideDisposer(context, old(current))
    {
      d := OverrideDisposer(context, current);
      current := Some(context);
    }

    /** Restores the context `d` replaced, if `d`'s context is still current. */
    method Dispose(d: OverrideDisposer<C>)
      modifies this
      ensures current == AfterDispose(old(current), d)
    {
      if current == Some(d.context) {
        current := d.original;
      }
    }
  }

  /** Two nested overrides, disposed inner first, restore "a" then nothing. */
  method NestedOverrideScenario<C(==)>(a: C, b: C)
  {
    var m := new HttpManager<C>();
    var outer := m.OverrideContext(a);
    var inner := m.OverrideContext(b);
    var r := m.CurrentContext();
    assert r == Ok(b);
    m.Dispose(inner);
    r := m.CurrentContext();
    assert r == Ok(a);
    m.Dispose(outer);
    var present := m.CurrentContextExists();
    assert !present;
  }
}
