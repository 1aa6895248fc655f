/**
 * The ordered header multimap `HttpHeaders`: a `LinkedHashMap` from a lower-cased
 * name to the list of its values. Names keep the order in which they were first
 * added; each name's values keep the order in which they were added.
 */
module Headers {
  import opened Wrappers
  import opened Text

  /** The abstract value of an `HttpHeaders`: the key order and the map of lists. */
  datatype HeaderMap = HeaderMap(keys: seq<string>, lists: map<string, seq<string>>)

  function Empty(): HeaderMap {
    HeaderMap([], map[])
  }

  /** What `add` keeps true: keys distinct and exactly those of the map, lower case, never an empty list. */
  ghost predicate WellFormed(h: HeaderMap) {
    (forall i, j :: 0 <= i < j < |h.keys| ==> h.keys[i] != h.keys[j]) &&
    (forall k :: k in h.lists <==> k in h.keys) &&
    (forall k :: k in h.lists ==> IsLowerCase(k) && |h.lists[k]| > 0)
  }

  /** `get(key)`: the list stored under exactly `key` (no normalisation), or null. */
  function Lookup(h: HeaderMap, key: string): Option<seq<string>> {
    if key in h.lists then Some(h.lists[key]) else None
  }

  /** The values stored under `key`, empty when there are none. */
  function ValuesOf(h: HeaderMap, key: string): seq<string> {
    if key in h.lists then h.lists[key] else []
  }

  /** `add(name, value)`: lower-case the name, create its list on first use, append the value. */
  function Added(h: HeaderMap, name: string, value: string): (r: HeaderMap)
    ensures Lookup(r, Lower(name)) == Some(ValuesOf(h, Lower(name)) + [value])
    ensures forall key :: key != Lower(name) ==> Lookup(r, key) == Lookup(h, key)
    ensures r.keys == if Lower(name) in h.lists then h.keys else h.keys + [Lower(name)]
  {
    var k := Lower(name);
    if k in h.lists then HeaderMap(h.keys, h.lists[k := h.lists[k] + [value]])
    else assert ValuesOf(h, k) + [value] == [value]; HeaderMap(h.keys + [k], h.lists[k := [value]])
  }

  /** `add` keeps the multimap well formed, whatever name and value it is given. */
  lemma AddedWellFormed(h: HeaderMap, name: string, value: string)
    requires WellFormed(h)
    ensures WellFormed(Added(h, name, value))
  {
    LowerIsLowerCase(name);
  }

  /** The empty multimap is well formed. */
  lemma EmptyWellFormed()
    ensures WellFormed(Empty())
  {
  }

  /**
   * `get` does not lower-case its argument: asking with a name that holds an upper-case
   * letter never finds what `add` stored, while asking with the lower-cased name does.
   */
  lemma GetIsCaseSensitive(h: HeaderMap, name: string, value: string)
    requires WellFormed(h)
    requires !IsLowerCase(name)
    ensures Lookup(Added(h, name, value), name) == None
    ensures Lookup(Added(h, name, value), Lower(name)).Some?
    ensures value in Lookup(Added(h, name, value), Lower(name)).value
  {
    UpperIsNotLowered(name, name);
  }

  /** `add("Content-Type", v)` stores v under "content-type", and `get("Content-Type")` finds nothing. */
  lemma {:induction false} ContentTypeExample(v: string)
    ensures Lookup(Added(Empty(), "Content-Type", v), "content-type") == Some([v])
    ensures Lookup(Added(Empty(), "Content-Type", v), "Content-Type") == None
  {
    assert Lower("Content-Type") == "content-type";
    assert "Content-Type" != "content-type";
  }

  /** Adding a value twice under names that differ only in case accumulates both, in order. */
  lemma AddTwiceAccumulates(h: HeaderMap, name1: string, name2: string, v1: string, v2: string)
    requires Lower(name1) == Lower(name2)
    ensures Lookup(Added(Added(h, name1, v1), name2, v2), Lower(name1))
         == Some(ValuesOf(h, Lower(name1)) + [v1, v2])
  {
    var h1 := Added(h, name1, v1);
    assert ValuesOf(h1, Lower(name1)) == ValuesOf(h, Lower(name1)) + [v1];
    assert ValuesOf(h, Lower(name1)) + [v1] + [v2] == ValuesOf(h, Lower(name1)) + [v1, v2];
  }

  /**
   * An `HttpHeaders` object. The Java class wraps a `LinkedHashMap`; here its entry order
   * is the sequence `keys` and its entries the map `lists`.
   */
  class HttpHeaders {
    var keys: seq<string>
    var lists: map<string, seq<string>>

    function Value(): HeaderMap
      reads this
    {
      HeaderMap(keys, lists)
    }

    ghost predicate Valid()
      reads this
    {
      WellFormed(Value())
    }

    constructor ()
      ensures Valid() && Value() == Empty()
    {
      keys := [];
      lists := map[];
    }

    /** `add`: returns the receiver itself so that calls can be chained. */
    method Add(name: string, value: string) returns (self: HttpHeaders)
      requires Valid()
      modifies this
      ensures Valid()
      ensures self == this
      ensures Value() == Added(old(Value()), name, value)
    {
      ghost var h := Value();
      AddedWellFormed(h, name, value);
      var key := Lower(name);
      if key !in lists {
        keys := keys + [key];
        lists := lists[key := []];
      }
      assert lists[key] == ValuesOf(h, key);
      lists := lists[key := lists[key] + [value]];
      assert lists == Added(h, name, value).lists;
      self := this;
    }

    /** `keySet()`: the names in the order they were first added, all lower case. */
    function KeySet(): (ks: seq<string>)
      reads this
      ensures Valid() ==> forall k :: k in ks <==> k in lists
      ensures Valid() ==> forall i :: 0 <= i < |ks| ==> IsLowerCase(ks[i])
    {
      keys
    }

    /** `get(key)`: the list under exactly `key`; under the invariant never an empty one. */
    function Get(key: string): (r: Option<seq<string>>)
      reads this
      ensures r.Some? <==> key in lists
      ensures r.Some? ==> key in lists && r.value == lists[key]
      ensures Valid() && r.Some? ==> |r.value| > 0
    {
      Lookup(Value(), key)
    }
  }
}
