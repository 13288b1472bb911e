/**
 * The declarative route records the core reads and builds:
 * `RouteDefinition`, `PredicateDefinition` and `FilterDefinition`.
 * Their argument maps are `LinkedHashMap`s, so they keep insertion order;
 * they are modelled as sequences of (key, value) pairs.
 */
module RouteDefinitions {
  import opened Wrappers
  import opened Strings

  /** An insertion-ordered String-to-String map; values may be null. */
  type Args = seq<(string, JString)>

  /** The keys of `args`, in iteration order. */
  function Keys(args: Args): (ks: seq<string>)
    ensures |ks| == |args|
    ensures forall i :: 0 <= i < |args| ==> ks[i] == args[i].0
  {
    if args == [] then [] else [args[0].0] + Keys(args[1..])
  }

  /** A map never holds the same key twice. */
  ghost predicate DistinctKeys(args: Args)
  {
    forall i, j :: 0 <= i < j < |args| ==> args[i].0 != args[j].0
  }

  /** `map.get(key)`, with `None` for an absent key. */
  function Lookup(args: Args, key: string): (r: Option<JString>)
    ensures r.None? <==> key !in Keys(args)
    ensures r.Some? ==> (key, r.value) in args
  {
    if args == [] then None
    else if args[0].0 == key then Some(args[0].1)
    else Lookup(args[1..], key)
  }

  /** `LinkedHashMap.put`: a present key keeps its position and takes the
      new value; an absent key is appended at the end. */
  function Put(args: Args, key: string, value: JString): (r: Args)
    ensures key !in Keys(args) ==> r == args + [(key, value)]
    ensures key in Keys(args) ==> Keys(r) == Keys(args)
  {
    if args == [] then [(key, value)]
    else if args[0].0 == key then [(key, value)] + args[1..]
    else
      var rest := Put(args[1..], key, value);
      assert Keys(args) == [args[0].0] + Keys(args[1..]);
      assert key in Keys(args) ==> Keys([args[0]] + rest) == [args[0].0] + Keys(rest);
      [args[0]] + rest
  }

  /** After `put(key, value)`, `get(key)` answers `value` and every other
      key answers what it answered before. */
  lemma {:induction false} PutLookup(args: Args, key: string, value: JString, other: string)
    ensures Lookup(Put(args, key, value), key) == Some(value)
    ensures other != key ==> Lookup(Put(args, key, value), other) == Lookup(args, other)
  {
    if args != [] && args[0].0 != key {
      PutLookup(args[1..], key, value, other);
    }
  }

  /** `put` keeps the keys of a map distinct. */
  lemma {:induction false} PutKeepsDistinct(args: Args, key: string, value: JString)
    requires DistinctKeys(args)
    ensures DistinctKeys(Put(args, key, value))
  {
    if args != [] && args[0].0 != key {
      PutKeepsDistinct(args[1..], key, value);
      var r := Put(args, key, value);
      var rest := Put(args[1..], key, value);
      assert r == [args[0]] + rest;
      assert args[0].0 !in Keys(args[1..]);
      if key in Keys(args[1..]) {
        assert Keys(rest) == Keys(args[1..]);
      } else {
        assert rest == args[1..] + [(key, value)];
      }
      forall j | 0 < j < |r| ensures r[0].0 != r[j].0 {
        assert r[j] == rest[j - 1];
        assert Keys(rest)[j - 1] == rest[j - 1].0;
      }
    }
  }

  /** A `PredicateDefinition` or a `FilterDefinition`: both are a name and
      an ordered argument map. */
  datatype Definition = Definition(name: JString, args: Args)

  type PredicateDefinition = Definition
  type FilterDefinition = Definition

  /** A `RouteDefinition`; `id` and `uri` are null until set. */
  datatype RouteDefinition = RouteDefinition(
    id: JString,
    uri: JString,
    predicates: seq<PredicateDefinition>,
    filters: seq<FilterDefinition>,
    metadata: map<string, string>,
    order: int)

  /** `new RouteDefinition()`. */
  function NewRouteDefinition(): RouteDefinition
  {
    RouteDefinition(None, None, [], [], map[], 0)
  }
}
