/**
 _referenced_schemas of mcp_server.py: the schemas a value refers to, directly or through other schemas,
 over a graph of schemas that may be cyclic.
 */
module Schemas {
  import opened Options

  datatype Member = Member(key: string, value: Json)

  datatype Json =
    | Null
    | Bool(b: bool)
    | Number(n: real)
    | Text(text: string)
    | List(items: seq<Json>)
    | Dict(members: seq<Member>)

  type Name = string

  type Catalog = map<Name, Json>

  const PREFIX: string := "#/components/schemas/"

  /** The value of the "$ref" key, if there is one. */
  function Lookup(members: seq<Member>, key: string): Option<Json> {
    if members == [] then None
    else if members[0].key == key then Some(members[0].value)
    else Lookup(members[1..], key)
  }

  /** The schema name a dictionary itself refers to. */
  function Reference(members: seq<Member>): Option<Name> {
    var ref := Lookup(members, "$ref");
    if ref.Some? && ref.value.Text? && |PREFIX| <= |ref.value.text| && ref.value.text[..|PREFIX|] == PREFIX
    then Some(ref.value.text[|PREFIX|..]) else None
  }

  function AsSet(name: Option<Name>): set<Name> {
    if name.Some? then {name.value} else {}
  }

  /** The schema names that occur in a value, at any depth, without following any. */
  function Mentions(node: Json): set<Name>
    decreases node, 0
  {
    match node
    case List(items) => MentionsItems(items)
    case Dict(members) => AsSet(Reference(members)) + MentionsMembers(members)
    case _ => {}
  }

  function MentionsItems(items: seq<Json>): set<Name> {
    if items == [] then {} else Mentions(items[0]) + MentionsItems(items[1..])
  }

  function MentionsMembers(members: seq<Member>): set<Name> {
    if members == [] then {} else Mentions(members[0].value) + MentionsMembers(members[1..])
  }

  /** What a reference looks like: a dictionary with the schema's path under "$ref". */
  lemma ReferenceMentions(name: Name, others: seq<Member>)
    ensures Mentions(Dict([Member("$ref", Text("#/components/schemas/" + name))] + others))
            == {name} + MentionsMembers(others)
  {
    var ref := Member("$ref", Text("#/components/schemas/" + name));
    assert ([ref] + others)[1..] == others;
    assert Mentions(ref.value) == {};
  }

  // ---------------------------------------------------------------- collecting

  /** The dictionary's own reference: added and followed unless it is known already or to no schema. */
  function Follow(reference: Option<Name>, schemas: Catalog, names: set<Name>): (r: set<Name>)
    ensures names <= r
    decreases schemas.Keys - names, 0
  {
    if reference.Some? && reference.value !in names && reference.value in schemas then
      Collect(schemas[reference.value], schemas, names + {reference.value})
    else names
  }

  /** collect(node), which grows the shared set of names */
  function Collect(node: Json, schemas: Catalog, names: set<Name>): (r: set<Name>)
    ensures names <= r
    decreases schemas.Keys - names, 1, node
  {
    match node
    case List(items) => CollectItems(items, schemas, names)
    case Dict(members) => CollectMembers(members, schemas, Follow(Reference(members), schemas, names))
    case _ => names
  }

  function CollectItems(items: seq<Json>, schemas: Catalog, names: set<Name>): (r: set<Name>)
    ensures names <= r
    decreases schemas.Keys - names, 1, items
  {
    if items == [] then names
    else CollectItems(items[1..], schemas, Collect(items[0], schemas, names))
  }

  function CollectMembers(members: seq<Member>, schemas: Catalog, names: set<Name>): (r: set<Name>)
    ensures names <= r
    decreases schemas.Keys - names, 1, members
  {
    if members == [] then names
    else CollectMembers(members[1..], schemas, Collect(members[0].value, schemas, names))
  }

  // ---------------------------------------------------------------- reachability

  /** A walk along references, each to a schema that exists, the first of them one of the given names. */
  ghost predicate IsPath(path: seq<Name>, start: set<Name>, schemas: Catalog) {
    && path != [] && path[0] in start
    && (forall i :: 0 <= i < |path| ==> path[i] in schemas)
    && (forall i :: 0 <= i < |path| - 1 ==> path[i] in schemas && path[i + 1] in Mentions(schemas[path[i]]))
  }

  ghost predicate Reaches(start: set<Name>, schemas: Catalog, name: Name) {
    exists path :: IsPath(path, start, schemas) && path[|path| - 1] == name
  }

  ghost predicate Closed(names: set<Name>, schemas: Catalog, r: set<Name>) {
    forall n :: n in r - names ==> n in schemas && Mentions(schemas[n]) * schemas.Keys <= r
  }

  /**
   What a call of collect achieves from the names known before: it adds only what can be reached from the
   given references, adds all that exist of those, and follows what it adds.
   */
  ghost predicate Collected(start: set<Name>, schemas: Catalog, names: set<Name>, r: set<Name>) {
    && names <= r
    && start * schemas.Keys <= r
    && Closed(names, schemas, r)
    && forall n :: n in r - names ==> Reaches(start, schemas, n)
  }

  lemma ReachesFromMore(start: set<Name>, more: set<Name>, schemas: Catalog, name: Name)
    requires start <= more && Reaches(start, schemas, name)
    ensures Reaches(more, schemas, name)
  {
    var path :| IsPath(path, start, schemas) && path[|path| - 1] == name;
    assert IsPath(path, more, schemas);
  }

  lemma ReachesThrough(first: Name, schemas: Catalog, name: Name)
    requires first in schemas && Reaches(Mentions(schemas[first]), schemas, name)
    ensures Reaches({first}, schemas, name)
  {
    var path :| IsPath(path, Mentions(schemas[first]), schemas) && path[|path| - 1] == name;
    var longer := [first] + path;
    forall i | 0 <= i < |longer| - 1 ensures longer[i] in schemas && longer[i + 1] in Mentions(schemas[longer[i]]) {
      if i > 0 {
        assert longer[i] == path[i - 1] && longer[i + 1] == path[i];
      }
    }
    assert IsPath(longer, {first}, schemas) && longer[|longer| - 1] == name;
  }

  lemma Nothing(schemas: Catalog, names: set<Name>)
    ensures Collected({}, schemas, names, names)
  {
  }

  /** Two calls one after the other. */
  lemma Sequence(a: set<Name>, b: set<Name>, schemas: Catalog, names: set<Name>, middle: set<Name>, r: set<Name>)
    requires Collected(a, schemas, names, middle) && Collected(b, schemas, middle, r)
    ensures Collected(a + b, schemas, names, r)
  {
    forall n | n in r - names ensures Reaches(a + b, schemas, n) {
      if n in middle {
        ReachesFromMore(a, a + b, schemas, n);
      } else {
        ReachesFromMore(b, a + b, schemas, n);
      }
    }
    SequenceIsClosed(schemas, names, middle, r);
  }

  lemma SequenceIsClosed(schemas: Catalog, names: set<Name>, middle: set<Name>, r: set<Name>)
    requires middle <= r && Closed(names, schemas, middle) && Closed(middle, schemas, r)
    ensures Closed(names, schemas, r)
  {
    forall n | n in r - names ensures n in schemas && Mentions(schemas[n]) * schemas.Keys <= r {
      if n in middle {
        assert n in middle - names;
      } else {
        assert n in r - middle;
      }
    }
  }

  lemma {:induction false} FollowCollects(reference: Option<Name>, schemas: Catalog, names: set<Name>)
    ensures Collected(AsSet(reference), schemas, names, Follow(reference, schemas, names))
    decreases schemas.Keys - names, 0
  {
    if reference.Some? && reference.value !in names && reference.value in schemas {
      CollectCollects(schemas[reference.value], schemas, names + {reference.value});
      FollowedCollects(reference.value, schemas, names, Follow(reference, schemas, names));
    }
  }

  lemma FollowedCollects(name: Name, schemas: Catalog, names: set<Name>, r: set<Name>)
    requires name in schemas && Collected(Mentions(schemas[name]), schemas, names + {name}, r)
    ensures Collected({name}, schemas, names, r)
  {
    forall n | n in r - names ensures Reaches({name}, schemas, n) {
      if n == name {
        assert IsPath([name], {name}, schemas);
        assert [name][|[name]| - 1] == name;
      } else {
        ReachesThrough(name, schemas, n);
      }
    }
    forall n | n in r - names ensures n in schemas && Mentions(schemas[n]) * schemas.Keys <= r {
      if n != name {
        assert n in r - (names + {name});
      }
    }
  }

  lemma {:induction false} CollectCollects(node: Json, schemas: Catalog, names: set<Name>)
    ensures Collected(Mentions(node), schemas, names, Collect(node, schemas, names))
    decreases schemas.Keys - names, 1, node
  {
    hide Collected;
    match node
    case List(items) => ItemsCollect(items, schemas, names);
    case Dict(members) =>
      var middle := Follow(Reference(members), schemas, names);
      FollowCollects(Reference(members), schemas, names);
      MembersCollect(members, schemas, middle);
      Sequence(AsSet(Reference(members)), MentionsMembers(members), schemas, names, middle,
               Collect(node, schemas, names));
    case _ => Nothing(schemas, names);
  }

  lemma {:induction false} ItemsCollect(items: seq<Json>, schemas: Catalog, names: set<Name>)
    ensures Collected(MentionsItems(items), schemas, names, CollectItems(items, schemas, names))
    decreases schemas.Keys - names, 1, items
  {
    hide Collected;
    if items == [] {
      Nothing(schemas, names);
    } else {
      var middle := Collect(items[0], schemas, names);
      CollectCollects(items[0], schemas, names);
      ItemsCollect(items[1..], schemas, middle);
      Sequence(Mentions(items[0]), MentionsItems(items[1..]), schemas, names, middle,
               CollectItems(items, schemas, names));
    }
  }

  lemma {:induction false} MembersCollect(members: seq<Member>, schemas: Catalog, names: set<Name>)
    ensures Collected(MentionsMembers(members), schemas, names, CollectMembers(members, schemas, names))
    decreases schemas.Keys - names, 1, members
  {
    hide Collected;
    if members == [] {
      Nothing(schemas, names);
    } else {
      var middle := Collect(members[0].value, schemas, names);
      CollectCollects(members[0].value, schemas, names);
      MembersCollect(members[1..], schemas, middle);
      Sequence(Mentions(members[0].value), MentionsMembers(members[1..]), schemas, names, middle,
               CollectMembers(members, schemas, names));
    }
  }

  lemma {:induction false} PathStaysInside(path: seq<Name>, i: nat, start: set<Name>, schemas: Catalog, r: set<Name>)
    requires Collected(start, schemas, {}, r) && IsPath(path, start, schemas) && i < |path|
    ensures path[i] in r
  {
    if i > 0 {
      PathStaysInside(path, i - 1, start, schemas, r);
      assert path[i - 1] in r - {};
    }
  }

  /** The collected names are exactly the ones that can be reached, however the schemas refer to each other. */
  lemma CollectedExactly(node: Json, schemas: Catalog)
    ensures forall n :: n in Collect(node, schemas, {}) <==> Reaches(Mentions(node), schemas, n)
  {
    var r := Collect(node, schemas, {});
    CollectCollects(node, schemas, {});
    forall n | Reaches(Mentions(node), schemas, n) ensures n in r {
      var path :| IsPath(path, Mentions(node), schemas) && path[|path| - 1] == n;
      PathStaysInside(path, |path| - 1, Mentions(node), schemas, r);
    }
  }

  // ---------------------------------------------------------------- the shared set

  class Collector {
    const schemas: Catalog
    var names: set<Name>

    constructor (schemas: Catalog)
      ensures this.schemas == schemas && names == {}
    {
      this.schemas := schemas;
      names := {};
    }

    method CollectNode(node: Json)
      modifies this
      ensures names == Collect(node, schemas, old(names))
      decreases schemas.Keys - names, node
    {
      match node
      case List(items) =>
        for i := 0 to |items|
          invariant old(names) <= names
          invariant Collect(node, schemas, old(names)) == CollectItems(items[i..], schemas, names)
        {
          assert items[i..][1..] == items[i + 1..];
          CollectNode(items[i]);
        }
      case Dict(members) =>
        var reference := Reference(members);
        if reference.Some? && reference.value !in names && reference.value in schemas {
          names := names + {reference.value};
          CollectNode(schemas[reference.value]);
        }
        for i := 0 to |members|
          invariant old(names) <= names
          invariant Collect(node, schemas, old(names)) == CollectMembers(members[i..], schemas, names)
        {
          assert members[i..][1..] == members[i + 1..];
          CollectNode(members[i].value);
        }
      case _ =>
    }
  }

  method ReferencedSchemas(value: Json, schemas: Catalog) returns (referenced: Catalog)
    ensures forall n :: n in referenced <==> Reaches(Mentions(value), schemas, n)
    ensures forall n :: n in referenced ==> n in schemas && referenced[n] == schemas[n]
  {
    var collector := new Collector(schemas);
    collector.CollectNode(value);
    CollectedExactly(value, schemas);
    assert forall n :: n in collector.names ==> n in schemas;
    referenced := map n | n in collector.names :: schemas[n];
  }
}
