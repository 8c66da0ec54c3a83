/** The linter's verdict depends on the order of the definitions: one chain of references,
    listed from either end. */
module SchemaOrder {
  import opened Wrappers
  import opened JsonValues
  import opened SchemaShape

  predicate DistinctNames(names: seq<string>) {
    forall i, j | 0 <= i < j < |names| :: names[i] != names[j]
  }

  /** A node that only refers to the next name; the last one is the empty schema. */
  function Link(names: seq<string>, i: nat): Json
    requires i < |names|
  {
    if i + 1 < |names| then Obj([Field("$ref", Str(REF_PREFIX + names[i + 1]))]) else Obj([])
  }

  /** One definition per name, each referring to the next: listed first to last, or last to first. */
  function Chain(names: seq<string>): (defs: seq<Field>)
    ensures |defs| == |names|
  {
    seq(|names|, i requires 0 <= i < |names| => Field(names[i], Link(names, i)))
  }

  function Backwards(names: seq<string>): (defs: seq<Field>)
    ensures |defs| == |names|
  {
    seq(|names|, i requires 0 <= i < |names| => Chain(names)[|names| - 1 - i])
  }

  ghost predicate IsLink(names: seq<string>, field: Field) {
    exists i | 0 <= i < |names| :: field == Field(names[i], Link(names, i))
  }

  /** The definitions of a chain, in whatever order. */
  ghost predicate Holds(defs: seq<Field>, names: seq<string>) {
    && UniqueKeys(defs)
    && (forall k | 0 <= k < |defs| :: IsLink(names, defs[k]))
    && (forall i | 0 <= i < |names| :: Get(defs, names[i]) == Some(Link(names, i)))
  }

  lemma ChainAt(names: seq<string>, k: nat)
    requires k < |names|
    ensures Chain(names)[k] == Field(names[k], Link(names, k)) && IsLink(names, Chain(names)[k])
  {
    hide Link;
  }

  lemma BackwardsAt(names: seq<string>, k: nat)
    requires k < |names|
    ensures var i := |names| - 1 - k; Backwards(names)[k] == Field(names[i], Link(names, i))
    ensures IsLink(names, Backwards(names)[k])
  {
    ChainAt(names, |names| - 1 - k);
    hide Link, Chain;
  }

  lemma ChainIsKeyed(names: seq<string>)
    requires DistinctNames(names)
    ensures UniqueKeys(Chain(names)) && UniqueKeys(Backwards(names))
  {
    var defs, back, n := Chain(names), Backwards(names), |names|;
    hide Chain, Backwards, Link;
    forall i, j | 0 <= i < j < n
      ensures defs[i].key != defs[j].key && back[i].key != back[j].key
    {
      ChainAt(names, i);
      ChainAt(names, j);
      BackwardsAt(names, i);
      BackwardsAt(names, j);
      assert names[n - 1 - j] != names[n - 1 - i];
    }
  }

  lemma ChainHolds(names: seq<string>)
    requires DistinctNames(names)
    ensures Holds(Chain(names), names) && Holds(Backwards(names), names)
  {
    ChainIsKeyed(names);
    var defs, back := Chain(names), Backwards(names);
    hide Link, Get, UniqueKeys, Chain, Backwards, IsLink, DistinctNames;
    forall k | 0 <= k < |names|
      ensures IsLink(names, defs[k]) && IsLink(names, back[k])
      ensures Get(defs, names[k]) == Some(Link(names, k)) && Get(back, names[k]) == Some(Link(names, k))
    {
      ChainAt(names, k);
      BackwardsAt(names, k);
      BackwardsAt(names, |names| - 1 - k);
      GetAt(defs, k);
      GetAt(back, |names| - 1 - k);
    }
  }

  lemma LinkTarget(names: seq<string>, i: nat)
    requires i < |names|
    ensures Link(names, i).Obj? && Children(Link(names, i)) == []
    ensures Target(Link(names, i).fields) == if i + 1 < |names| then Some(names[i + 1]) else None
  {
    if i + 1 < |names| {
      var text := REF_PREFIX + names[i + 1];
      assert text[|REF_PREFIX|..] == names[i + 1];
      RefOnly(text);
    }
  }

  lemma RefOnly(text: string)
    ensures var fields := [Field("$ref", Str(text))];
            && (forall key: string :: Get(fields, key) == if key == "$ref" then Some(Str(text)) else None)
            && !Has(fields, "type") && !Has(fields, "anyOf")
  {
    var fields := [Field("$ref", Str(text))];
    assert fields == fields + [] && "$ref"[0] == '$';
    forall key: string
      ensures Get(fields, key) == if key == "$ref" then Some(Str(text)) else None
    {
      GetCons(fields[0], [], key);
    }
  }

  // ----- One step of the search -----

  lemma FollowRef(defs: seq<Field>, node: Json, depth: nat, entered: set<string>, name: string)
    requires depth <= DEPTH_LIMIT && node.Obj? && Target(node.fields) == Some(name) && Get(defs, name).Some?
    requires name !in entered && Search(defs, Get(defs, name).value, depth + 1, entered + {name}) == None
    ensures Search(defs, node, depth, entered) == None
  {
    hide Target, Get, Children, SearchAll;
  }

  lemma StayHere(defs: seq<Field>, node: Json, depth: nat, entered: set<string>)
    requires depth <= DEPTH_LIMIT && node.Obj? && Children(node) == []
    requires Target(node.fields).Some? ==> Target(node.fields).value in entered
    ensures Search(defs, node, depth, entered) == Some(entered)
  {
    hide Target, Get, Children;
    SearchNothing(defs, depth + 1, entered);
  }

  lemma FirstDefinition(defs: seq<Field>, k: nat, entered: set<string>)
    requires k < |defs| && defs[k].key !in entered
    ensures SearchDefinitions(defs, k, entered) ==
              match Search(defs, defs[k].value, 1, entered + {defs[k].key})
              case None => None
              case Some(more) => SearchDefinitions(defs, k + 1, more)
  {
    hide Search;
  }

  // ----- First to last: the search falls through the whole chain -----

  function NamesUpTo(names: seq<string>, i: nat): set<string>
    requires i <= |names|
  {
    set k | 0 <= k < i :: names[k]
  }

  lemma NextName(names: seq<string>, i: nat)
    requires DistinctNames(names) && i < |names|
    ensures names[i] !in NamesUpTo(names, i) && NamesUpTo(names, i) + {names[i]} == NamesUpTo(names, i + 1)
  {
  }

  lemma {:induction false} FallsThrough(defs: seq<Field>, names: seq<string>, i: nat)
    requires DistinctNames(names) && |names| == DEPTH_LIMIT + 1 && i < |names|
    requires forall i | 0 <= i < |names| :: Get(defs, names[i]) == Some(Link(names, i))
    ensures Search(defs, Link(names, i), i + 1, NamesUpTo(names, i + 1)) == None
    decreases |names| - i
  {
    hide Search, Link, NamesUpTo, Get, Target, Children;
    if i + 1 < |names| {
      LinkTarget(names, i);
      FallsThrough(defs, names, i + 1);
      NextName(names, i + 1);
      FollowRef(defs, Link(names, i), i + 1, NamesUpTo(names, i + 1), names[i + 1]);
    } else {
      SearchTooDeep(defs, Link(names, i), i + 1, NamesUpTo(names, i + 1));
    }
  }

  lemma FirstName(names: seq<string>)
    requires names != []
    ensures {} + {names[0]} == NamesUpTo(names, 1)
  {
    var one := NamesUpTo(names, 1);
    assert names[0] in one;
    assert forall name <- one :: name == names[0];
  }

  lemma ChainFalls(names: seq<string>, k: nat)
    requires DistinctNames(names) && |names| == DEPTH_LIMIT + 1 && k < |names|
    ensures Search(Chain(names), Link(names, k), k + 1, NamesUpTo(names, k + 1)) == None
  {
    hide *;
    ChainHolds(names);
    HoldsGets(Chain(names), names);
    FallsThrough(Chain(names), names, k);
  }

  /** With the start as a variable, which keeps the solver from unrolling the search. */
  lemma ForwardsFrom(names: seq<string>, k: nat, entered: set<string>)
    requires DistinctNames(names) && |names| == DEPTH_LIMIT + 1 && k == 0 && entered == {}
    ensures SearchDefinitions(Chain(names), k, entered) == None
  {
    assert k < |names|;
    hide *;
    ChainFalls(names, k);
    ChainAt(names, k);
    FirstName(names);
    FirstDefinition(Chain(names), k, entered);
  }

  lemma ForwardsFails(names: seq<string>)
    requires DistinctNames(names) && |names| == DEPTH_LIMIT + 1
    ensures SearchDefinitions(Chain(names), 0, {}) == None
  {
    hide Search, SearchDefinitions;
    ForwardsFrom(names, 0, {});
  }

  lemma HoldsGets(defs: seq<Field>, names: seq<string>)
    requires Holds(defs, names)
    ensures forall i | 0 <= i < |names| :: Get(defs, names[i]) == Some(Link(names, i))
  {
    hide Get, Link;
  }

  // ----- Last to first: every reference was entered before -----

  /** The names from the `i`th on. */
  function NamesFrom(names: seq<string>, i: nat): set<string>
    requires i <= |names|
  {
    set k | i <= k < |names| :: names[k]
  }

  lemma NameBefore(names: seq<string>, i: nat)
    requires DistinctNames(names) && i < |names|
    ensures names[i] !in NamesFrom(names, i + 1) && NamesFrom(names, i + 1) + {names[i]} == NamesFrom(names, i)
    ensures i + 1 < |names| ==> names[i + 1] in NamesFrom(names, i)
  {
  }

  lemma {:induction false} NeverFalls(names: seq<string>, k: nat)
    requires DistinctNames(names) && k <= |names|
    ensures SearchDefinitions(Backwards(names), k, NamesFrom(names, |names| - k)).Some?
    decreases |names| - k
  {
    if k < |names| {
      var defs, i := Backwards(names), |names| - 1 - k;
      BackwardsAt(names, k);
      hide Search, SearchDefinitions, Link, NamesFrom, Backwards, Target, Children;
      LinkTarget(names, i);
      NameBefore(names, i);
      StayHere(defs, Link(names, i), 1, NamesFrom(names, i));
      NeverFalls(names, k + 1);
      FirstDefinition(defs, k, NamesFrom(names, i + 1));
    }
  }

  lemma BackwardsSucceeds(names: seq<string>)
    requires DistinctNames(names)
    ensures SearchDefinitions(Backwards(names), 0, {}).Some?
  {
    NeverFalls(names, 0);
    assert NamesFrom(names, |names|) == {};
  }

  // ----- Both are in the subset -----

  /** An object without properties, and these definitions. */
  function Root(defs: seq<Field>): Json {
    Obj([Field("type", Str("object")), Field("additionalProperties", Bool(false)), Field("properties", Obj([])),
         Field("required", Arr([])), Field("$defs", Obj(defs))])
  }

  lemma RootKeys(defs: seq<Field>)
    ensures UniqueKeys(Root(defs).fields)
    ensures !Has(Root(defs).fields, "anyOf") && !Has(Root(defs).fields, "enum")
    ensures !Has(Root(defs).fields, "items") && !Has(Root(defs).fields, "$ref")
  {
    assert |"type"| == 4 && |"additionalProperties"| == 20 && |"properties"| == 10 && |"required"| == 8 && |"$defs"| == 5;
    assert |"anyOf"| == 5 && "anyOf"[0] == 'a' && |"enum"| == 4 && "enum"[0] == 'e' && |"items"| == 5 && "items"[0] == 'i';
    assert "$defs"[0] == '$' && |"$ref"| == 4 && "$ref"[0] == '$' && "type"[0] == 't';
  }

  lemma RootGet(defs: seq<Field>, k: nat)
    requires k < 5
    ensures Get(Root(defs).fields, Root(defs).fields[k].key) == Some(Root(defs).fields[k].value)
  {
    RootKeys(defs);
    var fields := Root(defs).fields;
    assert |fields| == 5;
    hide Root;
    GetAt(fields, k);
  }

  lemma RootGets(defs: seq<Field>)
    ensures var f := Root(defs).fields;
            && Get(f, "type") == Some(Str("object")) && Get(f, "additionalProperties") == Some(Bool(false))
            && Get(f, "properties") == Some(Obj([])) && Get(f, "required") == Some(Arr([])) && Get(f, "$defs") == Some(Obj(defs))
  {
    hide Get;
    RootGet(defs, 0);
    RootGet(defs, 1);
    RootGet(defs, 2);
    RootGet(defs, 3);
    RootGet(defs, 4);
  }

  lemma RootNode(defs: seq<Field>)
    ensures Root(defs).Obj? && HasType(Root(defs).fields, "object") && ClosedObject(Root(defs).fields)
    ensures ShapeChildren(Root(defs).fields) == [] && Branches(Root(defs).fields) == [] && Target(Root(defs).fields) == None
    ensures Definitions(Root(defs)) == defs
  {
    RootKeys(defs);
    RootGets(defs);
    var f := Root(defs).fields;
    assert Root(defs) == Obj(f);
    hide Root, UniqueKeys, ClosedObject, ShapeChildren, Branches, Target, HasType, Definitions;
    EmptyObject(f, defs);
  }

  lemma EmptyObject(fields: seq<Field>, defs: seq<Field>)
    requires Get(fields, "type") == Some(Str("object")) && Get(fields, "additionalProperties") == Some(Bool(false))
    requires Get(fields, "properties") == Some(Obj([])) && Get(fields, "required") == Some(Arr([]))
    requires Get(fields, "$defs") == Some(Obj(defs)) && !Has(fields, "anyOf") && !Has(fields, "$ref")
    ensures HasType(fields, "object") && ClosedObject(fields) && Definitions(Obj(fields)) == defs
    ensures ShapeChildren(fields) == [] && Branches(fields) == [] && Target(fields) == None
  {
    assert Get(fields, "anyOf") == None && Get(fields, "$ref") == None;
    hide Get;
    assert Values([]) == [];
  }

  lemma RootIsSound(defs: seq<Field>)
    ensures WellFormedTree(defs, Root(defs), true) && Properties(Root(defs)) == 0 && Children(Root(defs)) == []
  {
    RootNode(defs);
    RootKeys(defs);
    RootSupported(defs);
    hide Root, ShapeChildren, Branches, ClosedObject, Get, Target, HasType, SupportedKey;
    var node := Root(defs);
    assert Children(node) == ShapeChildren(node.fields) + Branches(node.fields);
    assert LocallyOk(defs, node.fields, true) by {
      NotTyped(node.fields);
    }
    PropertiesSplit(node);
    assert Counts([]) == [];
  }

  lemma RootSupported(defs: seq<Field>)
    ensures forall f <- Root(defs).fields :: SupportedKey(f.key)
  {
  }

  /** An object is no array and has a scalar type name. */
  lemma NotTyped(fields: seq<Field>)
    requires HasType(fields, "object") && !Has(fields, "$ref")
    ensures !HasType(fields, "array") && Given(fields, "type") == Some(Str("object")) && ScalarType("object")
    ensures Given(fields, "$ref") == None
  {
    assert |"object"| == 6 && |"array"| == 5;
  }

  lemma LinkIsSound(defs: seq<Field>, names: seq<string>, i: nat)
    requires i < |names| && (i + 1 < |names| ==> Has(defs, names[i + 1]))
    ensures WellFormedTree(defs, Link(names, i), false) && Properties(Link(names, i)) == 0
  {
    var node := Link(names, i);
    LinkTarget(names, i);
    LinkIsLocallyOk(defs, names, i);
    hide Link, LocallyOk, Children, HasType, Target;
    LinkHasNoType(names, i);
    PropertiesSplit(node);
    assert Counts([]) == [];
  }

  lemma LinkHasNoType(names: seq<string>, i: nat)
    requires i < |names|
    ensures Link(names, i).Obj? && !HasType(Link(names, i).fields, "object")
  {
    if i + 1 < |names| {
      RefOnly(REF_PREFIX + names[i + 1]);
    }
  }

  lemma LinkIsLocallyOk(defs: seq<Field>, names: seq<string>, i: nat)
    requires i < |names| && (i + 1 < |names| ==> Has(defs, names[i + 1]))
    ensures Link(names, i).Obj? && LocallyOk(defs, Link(names, i).fields, false)
  {
    LinkTarget(names, i);
    if i + 1 < |names| {
      RefOnly(REF_PREFIX + names[i + 1]);
      var fields := Link(names, i).fields;
      hide Link, Target, ClosedObject;
      assert "$defs" != "$ref" && "type" != "$ref" && "anyOf" != "$ref" && "enum" != "$ref" && "items" != "$ref" by {
        assert |"$ref"| == 4 && "$ref"[0] == '$' && "type"[0] == 't' && "enum"[0] == 'e' && |"$defs"| == 5;
        assert |"anyOf"| == 5 && |"items"| == 5;
      }
      assert |"additionalProperties"| == 20 && |"properties"| == 10 && |"required"| == 8 && |"$ref"| == 4;
    }
  }

  lemma {:induction false} NoProperties(defs: seq<Field>)
    requires forall f <- defs :: Properties(f.value) == 0
    ensures AllProperties(defs) == 0
  {
    if defs != [] {
      NoProperties(defs[1..]);
    }
  }

  lemma ChainIsInSubset(defs: seq<Field>, names: seq<string>)
    requires Holds(defs, names)
    ensures InSubset(Root(defs))
  {
    RootGets(defs);
    RootKeys(defs);
    RootNode(defs);
    RootIsSound(defs);
    hide Root, WellFormedTree, Properties, Get, HasType, Link, UniqueKeys;
    forall f | f in defs
      ensures Properties(f.value) == 0 && WellFormedTree(defs, f.value, false)
    {
      var k :| 0 <= k < |defs| && defs[k] == f;
      assert IsLink(names, defs[k]);
      var i :| 0 <= i < |names| && defs[k] == Field(names[i], Link(names, i));
      assert i + 1 < |names| ==> Get(defs, names[i + 1]).Some?;
      LinkIsSound(defs, names, i);
    }
    NoProperties(defs);
    forall name: string | Has(defs, name)
      ensures WellFormedTree(defs, Definition(defs, name), false)
    {
      assert Field(name, Definition(defs, name)) in defs;
    }
  }

  /** Eleven definitions that each refer to the next: both listings are in the subset and hold
      the same definitions, yet only the one from last to first fits. */
  lemma OrderDecides(names: seq<string>)
    requires DistinctNames(names) && |names| == DEPTH_LIMIT + 1
    ensures InSubset(Root(Chain(names))) && !FitsInOrder(Root(Chain(names)))
    ensures InSubset(Root(Backwards(names))) && FitsInOrder(Root(Backwards(names)))
  {
    ChainHolds(names);
    ChainIsInSubset(Chain(names), names);
    ChainIsInSubset(Backwards(names), names);
    RootNode(Chain(names));
    RootNode(Backwards(names));
    ForwardsFails(names);
    BackwardsSucceeds(names);
    hide InSubset, Root, Search, SearchDefinitions, Holds, Chain, Backwards, DistinctNames;
    RootFits(Backwards(names), SearchDefinitions(Backwards(names), 0, {}).value);
  }

  lemma RootFits(defs: seq<Field>, entered: set<string>)
    ensures Search(defs, Root(defs), 0, entered).Some?
  {
    RootNode(defs);
    RootIsSound(defs);
    hide Root, Search, Children, Target;
    StayHere(defs, Root(defs), 0, entered);
  }
}
