/** The schema linter: a depth-first search over a graph of references that may be cyclic,
    with sets of visited and active definitions and one shared property counter. */
module SchemaLint {
  import opened Wrappers
  import opened JsonValues
  import opened SchemaShape
  import opened SchemaFaults

  /** The path the search stands on; its end is being visited. */
  ghost predicate StandsOn(defs: seq<Field>, trail: seq<Hop>, node: Json) {
    SimplePath(defs, trail) && trail[|trail| - 1].node == node
  }

  /** The path was followed on to a node one step below the depth limit. */
  ghost predicate FellDeep(defs: seq<Field>, deepest: seq<Hop>, trail: seq<Hop>, depth: nat)
    requires trail != [] && depth <= DEPTH_LIMIT + 1
  {
    SimplePath(defs, deepest) && deepest[0] == trail[0] && |deepest| == |trail| + (DEPTH_LIMIT + 1 - depth)
  }

  /** The path was followed on to a node with the fault that the error names. */
  ghost predicate FoundFault(defs: seq<Field>, deepest: seq<Hop>, trail: seq<Hop>, error: LintError)
    requires trail != []
  {
    EndsInFault(defs, deepest, error) && deepest[0] == trail[0]
  }

  /** What justifies an error: a long path, too many properties, or an ill-formed tree and in it the
      node with the fault. */
  ghost predicate Justified(defs: seq<Field>, error: LintError, fault: bool, count: nat, deepest: seq<Hop>, trail: seq<Hop>,
                            depth: nat)
    requires trail != [] && depth <= DEPTH_LIMIT + 1
  {
    match error
    case DepthExceeded => FellDeep(defs, deepest, trail, depth)
    case PropertyLimit => count > PROPERTY_LIMIT
    case _ => (fault || !SoundDefinitions(defs)) && FoundFault(defs, deepest, trail, error)
  }

  lemma FaultHere(defs: seq<Field>, trail: seq<Hop>, node: Json, error: LintError)
    requires StandsOn(defs, trail, node) && node.Obj? && HasFault(node.fields, error)
    ensures !error.DepthExceeded? && !error.PropertyLimit? && FoundFault(defs, trail, trail, error)
  {
    hide SimplePath;
  }

  lemma KeyFaultHere(defs: seq<Field>, trail: seq<Hop>, node: Json, error: LintError)
    requires StandsOn(defs, trail, node) && node.Obj?
    requires if error == DefinitionsNested then Has(node.fields, "$defs") && !AtRoot(trail) else HasFault(node.fields, error)
    ensures !error.DepthExceeded? && !error.PropertyLimit? && FoundFault(defs, trail, trail, error)
  {
    hide SimplePath;
  }

  lemma RefFaultHere(defs: seq<Field>, trail: seq<Hop>, node: Json)
    requires StandsOn(defs, trail, node) && node.Obj? && RefersToNothing(defs, node.fields)
    ensures FoundFault(defs, trail, trail, RefMissing)
  {
    hide SimplePath;
  }

  class Linter {
    const defs: seq<Field>
    var visited: set<string>
    var active: set<string>
    var count: nat

    ghost predicate Valid()
      reads this
    {
      && UniqueKeys(defs) && visited !! active
      && (forall name <- visited + active :: Has(defs, name))
      && (forall name <- visited :: DefinitionOk(name))
    }

    ghost predicate DefinitionOk(name: string) {
      Has(defs, name) && WellFormedTree(defs, Definition(defs, name), false) && Height(Definition(defs, name)) < DEPTH_LIMIT
    }

    /** The counter less the properties of every definition entered so far. */
    ghost function Budget(): int
      reads this
    {
      count - Total(defs, visited + active)
    }

    /** A visit spends exactly its own properties, whatever definitions it entered on the way;
        a visit that raised spends at most those. */
    twostate predicate Spends(ok: bool, amount: nat)
      reads this
    {
      && Valid() && old(visited) <= visited && old(visited + active) <= visited + active
      && (if ok then active == old(active) && Budget() == old(Budget()) + amount else Budget() <= old(Budget()) + amount)
      && (ok && old(count) <= PROPERTY_LIMIT ==> count <= PROPERTY_LIMIT)
    }

    /** The definitions entered so far are what the search in order has found; a node too deep
        is one where that search gives up. */
    ghost predicate Mirrors(error: Option<LintError>, found: Option<set<string>>)
      reads this
    {
      (error.None? ==> found == Some(visited + active)) && (error == Some(DepthExceeded) ==> found == None)
    }

    constructor (defs: seq<Field>)
      requires UniqueKeys(defs)
      ensures Valid() && this.defs == defs && visited == {} && active == {} && count == 0
    {
      this.defs := defs;
      visited, active, count := {}, {}, 0;
    }

    method Visit(node: Json, depth: nat, root: bool, ghost trail: seq<Hop>)
      returns (error: Option<LintError>, ghost deepest: seq<Hop>)
      requires Valid() && depth <= DEPTH_LIMIT + 1 && StandsOn(defs, trail, node) && active == Entered(trail)
      requires root <==> AtRoot(trail)
      modifies this
      ensures Spends(error.None?, Properties(node))
      ensures error.None? ==> WellFormedTree(defs, node, root) && depth + Height(node) <= DEPTH_LIMIT
      ensures error.Some? ==> Justified(defs, error.value, !WellFormedTree(defs, node, root), count, deepest, trail, depth)
      ensures Mirrors(error, Search(defs, node, depth, old(visited + active)))
      decreases DEPTH_LIMIT + 1 - depth, 3
    {
      hide Search, SearchAll, SearchRef, SearchOn, Total, SimplePath, Continues, Entered, WellFormedTree, Properties, Height,
        PropertiesIn, HeightBelow, Children;
      deepest := trail;
      if depth > DEPTH_LIMIT {
        SearchTooDeep(defs, node, depth, visited + active);
        return Some(DepthExceeded), trail;
      }
      match node
      case Arr(items) =>
        ListOfChildren(defs, items, root);
        SearchList(defs, items, depth, visited + active);
        error, deepest := VisitAll(items, depth + 1, node, trail);
      case Obj(fields) =>
        error, deepest := VisitMapping(node, depth, root, trail);
      case _ =>
        NoSchema(defs, node, root);
        error := Some(NodeInvalid);
    }

    /** Visit the nodes of a list in order. */
    method VisitAll(nodes: seq<Json>, depth: nat, ghost parent: Json, ghost trail: seq<Hop>)
      returns (error: Option<LintError>, ghost deepest: seq<Hop>)
      requires Valid() && 0 < depth <= DEPTH_LIMIT + 1 && StandsOn(defs, trail, parent) && active == Entered(trail)
      requires forall k | 0 <= k < |nodes| :: nodes[k] in Children(parent)
      modifies this
      ensures Spends(error.None?, PropertiesIn(nodes))
      ensures error.None? ==> AllWellFormed(nodes) && depth - 1 + HeightBelow(nodes) <= DEPTH_LIMIT
      ensures error.Some? ==> Justified(defs, error.value, !AllWellFormed(nodes), count, deepest, trail, depth - 1)
      ensures Mirrors(error, SearchAll(defs, nodes, depth, old(visited + active)))
      decreases DEPTH_LIMIT + 1 - depth, 5
    {
      hide Properties, Height, WellFormedTree, Children, Total, PropertiesIn, HeightBelow, SimplePath, Continues;
      hide Search, SearchAll, SearchRef;
      error, deepest := None, trail;
      UpToAll(nodes);
      assert nodes[0..] == nodes;
      for k := 0 to |nodes|
        invariant error.None? && Spends(true, PropertiesUpTo(nodes, k))
        invariant forall i | 0 <= i < k :: WellFormedTree(defs, nodes[i], false)
        invariant depth - 1 + HeightUpTo(nodes, k) <= DEPTH_LIMIT
        invariant SearchAll(defs, nodes, depth, old(visited + active)) == SearchAll(defs, nodes[k..], depth, visited + active)
      {
        SearchFirst(defs, nodes, k, depth, visited + active);
        UpToGrows(nodes, k + 1, |nodes|);
        error, deepest := VisitOne(nodes, k, depth, parent, trail);
        if error.Some? {
          return;
        }
      }
      assert nodes[|nodes|..] == [];
      SearchNothing(defs, depth, visited + active);
    }

    method VisitOne(nodes: seq<Json>, k: nat, depth: nat, ghost parent: Json, ghost trail: seq<Hop>)
      returns (error: Option<LintError>, ghost deepest: seq<Hop>)
      requires Valid() && 0 < depth <= DEPTH_LIMIT + 1 && StandsOn(defs, trail, parent) && active == Entered(trail)
      requires k < |nodes| && nodes[k] in Children(parent)
      modifies this
      ensures Spends(error.None?, Properties(nodes[k]))
      ensures error.None? ==> WellFormedTree(defs, nodes[k], false) && depth + Height(nodes[k]) <= DEPTH_LIMIT
      ensures error.Some? ==> Justified(defs, error.value, !AllWellFormed(nodes), count, deepest, trail, depth - 1)
      ensures Mirrors(error, Search(defs, nodes[k], depth, old(visited + active)))
      decreases DEPTH_LIMIT + 1 - depth, 4
    {
      hide Search, SearchAll, SearchRef;
      ghost var hop := Hop(nodes[k], None);
      PathMore(defs, trail, hop);
      error, deepest := Visit(nodes[k], depth, false, trail + [hop]);
      if error.Some? {
        StepBack(error.value, hop, nodes, count, deepest, trail, depth);
      }
    }

    ghost predicate AllWellFormed(nodes: seq<Json>) {
      forall k | 0 <= k < |nodes| :: WellFormedTree(defs, nodes[k], false)
    }

    /** What justifies an error below a node justifies it at the node. */
    lemma StepBack(error: LintError, child: Hop, nodes: seq<Json>, count: nat, deepest: seq<Hop>, trail: seq<Hop>, depth: nat)
      requires child.node in nodes && 0 < depth <= DEPTH_LIMIT + 1 && trail != []
      requires Justified(defs, error, !WellFormedTree(defs, child.node, false), count, deepest, trail + [child], depth)
      ensures Justified(defs, error, !AllWellFormed(nodes), count, deepest, trail, depth - 1)
    {
    }

    /** Follow a reference, unless its definition has been entered before. */
    method VisitRef(node: Json, depth: nat, ghost trail: seq<Hop>)
      returns (error: Option<LintError>, ghost deepest: seq<Hop>)
      requires Valid() && depth <= DEPTH_LIMIT && node.Obj? && StandsOn(defs, trail, node) && active == Entered(trail)
      modifies this
      ensures Spends(error.None?, 0)
      ensures error.None? ==> RefResolves(defs, node.fields)
      ensures error.Some? ==> Justified(defs, error.value, !RefResolves(defs, node.fields), count, deepest, trail, depth)
      ensures Mirrors(error, SearchRef(defs, node.fields, depth, old(visited + active)))
      decreases DEPTH_LIMIT + 1 - depth, 1
    {
      hide Search, SearchAll, Total, Entered;
      error, deepest := None, trail;
      var ref := Get(node.fields, "$ref");
      if ref.None? || ref.value.Null? {
        return;
      }
      if !ref.value.Str? || !(REF_PREFIX <= ref.value.text) {
        FaultHere(defs, trail, node, RefInvalid);
        return Some(RefInvalid), trail;
      }
      var name := ref.value.text[|REF_PREFIX|..];
      if !Has(defs, name) {
        RefFaultHere(defs, trail, node);
        return Some(RefMissing), trail;
      }
      if name !in visited && name !in active {
        ghost var hop := Hop(Definition(defs, name), Some(name));
        PathMore(defs, trail, hop);
        error, deepest := Enter(name, depth + 1, trail + [hop]);
        if error.Some? {
          RefBack(error.value, hop, count, deepest, trail, depth);
        }
      }
    }

    /** What justifies an error in a definition justifies it where the definition is entered. */
    lemma RefBack(error: LintError, entered: Hop, count: nat, deepest: seq<Hop>, trail: seq<Hop>, depth: nat)
      requires depth <= DEPTH_LIMIT && trail != []
      requires Justified(defs, error, false, count, deepest, trail + [entered], depth + 1)
      ensures Justified(defs, error, false, count, deepest, trail, depth)
    {
      assert (trail + [entered])[0] == trail[0];
    }

    /** Visit one definition for the first time. */
    method Enter(name: string, depth: nat, ghost trail: seq<Hop>)
      returns (error: Option<LintError>, ghost deepest: seq<Hop>)
      requires Valid() && 1 <= depth <= DEPTH_LIMIT + 1 && Has(defs, name) && name !in visited + active
      requires StandsOn(defs, trail, Definition(defs, name)) && active + {name} == Entered(trail)
      requires trail[|trail| - 1].entered == Some(name)
      modifies this
      ensures Spends(error.None?, 0)
      ensures error.None? ==> visited >= old(visited) + {name}
      ensures error.Some? ==> Justified(defs, error.value, false, count, deepest, trail, depth)
      ensures Mirrors(error, Search(defs, Definition(defs, name), depth, old(visited + active) + {name}))
      decreases DEPTH_LIMIT + 1 - depth, 4
    {
      hide Search, SearchAll, SearchRef;
      hide WellFormedTree, Properties, Height, Total, PropertiesIn, HeightBelow, SimplePath, Children, Continues, Entered;
      TotalWith(defs, visited + active, name);
      assert visited + (active + {name}) == visited + active + {name};
      active := active + {name};
      error, deepest := Visit(Definition(defs, name), depth, false, trail);
      if error.Some? {
        return;
      }
      assert (visited + {name}) + (active - {name}) == visited + active;
      active := active - {name};
      visited := visited + {name};
    }

    method VisitMapping(node: Json, depth: nat, root: bool, ghost trail: seq<Hop>)
      returns (error: Option<LintError>, ghost deepest: seq<Hop>)
      requires Valid() && depth <= DEPTH_LIMIT && node.Obj? && StandsOn(defs, trail, node) && active == Entered(trail)
      requires root <==> AtRoot(trail)
      modifies this
      ensures Spends(error.None?, Properties(node))
      ensures error.None? ==> WellFormedTree(defs, node, root) && depth + Height(node) <= DEPTH_LIMIT
      ensures error.Some? ==> Justified(defs, error.value, !WellFormedTree(defs, node, root), count, deepest, trail, depth)
      ensures Mirrors(error, Search(defs, node, depth, old(visited + active)))
      decreases DEPTH_LIMIT + 1 - depth, 2
    {
      TreeFromParts(defs, node, root);
      MappingSums(node);
      hide Search, SearchAll, SearchRef, FoundFault, HasFault, WellFormedTree, Properties, Height, PropertiesIn, HeightBelow,
        SimplePath, Total, Entered;
      error := CheckKeys(node.fields, root);
      deepest := trail;
      if error.Some? {
        KeyFaultHere(defs, trail, node, error.value);
      } else {
        error, deepest := VisitParts(node, depth, trail);
      }
    }

    /** The reference, the shape and the branches of a node, in this order. */
    method VisitParts(node: Json, depth: nat, ghost trail: seq<Hop>)
      returns (error: Option<LintError>, ghost deepest: seq<Hop>)
      requires Valid() && depth <= DEPTH_LIMIT && node.Obj? && StandsOn(defs, trail, node) && active == Entered(trail)
      modifies this
      ensures Spends(error.None?, OwnProperties(node) + PropertiesIn(ShapeChildren(node.fields))
                                  + PropertiesIn(Branches(node.fields)))
      ensures error.None? ==>
                PartsOk(defs, node) && depth + HeightBelow(ShapeChildren(node.fields)) <= DEPTH_LIMIT
                && depth + HeightBelow(Branches(node.fields)) <= DEPTH_LIMIT
      ensures error.Some? ==> Justified(defs, error.value, !PartsOk(defs, node), count, deepest, trail, depth)
      ensures Mirrors(error, Search(defs, node, depth, old(visited + active)))
      decreases DEPTH_LIMIT + 1 - depth, 2, 0
    {
      hide Search, SearchAll, SearchRef, WellFormedTree, Properties, Height, Total, PropertiesIn, HeightBelow, SimplePath, Children,
        Continues, FoundFault, HasFault;
      SearchMapping(defs, node.fields, depth, visited + active);
      error, deepest := VisitRef(node, depth, trail);
      if error.Some? {
        return;
      }
      error, deepest := VisitShape(node, depth, trail);
      if error.Some? {
        return;
      }
      deepest := trail;
      error := Misplaced(node.fields);
      if error.Some? {
        FaultHere(defs, trail, node, error.value);
        return;
      }
      error, deepest := VisitBranches(node, depth, trail);
    }

    /** The type of a node, and the schemas an object or an array holds. */
    method VisitShape(node: Json, depth: nat, ghost trail: seq<Hop>)
      returns (error: Option<LintError>, ghost deepest: seq<Hop>)
      requires Valid() && depth <= DEPTH_LIMIT && node.Obj? && StandsOn(defs, trail, node) && active == Entered(trail)
      modifies this
      ensures Spends(error.None?, OwnProperties(node) + PropertiesIn(ShapeChildren(node.fields)))
      ensures error.None? ==>
                ShapeOk(node.fields) && AllWellFormed(ShapeChildren(node.fields))
                && depth + HeightBelow(ShapeChildren(node.fields)) <= DEPTH_LIMIT
      ensures error.Some? ==>
                Justified(defs, error.value, !(ShapeOk(node.fields) && AllWellFormed(ShapeChildren(node.fields))), count,
                          deepest, trail, depth)
      ensures Mirrors(error, SearchAll(defs, ShapeChildren(node.fields), depth + 1, old(visited + active)))
      decreases DEPTH_LIMIT + 1 - depth, 1
    {
      hide Properties, Height, WellFormedTree, Search, SearchAll, SearchRef, FoundFault, SimplePath, Entered;
      SearchNothing(defs, depth + 1, visited + active);
      var fields := node.fields;
      error, deepest := None, trail;
      var nodeType := Get(fields, "type");
      if nodeType.Some? && !nodeType.value.Null? && (!nodeType.value.Str? || !ScalarType(nodeType.value.text)) {
        FaultHere(defs, trail, node, TypeInvalid);
        return Some(TypeInvalid), trail;
      }
      if nodeType == Some(Str("object")) {
        error, deepest := VisitObject(node, depth, trail);
      } else if nodeType == Some(Str("array")) {
        if !Has(fields, "items") {
          FaultHere(defs, trail, node, ArrayItemsMissing);
          return Some(ArrayItemsMissing), trail;
        }
        error, deepest := VisitAll([Get(fields, "items").value], depth + 1, node, trail);
      }
    }

    /** An object must be closed; its properties are counted before they are visited. */
    method VisitObject(node: Json, depth: nat, ghost trail: seq<Hop>)
      returns (error: Option<LintError>, ghost deepest: seq<Hop>)
      requires Valid() && depth <= DEPTH_LIMIT && node.Obj? && HasType(node.fields, "object")
      requires StandsOn(defs, trail, node) && active == Entered(trail)
      modifies this
      ensures Spends(error.None?, OwnProperties(node) + PropertiesIn(ShapeChildren(node.fields)))
      ensures error.None? ==>
                ClosedObject(node.fields) && AllWellFormed(ShapeChildren(node.fields))
                && depth + HeightBelow(ShapeChildren(node.fields)) <= DEPTH_LIMIT
      ensures error.Some? ==>
                Justified(defs, error.value, !(ClosedObject(node.fields) && AllWellFormed(ShapeChildren(node.fields))), count,
                          deepest, trail, depth)
      ensures Mirrors(error, SearchAll(defs, ShapeChildren(node.fields), depth + 1, old(visited + active)))
      decreases DEPTH_LIMIT + 1 - depth, 0
    {
      hide Properties, Height, WellFormedTree, Children, ShapeChildren, OwnProperties, ClosedObject, Total, PropertiesIn,
        HeightBelow, SimplePath, Continues, Search, SearchAll, SearchRef, FoundFault, HasFault;
      deepest := trail;
      error := CheckObject(node.fields);
      if error.Some? {
        FaultHere(defs, trail, node, error.value);
        return;
      }
      ObjectChildren(node);
      var properties := Get(node.fields, "properties").value.fields;
      count := count + |properties|;
      if count > PROPERTY_LIMIT {
        return Some(PropertyLimit), trail;
      }
      error, deepest := VisitAll(Values(properties), depth + 1, node, trail);
    }

    /** The branches of `anyOf`, and the values of `enum`. */
    method VisitBranches(node: Json, depth: nat, ghost trail: seq<Hop>)
      returns (error: Option<LintError>, ghost deepest: seq<Hop>)
      requires Valid() && depth <= DEPTH_LIMIT && node.Obj? && StandsOn(defs, trail, node) && active == Entered(trail)
      modifies this
      ensures Spends(error.None?, PropertiesIn(Branches(node.fields)))
      ensures error.None? ==>
                ChoicesOk(node.fields) && AllWellFormed(Branches(node.fields))
                && depth + HeightBelow(Branches(node.fields)) <= DEPTH_LIMIT
      ensures error.Some? ==>
                Justified(defs, error.value, !(ChoicesOk(node.fields) && AllWellFormed(Branches(node.fields))), count, deepest,
                          trail, depth)
      ensures Mirrors(error, SearchAll(defs, Branches(node.fields), depth + 1, old(visited + active)))
      decreases DEPTH_LIMIT + 1 - depth, 1
    {
      hide Search, SearchAll, SearchRef, WellFormedTree, Properties, Height, Total, PropertiesIn, HeightBelow, SimplePath,
        Continues, Entered, FoundFault;
      NothingBelow();
      SearchNothing(defs, depth + 1, visited + active);
      var fields := node.fields;
      error, deepest := None, trail;
      var branches := Get(fields, "anyOf");
      if branches.Some? {
        if !branches.value.Arr? || branches.value.items == [] {
          FaultHere(defs, trail, node, AnyOfInvalid);
          return Some(AnyOfInvalid), trail;
        }
        error, deepest := VisitAll(branches.value.items, depth + 1, node, trail);
        if error.Some? {
          return;
        }
      }
      var values := Get(fields, "enum");
      if values.Some? && (!values.value.Arr? || values.value.items == []) {
        FaultHere(defs, trail, node, EnumInvalid);
        return Some(EnumInvalid), trail;
      }
    }
  }

  /** The linter accepts exactly the schemas of the subset whose search in order stays within the
      depth limit. When it does not, a too long path that enters no definition twice is the
      reason, and without such a path acceptance does not depend on the order. */
  method LintCodexSchema(schema: Json) returns (error: Option<LintError>)
    requires UniqueKeys(Definitions(schema))
    ensures error.None? <==> InSubset(schema) && FitsInOrder(schema)
    ensures error.None? ==> HeightsFit(schema)
    ensures error.Some? && error.value != DepthExceeded ==> !InSubset(schema)
    ensures error == Some(DepthExceeded) ==> TooDeep(schema)
    ensures !TooDeep(schema) ==> (error.None? <==> InSubset(schema))
    ensures error.Some? ==> Explains(schema, error.value)
  {
    hide Properties, Height, WellFormedTree, Search, SearchDefinitions, EndsInFault, AllProperties;
    if !schema.Obj? {
      return Some(NotAnObject);
    }
    if !HasType(schema.fields, "object") {
      return Some(RootNotObject);
    }
    if Has(schema.fields, "anyOf") {
      return Some(RootAnyOf);
    }
    var found := Get(schema.fields, "$defs");
    if found.Some? && !found.value.Obj? {
      return Some(DefinitionsInvalid);
    }
    error := LintAll(schema, if found.Some? then found.value.fields else []);
  }

  ghost predicate HeightsFit(schema: Json) {
    && Height(schema) <= DEPTH_LIMIT
    && forall name: string :: Has(Definitions(schema), name) ==> Height(Definition(Definitions(schema), name)) < DEPTH_LIMIT
  }

  ghost predicate TreesFit(schema: Json) {
    var defs := Definitions(schema);
    WellFormedTree(defs, schema, true) && SoundDefinitions(defs) && Properties(schema) + AllProperties(defs) <= PROPERTY_LIMIT
  }

  /** All definitions, then the root. */
  method LintAll(schema: Json, defs: seq<Field>) returns (error: Option<LintError>)
    requires defs == Definitions(schema) && UniqueKeys(defs)
    ensures error.None? ==> TreesFit(schema) && HeightsFit(schema) && FitsInOrder(schema)
    ensures error.Some? && error.value != DepthExceeded ==> !TreesFit(schema)
    ensures error == Some(DepthExceeded) ==> TooDeep(schema) && !FitsInOrder(schema)
    ensures error.Some? ==> Explains(schema, error.value)
  {
    hide Properties, Height, WellFormedTree, Search, SearchDefinitions, Explains;
    var linter := new Linter(defs);
    error := LintDefinitions(linter, schema);
    if error.None? {
      error := LintRoot(linter, schema);
    }
  }

  /** The root, once every definition was visited. */
  method LintRoot(linter: Linter, schema: Json) returns (error: Option<LintError>)
    requires linter.Valid() && linter.defs == Definitions(schema) && linter.active == {}
    requires linter.Budget() == 0 && linter.count <= PROPERTY_LIMIT
    requires forall name: string :: Has(linter.defs, name) ==> name in linter.visited
    requires SearchDefinitions(linter.defs, 0, {}) == Some(linter.visited)
    modifies linter
    ensures error.None? ==> TreesFit(schema) && HeightsFit(schema) && FitsInOrder(schema)
    ensures error.Some? && error.value != DepthExceeded ==> !TreesFit(schema)
    ensures error == Some(DepthExceeded) ==> TooDeep(schema) && !FitsInOrder(schema)
    ensures error.Some? ==> Explains(schema, error.value)
  {
    hide Properties, Height, WellFormedTree, Search, SearchDefinitions;
    ghost var deepest: seq<Hop>;
    assert linter.visited + linter.active == linter.visited;
    error, deepest := linter.Visit(schema, 0, true, [Hop(schema, None)]);
    TotalBounded(linter.defs, linter.visited + linter.active);
    if error.Some? && error.value != DepthExceeded && error.value != PropertyLimit {
      FaultIsExplained(schema, deepest, error.value);
    }
  }

  method LintDefinitions(linter: Linter, ghost schema: Json) returns (error: Option<LintError>)
    requires linter.Valid() && linter.visited == linter.active == {} && linter.count == 0 && linter.defs == Definitions(schema)
    modifies linter
    ensures linter.Valid() && linter.Budget() <= 0
    ensures error.None? ==>
              linter.active == {} && linter.Budget() == 0 && linter.count <= PROPERTY_LIMIT
              && (forall name: string :: Has(linter.defs, name) ==> name in linter.visited)
              && SearchDefinitions(linter.defs, 0, {}) == Some(linter.visited)
    ensures error.Some? ==>
              match error.value
              case DepthExceeded => TooDeep(schema) && SearchDefinitions(linter.defs, 0, {}) == None
              case PropertyLimit => AllProperties(linter.defs) > PROPERTY_LIMIT
              case _ => !SoundDefinitions(linter.defs)
    ensures error.Some? ==> Explains(schema, error.value)
  {
    hide Properties, Height, WellFormedTree, Search, SearchDefinitions, Total, AllProperties;
    var defs := linter.defs;
    error := None;
    NothingEntered(defs);
    assert linter.visited + linter.active == {};
    for k := 0 to |defs|
      invariant error.None? && linter.Valid() && linter.active == {} && linter.Budget() == 0 && linter.count <= PROPERTY_LIMIT
      invariant forall i | 0 <= i < k :: defs[i].key in linter.visited
      invariant SearchDefinitions(defs, 0, {}) == SearchDefinitions(defs, k, linter.visited)
    {
      var name, definition := defs[k].key, defs[k].value;
      GetAt(defs, k);
      SearchNext(defs, k, linter.visited);
      assert linter.visited + linter.active == linter.visited;
      if name !in linter.visited && name !in linter.active {
        ghost var deepest: seq<Hop>;
        ghost var hop := Hop(definition, Some(name));
        assert Entered([hop]) == {name} by {
          assert hop in [hop];
        }
        error, deepest := linter.Enter(name, 1, [hop]);
        if error.Some? {
          TotalBounded(defs, linter.visited + linter.active);
          if error == Some(DepthExceeded) {
            assert SimplePath(defs, deepest) && StartsAtDefinition(defs, deepest[0]);
          } else if error != Some(PropertyLimit) {
            FaultIsExplained(schema, deepest, error.value);
          }
          return;
        }
        assert linter.visited + linter.active == linter.visited;
      }
    }
    SearchDone(defs, linter.visited);
  }

  /** One definition further in the search, or past one that was entered before. */
  lemma SearchNext(defs: seq<Field>, k: nat, entered: set<string>)
    requires k < |defs| && Get(defs, defs[k].key) == Some(defs[k].value)
    ensures defs[k].key in entered ==> SearchDefinitions(defs, k, entered) == SearchDefinitions(defs, k + 1, entered)
    ensures defs[k].key !in entered ==>
              SearchDefinitions(defs, k, entered) ==
                match Search(defs, Definition(defs, defs[k].key), 1, entered + {defs[k].key})
                case None => None
                case Some(more) => SearchDefinitions(defs, k + 1, more)
  {
    hide Search;
  }

  lemma SearchDone(defs: seq<Field>, entered: set<string>)
    ensures SearchDefinitions(defs, |defs|, entered) == Some(entered)
  {
  }

  lemma {:induction false} NothingEntered(defs: seq<Field>)
    ensures Total(defs, {}) == 0
  {
    if defs != [] {
      NothingEntered(defs[1..]);
    }
  }

  // ----- Checks that look at one node only -----

  ghost predicate ShapeOk(fields: seq<Field>) {
    && (Given(fields, "type").Some? ==> Given(fields, "type").value.Str? && ScalarType(Given(fields, "type").value.text))
    && (HasType(fields, "object") ==> ClosedObject(fields))
    && (HasType(fields, "array") ==> Has(fields, "items"))
  }

  predicate NothingMisplaced(fields: seq<Field>) {
    && (HasType(fields, "object")
        || (!Has(fields, "additionalProperties") && !Has(fields, "properties") && !Has(fields, "required")))
    && (HasType(fields, "array") || !Has(fields, "items"))
  }

  ghost predicate ChoicesOk(fields: seq<Field>) {
    && (Has(fields, "anyOf") ==> Branches(fields) != [])
    && (Has(fields, "enum") ==> Get(fields, "enum").value.Arr? && Get(fields, "enum").value.items != [])
  }

  lemma ObjectChildren(node: Json)
    requires node.Obj? && HasType(node.fields, "object") && ClosedObject(node.fields)
    ensures Get(node.fields, "properties").Some? && Get(node.fields, "properties").value.Obj?
    ensures var properties := Get(node.fields, "properties").value.fields;
            ShapeChildren(node.fields) == Values(properties) && OwnProperties(node) == |properties|
    ensures forall k | 0 <= k < |ShapeChildren(node.fields)| :: ShapeChildren(node.fields)[k] in Children(node)
  {
  }

  lemma ListOfChildren(defs: seq<Field>, items: seq<Json>, root: bool)
    ensures Children(Arr(items)) == items
    ensures Properties(Arr(items)) == PropertiesIn(items) && Height(Arr(items)) == HeightBelow(items)
    ensures WellFormedTree(defs, Arr(items), root) <==> forall k | 0 <= k < |items| :: WellFormedTree(defs, items[k], false)
  {
    PropertiesSplit(Arr(items));
    HeightSplit(Arr(items));
  }

  lemma NoSchema(defs: seq<Field>, node: Json, root: bool)
    requires !node.Arr? && !node.Obj?
    ensures !WellFormedTree(defs, node, root)
  {
  }

  lemma NothingBelow()
    ensures PropertiesIn([]) == 0 && HeightBelow([]) == 0
  {
  }

  lemma MappingSums(node: Json)
    requires node.Obj?
    ensures Properties(node) == OwnProperties(node) + PropertiesIn(ShapeChildren(node.fields))
                                + PropertiesIn(Branches(node.fields))
    ensures Height(node) == Max(HeightBelow(ShapeChildren(node.fields)), HeightBelow(Branches(node.fields)))
  {
    PropertiesSplit(node);
    HeightSplit(node);
    ListsAppend(ShapeChildren(node.fields), Branches(node.fields));
  }

  ghost predicate KeysOk(node: Json, root: bool)
    requires node.Obj?
  {
    (forall f <- node.fields :: SupportedKey(f.key)) && (Has(node.fields, "$defs") ==> root)
  }

  ghost predicate PartsOk(defs: seq<Field>, node: Json)
    requires node.Obj?
  {
    && RefResolves(defs, node.fields) && ShapeOk(node.fields) && NothingMisplaced(node.fields) && ChoicesOk(node.fields)
    && (forall k | 0 <= k < |ShapeChildren(node.fields)| :: WellFormedTree(defs, ShapeChildren(node.fields)[k], false))
    && (forall k | 0 <= k < |Branches(node.fields)| :: WellFormedTree(defs, Branches(node.fields)[k], false))
  }

  lemma TreeFromParts(defs: seq<Field>, node: Json, root: bool)
    requires node.Obj?
    ensures WellFormedTree(defs, node, root) <==> KeysOk(node, root) && PartsOk(defs, node)
  {
    var shape, branches := ShapeChildren(node.fields), Branches(node.fields);
    assert Children(node) == shape + branches;
    if WellFormedTree(defs, node, root) {
      forall k | 0 <= k < |shape|
        ensures WellFormedTree(defs, shape[k], false)
      {
        assert Children(node)[k] == shape[k];
      }
      forall k | 0 <= k < |branches|
        ensures WellFormedTree(defs, branches[k], false)
      {
        assert Children(node)[|shape| + k] == branches[k];
      }
    }
  }

  method CheckKeys(fields: seq<Field>, root: bool) returns (error: Option<LintError>)
    ensures error.None? <==> KeysOk(Obj(fields), root)
    ensures error.Some? ==>
              if error.value == DefinitionsNested then Has(fields, "$defs") && !root else HasFault(fields, error.value)
  {
    if exists f <- fields :: !SupportedKey(f.key) {
      return Some(KeyUnsupported);
    }
    if Has(fields, "$defs") && !root {
      return Some(DefinitionsNested);
    }
    return None;
  }

  method CheckObject(fields: seq<Field>) returns (error: Option<LintError>)
    requires HasType(fields, "object")
    ensures error.None? <==> ClosedObject(fields)
    ensures error.Some? ==> HasFault(fields, error.value)
  {
    if Get(fields, "additionalProperties") != Some(Bool(false)) {
      return Some(OpenObject);
    }
    var properties, required := Get(fields, "properties"), Get(fields, "required");
    if properties.None? || !properties.value.Obj? || required.None? || !required.value.Arr? {
      return Some(ObjectShapeInvalid);
    }
    var items := required.value.items;
    if exists item <- items :: !item.Str? {
      return Some(RequiredInvalid);
    }
    SetOfDistinct(items);
    if |items| != |set item | item in items| {
      return Some(RequiredInvalid);
    }
    NamesAgree(items, properties.value.fields);
    if (set item | item in items) != set f | f in properties.value.fields :: Str(f.key) {
      return Some(RequiredIncomplete);
    }
    return None;
  }

  /** The two sets the code compares are equal when the same texts are in both. */
  lemma NamesAgree(items: seq<Json>, properties: seq<Field>)
    requires IsNames(items)
    ensures (set item | item in items) == (set f | f in properties :: Str(f.key))
            <==> forall name: string :: Str(name) in items <==> Has(properties, name)
  {
    var left, right := set item | item in items, set f | f in properties :: Str(f.key);
    forall name: string
      ensures Str(name) in left <==> Str(name) in items
      ensures Str(name) in right <==> Has(properties, name)
    {
    }
    forall json: Json | json in left + right
      ensures json.Str? && json == Str(json.text)
    {
    }
    if forall name: string :: Str(name) in items <==> Has(properties, name) {
      forall json: Json | json in left + right
        ensures json in left <==> json in right
      {
        assert json == Str(json.text);
      }
    }
  }

  predicate Distinct(items: seq<Json>) {
    forall i, j | 0 <= i < j < |items| :: items[i] != items[j]
  }

  lemma DistinctMore(rest: seq<Json>, last: Json)
    ensures Distinct(rest + [last]) <==> Distinct(rest) && last !in rest
  {
    var items := rest + [last];
    if Distinct(items) {
      forall i | 0 <= i < |rest|
        ensures rest[i] != last
      {
        assert items[i] == rest[i] && items[|rest|] == last;
      }
      forall i, j | 0 <= i < j < |rest|
        ensures rest[i] != rest[j]
      {
        assert items[i] == rest[i] && items[j] == rest[j];
      }
    }
  }

  lemma {:induction false} SetOfDistinct(items: seq<Json>)
    ensures |set item | item in items| <= |items|
    ensures |items| == |set item | item in items| <==> Distinct(items)
  {
    if items != [] {
      var rest, last := items[..|items| - 1], items[|items| - 1];
      SetOfDistinct(rest);
      DistinctMore(rest, last);
      assert items == rest + [last];
      assert (set item | item in items) == (set item | item in rest) + {last};
      assert last in rest ==> (set item | item in rest) + {last} == (set item | item in rest);
    }
  }

  method Misplaced(fields: seq<Field>) returns (error: Option<LintError>)
    ensures error.None? <==> NothingMisplaced(fields)
    ensures error.Some? ==> HasFault(fields, error.value)
  {
    var isObject, isArray := HasType(fields, "object"), HasType(fields, "array");
    if Has(fields, "additionalProperties") && !isObject {
      return Some(AdditionalPropertiesNonObject);
    }
    if Has(fields, "properties") && !isObject {
      return Some(PropertiesNonObject);
    }
    if Has(fields, "required") && !isObject {
      return Some(RequiredNonObject);
    }
    if Has(fields, "items") && !isArray {
      return Some(ItemsNonArray);
    }
    return None;
  }
}
