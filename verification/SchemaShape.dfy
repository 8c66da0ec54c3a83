/** What the structured-output linter is for, said about schema trees without any traversal:
    local well-formedness, the property total, height, and paths through references. */
module SchemaShape {
  import opened Wrappers
  import opened JsonValues

  const REF_PREFIX := "#/$defs/"

  predicate SupportedKey(key: string) {
    key in {"$defs", "$ref", "additionalProperties", "anyOf", "enum", "items", "properties", "required", "type"}
  }

  predicate ScalarType(text: string) {
    text in {"array", "boolean", "null", "number", "object", "string"}
  }

  /** `node.get(key)`: an explicit null reads like an absent key. */
  function Given(fields: seq<Field>, key: string): Option<Json> {
    if Get(fields, key) == Some(Null) then None else Get(fields, key)
  }

  predicate HasType(fields: seq<Field>, text: string) {
    Get(fields, "type") == Some(Str(text))
  }

  function RefName(text: string): Option<string> {
    if REF_PREFIX <= text then Some(text[|REF_PREFIX|..]) else None
  }

  /** The definition a node refers to, when it does so properly. */
  function Target(fields: seq<Field>): Option<string> {
    match Given(fields, "$ref")
    case Some(Str(text)) => RefName(text)
    case _ => None
  }

  function Values(fields: seq<Field>): (values: seq<Json>)
    ensures |values| == |fields|
  {
    seq(|fields|, k requires 0 <= k < |fields| => fields[k].value)
  }

  predicate IsNames(items: seq<Json>) {
    forall item <- items :: item.Str?
  }

  /** The schemas directly below an object node: properties of an object, items of an array. */
  function ShapeChildren(fields: seq<Field>): seq<Json> {
    if HasType(fields, "object") then
      match Get(fields, "properties")
      case Some(Obj(properties)) => Values(properties)
      case _ => []
    else if HasType(fields, "array") then
      match Get(fields, "items")
      case Some(items) => [items]
      case None => []
    else []
  }

  function Branches(fields: seq<Field>): seq<Json> {
    match Get(fields, "anyOf")
    case Some(Arr(branches)) => branches
    case _ => []
  }

  // ----- Local well-formedness -----

  ghost predicate RefResolves(defs: seq<Field>, fields: seq<Field>) {
    Given(fields, "$ref").Some? ==> Target(fields).Some? && Has(defs, Target(fields).value)
  }

  /** A closed object: no additional properties, and `required` lists each property once. */
  ghost predicate ClosedObject(fields: seq<Field>) {
    && Get(fields, "additionalProperties") == Some(Bool(false))
    && Get(fields, "properties").Some? && Get(fields, "properties").value.Obj?
    && Get(fields, "required").Some? && Get(fields, "required").value.Arr?
    && var required := Get(fields, "required").value.items;
       && IsNames(required)
       && (forall i, j | 0 <= i < j < |required| :: required[i] != required[j])
       && (forall name: string :: Str(name) in required <==> Has(Get(fields, "properties").value.fields, name))
  }

  ghost predicate LocallyOk(defs: seq<Field>, fields: seq<Field>, root: bool) {
    && (forall f <- fields :: SupportedKey(f.key))
    && (Has(fields, "$defs") ==> root)
    && RefResolves(defs, fields)
    && (Given(fields, "type").Some? ==> Given(fields, "type").value.Str? && ScalarType(Given(fields, "type").value.text))
    && (if HasType(fields, "object") then ClosedObject(fields)
        else !Has(fields, "additionalProperties") && !Has(fields, "properties") && !Has(fields, "required"))
    && (HasType(fields, "array") <==> Has(fields, "items"))
    && (Has(fields, "anyOf") ==> Branches(fields) != [])
    && (Has(fields, "enum") ==> Get(fields, "enum").value.Arr? && Get(fields, "enum").value.items != [])
  }

  // ----- Trees -----

  /** Every node is a part of `node`. */
  ghost predicate Below(nodes: seq<Json>, node: Json) {
    forall k | 0 <= k < |nodes| :: nodes[k] < node
  }

  lemma ChildIsSmaller(node: Json)
    requires node.Obj?
    ensures Below(ShapeChildren(node.fields), node) && Below(Branches(node.fields), node)
  {
    var shape, branches := ShapeChildren(node.fields), Branches(node.fields);
    forall k | 0 <= k < |branches|
      ensures branches[k] < node
    {
      assert Field("anyOf", Get(node.fields, "anyOf").value) in node.fields;
    }
    forall k | 0 <= k < |shape|
      ensures shape[k] < node
    {
      if HasType(node.fields, "object") {
        assert Field("properties", Get(node.fields, "properties").value) in node.fields;
        var properties := Get(node.fields, "properties").value.fields;
        assert properties[k] in properties;
      } else {
        assert Field("items", shape[k]) in node.fields;
      }
    }
  }

  /** The schemas directly below a node. */
  function Children(node: Json): (children: seq<Json>)
    ensures Below(children, node)
  {
    match node
    case Arr(items) => items
    case Obj(fields) =>
      ChildIsSmaller(node);
      ShapeChildren(fields) + Branches(fields)
    case _ => []
  }

  /** Every node of the tree is a list or a locally well-formed object. */
  ghost predicate WellFormedTree(defs: seq<Field>, node: Json, root: bool)
    decreases node
  {
    && (node.Arr? || (node.Obj? && LocallyOk(defs, node.fields, root)))
    && forall k | 0 <= k < |Children(node)| :: WellFormedTree(defs, Children(node)[k], false)
  }

  function OwnProperties(node: Json): nat {
    if node.Obj? && HasType(node.fields, "object") then |ShapeChildren(node.fields)| else 0
  }

  function Sum(numbers: seq<nat>): nat {
    if numbers == [] then 0 else Sum(numbers[..|numbers| - 1]) + numbers[|numbers| - 1]
  }

  function Highest(numbers: seq<nat>): nat {
    if numbers == [] then 0 else Max(Highest(numbers[..|numbers| - 1]), numbers[|numbers| - 1])
  }

  function Max(a: nat, b: nat): nat {
    if a < b then b else a
  }

  /** All properties declared by the objects of a tree. */
  function Properties(node: Json): nat
    decreases node
  {
    var children := Children(node);
    OwnProperties(node) + Sum(seq(|children|, k requires 0 <= k < |children| => Properties(children[k])))
  }

  function Counts(nodes: seq<Json>): (counts: seq<nat>)
    ensures |counts| == |nodes| && forall k | 0 <= k < |nodes| :: counts[k] == Properties(nodes[k])
  {
    seq(|nodes|, k requires 0 <= k < |nodes| => Properties(nodes[k]))
  }

  function PropertiesIn(nodes: seq<Json>): nat {
    Sum(Counts(nodes))
  }

  lemma PropertiesSplit(node: Json)
    ensures Properties(node) == OwnProperties(node) + PropertiesIn(Children(node))
  {
    var children := Children(node);
    assert Counts(children) == seq(|children|, k requires 0 <= k < |children| => Properties(children[k]));
  }

  /** Steps to the deepest node below. */
  function Height(node: Json): nat
    decreases node
  {
    var children := Children(node);
    Highest(seq(|children|, k requires 0 <= k < |children| => 1 + Height(children[k])))
  }

  function Heights(nodes: seq<Json>): (heights: seq<nat>)
    ensures |heights| == |nodes| && forall k | 0 <= k < |nodes| :: heights[k] == 1 + Height(nodes[k])
  {
    seq(|nodes|, k requires 0 <= k < |nodes| => 1 + Height(nodes[k]))
  }

  function HeightBelow(nodes: seq<Json>): nat {
    Highest(Heights(nodes))
  }

  lemma HeightSplit(node: Json)
    ensures Height(node) == HeightBelow(Children(node))
  {
    var children := Children(node);
    assert Heights(children) == seq(|children|, k requires 0 <= k < |children| => 1 + Height(children[k]));
  }

  lemma {:induction false} SumAppend(a: seq<nat>, b: seq<nat>)
    ensures Sum(a + b) == Sum(a) + Sum(b)
    ensures Highest(a + b) == Max(Highest(a), Highest(b))
  {
    if b == [] {
      assert a + b == a;
    } else {
      SumAppend(a, b[..|b| - 1]);
      assert (a + b)[..|a + b| - 1] == a + b[..|b| - 1];
    }
  }

  lemma ListsAppend(a: seq<Json>, b: seq<Json>)
    ensures PropertiesIn(a + b) == PropertiesIn(a) + PropertiesIn(b)
    ensures HeightBelow(a + b) == Max(HeightBelow(a), HeightBelow(b))
  {
    hide Properties, Height;
    assert Counts(a + b) == Counts(a) + Counts(b);
    assert Heights(a + b) == Heights(a) + Heights(b);
    SumAppend(Counts(a), Counts(b));
    SumAppend(Heights(a), Heights(b));
  }

  /** The properties, and the height above, of the first `k` nodes. */
  function PropertiesUpTo(nodes: seq<Json>, k: nat): nat
    requires k <= |nodes|
  {
    if k == 0 then 0 else PropertiesUpTo(nodes, k - 1) + Properties(nodes[k - 1])
  }

  function HeightUpTo(nodes: seq<Json>, k: nat): nat
    requires k <= |nodes|
  {
    if k == 0 then 0 else Max(HeightUpTo(nodes, k - 1), 1 + Height(nodes[k - 1]))
  }

  lemma {:induction false} UpToIsPrefix(nodes: seq<Json>, k: nat)
    requires k <= |nodes|
    ensures PropertiesUpTo(nodes, k) == Sum(Counts(nodes)[..k])
    ensures HeightUpTo(nodes, k) == Highest(Heights(nodes)[..k])
  {
    hide Properties, Height;
    if k > 0 {
      UpToIsPrefix(nodes, k - 1);
      assert Counts(nodes)[..k][..k - 1] == Counts(nodes)[..k - 1];
      assert Heights(nodes)[..k][..k - 1] == Heights(nodes)[..k - 1];
    }
  }

  lemma {:induction false} UpToGrows(nodes: seq<Json>, k: nat, n: nat)
    requires k <= n <= |nodes|
    ensures PropertiesUpTo(nodes, k) <= PropertiesUpTo(nodes, n)
  {
    hide Properties;
    if k < n {
      UpToGrows(nodes, k, n - 1);
    }
  }

  lemma UpToAll(nodes: seq<Json>)
    ensures PropertiesUpTo(nodes, |nodes|) == PropertiesIn(nodes)
    ensures HeightUpTo(nodes, |nodes|) == HeightBelow(nodes)
  {
    hide Properties, Height;
    UpToIsPrefix(nodes, |nodes|);
    assert Counts(nodes)[..|nodes|] == Counts(nodes) && Heights(nodes)[..|nodes|] == Heights(nodes);
  }

  // ----- Totals over definitions -----

  function Definition(defs: seq<Field>, name: string): Json
    requires Has(defs, name)
  {
    Get(defs, name).value
  }

  /** Properties of the definitions with these names, each counted once. */
  function Total(defs: seq<Field>, names: set<string>): nat {
    if defs == [] then 0
    else (if defs[0].key in names then Properties(defs[0].value) else 0) + Total(defs[1..], names)
  }

  function AllProperties(defs: seq<Field>): nat {
    if defs == [] then 0 else Properties(defs[0].value) + AllProperties(defs[1..])
  }

  lemma {:induction false} TotalWithout(defs: seq<Field>, names: set<string>, name: string)
    requires !Has(defs, name)
    ensures Total(defs, names + {name}) == Total(defs, names)
  {
    if defs != [] {
      assert defs[0].key != name;
      TotalWithout(defs[1..], names, name);
    }
  }

  lemma {:induction false} TotalWith(defs: seq<Field>, names: set<string>, name: string)
    requires UniqueKeys(defs) && Has(defs, name) && name !in names
    ensures Total(defs, names + {name}) == Total(defs, names) + Properties(Definition(defs, name))
  {
    if defs[0].key == name {
      TotalWithout(defs[1..], names, name);
    } else {
      TotalWith(defs[1..], names, name);
    }
  }

  lemma {:induction false} TotalBounded(defs: seq<Field>, names: set<string>)
    ensures Total(defs, names) <= AllProperties(defs)
    ensures (forall f <- defs :: f.key in names) ==> Total(defs, names) == AllProperties(defs)
  {
    if defs != [] {
      TotalBounded(defs[1..], names);
    }
  }

  // ----- The whole schema -----

  const PROPERTY_LIMIT := 5000
  const DEPTH_LIMIT := 10

  function Definitions(schema: Json): seq<Field> {
    if schema.Obj? && Get(schema.fields, "$defs").Some? && Get(schema.fields, "$defs").value.Obj? then
      Get(schema.fields, "$defs").value.fields
    else []
  }

  ghost predicate SoundDefinitions(defs: seq<Field>) {
    forall name: string :: Has(defs, name) ==> WellFormedTree(defs, Definition(defs, name), false)
  }

  /** The documented subset, read off the schema: an object root without branches, every tree
      well formed, and at most the limit of properties over the root and all definitions. */
  ghost predicate InSubset(schema: Json) {
    && schema.Obj? && HasType(schema.fields, "object") && !Has(schema.fields, "anyOf")
    && (Has(schema.fields, "$defs") ==> Get(schema.fields, "$defs").value.Obj?)
    && var defs := Definitions(schema);
       && WellFormedTree(defs, schema, true) && SoundDefinitions(defs)
       && Properties(schema) + AllProperties(defs) <= PROPERTY_LIMIT
  }

  // ----- Paths through children and references -----

  predicate Leads(defs: seq<Field>, from: Json, to: Json) {
    to in Children(from)
    || (from.Obj? && Target(from.fields).Some? && Get(defs, Target(from.fields).value) == Some(to))
  }

  ghost predicate Path(defs: seq<Field>, nodes: seq<Json>) {
    nodes != [] && forall j, k | 0 <= j < k < |nodes| && k == j + 1 :: Leads(defs, nodes[j], nodes[k])
  }

  /** In a sound schema everything a path leads to is well formed, however often the path
      runs around a cycle of references. */
  lemma {:induction false} PathsStaySound(defs: seq<Field>, nodes: seq<Json>, root: bool)
    requires SoundDefinitions(defs) && Path(defs, nodes) && WellFormedTree(defs, nodes[0], root)
    ensures WellFormedTree(defs, nodes[|nodes| - 1], if |nodes| == 1 then root else false)
    decreases |nodes|
  {
    if |nodes| > 1 {
      PathsStaySound(defs, nodes[..|nodes| - 1], root);
      var from, to := nodes[|nodes| - 2], nodes[|nodes| - 1];
      assert Leads(defs, from, to);
      if to in Children(from) {
        var k :| 0 <= k < |Children(from)| && Children(from)[k] == to;
      } else {
        assert to == Definition(defs, Target(from.fields).value);
      }
    }
  }

  /** Every node reachable from the root or from any definition, along properties, items,
      branches and references, is a list or a locally well-formed object. */
  lemma ReachableNodesAreSound(schema: Json, nodes: seq<Json>)
    requires InSubset(schema) && Path(Definitions(schema), nodes)
    requires nodes[0] == schema || exists name: string ::
               Has(Definitions(schema), name) && Definition(Definitions(schema), name) == nodes[0]
    ensures var last := nodes[|nodes| - 1];
            last.Arr? || (last.Obj? && LocallyOk(Definitions(schema), last.fields, last == schema))
  {
    var defs, last := Definitions(schema), nodes[|nodes| - 1];
    PathsStaySound(defs, nodes, nodes[0] == schema && WellFormedTree(defs, schema, true) && !WellFormedTree(defs, schema, false));
    assert WellFormedTree(defs, last, false) || WellFormedTree(defs, last, true);
  }

  // ----- Paths that enter no definition twice -----

  /** One node of such a path, and the definition it was entered as, if it was. */
  datatype Hop = Hop(node: Json, entered: Option<string>)

  predicate Continues(defs: seq<Field>, from: Json, hop: Hop) {
    match hop.entered
    case None => hop.node in Children(from)
    case Some(name) => from.Obj? && Target(from.fields) == Some(name) && Get(defs, name) == Some(hop.node)
  }

  ghost predicate SimplePath(defs: seq<Field>, hops: seq<Hop>) {
    && hops != []
    && (forall j, k | 0 <= j < k < |hops| && k == j + 1 :: Continues(defs, hops[j].node, hops[k]))
    && (forall j, k | 0 <= j < k < |hops| && hops[j].entered.Some? :: hops[j].entered != hops[k].entered)
  }

  ghost function Entered(hops: seq<Hop>): set<string> {
    set hop | hop in hops && hop.entered.Some? :: hop.entered.value
  }

  lemma PathMore(defs: seq<Field>, hops: seq<Hop>, next: Hop)
    requires SimplePath(defs, hops) && Continues(defs, hops[|hops| - 1].node, next)
    requires next.entered.Some? ==> next.entered.value !in Entered(hops)
    ensures SimplePath(defs, hops + [next])
    ensures Entered(hops + [next]) == Entered(hops) + if next.entered.Some? then {next.entered.value} else {}
  {
    var longer := hops + [next];
    forall j, k | 0 <= j < k < |longer| && longer[j].entered.Some?
      ensures longer[j].entered != longer[k].entered
    {
      assert longer[j] in hops && longer[j].entered.value in Entered(hops);
    }
    forall name <- Entered(hops)
      ensures name in Entered(longer)
    {
      var hop :| hop in hops && hop.entered == Some(name);
      assert hop in longer;
    }
    assert next in longer;
  }

  /** A path too long for the depth limit, from the root or from a definition, that enters no
      definition twice; a schema has only finitely many such paths, cyclic or not. */
  ghost predicate TooDeep(schema: Json) {
    var defs := Definitions(schema);
    exists hops: seq<Hop> ::
      SimplePath(defs, hops)
      && ((hops[0] == Hop(schema, None) && |hops| == DEPTH_LIMIT + 2)
          || (StartsAtDefinition(defs, hops[0]) && |hops| == DEPTH_LIMIT + 1))
  }

  predicate StartsAtDefinition(defs: seq<Field>, hop: Hop) {
    hop.entered.Some? && Get(defs, hop.entered.value) == Some(hop.node)
  }

  // ----- The order of the search -----

  /** The definitions entered once the search is through with a node: first what it refers to,
      if that is new, then the schemas below it, from left to right. Nothing when a node lies
      below the depth limit on the way. A definition's depth is that of its first entry. */
  function Search(defs: seq<Field>, node: Json, depth: nat, entered: set<string>): Option<set<string>>
    decreases DEPTH_LIMIT + 1 - depth, 1
  {
    if depth > DEPTH_LIMIT then None
    else
      match if node.Obj? then SearchRef(defs, node.fields, depth, entered) else Some(entered)
      case None => None
      case Some(more) => SearchAll(defs, Children(node), depth + 1, more)
  }

  function SearchAll(defs: seq<Field>, nodes: seq<Json>, depth: nat, entered: set<string>): Option<set<string>>
    requires depth > 0
    decreases DEPTH_LIMIT + 1 - depth, 2, |nodes|
  {
    if nodes == [] then Some(entered)
    else
      match Search(defs, nodes[0], depth, entered)
      case None => None
      case Some(more) => SearchAll(defs, nodes[1..], depth, more)
  }

  function SearchRef(defs: seq<Field>, fields: seq<Field>, depth: nat, entered: set<string>): Option<set<string>>
    requires depth <= DEPTH_LIMIT
    decreases DEPTH_LIMIT + 1 - depth, 0
  {
    match Target(fields)
    case None => Some(entered)
    case Some(name) =>
      if Has(defs, name) && name !in entered then Search(defs, Definition(defs, name), depth + 1, entered + {name})
      else Some(entered)
  }

  /** The definitions from the `k`th on, each at depth 1 unless it was entered before. */
  function SearchDefinitions(defs: seq<Field>, k: nat, entered: set<string>): Option<set<string>>
    requires k <= |defs|
    decreases |defs| - k
  {
    if k == |defs| then Some(entered)
    else if defs[k].key in entered then SearchDefinitions(defs, k + 1, entered)
    else
      match Search(defs, defs[k].value, 1, entered + {defs[k].key})
      case None => None
      case Some(more) => SearchDefinitions(defs, k + 1, more)
  }

  /** In this order, definitions first and the root last, no node lies too deep. */
  predicate FitsInOrder(schema: Json) {
    match SearchDefinitions(Definitions(schema), 0, {})
    case None => false
    case Some(entered) => Search(Definitions(schema), schema, 0, entered).Some?
  }

  function SearchOn(defs: seq<Field>, nodes: seq<Json>, depth: nat, found: Option<set<string>>): Option<set<string>>
    requires depth > 0
  {
    match found
    case None => None
    case Some(entered) => SearchAll(defs, nodes, depth, entered)
  }

  lemma {:induction false} SearchConcat(defs: seq<Field>, a: seq<Json>, b: seq<Json>, depth: nat, entered: set<string>)
    requires depth > 0
    ensures SearchAll(defs, a + b, depth, entered) == SearchOn(defs, b, depth, SearchAll(defs, a, depth, entered))
  {
    hide Search;
    if a == [] {
      assert a + b == b;
    } else {
      assert (a + b)[1..] == a[1..] + b;
      match Search(defs, a[0], depth, entered)
      case None =>
      case Some(more) => SearchConcat(defs, a[1..], b, depth, more);
    }
  }

  lemma SearchTooDeep(defs: seq<Field>, node: Json, depth: nat, entered: set<string>)
    requires depth > DEPTH_LIMIT
    ensures Search(defs, node, depth, entered) == None
  {
  }

  lemma SearchList(defs: seq<Field>, items: seq<Json>, depth: nat, entered: set<string>)
    requires depth <= DEPTH_LIMIT
    ensures Search(defs, Arr(items), depth, entered) == SearchAll(defs, items, depth + 1, entered)
  {
  }

  /** A mapping: its reference, its shape and its branches, in this order. */
  lemma SearchMapping(defs: seq<Field>, fields: seq<Field>, depth: nat, entered: set<string>)
    requires depth <= DEPTH_LIMIT
    ensures Search(defs, Obj(fields), depth, entered) ==
              SearchOn(defs, Branches(fields), depth + 1,
                       SearchOn(defs, ShapeChildren(fields), depth + 1, SearchRef(defs, fields, depth, entered)))
  {
    var shape, branches := ShapeChildren(fields), Branches(fields);
    assert Children(Obj(fields)) == shape + branches;
    match SearchRef(defs, fields, depth, entered)
    case None =>
    case Some(more) => SearchConcat(defs, shape, branches, depth + 1, more);
  }

  lemma SearchNothing(defs: seq<Field>, depth: nat, entered: set<string>)
    requires depth > 0
    ensures SearchAll(defs, [], depth, entered) == Some(entered)
  {
  }

  lemma SearchFirst(defs: seq<Field>, nodes: seq<Json>, k: nat, depth: nat, entered: set<string>)
    requires depth > 0 && k < |nodes|
    ensures SearchAll(defs, nodes[k..], depth, entered) ==
              SearchOn(defs, nodes[k + 1..], depth, Search(defs, nodes[k], depth, entered))
  {
    assert nodes[k..][1..] == nodes[k + 1..];
  }
}
