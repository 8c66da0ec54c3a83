/** What each of the linter's errors says about the schema it refuses. */
module SchemaFaults {
  import opened Wrappers
  import opened JsonValues
  import opened SchemaShape

  datatype LintError =
    | NotAnObject
    | RootNotObject
    | RootAnyOf
    | DefinitionsInvalid
    | DepthExceeded
    | NodeInvalid
    | KeyUnsupported
    | DefinitionsNested
    | RefInvalid
    | RefMissing
    | TypeInvalid
    | OpenObject
    | ObjectShapeInvalid
    | RequiredInvalid
    | RequiredIncomplete
    | PropertyLimit
    | ArrayItemsMissing
    | AdditionalPropertiesNonObject
    | PropertiesNonObject
    | RequiredNonObject
    | ItemsNonArray
    | AnyOfInvalid
    | EnumInvalid

  predicate IsMapping(value: Option<Json>) {
    value.Some? && value.value.Obj?
  }

  predicate IsList(value: Option<Json>) {
    value.Some? && value.value.Arr?
  }

  predicate IsFullList(value: Option<Json>) {
    IsList(value) && value.value.items != []
  }

  /** An object node with properties and a `required` list. */
  predicate HasObjectShape(fields: seq<Field>) {
    HasType(fields, "object") && IsMapping(Get(fields, "properties")) && IsList(Get(fields, "required"))
  }

  /** Each entry is a text and none is repeated. */
  ghost predicate DistinctNames(items: seq<Json>) {
    (forall k | 0 <= k < |items| :: items[k].Str?) && forall j, k | 0 <= j < k < |items| :: items[j] != items[k]
  }

  /** The node by itself has the fault that the error names. */
  ghost predicate HasFault(fields: seq<Field>, error: LintError) {
    match error
    case KeyUnsupported => exists f <- fields :: !SupportedKey(f.key)
    case RefInvalid =>
      Given(fields, "$ref").Some? && !(Given(fields, "$ref").value.Str? && "#/$defs/" <= Given(fields, "$ref").value.text)
    case TypeInvalid =>
      Given(fields, "type").Some? && !(Given(fields, "type").value.Str? && ScalarType(Given(fields, "type").value.text))
    case OpenObject => HasType(fields, "object") && Get(fields, "additionalProperties") != Some(Bool(false))
    case ObjectShapeInvalid => HasType(fields, "object") && !HasObjectShape(fields)
    case RequiredInvalid => HasObjectShape(fields) && !DistinctNames(Get(fields, "required").value.items)
    case RequiredIncomplete =>
      && HasObjectShape(fields) && DistinctNames(Get(fields, "required").value.items)
      && exists name: string ::
           (Str(name) in Get(fields, "required").value.items) != Has(Get(fields, "properties").value.fields, name)
    case ArrayItemsMissing => HasType(fields, "array") && !Has(fields, "items")
    case AdditionalPropertiesNonObject => !HasType(fields, "object") && Has(fields, "additionalProperties")
    case PropertiesNonObject => !HasType(fields, "object") && Has(fields, "properties")
    case RequiredNonObject => !HasType(fields, "object") && Has(fields, "required")
    case ItemsNonArray => !HasType(fields, "array") && Has(fields, "items")
    case AnyOfInvalid => Has(fields, "anyOf") && !IsFullList(Get(fields, "anyOf"))
    case EnumInvalid => Has(fields, "enum") && !IsFullList(Get(fields, "enum"))
    case _ => false
  }

  /** The node refers to a definition that is not there. */
  predicate RefersToNothing(defs: seq<Field>, fields: seq<Field>) {
    match Get(fields, "$ref")
    case Some(Str(text)) => "#/$defs/" <= text && !Has(defs, text[8..])
    case _ => false
  }

  /** The path is the root alone, which may hold definitions. */
  predicate AtRoot(path: seq<Hop>) {
    |path| == 1 && path[0].entered.None?
  }

  /** The path ends in a node with this fault. */
  ghost predicate EndsInFault(defs: seq<Field>, path: seq<Hop>, error: LintError) {
    && SimplePath(defs, path)
    && var node := path[|path| - 1].node;
       match error
       case NodeInvalid => !node.Arr? && !node.Obj?
       case RefMissing => node.Obj? && RefersToNothing(defs, node.fields)
       case DefinitionsNested => node.Obj? && Has(node.fields, "$defs") && !AtRoot(path)
       case _ => node.Obj? && HasFault(node.fields, error)
  }

  /** What the error says is so: of the root, of the whole schema, or of a node on a path from the
      root or from a definition. */
  ghost predicate Explains(schema: Json, error: LintError) {
    var defs := Definitions(schema);
    match error
    case NotAnObject => !schema.Obj?
    case RootNotObject => schema.Obj? && Get(schema.fields, "type") != Some(Str("object"))
    case RootAnyOf => schema.Obj? && Has(schema.fields, "anyOf")
    case DefinitionsInvalid => schema.Obj? && Has(schema.fields, "$defs") && !IsMapping(Get(schema.fields, "$defs"))
    case DepthExceeded => TooDeep(schema)
    case PropertyLimit => Properties(schema) + AllProperties(defs) > 5000
    case _ =>
      exists path: seq<Hop> ::
        EndsInFault(defs, path, error) && (path[0] == Hop(schema, None) || StartsAtDefinition(defs, path[0]))
  }

  lemma FaultIsExplained(schema: Json, path: seq<Hop>, error: LintError)
    requires EndsInFault(Definitions(schema), path, error)
    requires path[0] == Hop(schema, None) || StartsAtDefinition(Definitions(schema), path[0])
    ensures Explains(schema, error)
  {
    hide Properties, AllProperties, TooDeep;
  }
}
