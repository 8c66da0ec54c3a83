/** `_close_objects`: the rebuild that makes every object schema meet the linter's rule. */
module SchemaClose {
  import opened Wrappers
  import opened JsonValues
  import opened SchemaShape

  /** The keys of a dictionary, as the texts of a list. */
  function Names(fields: seq<Field>): seq<Json> {
    seq(|fields|, k requires 0 <= k < |fields| => Str(fields[k].key))
  }

  function CloseObject(fields: seq<Field>): seq<Field> {
    if !HasType(fields, "object") then fields
    else
      match Get(fields, "properties")
      case Some(Obj(properties)) =>
        Put(Put(fields, "additionalProperties", Bool(false)), "required", Arr(Names(properties)))
      case _ => fields
  }

  function CloseObjects(node: Json): Json
    decreases node
  {
    match node
    case Arr(items) => Arr(seq(|items|, k requires 0 <= k < |items| => CloseObjects(items[k])))
    case Obj(fields) =>
      Obj(CloseObject(seq(|fields|, k requires 0 <= k < |fields| => Field(fields[k].key, CloseObjects(fields[k].value)))))
    case _ => node
  }

  function CloseFields(fields: seq<Field>): (closed: seq<Field>)
    ensures |closed| == |fields|
    ensures forall k | 0 <= k < |fields| :: closed[k] == Field(fields[k].key, CloseObjects(fields[k].value))
  {
    seq(|fields|, k requires 0 <= k < |fields| => Field(fields[k].key, CloseObjects(fields[k].value)))
  }

  lemma CloseUnfolds(fields: seq<Field>)
    ensures CloseObjects(Obj(fields)) == Obj(CloseObject(CloseFields(fields)))
  {
    assert CloseFields(fields)
      == seq(|fields|, k requires 0 <= k < |fields| => Field(fields[k].key, CloseObjects(fields[k].value)));
  }

  /** No dictionary anywhere in the value has a key twice. */
  ghost predicate Keyed(node: Json)
    decreases node
  {
    match node
    case Arr(items) => forall k | 0 <= k < |items| :: Keyed(items[k])
    case Obj(fields) => UniqueKeys(fields) && forall k | 0 <= k < |fields| :: Keyed(fields[k].value)
    case _ => true
  }

  /** Every dictionary in the value that is typed as an object and has properties is closed. */
  ghost predicate Closed(node: Json)
    decreases node
  {
    match node
    case Arr(items) => forall k | 0 <= k < |items| :: Closed(items[k])
    case Obj(fields) => NodeClosed(fields) && forall k | 0 <= k < |fields| :: Closed(fields[k].value)
    case _ => true
  }

  ghost predicate NodeClosed(fields: seq<Field>) {
    HasType(fields, "object") && Get(fields, "properties").Some? && Get(fields, "properties").value.Obj? ==> ClosedObject(fields)
  }

  // ----- Values under a key -----

  lemma {:induction false} GetClosed(fields: seq<Field>, key: string)
    ensures Get(CloseFields(fields), key) ==
              if Get(fields, key).Some? then Some(CloseObjects(Get(fields, key).value)) else None
  {
    if fields != [] {
      GetClosed(fields[1..], key);
      assert CloseFields(fields)[1..] == CloseFields(fields[1..]);
    }
  }

  lemma NamesAreKeys(properties: seq<Field>)
    requires UniqueKeys(properties)
    ensures IsNames(Names(properties))
    ensures forall i, j | 0 <= i < j < |properties| :: Names(properties)[i] != Names(properties)[j]
    ensures forall name: string :: Str(name) in Names(properties) <==> Has(properties, name)
  {
    forall name: string | Has(properties, name)
      ensures Str(name) in Names(properties)
    {
      var k :| 0 <= k < |properties| && properties[k].key == name;
      assert Names(properties)[k] == Str(name);
    }
    forall name: string | Str(name) in Names(properties)
      ensures Has(properties, name)
    {
      var k :| 0 <= k < |properties| && Names(properties)[k] == Str(name);
      assert properties[k].key == name;
    }
  }

  lemma NamesAreSimple(fields: seq<Field>)
    ensures Keyed(Arr(Names(fields))) && Closed(Arr(Names(fields)))
  {
  }

  // ----- One node -----

  lemma KeysApart()
    ensures "properties" != "required" && "additionalProperties" != "required" && "properties" != "additionalProperties"
  {
    assert |"properties"| == 10 && |"required"| == 8 && |"additionalProperties"| == 20;
  }

  lemma ClosedFromGets(fields: seq<Field>, properties: seq<Field>)
    requires Get(fields, "additionalProperties") == Some(Bool(false)) && Get(fields, "properties") == Some(Obj(properties))
    requires Get(fields, "required") == Some(Arr(Names(properties))) && UniqueKeys(properties)
    ensures ClosedObject(fields)
  {
    NamesAreKeys(properties);
  }

  /** Closing sets two keys and leaves the value under every other key. */
  lemma CloseSetsTwoKeys(fields: seq<Field>, key: string)
    ensures key != "additionalProperties" && key != "required" ==> Get(CloseObject(fields), key) == Get(fields, key)
  {
    match Get(fields, "properties")
    case Some(Obj(properties)) =>
      GetAfterPut(fields, "additionalProperties", Bool(false), key);
      GetAfterPut(Put(fields, "additionalProperties", Bool(false)), "required", Arr(Names(properties)), key);
    case _ =>
  }

  lemma ClosedNode(fields: seq<Field>)
    requires HasType(fields, "object") && Get(fields, "properties").Some? && Get(fields, "properties").value.Obj?
    requires UniqueKeys(Get(fields, "properties").value.fields)
    ensures ClosedObject(CloseObject(fields))
  {
    hide ClosedObject, Names;
    var properties := Get(fields, "properties").value.fields;
    var closing := Put(fields, "additionalProperties", Bool(false));
    KeysApart();
    CloseSetsTwoKeys(fields, "properties");
    GetAfterPut(closing, "required", Arr(Names(properties)), "required");
    GetAfterPut(closing, "required", Arr(Names(properties)), "additionalProperties");
    GetAfterPut(fields, "additionalProperties", Bool(false), "additionalProperties");
    ClosedFromGets(CloseObject(fields), properties);
  }

  // ----- Main results -----

  ghost predicate KeyedAndClosed(node: Json) {
    Keyed(node) && Closed(node)
  }

  lemma FromValues(fields: seq<Field>)
    requires UniqueKeys(fields) && AllValues(fields, KeyedAndClosed) && NodeClosed(fields)
    ensures Keyed(Obj(fields)) && Closed(Obj(fields))
  {
    forall k | 0 <= k < |fields|
      ensures Keyed(fields[k].value) && Closed(fields[k].value)
    {
      assert KeyedAndClosed(fields[k].value);
    }
  }

  lemma CloseObjectCloses(fields: seq<Field>)
    requires UniqueKeys(fields) && AllValues(fields, KeyedAndClosed)
    ensures Keyed(Obj(CloseObject(fields))) && Closed(Obj(CloseObject(fields)))
  {
    if HasType(fields, "object") && Get(fields, "properties").Some? && Get(fields, "properties").value.Obj? {
      var properties := Get(fields, "properties").value.fields;
      var closing := Put(fields, "additionalProperties", Bool(false));
      PropertiesAreKeyed(fields, properties);
      NamesAreSimple(properties);
      ClosedNode(fields);
      hide Keyed, Closed, UniqueKeys, AllValues, Names, Get, ClosedObject, Put;
      assert KeyedAndClosed(Bool(false)) by { SimpleIsClosed(); }
      PutKeepsKeys(fields, "additionalProperties", Bool(false));
      PutKeepsKeys(closing, "required", Arr(Names(properties)));
      PutValues(fields, "additionalProperties", Bool(false), KeyedAndClosed);
      PutValues(closing, "required", Arr(Names(properties)), KeyedAndClosed);
    }
    hide Keyed, Closed, UniqueKeys, AllValues, ClosedObject, Get, Put;
    FromValues(CloseObject(fields));
  }

  lemma SimpleIsClosed()
    ensures Keyed(Bool(false)) && Closed(Bool(false))
  {
  }

  lemma PropertiesAreKeyed(fields: seq<Field>, properties: seq<Field>)
    requires AllValues(fields, KeyedAndClosed) && Get(fields, "properties") == Some(Obj(properties))
    ensures UniqueKeys(properties)
  {
    var k :| 0 <= k < |fields| && fields[k] == Field("properties", Obj(properties));
    assert KeyedAndClosed(fields[k].value);
  }

  /** After closing, every object schema anywhere in the value lists exactly its properties as
      required and admits no others; dictionaries still have unique keys. */
  lemma {:induction false} ClosingCloses(node: Json)
    requires Keyed(node)
    ensures Keyed(CloseObjects(node)) && Closed(CloseObjects(node))
    decreases node
  {
    match node
    case Arr(items) =>
      forall k | 0 <= k < |items|
        ensures Keyed(CloseObjects(items[k])) && Closed(CloseObjects(items[k]))
      {
        ClosingCloses(items[k]);
      }
    case Obj(fields) =>
      forall k | 0 <= k < |fields|
        ensures Keyed(CloseObjects(fields[k].value)) && Closed(CloseObjects(fields[k].value))
      {
        ClosingCloses(fields[k].value);
      }
      assert AllValues(CloseFields(fields), KeyedAndClosed);
      CloseObjectCloses(CloseFields(fields));
      CloseUnfolds(fields);
    case _ =>
  }

  /** The rebuild changes no other key: under each, the closed form of the old value stays. */
  lemma ClosingKeepsTheRest(fields: seq<Field>, key: string)
    requires key != "additionalProperties" && key != "required"
    ensures CloseObjects(Obj(fields)).Obj?
    ensures Get(CloseObjects(Obj(fields)).fields, key) ==
              if Get(fields, key).Some? then Some(CloseObjects(Get(fields, key).value)) else None
  {
    CloseUnfolds(fields);
    GetClosed(fields, key);
    CloseSetsTwoKeys(CloseFields(fields), key);
  }
}
