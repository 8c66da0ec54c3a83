/** Finite JSON values as Python dictionaries and lists hold them: an object is the
    list of its entries in insertion order, and a float is known by its decimal text. */
module JsonValues {
  import opened Wrappers

  datatype Json =
    | Null
    | Bool(flag: bool)
    | Int(number: int)
    | Dec(numeral: string)
    | Str(text: string)
    | Arr(items: seq<Json>)
    | Obj(fields: seq<Field>)

  datatype Field = Field(key: string, value: Json)

  predicate Has(fields: seq<Field>, key: string) {
    exists f <- fields :: f.key == key
  }

  /** `mapping.get(key)` with an explicit "absent". */
  function Get(fields: seq<Field>, key: string): (found: Option<Json>)
    ensures found.Some? <==> Has(fields, key)
    ensures found.Some? ==> Field(key, found.value) in fields
  {
    if fields == [] then None
    else if fields[0].key == key then Some(fields[0].value)
    else Get(fields[1..], key)
  }

  /** `mapping[key] = value`: an existing key keeps its place, a new key goes last. */
  function Put(fields: seq<Field>, key: string, value: Json): seq<Field> {
    if fields == [] then [Field(key, value)]
    else if fields[0].key == key then [Field(key, value)] + fields[1..]
    else [fields[0]] + Put(fields[1..], key, value)
  }

  /** `mapping.pop(key, None)`. */
  function Remove(fields: seq<Field>, key: string): seq<Field> {
    if fields == [] then []
    else if fields[0].key == key then Remove(fields[1..], key)
    else [fields[0]] + Remove(fields[1..], key)
  }

  lemma GetCons(field: Field, rest: seq<Field>, key: string)
    ensures Get([field] + rest, key) == if field.key == key then Some(field.value) else Get(rest, key)
  {
    assert ([field] + rest)[1..] == rest;
  }

  /** No key twice, as in any dictionary. */
  predicate UniqueKeys(fields: seq<Field>) {
    forall i, j | 0 <= i < j < |fields| :: fields[i].key != fields[j].key
  }

  lemma {:induction false} GetAt(fields: seq<Field>, k: nat)
    requires UniqueKeys(fields) && k < |fields|
    ensures Get(fields, fields[k].key) == Some(fields[k].value)
  {
    if k > 0 {
      GetAt(fields[1..], k - 1);
    }
  }

  lemma {:induction false} GetAfterPut(fields: seq<Field>, key: string, value: Json, other: string)
    ensures Get(Put(fields, key, value), other) == if other == key then Some(value) else Get(fields, other)
  {
    if fields == [] || fields[0].key == key {
    } else {
      GetAfterPut(fields[1..], key, value, other);
    }
  }

  lemma {:induction false} GetAfterRemove(fields: seq<Field>, key: string, other: string)
    ensures Get(Remove(fields, key), other) == if other == key then None else Get(fields, other)
  {
    if fields == [] {
    } else {
      GetAfterRemove(fields[1..], key, other);
    }
  }

  // ----- What updates keep -----

  lemma ConsKeepsKeys(first: Field, rest: seq<Field>)
    requires UniqueKeys(rest) && forall k | 0 <= k < |rest| :: rest[k].key != first.key
    ensures UniqueKeys([first] + rest)
  {
  }

  lemma {:induction false} PutKeepsKeys(fields: seq<Field>, key: string, value: Json)
    requires UniqueKeys(fields)
    ensures UniqueKeys(Put(fields, key, value))
    ensures forall k | 0 <= k < |Put(fields, key, value)| ::
              Put(fields, key, value)[k].key == key || Has(fields, Put(fields, key, value)[k].key)
  {
    if fields == [] {
    } else if fields[0].key == key {
      assert Put(fields, key, value) == [Field(key, value)] + fields[1..];
    } else {
      PutKeepsKeys(fields[1..], key, value);
      ConsKeepsKeys(fields[0], Put(fields[1..], key, value));
    }
  }

  lemma {:induction false} RemoveKeepsKeys(fields: seq<Field>, key: string)
    requires UniqueKeys(fields)
    ensures UniqueKeys(Remove(fields, key))
    ensures forall k | 0 <= k < |Remove(fields, key)| :: Has(fields, Remove(fields, key)[k].key)
  {
    if fields == [] {
    } else {
      RemoveKeepsKeys(fields[1..], key);
      if fields[0].key != key {
        ConsKeepsKeys(fields[0], Remove(fields[1..], key));
      }
    }
  }

  /** Every value of the dictionary satisfies `ok`. */
  ghost predicate AllValues(fields: seq<Field>, ok: Json -> bool) {
    forall k | 0 <= k < |fields| :: ok(fields[k].value)
  }

  lemma ConsValues(first: Field, rest: seq<Field>, ok: Json -> bool)
    requires ok(first.value) && AllValues(rest, ok)
    ensures AllValues([first] + rest, ok)
  {
  }

  lemma {:induction false} PutValues(fields: seq<Field>, key: string, value: Json, ok: Json -> bool)
    requires ok(value) && AllValues(fields, ok)
    ensures AllValues(Put(fields, key, value), ok)
  {
    if fields == [] {
    } else if fields[0].key == key {
      ConsValues(Field(key, value), fields[1..], ok);
    } else {
      PutValues(fields[1..], key, value, ok);
      ConsValues(fields[0], Put(fields[1..], key, value), ok);
    }
  }

  lemma {:induction false} RemoveValues(fields: seq<Field>, key: string, ok: Json -> bool)
    requires AllValues(fields, ok)
    ensures AllValues(Remove(fields, key), ok)
  {
    if fields == [] {
    } else {
      RemoveValues(fields[1..], key, ok);
      if fields[0].key != key {
        ConsValues(fields[0], Remove(fields[1..], key), ok);
      }
    }
  }
}
