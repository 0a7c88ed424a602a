/**
  Parameter definitions and their checked lookup (BuiltInIOFactoryBase).
*/
module Factories {
  import opened Parameters
  import opened Wrappers

  const INT_MAX := 0x7FFF_FFFF
  const UINT_RANGE := 0x1_0000_0000

  datatype ParaDef = ParaDef(key: string, required: bool, multi: bool, defaultValue: Variant)

  datatype ParaError = MissingRequired(key: string) | MissingIndex(key: string, index: nat)

  predicate Contains(params: Params, key: string)
  {
    Values(params, key) != []
  }

  /** Conversion of an int to uint32_t. */
  function ToUInt32(n: int): nat
  {
    n % UINT_RANGE
  }

  lemma {:induction false} ValuesFit(params: Params, key: string)
    ensures |Values(params, key)| <= |params|
    decreases |params|
  {
    if params != [] { ValuesFit(params[1..], key); }
  }

  /** `getParaValue`; a container's size is an int, and the last valid index is compared as unsigned. */
  function GetParaValue(params: Params, def: ParaDef, index: nat): Result<Variant, ParaError>
    requires |params| <= INT_MAX && index < UINT_RANGE
  {
    var values := Values(params, def.key);
    ValuesFit(params, def.key);
    if values == [] then
      if def.required then Failure(MissingRequired(def.key)) else Success(def.defaultValue)
    else if ToUInt32(|values| - 1) < index then Failure(MissingIndex(def.key, index))
    else Success(values[index])
  }

  /** The registered definitions by key: a later one replaces an earlier one. */
  function Table(defs: seq<ParaDef>): map<string, ParaDef>
    decreases |defs|
  {
    if defs == [] then map[] else Table(defs[..|defs| - 1])[defs[|defs| - 1].key := defs[|defs| - 1]]
  }

  lemma {:induction false} TableFromDefs(defs: seq<ParaDef>, key: string)
    requires key in Table(defs)
    ensures Table(defs)[key] in defs && Table(defs)[key].key == key
    decreases |defs|
  {
    if defs[|defs| - 1].key != key { TableFromDefs(defs[..|defs| - 1], key); }
  }

  lemma {:induction false} TableLast(defs: seq<ParaDef>, i: nat)
    requires i < |defs| && forall j :: i < j < |defs| ==> defs[j].key != defs[i].key
    ensures defs[i].key in Table(defs) && Table(defs)[defs[i].key] == defs[i]
    decreases |defs|
  {
    if i < |defs| - 1 { TableLast(defs[..|defs| - 1], i); }
  }

  /** Nothing required is missing. */
  predicate Complete(defs: seq<ParaDef>, params: Params)
  {
    forall i :: 0 <= i < |defs| && defs[i].required ==> Contains(params, defs[i].key)
  }

  /** After a successful check no lookup of a registered key at index 0 fails: it gives the newest
      value supplied, or the default of the definition registered last. */
  lemma {:induction false} CheckedNeverThrows(defs: seq<ParaDef>, params: Params, key: string)
    requires |params| <= INT_MAX && Complete(defs, params) && key in Table(defs)
    ensures GetParaValue(params, Table(defs)[key], 0)
         == Success(if Contains(params, key) then Values(params, key)[0] else Table(defs)[key].defaultValue)
  {
    TableFromDefs(defs, key);
    ValuesFit(params, key);
    var i :| 0 <= i < |defs| && defs[i] == Table(defs)[key];
    assert defs[i].required ==> Contains(params, defs[i].key);
  }

  /** The unsigned comparison agrees with the mathematical one: for a key that is present a lookup
      succeeds exactly for the indexes of its values. */
  lemma {:induction false} LookupSucceedsExactly(params: Params, def: ParaDef, index: nat)
    requires |params| <= INT_MAX && index < UINT_RANGE
    ensures Contains(params, def.key) ==>
              (GetParaValue(params, def, index).Success? <==> index < |Values(params, def.key)|)
    ensures Contains(params, def.key) ==>
              GetParaValue(params, def, index) ==
                if index < |Values(params, def.key)| then Success(Values(params, def.key)[index])
                else Failure(MissingIndex(def.key, index))
    ensures !Contains(params, def.key) ==>
              GetParaValue(params, def, index) ==
                if def.required then Failure(MissingRequired(def.key)) else Success(def.defaultValue)
  {
    ValuesFit(params, def.key);
  }

  class BuiltInIOFactory {
    var paraDefs: seq<ParaDef>
    var paraDefsByKey: map<string, ParaDef>

    ghost predicate Valid()
      reads this
    {
      paraDefsByKey == Table(paraDefs)
    }

    constructor ()
      ensures Valid() && paraDefs == []
    {
      paraDefs, paraDefsByKey := [], map[];
    }

    method AddParaDef(def: ParaDef)
      requires Valid()
      modifies this
      ensures Valid() && paraDefs == old(paraDefs) + [def]
    {
      paraDefs := paraDefs + [def];
      paraDefsByKey := paraDefsByKey[def.key := def];
      assert paraDefs[..|paraDefs| - 1] == old(paraDefs);
    }

    /** Success exactly if nothing required is missing; otherwise the first that is missing. */
    method CheckRequiredParameters(params: Params) returns (r: Result<(), string>)
      ensures r.Success? <==> Complete(paraDefs, params)
      ensures r.Failure? ==>
                exists i :: 0 <= i < |paraDefs| && paraDefs[i].required && paraDefs[i].key == r.error
                            && !Contains(params, r.error) && Complete(paraDefs[..i], params)
    {
      for n := 0 to |paraDefs|
        invariant Complete(paraDefs[..n], params)
      {
        if paraDefs[n].required && !Contains(params, paraDefs[n].key) {
          return Failure(paraDefs[n].key);
        }
      }
      return Success(());
    }
  }
}
