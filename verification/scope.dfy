/** The resolution rule of a lexical scope chain, stated once on the sequence
    of records met when walking from an environment up its parent links
    (innermost record first). The heap model of `Environment` and the store
    the evaluator works on are both proved against these definitions. */
module Scope {
  import opened Results

  /** The position of the nearest record on the chain that owns `name`. */
  function Owner<V>(chain: seq<map<string, V>>, name: string): (r: Option<nat>)
    ensures r.Some? ==> r.value < |chain| && name in chain[r.value]
    ensures r.Some? ==> forall j :: 0 <= j < r.value ==> name !in chain[j]
    ensures r.None? <==> forall j :: 0 <= j < |chain| ==> name !in chain[j]
  {
    if |chain| == 0 then None
    else if name in chain[0] then Some(0)
    else
      match Owner(chain[1..], name)
      case None => None
      case Some(k) => Some(k + 1)
  }

  /** The value bound to `name` in its nearest owner; a ReferenceError when
      no record on the chain owns it. */
  function LookupIn<V>(chain: seq<map<string, V>>, name: string): Result<V>
  {
    match Owner(chain, name)
    case None => Err(ReferenceError(name))
    case Some(k) => Ok(chain[k][name])
  }

  /** The chain after overwriting `name` in its nearest owner; a
      ReferenceError, and no chain, when no record owns it. */
  function AssignIn<V>(chain: seq<map<string, V>>, name: string, value: V): Result<seq<map<string, V>>>
  {
    match Owner(chain, name)
    case None => Err(ReferenceError(name))
    case Some(k) => Ok(chain[k := chain[k][name := value]])
  }

  /** Two chains whose records own the same names resolve every name to the
      same position. */
  lemma {:induction false} OwnerDependsOnKeysOnly<V>(c: seq<map<string, V>>, d: seq<map<string, V>>, name: string)
    requires |c| == |d|
    requires forall j :: 0 <= j < |c| ==> c[j].Keys == d[j].Keys
    ensures Owner(c, name) == Owner(d, name)
  {
    if |c| > 0 && name !in c[0] {
      OwnerDependsOnKeysOnly(c[1..], d[1..], name);
    }
  }

  /** Lookup finds the value in the nearest record that owns the name. */
  lemma LookupFindsNearest<V>(chain: seq<map<string, V>>, name: string, k: nat)
    requires k < |chain| && name in chain[k]
    requires forall j :: 0 <= j < k ==> name !in chain[j]
    ensures LookupIn(chain, name) == Ok(chain[k][name])
  {
  }

  lemma LookupFailsIffUnowned<V>(chain: seq<map<string, V>>, name: string)
    ensures LookupIn(chain, name).Err? <==> forall j :: 0 <= j < |chain| ==> name !in chain[j]
    ensures LookupIn(chain, name).Err? ==> LookupIn(chain, name).error == ReferenceError(name)
  {
  }

  /** Assignment never creates or removes a binding, it changes only the
      nearest owner, and it fails exactly when lookup fails. */
  lemma AssignKeepsKeys<V>(chain: seq<map<string, V>>, name: string, value: V)
    ensures AssignIn(chain, name, value).Err? <==> LookupIn(chain, name).Err?
    ensures AssignIn(chain, name, value).Err? ==> AssignIn(chain, name, value).error == ReferenceError(name)
    ensures AssignIn(chain, name, value).Ok? ==>
      var c := AssignIn(chain, name, value).value;
      && |c| == |chain|
      && (forall j :: 0 <= j < |c| ==> c[j].Keys == chain[j].Keys)
      && (forall j :: 0 <= j < |c| && j != Owner(chain, name).value ==> c[j] == chain[j])
  {
  }

  /** After an assignment a lookup of the same name yields the assigned value,
      and lookups of every other name are unchanged. */
  lemma LookupAfterAssign<V>(chain: seq<map<string, V>>, name: string, value: V, other: string)
    requires AssignIn(chain, name, value).Ok?
    ensures LookupIn(AssignIn(chain, name, value).value, name) == Ok(value)
    ensures other != name ==> LookupIn(AssignIn(chain, name, value).value, other) == LookupIn(chain, other)
  {
    var c := AssignIn(chain, name, value).value;
    AssignKeepsKeys(chain, name, value);
    OwnerDependsOnKeysOnly(c, chain, name);
    OwnerDependsOnKeysOnly(c, chain, other);
  }

  /** A record that does not own the name is looked through: resolution
      continues with the rest of the chain. */
  lemma LookupThroughNonOwner<V>(chain: seq<map<string, V>>, name: string)
    requires |chain| > 0 && name !in chain[0]
    ensures LookupIn(chain, name) == LookupIn(chain[1..], name)
  {
  }

  /** A name defined in the innermost record is found there, whatever the
      enclosing records hold. */
  lemma LookupAfterDefine<V>(chain: seq<map<string, V>>, name: string, value: V, other: string)
    requires |chain| > 0
    ensures LookupIn(chain[0 := chain[0][name := value]], name) == Ok(value)
    ensures other != name ==>
      LookupIn(chain[0 := chain[0][name := value]], other) == LookupIn(chain, other)
  {
    var c := chain[0 := chain[0][name := value]];
    if other != name && other !in chain[0] {
      LookupThroughNonOwner(c, other);
      LookupThroughNonOwner(chain, other);
      assert c[1..] == chain[1..];
    }
  }
}
