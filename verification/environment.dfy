/** The scope object of Environment.js: a mutable record of bindings and a
    link to the enclosing environment, shared by reference between children
    and closures. */
module Environments {
  import opened Results
  import Scope

  class Environment<V> {
    var record: map<string, V>
    const parent: Environment?<V>
    /** The environments met walking up the parent links, nearest first. */
    ghost const Ancestors: seq<Environment<V>>

    /** The parent chain is finite: each ancestor's own chain is the tail of
        this one. */
    ghost predicate Valid()
      decreases |Ancestors|
    {
      if parent == null then Ancestors == []
      else
        && |Ancestors| > 0
        && Ancestors[0] == parent
        && Ancestors[1..] == parent.Ancestors
        && parent.Valid()
    }

    /** This environment followed by its ancestors. */
    ghost function Line(): seq<Environment<V>>
    {
      [this] + Ancestors
    }

    /** The records of `Line()`, the chain that name resolution walks. */
    ghost function Chain(): (c: seq<map<string, V>>)
      reads this, Ancestors
      ensures |c| == |Line()|
    {
      seq(|Line()|, k requires 0 <= k < |Line()| reads this, Ancestors => Line()[k].record)
    }

    constructor (record: map<string, V>, parent: Environment?<V>)
      requires parent != null ==> parent.Valid()
      ensures Valid()
      ensures this.record == record && this.parent == parent
      ensures parent == null ==> Chain() == [record]
      ensures parent != null ==> Chain() == [record] + parent.Chain()
    {
      this.record := record;
      this.parent := parent;
      if parent == null {
        this.Ancestors := [];
      } else {
        var p: Environment<V> := parent;
        this.Ancestors := [p] + p.Ancestors;
      }
    }

    /** Every ancestor is valid and its own ancestors are the rest of this
        environment's. */
    lemma {:induction false} AncestorsNest()
      requires Valid()
      ensures forall j :: 0 <= j < |Ancestors| ==>
        Ancestors[j].Valid() && Ancestors[j].Ancestors == Ancestors[j + 1..]
      decreases |Ancestors|
    {
      if parent != null {
        parent.AncestorsNest();
        forall j | 0 <= j < |Ancestors|
          ensures Ancestors[j].Valid() && Ancestors[j].Ancestors == Ancestors[j + 1..]
        {
          if j > 0 {
            assert Ancestors[j] == parent.Ancestors[j - 1];
            assert Ancestors[j + 1..] == parent.Ancestors[j..];
          }
        }
      }
    }

    /** The line never repeats an environment: each one sits at its own
        depth. */
    lemma LineDistinct()
      requires Valid()
      ensures forall i, j :: 0 <= i < j < |Line()| ==> Line()[i] != Line()[j]
    {
      AncestorsNest();
      forall i, j | 0 <= i < j < |Line()|
        ensures Line()[i] != Line()[j]
      {
        assert |Line()[j].Ancestors| == |Ancestors| - j;
        if i > 0 {
          assert |Line()[i].Ancestors| == |Ancestors| - i;
        }
      }
    }

    /** `_resolve`: the nearest environment on the chain whose own record
        has the name, or a ReferenceError when there is none. */
    method Resolve(name: string) returns (r: Result<Environment<V>>)
      requires Valid()
      ensures Scope.Owner(Chain(), name).None? ==> r == Err(ReferenceError(name))
      ensures Scope.Owner(Chain(), name).Some? ==> r == Ok(Line()[Scope.Owner(Chain(), name).value])
      decreases |Ancestors|
    {
      if name in record {
        return Ok(this);
      }
      if parent == null {
        return Err(ReferenceError(name));
      }
      assert Chain() == [record] + parent.Chain();
      r := parent.Resolve(name);
    }

    /** `lookup`: the value bound in the nearest owner. */
    method Lookup(name: string) returns (r: Result<V>)
      requires Valid()
      ensures r == Scope.LookupIn(Chain(), name)
    {
      var owner :- Resolve(name);
      r := Ok(owner.record[name]);
    }

    /** `define`: writes into this environment's own record only, overwriting
        any binding it had, and returns the value; a lookup of the name from
        here then yields it. */
    method Define(name: string, value: V) returns (r: V)
      requires Valid()
      modifies this
      ensures r == value
      ensures record == old(record)[name := value]
      ensures Chain() == old(Chain())[0 := old(record)[name := value]]
      ensures Scope.LookupIn(Chain(), name) == Ok(value)
    {
      LineDistinct();
      record := record[name := value];
      r := value;
      Scope.LookupAfterDefine(old(Chain()), name, value, name);
    }

    /** `assign`: overwrites the binding in the nearest owner and returns the
        value; when no environment owns the name it raises a ReferenceError
        and changes nothing. */
    method Assign(name: string, value: V) returns (r: Result<V>)
      requires Valid()
      modifies Line()
      ensures Scope.AssignIn(old(Chain()), name, value).Err? ==>
        r == Err(ReferenceError(name)) && Chain() == old(Chain())
      ensures Scope.AssignIn(old(Chain()), name, value).Ok? ==>
        r == Ok(value) && Chain() == Scope.AssignIn(old(Chain()), name, value).value
    {
      LineDistinct();
      ghost var before := Chain();
      var owner :- Resolve(name);
      ghost var k := Scope.Owner(before, name).value;
      owner.record := owner.record[name := value];
      r := Ok(value);
      forall j | 0 <= j < |Line()|
        ensures Chain()[j] == before[k := before[k][name := value]][j]
      {
        if j != k {
          assert Line()[j] != Line()[k];
        }
      }
    }

    /** When this environment does not own a name, looking it up here is the
        same as looking it up in the parent. */
    lemma LookupThroughParent(name: string)
      requires Valid() && parent != null && name !in record
      ensures Scope.LookupIn(Chain(), name) == Scope.LookupIn(parent.Chain(), name)
    {
      assert Chain() == [record] + parent.Chain();
      Scope.LookupThroughNonOwner(Chain(), name);
    }
  }
}
