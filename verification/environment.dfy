/** The single-frame environment of Sources/AST/Environment.swift. The Swift
    class mutates its dictionary in place; here `Set` returns the updated
    frame. Lookup consults this frame only: there is no outer frame. */
module Environments {
  import opened Results
  import opened Tokens
  import opened Ast
  import opened Objects

  /** `Environment.init()`: no bindings. */
  function Empty(): (env: Environment)
    ensures forall id :: ObjectOf(env, id) == None
  {
    Environment(map[])
  }

  /** `object(of:)`: the object bound to `id`, if any. */
  function ObjectOf(env: Environment, id: Identifier): Option<Object> {
    if id in env.store then Some(env.store[id]) else None
  }

  /** `set(_:with:)`: bind `id` to `o`, replacing any earlier binding of
      `id` and leaving every other identifier's binding as it was. */
  function Set(env: Environment, o: Object, id: Identifier): (updated: Environment)
    ensures ObjectOf(updated, id) == Some(o)
    ensures forall other :: other != id ==> ObjectOf(updated, other) == ObjectOf(env, other)
  {
    Environment(env.store[id := o])
  }

  /** A second binding of the same identifier wins, as if the first had never
      been made. */
  lemma SetOverwrites(env: Environment, first: Object, second: Object, id: Identifier)
    ensures Set(Set(env, first, id), second, id) == Set(env, second, id)
  {
  }

  /** Bindings of distinct identifiers do not interfere: their order does
      not matter. */
  lemma {:induction false} SetCommutes(env: Environment, a: Object, i: Identifier, b: Object, j: Identifier)
    requires i != j
    ensures Set(Set(env, a, i), b, j) == Set(Set(env, b, j), a, i)
  {
    var left := Set(Set(env, a, i), b, j).store;
    var right := Set(Set(env, b, j), a, i).store;
    assert left.Keys == right.Keys;
    forall k | k in left.Keys
      ensures left[k] == right[k]
    {
    }
  }

  /** The keys are the whole tokens: the same spelling with another kind is
      a different identifier. */
  lemma KeysCompareWholeTokens(o: Object, name: string, kind: TokenType)
    requires kind != Identifier
    ensures ObjectOf(Set(Empty(), o, Id(Token(Identifier, name))), Id(Token(kind, name))) == None
  {
  }

  /** An environment is the sum of its bindings: two frames that answer
      every lookup alike are the same frame. */
  lemma {:induction false} LookupDeterminesFrame(e1: Environment, e2: Environment)
    requires forall id :: ObjectOf(e1, id) == ObjectOf(e2, id)
    ensures e1 == e2
  {
    forall id | id in e1.store
      ensures id in e2.store && e1.store[id] == e2.store[id]
    {
      assert ObjectOf(e1, id) == ObjectOf(e2, id);
    }
    forall id | id in e2.store
      ensures id in e1.store
    {
      assert ObjectOf(e1, id) == ObjectOf(e2, id);
    }
    assert e1.store == e2.store;
  }
}
