/**
 * The validation context the child-validator adaptor reads and builds. The engine's
 * `ValidationContext`, `PropertyChain` and `CloneForChildValidator` are not part of this
 * model's source files; they are stated here with the behaviour the adaptor relies on:
 * a clone shares the root instance's selector and the root context data, and gets its own
 * copy of the property chain.
 */
module Contexts {
  import opened Wrappers
  import opened Strings

  /** A boxed value: a property value, an entry of the shared data or a placeholder value. */
  datatype Value =
    | Null
    | Number(n: int)
    | Text(s: string)
    | Record(fields: map<string, Value>)
    | List(items: seq<Value>)

  /**
   * `RootContextData`: the one dictionary that every context of a validation pass shares by
   * reference, child and collection contexts included.
   */
  class RootContextData {
    var entries: map<string, Value>

    constructor (initial: map<string, Value>)
      ensures entries == initial
    {
      entries := initial;
    }
  }

  /** Which declared rules take part in a pass. */
  datatype Selector =
    | DefaultSelector
    | MemberNameSelector(memberNames: seq<string>)
    | RulesetSelector(ruleSets: seq<string>)

  datatype ValidationContext = ValidationContext(
    instanceToValidate: Value,
    propertyChain: seq<string>,
    selector: Selector,
    rootContextData: RootContextData,
    parentContext: Option<ValidationContext>,
    isChildContext: bool,
    isChildCollectionContext: bool,
    isAsync: bool)

  /**
   * `CloneForChildValidator(instance, preserveParentContext, selector)`: a child context over
   * `instance` with a copy of the chain, the given selector or else the parent's, and the
   * same root context data.
   */
  function CloneForChildValidator(
    ctx: ValidationContext, instance: Value, preserveParentContext: bool, selector: Option<Selector>
  ): ValidationContext
  {
    ValidationContext(
      instance,
      ctx.propertyChain,
      if selector.Some? then selector.value else ctx.selector,
      ctx.rootContextData,
      if preserveParentContext then Some(ctx) else None,
      true,
      false,
      ctx.isAsync)
  }

  /** `PropertyChain.BuildPropertyName(name)`: the chain's segments and `name`, joined by dots. */
  function BuildPropertyName(chain: seq<string>, name: string): string
  {
    Join(chain + [name], ".")
  }

  /** The chain segment of element `index` of the collection property `name`: `name[index]`. */
  function Indexed(name: string, index: nat): string
  {
    name + "[" + NatToString(index) + "]"
  }

  /** Distinct elements of one collection get distinct segments, since the index text reads back. */
  lemma IndexedDistinct(name: string, i: nat, j: nat)
    ensures Indexed(name, i) == Indexed(name, j) <==> i == j
  {
    if Indexed(name, i) == Indexed(name, j) {
      var s := Indexed(name, i);
      assert s[|name| + 1..|s| - 1] == NatToString(i);
      assert Indexed(name, j)[|name| + 1..|s| - 1] == NatToString(j);
      ParseNatToString(i);
      ParseNatToString(j);
    }
  }

}
