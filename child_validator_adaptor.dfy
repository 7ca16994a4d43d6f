/**
 * `ChildValidatorAdaptor`: the property validator that hands a property's value to a complete
 * validator of its own, in a child context whose property chain names that property, and that
 * publishes the index of the enclosing collection element in the shared root context data for
 * the duration of the child's run.
 */
module ChildValidation {
  import opened Wrappers
  import opened Results
  import opened Contexts

  /** The key under which the current collection index is published in the root context data. */
  const CollectionIndexKey := "__FV_CollectionIndex"

  /** The message placeholder a collection rule sets to the index of the element it validates. */
  const CollectionIndexPlaceholder := "CollectionIndex"

  /**
   * A complete validator as the adaptor sees it: its synchronous and asynchronous entry
   * points, each giving the `Errors` of its result for a context and the root context data
   * it finds. Being functions, they leave the root context data as they found it.
   */
  datatype Validator = Validator(
    validate: (ValidationContext, map<string, Value>) -> seq<ValidationFailure>,
    validateAsync: (ValidationContext, map<string, Value>) -> seq<ValidationFailure>)

  /** What one property validator is given: the rule's context, property name and value. */
  datatype PropertyValidatorContext = PropertyValidatorContext(
    parentContext: ValidationContext,
    rulePropertyName: string,
    propertyValue: Value,
    placeholderValues: map<string, Value>)

  /** The child's two entry points report the same errors for this context and data. */
  predicate SameOnBothPaths(v: Validator, c: ValidationContext, d: map<string, Value>)
  {
    v.validate(c, d) == v.validateAsync(c, d)
  }

  /** The point at which a call of the adaptor returned. */
  datatype Exit = ConditionFalse | AsyncConditionFalse | NullPropertyValue | NullValidator | Delegated

  /** The failures a call returns and the root context data it leaves behind. */
  datatype Outcome = Outcome(exit: Exit, errors: seq<ValidationFailure>, rootData: map<string, Value>)

  /** `TryGetValue`: the entry under `k`, or null when there is none. */
  function Lookup(m: map<string, Value>, k: string): Value
  {
    if k in m then m[k] else Null
  }

  /** The root context data the child validator runs with. */
  function Published(rootData: map<string, Value>, placeholders: map<string, Value>): map<string, Value>
  {
    if CollectionIndexPlaceholder in placeholders
    then rootData[CollectionIndexKey := placeholders[CollectionIndexPlaceholder]]
    else rootData
  }

  /** The index saved before publishing (`originalIndex`): null when nothing is published. */
  function SavedIndex(rootData: map<string, Value>, placeholders: map<string, Value>): Value
  {
    if CollectionIndexPlaceholder in placeholders then Lookup(rootData, CollectionIndexKey) else Null
  }

  /** The root context data after `ResetCollectionIndex`. */
  function Restored(rootData: map<string, Value>, originalIndex: Value, index: Value): map<string, Value>
  {
    if index == Null then rootData
    else if originalIndex != Null then rootData[CollectionIndexKey := originalIndex]
    else rootData - {CollectionIndexKey}
  }


  /**
   * Publishing and resetting the index gives the root context data back exactly: when no
   * placeholder is set; when a non-null index is published over a non-null one (restored) or
   * over no entry (removed again); or when a null index is published over a null entry (the
   * reset does nothing for a null index).
   */
  predicate IndexRoundTrips(rootData: map<string, Value>, placeholders: map<string, Value>)
  {
    || CollectionIndexPlaceholder !in placeholders
    || (placeholders[CollectionIndexPlaceholder] != Null && Lookup(rootData, CollectionIndexKey) != Null)
    || (placeholders[CollectionIndexPlaceholder] != Null && CollectionIndexKey !in rootData)
    || (placeholders[CollectionIndexPlaceholder] == Null && CollectionIndexKey in rootData
        && rootData[CollectionIndexKey] == Null)
  }

  /** While the child runs, the shared data holds the placeholder's index, and nothing else differs. */
  lemma ChildSeesCollectionIndex(rootData: map<string, Value>, placeholders: map<string, Value>)
    ensures CollectionIndexPlaceholder in placeholders ==>
      && CollectionIndexKey in Published(rootData, placeholders)
      && Published(rootData, placeholders)[CollectionIndexKey] == placeholders[CollectionIndexPlaceholder]
    ensures Published(rootData, placeholders) - {CollectionIndexKey} == rootData - {CollectionIndexKey}
    ensures CollectionIndexPlaceholder !in placeholders ==> Published(rootData, placeholders) == rootData
  {
  }

  /**
   * Publish-then-reset only ever touches the index entry; a non-null original index comes
   * back, a missing or null one leaves the entry removed; and the data comes back exactly
   * when `IndexRoundTrips` holds.
   */
  lemma PublishThenReset(rootData: map<string, Value>, placeholders: map<string, Value>)
    ensures var after := Restored(Published(rootData, placeholders), SavedIndex(rootData, placeholders),
                                  Lookup(placeholders, CollectionIndexPlaceholder));
      && after - {CollectionIndexKey} == rootData - {CollectionIndexKey}
      && (Lookup(placeholders, CollectionIndexPlaceholder) != Null && Lookup(rootData, CollectionIndexKey) != Null
          ==> CollectionIndexKey in after && after[CollectionIndexKey] == rootData[CollectionIndexKey])
      && (Lookup(placeholders, CollectionIndexPlaceholder) != Null && Lookup(rootData, CollectionIndexKey) == Null
          ==> CollectionIndexKey !in after)
      && (after == rootData <==> IndexRoundTrips(rootData, placeholders))
  {
    var seen := Published(rootData, placeholders);
    var after := Restored(seen, SavedIndex(rootData, placeholders), Lookup(placeholders, CollectionIndexPlaceholder));
    if !IndexRoundTrips(rootData, placeholders) {
      if placeholders[CollectionIndexPlaceholder] != Null {
        // a null entry was overwritten and then removed
        assert CollectionIndexKey in rootData && CollectionIndexKey !in after;
      } else {
        // a null index was left behind where there was none, or where a non-null one stood
        assert CollectionIndexKey in after && after[CollectionIndexKey] == Null;
        assert Lookup(rootData, CollectionIndexKey) != Null || CollectionIndexKey !in rootData;
      }
    }
  }

  class ChildValidatorAdaptor {
    /** Chooses the validator from the context; used instead of `validator` when present. */
    const validatorProvider: Option<PropertyValidatorContext -> Option<Validator>>
    const validator: Option<Validator>
    const ruleSets: Option<seq<string>>
    const passThroughParentContext: bool
    /** `Options.Condition` and `Options.AsyncCondition`. */
    const condition: Option<PropertyValidatorContext -> bool>
    const asyncCondition: Option<PropertyValidatorContext -> bool>

    /** The adaptor over a fixed validator (which may be null). */
    constructor (
      validator: Option<Validator>, ruleSets: Option<seq<string>>, passThroughParentContext: bool,
      condition: Option<PropertyValidatorContext -> bool>, asyncCondition: Option<PropertyValidatorContext -> bool>)
      ensures this.validatorProvider == None && this.validator == validator
      ensures this.ruleSets == ruleSets && this.passThroughParentContext == passThroughParentContext
      ensures this.condition == condition && this.asyncCondition == asyncCondition
    {
      this.validatorProvider := None;
      this.validator := validator;
      this.ruleSets := ruleSets;
      this.passThroughParentContext := passThroughParentContext;
      this.condition := condition;
      this.asyncCondition := asyncCondition;
    }

    /** The adaptor over a validator provider (which may be null). */
    constructor FromProvider(
      validatorProvider: Option<PropertyValidatorContext -> Option<Validator>>, ruleSets: Option<seq<string>>,
      passThroughParentContext: bool,
      condition: Option<PropertyValidatorContext -> bool>, asyncCondition: Option<PropertyValidatorContext -> bool>)
      ensures this.validatorProvider == validatorProvider && this.validator == None
      ensures this.ruleSets == ruleSets && this.passThroughParentContext == passThroughParentContext
      ensures this.condition == condition && this.asyncCondition == asyncCondition
    {
      this.validatorProvider := validatorProvider;
      this.validator := None;
      this.ruleSets := ruleSets;
      this.passThroughParentContext := passThroughParentContext;
      this.condition := condition;
      this.asyncCondition := asyncCondition;
    }

    predicate ConditionFails(context: PropertyValidatorContext)
    {
      condition.Some? && !condition.value(context)
    }

    predicate AsyncConditionFails(context: PropertyValidatorContext)
    {
      asyncCondition.Some? && !asyncCondition.value(context)
    }

    /** `RuleSets?.Length > 0`. */
    predicate HasRuleSets()
    {
      ruleSets.Some? && |ruleSets.value| > 0
    }

    function GetValidator(context: PropertyValidatorContext): Option<Validator>
    {
      if validatorProvider.Some? then validatorProvider.value(context) else validator
    }

    predicate ShouldValidateAsynchronously(context: ValidationContext)
    {
      context.isAsync || asyncCondition.Some?
    }

    /**
     * The child context: a clone of the rule's context over the property value whose chain
     * gains the rule's property name, unless the rule's context is already the context of a
     * collection element (whose chain already ends in `name[i]`).
     */
    function CreateNewValidationContextForChildValidator(
      instanceToValidate: Value, context: PropertyValidatorContext
    ): (c: ValidationContext)
      ensures c.instanceToValidate == instanceToValidate
      ensures c.propertyChain == context.parentContext.propertyChain
        + (if context.parentContext.isChildCollectionContext then [] else [context.rulePropertyName])
      ensures c.selector == if HasRuleSets() then RulesetSelector(ruleSets.value) else context.parentContext.selector
      ensures c.rootContextData == context.parentContext.rootContextData
      ensures c.isChildContext && !c.isChildCollectionContext
      ensures c.isAsync == context.parentContext.isAsync
      ensures c.parentContext == if passThroughParentContext then Some(context.parentContext) else None
    {
      var selector := if HasRuleSets() then Some(RulesetSelector(ruleSets.value)) else None;
      var newContext := CloneForChildValidator(context.parentContext, instanceToValidate, passThroughParentContext, selector);
      if !context.parentContext.isChildCollectionContext
      then newContext.(propertyChain := newContext.propertyChain + [context.rulePropertyName])
      else newContext
    }

    /** The part both entry points share once the conditions have passed. */
    function Delegate(context: PropertyValidatorContext, rootData: map<string, Value>, async: bool): Outcome
    {
      if context.propertyValue == Null then Outcome(NullPropertyValue, [], rootData)
      else match GetValidator(context)
        case None => Outcome(NullValidator, [], rootData)
        case Some(v) =>
          var newContext := CreateNewValidationContextForChildValidator(context.propertyValue, context);
          var seen := Published(rootData, context.placeholderValues);
          var errors := if async then v.validateAsync(newContext, seen) else v.validate(newContext, seen);
          Outcome(Delegated, errors,
            Restored(seen, SavedIndex(rootData, context.placeholderValues),
                     Lookup(context.placeholderValues, CollectionIndexPlaceholder)))
    }

    /** What `Validate` returns and leaves, from the root context data it starts with. */
    function SyncOutcome(context: PropertyValidatorContext, rootData: map<string, Value>): Outcome
    {
      if ConditionFails(context) then Outcome(ConditionFalse, [], rootData)
      else Delegate(context, rootData, false)
    }

    /** What `ValidateAsync` returns and leaves, `await` read as a plain call. */
    function AsyncOutcome(context: PropertyValidatorContext, rootData: map<string, Value>): Outcome
    {
      if ConditionFails(context) then Outcome(ConditionFalse, [], rootData)
      else if AsyncConditionFails(context) then Outcome(AsyncConditionFalse, [], rootData)
      else Delegate(context, rootData, true)
    }

    /**
     * The early-outs come in the source's order: the condition, then (asynchronous path only)
     * the asynchronous condition, then a null property value, then a null validator.
     */
    lemma ExitOrder(context: PropertyValidatorContext, rootData: map<string, Value>)
      ensures SyncOutcome(context, rootData).exit == ConditionFalse <==> ConditionFails(context)
      ensures SyncOutcome(context, rootData).exit == NullPropertyValue
        <==> !ConditionFails(context) && context.propertyValue == Null
      ensures SyncOutcome(context, rootData).exit == NullValidator
        <==> !ConditionFails(context) && context.propertyValue != Null && GetValidator(context).None?
      ensures AsyncOutcome(context, rootData).exit == ConditionFalse <==> ConditionFails(context)
      ensures AsyncOutcome(context, rootData).exit == AsyncConditionFalse
        <==> !ConditionFails(context) && AsyncConditionFails(context)
      ensures AsyncOutcome(context, rootData).exit == NullPropertyValue
        <==> !ConditionFails(context) && !AsyncConditionFails(context) && context.propertyValue == Null
      ensures AsyncOutcome(context, rootData).exit == NullValidator
        <==> !ConditionFails(context) && !AsyncConditionFails(context) && context.propertyValue != Null
             && GetValidator(context).None?
    {
    }

    /**
     * An early-out returns nothing and leaves the shared data alone; otherwise the result is
     * exactly the child's errors, in the child's order, computed with the index published.
     */
    lemma ResultIsChildErrors(context: PropertyValidatorContext, rootData: map<string, Value>)
      ensures var o := SyncOutcome(context, rootData);
        && (o.exit != Delegated ==> o.errors == [] && o.rootData == rootData)
        && (o.exit == Delegated ==>
              && GetValidator(context).Some?
              && o.errors == GetValidator(context).value.validate(
                   CreateNewValidationContextForChildValidator(context.propertyValue, context),
                   Published(rootData, context.placeholderValues)))
      ensures var o := AsyncOutcome(context, rootData);
        && (o.exit != Delegated ==> o.errors == [] && o.rootData == rootData)
        && (o.exit == Delegated ==>
              && GetValidator(context).Some?
              && o.errors == GetValidator(context).value.validateAsync(
                   CreateNewValidationContextForChildValidator(context.propertyValue, context),
                   Published(rootData, context.placeholderValues)))
    {
    }

    /**
     * After a call only the index entry can differ, and the shared data is exactly as before
     * unless the child was run with an index that does not round-trip.
     */
    lemma RestoresRootContextData(context: PropertyValidatorContext, rootData: map<string, Value>)
      ensures SyncOutcome(context, rootData).rootData - {CollectionIndexKey} == rootData - {CollectionIndexKey}
      ensures SyncOutcome(context, rootData).rootData == rootData
        <==> SyncOutcome(context, rootData).exit != Delegated || IndexRoundTrips(rootData, context.placeholderValues)
      ensures AsyncOutcome(context, rootData).rootData - {CollectionIndexKey} == rootData - {CollectionIndexKey}
      ensures AsyncOutcome(context, rootData).rootData == rootData
        <==> AsyncOutcome(context, rootData).exit != Delegated || IndexRoundTrips(rootData, context.placeholderValues)
    {
      PublishThenReset(rootData, context.placeholderValues);
    }

    /** An asynchronous condition forces the asynchronous path; without one the context decides. */
    lemma AsyncConditionForcesAsync(context: ValidationContext)
      ensures asyncCondition.Some? ==> ShouldValidateAsynchronously(context)
      ensures asyncCondition.None? ==> (ShouldValidateAsynchronously(context) <==> context.isAsync)
    {
    }

    /**
     * Without an asynchronous condition, and with a child whose two entry points agree, both
     * entry points of the adaptor return the same errors and leave the same data.
     */
    lemma SyncAndAsyncAgree(context: PropertyValidatorContext, rootData: map<string, Value>)
      requires asyncCondition.None?
      requires GetValidator(context).Some? ==>
        SameOnBothPaths(GetValidator(context).value,
          CreateNewValidationContextForChildValidator(context.propertyValue, context),
          Published(rootData, context.placeholderValues))
      ensures SyncOutcome(context, rootData) == AsyncOutcome(context, rootData)
    {
    }

    method HandleCollectionIndex(context: PropertyValidatorContext) returns (originalIndex: Value, index: Value)
      modifies context.parentContext.rootContextData
      ensures index == Lookup(context.placeholderValues, CollectionIndexPlaceholder)
      ensures CollectionIndexPlaceholder in context.placeholderValues ==>
        && originalIndex == Lookup(old(context.parentContext.rootContextData.entries), CollectionIndexKey)
        && context.parentContext.rootContextData.entries
           == old(context.parentContext.rootContextData.entries)[CollectionIndexKey := index]
      ensures CollectionIndexPlaceholder !in context.placeholderValues ==>
        && originalIndex == Null
        && context.parentContext.rootContextData.entries == old(context.parentContext.rootContextData.entries)
    {
      var data := context.parentContext.rootContextData;
      originalIndex := Null;
      if CollectionIndexPlaceholder in context.placeholderValues {
        index := context.placeholderValues[CollectionIndexPlaceholder];
        originalIndex := Lookup(data.entries, CollectionIndexKey);
        data.entries := data.entries[CollectionIndexKey := index];
      } else {
        index := Null;
      }
    }

    method ResetCollectionIndex(context: PropertyValidatorContext, originalIndex: Value, index: Value)
      modifies context.parentContext.rootContextData
      ensures index == Null ==>
        context.parentContext.rootContextData.entries == old(context.parentContext.rootContextData.entries)
      ensures index != Null && originalIndex != Null ==>
        context.parentContext.rootContextData.entries
        == old(context.parentContext.rootContextData.entries)[CollectionIndexKey := originalIndex]
      ensures index != Null && originalIndex == Null ==>
        context.parentContext.rootContextData.entries
        == old(context.parentContext.rootContextData.entries) - {CollectionIndexKey}
    {
      var data := context.parentContext.rootContextData;
      if index != Null {
        if originalIndex != Null {
          data.entries := data.entries[CollectionIndexKey := originalIndex];
        } else {
          data.entries := data.entries - {CollectionIndexKey};
        }
      }
    }

    method Validate(context: PropertyValidatorContext) returns (results: seq<ValidationFailure>)
      modifies context.parentContext.rootContextData
      ensures results == SyncOutcome(context, old(context.parentContext.rootContextData.entries)).errors
      ensures context.parentContext.rootContextData.entries
        == SyncOutcome(context, old(context.parentContext.rootContextData.entries)).rootData
    {
      if condition.Some? && !condition.value(context) {
        return [];
      }
      if context.propertyValue == Null {
        return [];
      }
      var validator := GetValidator(context);
      if validator.None? {
        return [];
      }
      var newContext := CreateNewValidationContextForChildValidator(context.propertyValue, context);
      var originalIndex, currentIndex := HandleCollectionIndex(context);
      results := validator.value.validate(newContext, context.parentContext.rootContextData.entries);
      ResetCollectionIndex(context, originalIndex, currentIndex);
    }

    method ValidateAsync(context: PropertyValidatorContext) returns (results: seq<ValidationFailure>)
      modifies context.parentContext.rootContextData
      ensures results == AsyncOutcome(context, old(context.parentContext.rootContextData.entries)).errors
      ensures context.parentContext.rootContextData.entries
        == AsyncOutcome(context, old(context.parentContext.rootContextData.entries)).rootData
    {
      if condition.Some? && !condition.value(context) {
        return [];
      }
      if asyncCondition.Some? && !asyncCondition.value(context) {
        return [];
      }
      if context.propertyValue == Null {
        return [];
      }
      var validator := GetValidator(context);
      if validator.None? {
        return [];
      }
      var newContext := CreateNewValidationContextForChildValidator(context.propertyValue, context);
      var originalIndex, currentIndex := HandleCollectionIndex(context);
      results := validator.value.validateAsync(newContext, context.parentContext.rootContextData.entries);
      ResetCollectionIndex(context, originalIndex, currentIndex);
    }
  }

}
