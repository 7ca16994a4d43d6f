# FluentValidation: the child-validator adaptor, `GreaterThanOrEqualValidator` and the test-helper assertions

This project models three parts of FluentValidation in Dafny and proves
properties of them.

**`ChildValidatorAdaptor`** is the property validator that runs a complete validator on a
property's value.
- It returns early, with no failures, in this order:
  - when the rule's condition fails;
  - on the asynchronous path, when the asynchronous condition fails;
  - when the property value is null;
  - when no validator is resolved.
- The validator is either fixed or picked by a provider from the context.
- The child runs in a context whose property chain gains the rule's property name. The
  exception is a rule context that already belongs to a collection element.
- While the child runs, the adaptor publishes the element's `CollectionIndex` placeholder
  under `__FV_CollectionIndex` in the shared root context data. Afterwards it restores the old
  entry or removes it, but only when the published index is not null. A placeholder that is
  present with a null value is written as null and then left in place, so an old entry under
  the key is lost.

The adaptor is a class (`ChildValidation.ChildValidatorAdaptor`) with its options as fields.
`Validate` and `ValidateAsync` are methods that modify the shared `RootContextData` object.
Each is proved equal to a function (`SyncOutcome`, `AsyncOutcome`) that gives the failures and
the data left behind. The child validator is a pair of functions, so it leaves the shared data
as it found it. The scenarios of the collection-with-parent tests are lemmas over these
functions (module `CollectionScenarios`). They cover:
- the paths `Orders[0].ProductName` and `Item1.Orders[2].ProductName`;
- skipped null elements;
- conditions on a collection rule;
- a provider that picks a validator per element.

**`GreaterThanOrEqualValidator`** accepts a value when a comparison value exists and the value
does not compare below it. The property type's `CompareTo` is a parameter, and
`Int32CompareTo` is the one for `int`. `Name` is `"GreaterThanOrEqualValidator"` and
`ValidatorComparison` is `GreaterThanOrEqual`.

**`ValidationTestExtension`** holds the test-helper assertions (module `TestHelper`).
- **The property-name normaliser.** It applies `Regex.Replace(name, @"\[.*\]", "")` line by line.
  Because `.` does not match a line break, each line is matched on its own. When a line's
  first `[` comes before its last `]`, everything from that `[` to that `]` is deleted.
  Otherwise the line is kept as it is: `a]b[`, for example, is left unchanged.
- **The match predicate.** It has the empty-name rule and the `__FV__ANY` wildcard.
- **The assertions.** `ShouldHaveValidationError`, `ShouldNotHaveValidationError`,
  `ShouldHaveAnyValidationError`, `ShouldNotHaveAnyValidationErrors`, `When`, `WhenAll` and
  `Only`. Each outcome is a returned value or a thrown exception.
- **The messages these throw.** The message loops are methods proved against the `Listing`
  function. `BuildErrorMessage` substitutes the fixed placeholders `{Code}`, `{Message}`,
  `{State}` and `{Severity}`.

Two consequences of the code as written are modelled as they are:
- A null property name passed to the normaliser throws `ArgumentNullException`.
- `ShouldNotHaveAnyValidationErrors` always normalises. So it throws that exception, not a
  `ValidationTestException`, when some failure has a null property name.

The continuation type these helpers return is not part of this model's source files. It is
represented as the failures its predicate matched and the ones it did not, each in their
original order. `Any()` on it is taken to examine the failures in order and to stop at the
first match (`FirstVerdict`). The `ToList()` in `ShouldNotHaveValidationError` examines all of
them.

Files:
- `wrappers.dfy`: `Option`.
- `strings.dfy`: decimal formatting, ordinal `Replace`, `Join`, `IndexOf`, `LastIndexOf`.
- `results.dfy`: `ValidationFailure`.
- `contexts.dfy`: the engine's validation context, property chain and root context data, as
  the adaptor relies on them.
- `child_validator_adaptor.dfy`, `collection_scenarios.dfy`.
- `greater_than_or_equal_validator.dfy`.
- `validator_test_extensions.dfy`.

## Model

| member | source | states |
|---|---|---|
| ChildValidation.ChildValidatorAdaptor.constructor | src/FluentValidation/Validators/ChildValidatorAdaptor.cs:30-33 | an adaptor over a fixed validator holds that validator and no provider |
| ChildValidation.ChildValidatorAdaptor.FromProvider | src/FluentValidation/Validators/ChildValidatorAdaptor.cs:35-38 | an adaptor over a provider holds that provider and no fixed validator |
| ChildValidation.ChildValidatorAdaptor.GetValidator | src/FluentValidation/Validators/ChildValidatorAdaptor.cs:103-107 | the provider's choice for the context when a provider is set, otherwise the fixed validator; `ExitOrder` and `CreatesValidatorFromPropertyValue` rely on this choice |
| ChildValidation.ChildValidatorAdaptor.ShouldValidateAsynchronously | src/FluentValidation/Validators/ChildValidatorAdaptor.cs:119-121 | the context's asynchronous flag, or the presence of an asynchronous condition; `AsyncConditionForcesAsync` states both cases |
| ChildValidation.ChildValidatorAdaptor.SyncOutcome | src/FluentValidation/Validators/ChildValidatorAdaptor.cs:40-68 | the exit point, the failures and the data left behind by `Validate`, as a value; `ExitOrder`, `ResultIsChildErrors` and `RestoresRootContextData` state its meaning |
| ChildValidation.ChildValidatorAdaptor.AsyncOutcome | src/FluentValidation/Validators/ChildValidatorAdaptor.cs:70-101 | the same for `ValidateAsync`, with the asynchronous condition checked after the condition; `SyncAndAsyncAgree` relates the two |
| ChildValidation.Published | src/FluentValidation/Validators/ChildValidatorAdaptor.cs:123-129 | the data the child sees: the placeholder's index under `__FV_CollectionIndex` when the placeholder is set; `ChildSeesCollectionIndex` states it |
| ChildValidation.Restored | src/FluentValidation/Validators/ChildValidatorAdaptor.cs:131-141 | the data after the reset; `PublishThenReset` states when it equals the data found |
| ChildValidation.ChildValidatorAdaptor.ExitOrder | src/FluentValidation/Validators/ChildValidatorAdaptor.cs:40-87 | each early-out happens exactly when every earlier check passed and its own fails: condition, then (asynchronous path only) asynchronous condition, then null value, then null validator |
| ChildValidation.ChildValidatorAdaptor.ResultIsChildErrors | src/FluentValidation/Validators/ChildValidatorAdaptor.cs:49-67 | an early-out returns no failures and leaves the shared data untouched; otherwise the result is exactly the resolved child's errors, computed in the child context with the index published |
| ChildValidation.ChildValidatorAdaptor.CreateNewValidationContextForChildValidator | src/FluentValidation/Validators/ChildValidatorAdaptor.cs:109-117 | the child context is over the given instance; its chain gains the rule's property name unless the parent is a child-collection context; its selector is the configured rule sets' selector when there are rule sets, else the parent's; it shares the root context data and keeps the parent only when asked |
| ChildValidation.ChildValidatorAdaptor.AsyncConditionForcesAsync | src/FluentValidation/Validators/ChildValidatorAdaptor.cs:119-121 | an asynchronous condition forces the asynchronous path; without one, the context's own flag decides |
| ChildValidation.ChildValidatorAdaptor.HandleCollectionIndex | src/FluentValidation/Validators/ChildValidatorAdaptor.cs:123-129 | with the placeholder present, the old entry (or null) is saved and the placeholder's index is stored under the key; without it, nothing is written and the saved index is null |
| ChildValidation.ChildValidatorAdaptor.ResetCollectionIndex | src/FluentValidation/Validators/ChildValidatorAdaptor.cs:131-141 | a null index leaves the data alone; otherwise a non-null saved index is written back and a null one removes the key |
| ChildValidation.ChildValidatorAdaptor.Validate | src/FluentValidation/Validators/ChildValidatorAdaptor.cs:40-68 | the failures returned and the root context data left behind are those of `SyncOutcome` on the data found |
| ChildValidation.ChildValidatorAdaptor.ValidateAsync | src/FluentValidation/Validators/ChildValidatorAdaptor.cs:70-101 | the failures returned and the root context data left behind are those of `AsyncOutcome` on the data found |
| ChildValidation.ChildSeesCollectionIndex | src/FluentValidation/Validators/ChildValidatorAdaptor.cs:123-129 | while the child runs, the key holds the placeholder's index when there is one; no other entry differs; without a placeholder nothing differs |
| ChildValidation.PublishThenReset | src/FluentValidation/Validators/ChildValidatorAdaptor.cs:131-141 | publish-then-reset touches only the key; a non-null original comes back; a missing or null one leaves the key removed; the data comes back exactly when `IndexRoundTrips` holds |
| ChildValidation.ChildValidatorAdaptor.RestoresRootContextData | src/FluentValidation/Validators/ChildValidatorAdaptor.cs:60-65 | after either entry point only the index entry can differ, and the data is unchanged exactly when the call returned early or the index round-trips |
| ChildValidation.ChildValidatorAdaptor.SyncAndAsyncAgree | src/FluentValidation/Validators/ChildValidatorAdaptor.cs:70-101 | without an asynchronous condition, and with a child whose two entry points agree, both entry points give the same failures and leave the same data |
| CollectionScenarios.ForEachRestores | src/FluentValidation/Validators/ChildValidatorAdaptor.cs:60-65 | a whole collection rule leaves the root context data as it found it, unless that data held a null index |
| CollectionScenarios.ForEach | src/FluentValidation.Tests/CollectionValidatorWithParentTests.cs:56 | `RuleForEach(...).SetValidator(...)` as the tests use it: the adaptor on each non-null element, in index order, with its index as the placeholder, each run starting from the data the previous one left; `ForEachRestores` and `ForEachOrders` state its result |
| CollectionScenarios.OrderElement | src/FluentValidation/Validators/ChildValidatorAdaptor.cs:113-114 | an order validated as element `i` is checked in a context whose chain ends in `Name[i]` (no second segment is added) and leaves index-free data as it was |
| CollectionScenarios.ForEachOrders | src/FluentValidation.Tests/CollectionValidatorWithParentTests.cs:264-271 | over any list and from any root context data, the collection rule reports each non-null order's product-name failure under its own index, in index order |
| CollectionScenarios.PersonOrdersFail | src/FluentValidation.Tests/CollectionValidatorWithParentTests.cs:38-50 | for the tests' person, under any chain and from any root context data, the first and third orders fail and the second passes |
| CollectionScenarios.ValidatesCollection | src/FluentValidation.Tests/CollectionValidatorWithParentTests.cs:52-78 | on both paths the failures are named `Surname`, `Orders[0].ProductName`, `Orders[2].ProductName`, in that order |
| CollectionScenarios.ValidatesCollectionSeveralLevelsDeep | src/FluentValidation.Tests/CollectionValidatorWithParentTests.cs:81-113 | one level down, on both paths, the names gain the `Item1.` prefix and the shared data is left empty |
| CollectionScenarios.ConditionWorksWithChildCollection | src/FluentValidation.Tests/CollectionValidatorWithParentTests.cs:149-167 | when the (synchronous or asynchronous) condition fails for the person, the collection rule reports nothing |
| CollectionScenarios.SkipsNullItems | src/FluentValidation.Tests/CollectionValidatorWithParentTests.cs:169-179 | with the first order null there are two failures, `Surname` and `Orders[2].ProductName` |
| CollectionScenarios.CreatesValidatorFromPropertyValue | src/FluentValidation.Tests/CollectionValidatorWithParentTests.cs:243-262 | the provider sees each element: a free product passes, a default order fails with code `GreaterThanValidator` |
| GreaterThanOrEqual.IsValidAgreesWithComparison | src/FluentValidation/Validators/GreaterThanOrEqualValidator.cs:41-48 | a missing comparison value never passes; otherwise the value passes exactly when the validator's `Comparison` (`GreaterThanOrEqual`) holds of `CompareTo` |
| GreaterThanOrEqual.IsValid | src/FluentValidation/Validators/GreaterThanOrEqualValidator.cs:41-46 | the check itself; `IsValidAgreesWithComparison`, `IntIsValid` and `IsValidTransitive` state its meaning |
| GreaterThanOrEqual.NameAndComparison | src/FluentValidation/Validators/GreaterThanOrEqualValidator.cs:25-48 | the validator is named `GreaterThanOrEqualValidator` and reports the `GreaterThanOrEqual` comparison, which accepts exactly the non-negative orders `IsValid` accepts |
| GreaterThanOrEqual.IntIsValid | src/FluentValidation/Validators/GreaterThanOrEqualValidator.cs:41-46 | for `int`, exactly the values at or above an existing comparison value pass |
| GreaterThanOrEqual.EqualPassesLessFails | src/FluentValidation/Validators/GreaterThanOrEqualValidator.cs:45 | under a total order, an equal value passes and a smaller one fails |
| GreaterThanOrEqual.IsValidTransitive | src/FluentValidation/Validators/GreaterThanOrEqualValidator.cs:45 | under a total order, `a >= b` and `b >= c` give `a >= c` |
| GreaterThanOrEqual.IntIsValidMonotone | src/FluentValidation/Validators/GreaterThanOrEqualValidator.cs:45 | raising an `int` value never turns a pass into a failure |
| GreaterThanOrEqual.Int32CompareTo | src/FluentValidation/Validators/GreaterThanOrEqualValidator.cs:45 | the sign of the comparison is the order of the two integers |
| GreaterThanOrEqual.Int32CompareToIsTotalOrder | src/FluentValidation/Validators/GreaterThanOrEqualValidator.cs:23 | `int` comparison satisfies the `IComparable` laws the validator's type constraint assumes |
| TestHelper.NormalizeUnchangedIff | src/FluentValidation/TestHelper/ValidatorTestExtensions.cs:272-274 | a name is left unchanged exactly when no line holds a `[` with a `]` after it; otherwise it gets strictly shorter |
| TestHelper.NormalizePropertyName | src/FluentValidation/TestHelper/ValidatorTestExtensions.cs:272-274 | the regular-expression replacement, line by line; `NormalizeUnchangedIff`, `NormalizeClean` and `NormalizeIdempotent` state its meaning |
| TestHelper.NormalizeClean | src/FluentValidation/TestHelper/ValidatorTestExtensions.cs:272-274 | what the normaliser leaves has no bracket pair within a line |
| TestHelper.NormalizeIdempotent | src/FluentValidation/TestHelper/ValidatorTestExtensions.cs:272-274 | normalising twice is normalising once |
| TestHelper.NormalizeLineSpan | src/FluentValidation/TestHelper/ValidatorTestExtensions.cs:273 | on one line, the span from the first `[` to the last `]` is removed when the first comes before the last; otherwise the line is kept |
| TestHelper.PairIffOrdered | src/FluentValidation/TestHelper/ValidatorTestExtensions.cs:273 | a line holds a bracket pair exactly when its first `[` precedes its last `]` |
| TestHelper.NormalizeOneLine | src/FluentValidation/TestHelper/ValidatorTestExtensions.cs:272-274 | `a[inner]b`, with no `[` in `a`, no `]` in `b` and no line break, normalises to `ab` |
| TestHelper.NormalizeElementPath | src/FluentValidation/TestHelper/ValidatorTestExtensions.cs:272-274 | `Name[i].Member` normalises to `Name.Member` |
| TestHelper.NormalizeIsGreedy | src/FluentValidation/TestHelper/ValidatorTestExtensions.cs:272-274 | `A[i].B[j].M` normalises to `A.M`: the match runs to the last `]` |
| TestHelper.WildcardMatchesAll | src/FluentValidation/TestHelper/ValidatorTestExtensions.cs:143-145 | every failure matches `__FV__ANY`, unless normalising a null name throws first |
| TestHelper.NormalizedElementMatches | src/FluentValidation/TestHelper/ValidatorTestExtensions.cs:143 | under normalisation, an element member's failure matches the index-free path |
| TestHelper.Matches | src/FluentValidation/TestHelper/ValidatorTestExtensions.cs:143-145 | the predicate of both assertions: equal (normalised) names, both names null or empty, or the wildcard; `WildcardMatchesAll` and `NormalizedElementMatches` state two consequences |
| TestHelper.MatchPredicate | src/FluentValidation/TestHelper/ValidatorTestExtensions.cs:143-145 | the same predicate as the function value the continuation and `Where` are given |
| TestHelper.Filter | src/FluentValidation/TestHelper/ValidatorTestExtensions.cs:171-174 | `Where` keeps exactly the failures satisfying the predicate, and never more failures than it was given; `FilterAppend`, `FilterSingleton` and `FilterAround` add that it keeps their order and every copy |
| TestHelper.FilterAppend | src/FluentValidation/TestHelper/ValidatorTestExtensions.cs:171-174 | filtering a concatenation is concatenating the filtered parts, so `Where` keeps the order of the failures |
| TestHelper.FilterSingleton | src/FluentValidation/TestHelper/ValidatorTestExtensions.cs:171-174 | one failure is kept exactly when it satisfies the predicate |
| TestHelper.FilterAround | src/FluentValidation/TestHelper/ValidatorTestExtensions.cs:171-174 | the result is the failures kept before any position, then the failure at it if it passes, then those kept after it |
| TestHelper.PartitionSplits | src/FluentValidation/TestHelper/ValidatorTestExtensions.cs:142-143 | the matched and unmatched failures satisfy and fail the predicate respectively, and together are a permutation of the input |
| TestHelper.FirstVerdictDecides | src/FluentValidation/TestHelper/ValidatorTestExtensions.cs:141-149 | the verdict is that of the first failure that matches or throws, so a null name under normalisation throws `ArgumentNullException` exactly when it comes before the first match; without a null name under normalisation, it is `Match` exactly when some failure matches |
| TestHelper.ShouldHaveValidationError | src/FluentValidation/TestHelper/ValidatorTestExtensions.cs:141-168 | the method returns or throws exactly what `HaveErrorOutcome` gives; its message loop builds `Listing` |
| TestHelper.HaveErrorOutcome | src/FluentValidation/TestHelper/ValidatorTestExtensions.cs:141-168 | what `ShouldHaveValidationError` returns or throws, decided by the first verdict; `HaveErrorDecision` and `FirstVerdictDecides` state its meaning |
| TestHelper.HaveErrorDecision | src/FluentValidation/TestHelper/ValidatorTestExtensions.cs:147-167 | without a null name under normalisation, the call returns exactly when some failure matches, and then with a non-empty continuation; otherwise it throws the missing-error message |
| TestHelper.MissingErrorListsAll | src/FluentValidation/TestHelper/ValidatorTestExtensions.cs:151-167 | the message is the banner alone for no failures, else the banner, the separator, and `[i]: name` for every failure from index 0 on |
| TestHelper.ListingIsEntriesInOrder | src/FluentValidation/TestHelper/ValidatorTestExtensions.cs:158-160 | the listing the loop appends to is the entries of all items read from the first, starting at index 0 |
| TestHelper.BuildListing | src/FluentValidation/TestHelper/ValidatorTestExtensions.cs:182-184 | the loop's text is `Listing` of its items |
| TestHelper.ShouldNotHaveValidationError | src/FluentValidation/TestHelper/ValidatorTestExtensions.cs:170-188 | the method returns or throws exactly what `NoErrorOutcome` gives |
| TestHelper.NoErrorOutcome | src/FluentValidation/TestHelper/ValidatorTestExtensions.cs:170-188 | what `ShouldNotHaveValidationError` returns or throws, with the eager null-name throw; `NoErrorDecision` states its meaning |
| TestHelper.NoErrorDecision | src/FluentValidation/TestHelper/ValidatorTestExtensions.cs:170-187 | without a null name under normalisation, the call throws exactly when some failure matches; the exception carries exactly the matching failures, in their original order: each matching failure sits between the matches before it and the matches after it |
| TestHelper.ShouldNotHaveAnyValidationErrors | src/FluentValidation/TestHelper/ValidatorTestExtensions.cs:119-121 | a null name makes it throw `ArgumentNullException`; otherwise it returns exactly when there are no failures, and else throws the banner and every failure's message, carrying all the failures |
| TestHelper.ShouldHaveAnyValidationError | src/FluentValidation/TestHelper/ValidatorTestExtensions.cs:112-117 | throws exactly when there are no failures; otherwise every failure is matched |
| TestHelper.AnyErrorComplementary | src/FluentValidation/TestHelper/ValidatorTestExtensions.cs:112-121 | without null names, `ShouldHaveAnyValidationError` throws exactly when `ShouldNotHaveAnyValidationErrors` returns |
| TestHelper.BuildErrorMessage | src/FluentValidation/TestHelper/ValidatorTestExtensions.cs:123-139 | the replacement chain of the fixed placeholders, or the default message; the `BuildErrorMessage...` lemmas state its meaning |
| TestHelper.BuildErrorMessageDefault | src/FluentValidation/TestHelper/ValidatorTestExtensions.cs:123-139 | without a template or without a failure, the default message is used |
| TestHelper.BuildErrorMessageNoPlaceholder | src/FluentValidation/TestHelper/ValidatorTestExtensions.cs:124-136 | a template without placeholders comes back unchanged |
| TestHelper.BuildErrorMessageCode | src/FluentValidation/TestHelper/ValidatorTestExtensions.cs:125 | a lone `{Code}` is replaced by the failure's error code, and nothing else changes, when the code holds no `{` |
| TestHelper.BuildErrorMessageMessage | src/FluentValidation/TestHelper/ValidatorTestExtensions.cs:126 | a lone `{Message}` is passed over by the `{Code}` step and replaced by the error message, when the message holds no `{` |
| TestHelper.BuildErrorMessageState | src/FluentValidation/TestHelper/ValidatorTestExtensions.cs:127 | a lone `{State}` is passed over by the two earlier steps and replaced by the custom state, or removed when the state is null |
| TestHelper.BuildErrorMessageSeverity | src/FluentValidation/TestHelper/ValidatorTestExtensions.cs:125-128 | in a template whose only placeholder is `{Severity}`, the three earlier replacements change nothing, and the failure's severity name takes the placeholder's place |
| TestHelper.When | src/FluentValidation/TestHelper/ValidatorTestExtensions.cs:190-202 | the new continuation from the matched failures, or the exception with the message built from the first unmatched failure; `WhenDecision` states its meaning |
| TestHelper.WhenAll | src/FluentValidation/TestHelper/ValidatorTestExtensions.cs:204-217 | the new continuation, or the exception naming the first failure the predicate rejects; `WhenAllDecision` states its meaning |
| TestHelper.WhenDecision | src/FluentValidation/TestHelper/ValidatorTestExtensions.cs:190-202 | `When` throws exactly when no matched failure satisfies the predicate, with the message built from the first matched failure, which is then the first unmatched one (the fixed message when no template is given); otherwise it matches exactly those that do |
| TestHelper.WhenAllDecision | src/FluentValidation/TestHelper/ValidatorTestExtensions.cs:204-217 | `WhenAll` throws exactly when some matched failure fails the predicate, with the message built from the first such failure; otherwise it keeps all of them matched |
| TestHelper.Only | src/FluentValidation/TestHelper/ValidatorTestExtensions.cs:256-270 | throws exactly when some failure is unmatched, with the banner and every unmatched message; otherwise returns its argument unchanged |
| Contexts.IndexedDistinct | src/FluentValidation.Tests/CollectionValidatorWithParentTests.cs:62-63 | two elements of one collection get the same `Name[i]` segment exactly when their indices are equal, so each element's failures have their own path |
| Strings.ParseNatToString | src/FluentValidation/TestHelper/ValidatorTestExtensions.cs:159 | the decimal text of an index reads back as that index; `Contexts.IndexedDistinct` relies on it |
| Strings.ReplaceSkip | src/FluentValidation/TestHelper/ValidatorTestExtensions.cs:125-128 | text without the pattern's first character is copied unchanged by a replacement |

## Left out

- Cancellation and `await` in `ValidateAsync` are read as plain sequential calls, since there is no concurrency to model.
- The `Type ValidatorType` of the adaptor and `IChildValidatorAdaptor` are left out: they only serve `ShouldHaveChildValidator`.
- `PropertyValidatorContext`'s null guard in `GetValidator` is left out: the context is never null here.
- The engine's `PropertyRule`, `CollectionPropertyRule`, `AbstractValidator`, `ValidationContext.CloneForChildValidator` and `PropertyChain` are not part of this model. `contexts.dfy` and `ForEach` state what the adaptor and the scenarios rely on of them.
- The scenarios `Collection_should_be_explicitly_included_*`, `Collection_should_be_excluded`, `Can_validate_collection_using_validator_for_base_type`, `Can_specify_condition_for_individual_collection_elements`, `Should_override_property_name` and the top-level collection tests are left out. They exercise member selectors, `Where`, `OverridePropertyName` and the unseen rule types rather than the adaptor.
- Message localisation (`GetDefaultMessageTemplate`), the `MemberInfo` constructors and the `AbstractComparisonValidator` base of `GreaterThanOrEqualValidator` are left out.
- `ShouldHaveChildValidator`, `GetDependentRules`, `GetModelLevelValidators`, `TestValidate`, `TestValidateAsync` and the `With...`/`Without...` wrappers around `When`/`WhenAll` are left out. They rely on expression trees, reflection and validator descriptors.
- TestHelper.BuildErrorMessage: the `{MessageArgument:key}` substitution loop and the placeholder values it reads are not modelled, because they need a regular-expression engine. The proved cases use templates with one placeholder and no other `{`, where the loop finds nothing to replace. A code, message or state that itself holds a placeholder would be replaced again by a later step; the lemmas do not cover that case.
- TestHelper.ShouldHaveValidationError: the order in which the unseen continuation applies its predicate is assumed: in order, stopping at the first match. Faults of failures after the first match are therefore not modelled.
- Model-level rules are left out: the rule's property name is never null here. Such a rule has a null name, which the adaptor passes to `PropertyChain.Add` (ChildValidatorAdaptor.cs:113-114). `PropertyChain` is not part of this model, so what it does with a null segment is not modelled.
- A child validator that throws is left out: the child is a total function. The source has no `try`/`finally` between publishing and resetting the index (ChildValidatorAdaptor.cs:60-65). So an exception from the child leaves `__FV_CollectionIndex` published. `RestoresRootContextData` and `ForEachRestores` hold only for a child that returns.
- Null error messages, error codes and lists of failures are not modelled: these strings and lists always exist here. Only property names and custom states can be null.
- A failure's attempted value and formatted placeholder values are not modelled: none of the modelled operations reads them.

