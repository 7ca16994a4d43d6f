/**
 * The scenarios of the collection-with-parent tests, stated as lemmas about the adaptor.
 *
 * The collection rule that runs the adaptor once per element (`RuleForEach`) and the
 * validators the tests declare are not part of this model's source files. `ForEach` states
 * what the scenarios rely on of the collection rule: null elements are skipped; element `i`
 * is validated in a collection context whose chain ends in `Name[i]`, with the
 * `CollectionIndex` placeholder set to `i`; the failures are concatenated in index order and
 * the root context data is threaded from one element to the next.
 */
module CollectionScenarios {
  import opened Wrappers
  import opened Results
  import opened Strings
  import opened Contexts
  import opened ChildValidation

  function Field(v: Value, name: string): Value
  {
    if v.Record? && name in v.fields then v.fields[name] else Null
  }

  function Items(v: Value): seq<Value>
  {
    if v.List? then v.items else []
  }

  function Order(productName: Value, amount: int): Value
  {
    Record(map["ProductName" := productName, "Amount" := Number(amount)])
  }

  /** The tests' person: no surname, one child with an e-mail address, the given orders. */
  function Person(orders: seq<Value>): Value
  {
    Record(map[
      "Surname" := Null,
      "AnotherInt" := Number(99),
      "Children" := List([Record(map["Email" := Text("person@email.com")])]),
      "Orders" := List(orders)])
  }

  /** The orders of the tests' person; only the second one names a child's e-mail address. */
  function PersonOrders(): seq<Value>
  {
    [ Order(Text("email_that_does_not_belong_to_a_person"), 99),
      Order(Text("person@email.com"), 1),
      Order(Text("another_email_that_does_not_belong_to_a_person"), 1) ]
  }

  function RootContext(instance: Value, data: RootContextData): ValidationContext
  {
    ValidationContext(instance, [], DefaultSelector, data, None, false, false, false)
  }

  function Failure(path: string, message: string, code: string): ValidationFailure
  {
    ValidationFailure(Some(path), message, code, Error, None)
  }

  function Names(failures: seq<ValidationFailure>): seq<Option<string>>
  {
    seq(|failures|, i requires 0 <= i < |failures| => failures[i].propertyName)
  }

  /** `person.Children.Any(child => child.Email == productName)`. */
  predicate SomeChildHasEmail(person: Value, email: Value)
  {
    var children := Items(Field(person, "Children"));
    exists i :: 0 <= i < |children| && Field(children[i], "Email") == email
  }

  /** The one rule of `OrderValidator(person)`: the product name must be a child's e-mail address. */
  function ProductNameErrors(person: Value, order: Value, chain: seq<string>): seq<ValidationFailure>
  {
    if SomeChildHasEmail(person, Field(order, "ProductName")) then []
    else [Failure(BuildPropertyName(chain, "ProductName"),
                  "The specified condition was not met for 'Product Name'.", "PredicateValidator")]
  }

  function OrderValidator(person: Value): Validator
  {
    Validator(
      (ctx: ValidationContext, data: map<string, Value>) =>
        ProductNameErrors(person, ctx.instanceToValidate, ctx.propertyChain),
      (ctx: ValidationContext, data: map<string, Value>) =>
        ProductNameErrors(person, ctx.instanceToValidate, ctx.propertyChain))
  }

  /** `SetValidator(y => new OrderValidator(y))`: the provider is handed the person being validated. */
  function OrderProvider(c: PropertyValidatorContext): Option<Validator>
  {
    Some(OrderValidator(c.parentContext.instanceToValidate))
  }

  /** The context the collection rule gives element `index` of the collection property `name`. */
  function ElementContext(ctx: ValidationContext, name: string, element: Value, index: nat): PropertyValidatorContext
  {
    var elementContext := ValidationContext(
      ctx.instanceToValidate, ctx.propertyChain + [Indexed(name, index)], ctx.selector,
      ctx.rootContextData, Some(ctx), false, true, ctx.isAsync);
    PropertyValidatorContext(elementContext, name, element, map[CollectionIndexPlaceholder := Number(index)])
  }

  datatype Run = Run(errors: seq<ValidationFailure>, rootData: map<string, Value>)

  /** The collection rule over `items[i..]`, running the adaptor on each non-null element. */
  function ForEach(
    a: ChildValidatorAdaptor, async: bool, ctx: ValidationContext, name: string,
    items: seq<Value>, i: nat, rootData: map<string, Value>
  ): Run
    decreases |items| - i
  {
    if i >= |items| then Run([], rootData)
    else if items[i] == Null then ForEach(a, async, ctx, name, items, i + 1, rootData)
    else
      var element := ElementContext(ctx, name, items[i], i);
      var o := if async then a.AsyncOutcome(element, rootData) else a.SyncOutcome(element, rootData);
      var rest := ForEach(a, async, ctx, name, items, i + 1, o.rootData);
      Run(o.errors + rest.errors, rest.rootData)
  }

  /** `RuleFor(x => x.Surname).NotNull()`. */
  function SurnameErrors(ctx: ValidationContext): seq<ValidationFailure>
  {
    if Field(ctx.instanceToValidate, "Surname") == Null
    then [Failure(BuildPropertyName(ctx.propertyChain, "Surname"), "'Surname' must not be empty.", "NotNullValidator")]
    else []
  }

  /** The tests' person validator: the surname rule, then the orders rule driving adaptor `orders`. */
  function PersonValidator(orders: ChildValidatorAdaptor): Validator
  {
    Validator(
      (ctx: ValidationContext, data: map<string, Value>) =>
        SurnameErrors(ctx) + ForEach(orders, false, ctx, "Orders", Items(Field(ctx.instanceToValidate, "Orders")), 0, data).errors,
      (ctx: ValidationContext, data: map<string, Value>) =>
        SurnameErrors(ctx) + ForEach(orders, true, ctx, "Orders", Items(Field(ctx.instanceToValidate, "Orders")), 0, data).errors)
  }

  /** The adaptor the tests build with `RuleForEach(x => x.Orders).SetValidator(y => new OrderValidator(y))`. */
  ghost predicate IsOrdersAdaptor(a: ChildValidatorAdaptor)
  {
    a.validatorProvider == Some(OrderProvider) && a.condition.None? && a.asyncCondition.None?
  }

  /** One order, validated as element `index`: its failure, if any, is addressed `...Name[index].ProductName`. */
  lemma OrderElement(
    a: ChildValidatorAdaptor, async: bool, ctx: ValidationContext, name: string, order: Value, index: nat,
    rootData: map<string, Value>)
    requires IsOrdersAdaptor(a)
    requires order != Null
    ensures var element := ElementContext(ctx, name, order, index);
      var o := if async then a.AsyncOutcome(element, rootData) else a.SyncOutcome(element, rootData);
      && o.exit == Delegated
      && o.errors == ProductNameErrors(ctx.instanceToValidate, order, ctx.propertyChain + [Indexed(name, index)])
      && (CollectionIndexKey !in rootData ==> o.rootData == rootData)
  {
    var element := ElementContext(ctx, name, order, index);
    var child := a.CreateNewValidationContextForChildValidator(order, element);
    assert child.propertyChain == ctx.propertyChain + [Indexed(name, index)];
    a.RestoresRootContextData(element, rootData);
  }

  /**
   * Element by element, each publish is undone before the next element is reached, so the
   * collection rule leaves the root context data as it found it (unless it held a null index).
   */
  lemma {:induction false} ForEachRestores(
    a: ChildValidatorAdaptor, async: bool, ctx: ValidationContext, name: string,
    items: seq<Value>, i: nat, rootData: map<string, Value>)
    requires Lookup(rootData, CollectionIndexKey) != Null || CollectionIndexKey !in rootData
    ensures ForEach(a, async, ctx, name, items, i, rootData).rootData == rootData
    decreases |items| - i
  {
    if i < |items| {
      if items[i] != Null {
        a.RestoresRootContextData(ElementContext(ctx, name, items[i], i), rootData);
      }
      ForEachRestores(a, async, ctx, name, items, i + 1, rootData);
    }
  }

  /** Which of the tests' product names belong to the person's child. */
  lemma ProductNameVerdicts(orders: seq<Value>)
    ensures !SomeChildHasEmail(Person(orders), Text("email_that_does_not_belong_to_a_person"))
    ensures SomeChildHasEmail(Person(orders), Text("person@email.com"))
    ensures !SomeChildHasEmail(Person(orders), Text("another_email_that_does_not_belong_to_a_person"))
  {
    var person := Person(orders);
    assert Items(Field(person, "Children")) == [Record(map["Email" := Text("person@email.com")])];
    assert Field(Items(Field(person, "Children"))[0], "Email") == Text("person@email.com");
  }

  lemma SmallIndexes()
    ensures NatToString(0) == "0" && NatToString(1) == "1" && NatToString(2) == "2"
  {
  }

  /** The product-name failure of the order addressed by `chain`. */
  function ProductNameFailure(chain: seq<string>): ValidationFailure
  {
    Failure(BuildPropertyName(chain, "ProductName"),
            "The specified condition was not met for 'Product Name'.", "PredicateValidator")
  }

  /** The verdict on each of the tests' orders, whatever the person's orders: the second passes. */
  lemma PersonOrderVerdict(orders: seq<Value>, chain: seq<string>, i: nat)
    requires i < 3
    ensures ProductNameErrors(Person(orders), PersonOrders()[i], chain)
      == if i == 1 then [] else [ProductNameFailure(chain)]
  {
    ProductNameVerdicts(orders);
    var order := PersonOrders()[i];
    if i == 0 {
      assert Field(order, "ProductName") == Text("email_that_does_not_belong_to_a_person");
    } else if i == 1 {
      assert Field(order, "ProductName") == Text("person@email.com");
    } else {
      assert Field(order, "ProductName") == Text("another_email_that_does_not_belong_to_a_person");
    }
  }

  lemma OrdersSegments()
    ensures Indexed("Orders", 0) == "Orders[0]"
    ensures Indexed("Orders", 2) == "Orders[2]"
  {
    SmallIndexes();
  }

  /** The failures the orders rule should report for `items[i..]`: each non-null order's, in order. */
  function OrdersErrors(person: Value, name: string, chain: seq<string>, items: seq<Value>, i: nat): seq<ValidationFailure>
    decreases |items| - i
  {
    if i >= |items| then []
    else (if items[i] == Null then [] else ProductNameErrors(person, items[i], chain + [Indexed(name, i)]))
         + OrdersErrors(person, name, chain, items, i + 1)
  }

  /** Over the orders, the collection rule reports exactly the failures `OrdersErrors` lists. */
  lemma {:induction false} ForEachOrders(
    a: ChildValidatorAdaptor, async: bool, ctx: ValidationContext, name: string,
    items: seq<Value>, i: nat, rootData: map<string, Value>)
    requires IsOrdersAdaptor(a)
    ensures ForEach(a, async, ctx, name, items, i, rootData).errors
      == OrdersErrors(ctx.instanceToValidate, name, ctx.propertyChain, items, i)
    decreases |items| - i
  {
    if i < |items| {
      if items[i] != Null {
        OrderElement(a, async, ctx, name, items[i], i, rootData);
        var element := ElementContext(ctx, name, items[i], i);
        var o := if async then a.AsyncOutcome(element, rootData) else a.SyncOutcome(element, rootData);
        ForEachOrders(a, async, ctx, name, items, i + 1, o.rootData);
      } else {
        ForEachOrders(a, async, ctx, name, items, i + 1, rootData);
      }
    }
  }

  /** The orders rule over the tests' person, under any chain: the first and third orders fail. */
  lemma PersonOrdersFail(a: ChildValidatorAdaptor, async: bool, ctx: ValidationContext, rootData: map<string, Value>)
    requires IsOrdersAdaptor(a)
    requires ctx.instanceToValidate == Person(PersonOrders())
    ensures ForEach(a, async, ctx, "Orders", PersonOrders(), 0, rootData).errors
      == [ProductNameFailure(ctx.propertyChain + ["Orders[0]"]), ProductNameFailure(ctx.propertyChain + ["Orders[2]"])]
  {
    ForEachOrders(a, async, ctx, "Orders", PersonOrders(), 0, rootData);
    PersonOrdersErrors(PersonOrders(), ctx.propertyChain);
  }

  /** The last two of the tests' orders: only the third fails. */
  lemma LastOrdersErrors(orders: seq<Value>, chain: seq<string>, items: seq<Value>)
    requires |items| == 3 && items[1] == PersonOrders()[1] && items[2] == PersonOrders()[2]
    ensures OrdersErrors(Person(orders), "Orders", chain, items, 1) == [ProductNameFailure(chain + ["Orders[2]"])]
  {
    var person := Person(orders);
    OrdersSegments();
    assert OrdersErrors(person, "Orders", chain, items, 3) == [];
    PersonOrderVerdict(orders, chain + ["Orders[2]"], 2);
    assert OrdersErrors(person, "Orders", chain, items, 2) == [ProductNameFailure(chain + ["Orders[2]"])];
    PersonOrderVerdict(orders, chain + [Indexed("Orders", 1)], 1);
  }

  /** What the orders rule should report for the tests' person. */
  lemma PersonOrdersErrors(orders: seq<Value>, chain: seq<string>)
    requires orders == PersonOrders()
    ensures OrdersErrors(Person(orders), "Orders", chain, orders, 0)
      == [ProductNameFailure(chain + ["Orders[0]"]), ProductNameFailure(chain + ["Orders[2]"])]
  {
    LastOrdersErrors(orders, chain, orders);
    OrdersSegments();
    PersonOrderVerdict(orders, chain + ["Orders[0]"], 0);
  }

  /** The person validator's two rules, in declaration order, on either path. */
  lemma PersonValidatorRules(a: ChildValidatorAdaptor, async: bool, ctx: ValidationContext, data: map<string, Value>)
    ensures var v := PersonValidator(a);
      (if async then v.validateAsync(ctx, data) else v.validate(ctx, data))
      == SurnameErrors(ctx) + ForEach(a, async, ctx, "Orders", Items(Field(ctx.instanceToValidate, "Orders")), 0, data).errors
  {
  }

  /** The tests' person has no surname. */
  lemma PersonHasNoSurname(ctx: ValidationContext, orders: seq<Value>)
    requires ctx.instanceToValidate == Person(orders)
    ensures SurnameErrors(ctx)
      == [Failure(BuildPropertyName(ctx.propertyChain, "Surname"), "'Surname' must not be empty.", "NotNullValidator")]
    ensures Items(Field(ctx.instanceToValidate, "Orders")) == orders
  {
  }

  /** The tests' person validator's failures for the person, on either path. */
  lemma PersonFailures(a: ChildValidatorAdaptor, async: bool, ctx: ValidationContext, data: map<string, Value>)
    requires IsOrdersAdaptor(a)
    requires ctx.instanceToValidate == Person(PersonOrders())
    ensures var v := PersonValidator(a);
      (if async then v.validateAsync(ctx, data) else v.validate(ctx, data))
      == [ Failure(BuildPropertyName(ctx.propertyChain, "Surname"), "'Surname' must not be empty.", "NotNullValidator"),
           ProductNameFailure(ctx.propertyChain + ["Orders[0]"]),
           ProductNameFailure(ctx.propertyChain + ["Orders[2]"]) ]
  {
    PersonValidatorRules(a, async, ctx, data);
    PersonHasNoSurname(ctx, PersonOrders());
    PersonOrdersFail(a, async, ctx, data);
  }

  /** The names of three failures, in order. */
  lemma NamesOfThree(f0: ValidationFailure, f1: ValidationFailure, f2: ValidationFailure)
    ensures Names([f0, f1, f2]) == [f0.propertyName, f1.propertyName, f2.propertyName]
  {
  }

  /** A path of one, two or three segments. */
  lemma ShortPaths(x: string, y: string, z: string)
    ensures BuildPropertyName([], x) == x
    ensures BuildPropertyName([x], y) == x + "." + y
    ensures BuildPropertyName([x, y], z) == x + "." + y + "." + z
  {
    assert [] + [x] == [x];
    JoinSnoc([x], y, ".");
    JoinSnoc([x, y], z, ".");
    assert [x] + [y] == [x, y];
  }

  /** The paths of the person validator's failures at the root. */
  lemma RootPaths()
    ensures BuildPropertyName([], "Surname") == "Surname"
    ensures BuildPropertyName([] + ["Orders[0]"], "ProductName") == "Orders[0].ProductName"
    ensures BuildPropertyName([] + ["Orders[2]"], "ProductName") == "Orders[2].ProductName"
  {
    ShortPaths("Surname", "", "");
    assert [] + ["Orders[0]"] == ["Orders[0]"];
    ShortPaths("Orders[0]", "ProductName", "");
    assert [] + ["Orders[2]"] == ["Orders[2]"];
    ShortPaths("Orders[2]", "ProductName", "");
  }

  /** The paths of the person validator's failures under `Item1`. */
  lemma Item1SurnamePath()
    ensures BuildPropertyName(["Item1"], "Surname") == "Item1.Surname"
  {
    ShortPaths("Item1", "Surname", "");
  }

  /** The paths of the first and the third order's product names under `Item1`. */
  lemma Item1OrderPaths()
    ensures BuildPropertyName(["Item1"] + ["Orders[0]"], "ProductName") == "Item1.Orders[0].ProductName"
    ensures BuildPropertyName(["Item1"] + ["Orders[2]"], "ProductName") == "Item1.Orders[2].ProductName"
  {
    Item1OrderPath("Orders[0]");
    assert "Item1." + "Orders[0]" + ".ProductName" == "Item1.Orders[0].ProductName";
    Item1OrderPath("Orders[2]");
    assert "Item1." + "Orders[2]" + ".ProductName" == "Item1.Orders[2].ProductName";
  }

  /** The path of an order's product name under `Item1`. */
  lemma Item1OrderPath(segment: string)
    ensures BuildPropertyName(["Item1"] + [segment], "ProductName") == "Item1." + segment + ".ProductName"
  {
    assert ["Item1"] + [segment] == ["Item1", segment];
    ShortPaths("Item1", segment, "ProductName");
  }

  /**
   * `Validates_collection` (and its asynchronous twin): the surname failure, then the first
   * and third orders' failures, each addressed by its index.
   */
  lemma ValidatesCollection(a: ChildValidatorAdaptor, async: bool, data: RootContextData)
    requires IsOrdersAdaptor(a)
    ensures var v := PersonValidator(a);
      var ctx := RootContext(Person(PersonOrders()), data);
      Names(if async then v.validateAsync(ctx, map[]) else v.validate(ctx, map[]))
      == [Some("Surname"), Some("Orders[0].ProductName"), Some("Orders[2].ProductName")]
  {
    var ctx := RootContext(Person(PersonOrders()), data);
    PersonFailures(a, async, ctx, map[]);
    RootPaths();
    NamesOfThree(
      Failure(BuildPropertyName([], "Surname"), "'Surname' must not be empty.", "NotNullValidator"),
      ProductNameFailure(["Orders[0]"]), ProductNameFailure(["Orders[2]"]));
  }

  /** The adaptor of the root validator's `RuleFor(x => x.Item1).SetValidator(validator)`. */
  ghost predicate IsItem1Adaptor(b: ChildValidatorAdaptor, orders: ChildValidatorAdaptor)
  {
    && b.validatorProvider.None? && b.validator == Some(PersonValidator(orders))
    && !b.HasRuleSets() && b.condition.None? && b.asyncCondition.None?
  }

  /** The tuple the root validator is given: the person and a plain object. */
  function PersonTuple(): Value
  {
    Record(map["Item1" := Person(PersonOrders()), "Item2" := Record(map[])])
  }

  /**
   * `Validates_collection_several_levels_deep` (and its asynchronous twin): one level down, every
   * path gains the `Item1.` prefix, and the shared data is left empty as it was found.
   */
  lemma ValidatesCollectionSeveralLevelsDeep(
    b: ChildValidatorAdaptor, a: ChildValidatorAdaptor, async: bool, data: RootContextData)
    requires IsOrdersAdaptor(a) && IsItem1Adaptor(b, a)
    ensures var rule := PropertyValidatorContext(RootContext(PersonTuple(), data), "Item1", Person(PersonOrders()), map[]);
      var o := if async then b.AsyncOutcome(rule, map[]) else b.SyncOutcome(rule, map[]);
      && Names(o.errors) == [Some("Item1.Surname"), Some("Item1.Orders[0].ProductName"), Some("Item1.Orders[2].ProductName")]
      && o.rootData == map[]
  {
    Item1Failures(b, a, async, data);
    Item1SurnamePath();
    Item1OrderPaths();
    NamesOfThree(
      Failure(BuildPropertyName(["Item1"], "Surname"), "'Surname' must not be empty.", "NotNullValidator"),
      ProductNameFailure(["Item1"] + ["Orders[0]"]), ProductNameFailure(["Item1"] + ["Orders[2]"]));
  }

  /** The `Item1` rule's failures: the person validator's, under the chain `Item1`. */
  lemma Item1Failures(b: ChildValidatorAdaptor, a: ChildValidatorAdaptor, async: bool, data: RootContextData)
    requires IsOrdersAdaptor(a) && IsItem1Adaptor(b, a)
    ensures var rule := PropertyValidatorContext(RootContext(PersonTuple(), data), "Item1", Person(PersonOrders()), map[]);
      var o := if async then b.AsyncOutcome(rule, map[]) else b.SyncOutcome(rule, map[]);
      && o.errors == [ Failure(BuildPropertyName(["Item1"], "Surname"), "'Surname' must not be empty.", "NotNullValidator"),
                       ProductNameFailure(["Item1"] + ["Orders[0]"]),
                       ProductNameFailure(["Item1"] + ["Orders[2]"]) ]
      && o.rootData == map[]
  {
    var rule := PropertyValidatorContext(RootContext(PersonTuple(), data), "Item1", Person(PersonOrders()), map[]);
    var child := b.CreateNewValidationContextForChildValidator(Person(PersonOrders()), rule);
    assert child.propertyChain == ["Item1"];
    b.ResultIsChildErrors(rule, map[]);
    b.RestoresRootContextData(rule, map[]);
    PersonFailures(a, async, child, map[]);
  }

  /** The tests' orders with the first one replaced by null. */
  function OrdersWithNull(): seq<Value>
  {
    [Null, PersonOrders()[1], PersonOrders()[2]]
  }

  /** The names of two failures, in order. */
  lemma NamesOfTwo(f0: ValidationFailure, f1: ValidationFailure)
    ensures Names([f0, f1]) == [f0.propertyName, f1.propertyName]
  {
  }

  /** With the first order null, only the third order fails: the null element is skipped. */
  lemma NullOrderSkipped(a: ChildValidatorAdaptor, async: bool, ctx: ValidationContext, rootData: map<string, Value>)
    requires IsOrdersAdaptor(a)
    requires ctx.instanceToValidate == Person(OrdersWithNull())
    ensures ForEach(a, async, ctx, "Orders", OrdersWithNull(), 0, rootData).errors
      == [ProductNameFailure(ctx.propertyChain + ["Orders[2]"])]
  {
    ForEachOrders(a, async, ctx, "Orders", OrdersWithNull(), 0, rootData);
    LastOrdersErrors(OrdersWithNull(), ctx.propertyChain, OrdersWithNull());
    assert OrdersWithNull()[0] == Null;
  }

  /** `Skips_null_items`: one failure for the person and one for the third order. */
  lemma SkipsNullItems(a: ChildValidatorAdaptor, data: RootContextData)
    requires IsOrdersAdaptor(a)
    ensures var ctx := RootContext(Person(OrdersWithNull()), data);
      Names(PersonValidator(a).validate(ctx, map[])) == [Some("Surname"), Some("Orders[2].ProductName")]
  {
    NullItemFailures(a, data);
    RootPaths();
    NamesOfTwo(
      Failure(BuildPropertyName([], "Surname"), "'Surname' must not be empty.", "NotNullValidator"),
      ProductNameFailure([] + ["Orders[2]"]));
  }

  /** The person validator's failures for the person whose first order is null. */
  lemma NullItemFailures(a: ChildValidatorAdaptor, data: RootContextData)
    requires IsOrdersAdaptor(a)
    ensures var ctx := RootContext(Person(OrdersWithNull()), data);
      PersonValidator(a).validate(ctx, map[])
      == [ Failure(BuildPropertyName([], "Surname"), "'Surname' must not be empty.", "NotNullValidator"),
           ProductNameFailure([] + ["Orders[2]"]) ]
  {
    var ctx := RootContext(Person(OrdersWithNull()), data);
    PersonValidatorRules(a, false, ctx, map[]);
    PersonHasNoSurname(ctx, OrdersWithNull());
    NullOrderSkipped(a, false, ctx, map[]);
  }

  /** `When(x => x.Orders.Count == 4)`, evaluated against the instance the rule belongs to. */
  predicate HasFourOrders(c: PropertyValidatorContext)
  {
    |Items(Field(c.parentContext.instanceToValidate, "Orders"))| == 4
  }

  /**
   * An adaptor whose condition (on the synchronous path) or asynchronous condition (on the
   * asynchronous path) is `HasFourOrders`.
   */
  ghost predicate IsConditionalOrdersAdaptor(a: ChildValidatorAdaptor, async: bool)
  {
    && a.validatorProvider == Some(OrderProvider)
    && (if async then a.condition.None? && a.asyncCondition == Some(HasFourOrders)
        else a.condition == Some(HasFourOrders) && a.asyncCondition.None?)
  }

  /** When the condition fails for the rule's instance, no element is validated and nothing changes. */
  lemma {:induction false} ForEachConditionFalse(
    a: ChildValidatorAdaptor, async: bool, ctx: ValidationContext, name: string,
    items: seq<Value>, i: nat, rootData: map<string, Value>)
    requires IsConditionalOrdersAdaptor(a, async)
    requires |Items(Field(ctx.instanceToValidate, "Orders"))| != 4
    ensures ForEach(a, async, ctx, name, items, i, rootData) == Run([], rootData)
    decreases |items| - i
  {
    if i < |items| {
      ForEachConditionFalse(a, async, ctx, name, items, i + 1, rootData);
      if items[i] != Null {
        ConditionFalseElement(a, async, ctx, name, items[i], i, rootData);
        ForEachQuietStep(a, async, ctx, name, items, i, rootData);
      }
    }
  }

  /** An element that reports nothing and changes nothing is passed over. */
  lemma ForEachQuietStep(
    a: ChildValidatorAdaptor, async: bool, ctx: ValidationContext, name: string,
    items: seq<Value>, i: nat, rootData: map<string, Value>)
    requires i < |items| && items[i] != Null
    requires var element := ElementContext(ctx, name, items[i], i);
      var o := if async then a.AsyncOutcome(element, rootData) else a.SyncOutcome(element, rootData);
      o.errors == [] && o.rootData == rootData
    ensures ForEach(a, async, ctx, name, items, i, rootData) == ForEach(a, async, ctx, name, items, i + 1, rootData)
  {
    var rest := ForEach(a, async, ctx, name, items, i + 1, rootData);
    assert [] + rest.errors == rest.errors;
  }

  /** One element under a failing condition: nothing is reported and nothing changes. */
  lemma ConditionFalseElement(
    a: ChildValidatorAdaptor, async: bool, ctx: ValidationContext, name: string,
    item: Value, i: nat, rootData: map<string, Value>)
    requires IsConditionalOrdersAdaptor(a, async)
    requires |Items(Field(ctx.instanceToValidate, "Orders"))| != 4
    ensures var element := ElementContext(ctx, name, item, i);
      (if async then a.AsyncOutcome(element, rootData) else a.SyncOutcome(element, rootData)).errors == []
    ensures var element := ElementContext(ctx, name, item, i);
      (if async then a.AsyncOutcome(element, rootData) else a.SyncOutcome(element, rootData)).rootData == rootData
  {
    var element := ElementContext(ctx, name, item, i);
    assert element.parentContext.instanceToValidate == ctx.instanceToValidate;
    assert !HasFourOrders(element);
  }

  /**
   * `Condition_should_work_with_child_collection` and
   * `Async_condition_should_work_with_child_collection`: the person has three orders, so the
   * condition fails for every element and the result is valid.
   */
  lemma ConditionWorksWithChildCollection(a: ChildValidatorAdaptor, async: bool, data: RootContextData)
    requires IsConditionalOrdersAdaptor(a, async)
    ensures var ctx := RootContext(Person(PersonOrders()), data);
      ForEach(a, async, ctx, "Orders", Items(Field(ctx.instanceToValidate, "Orders")), 0, map[]).errors == []
  {
    var ctx := RootContext(Person(PersonOrders()), data);
    assert Items(Field(ctx.instanceToValidate, "Orders")) == PersonOrders();
    ForEachConditionFalse(a, async, ctx, "Orders", PersonOrders(), 0, map[]);
  }

  /** An order's `Amount` (an `int`, so zero when not set). */
  function Amount(order: Value): int
  {
    var v := Field(order, "Amount");
    if v.Number? then v.n else 0
  }

  /** `RuleFor(x => x.Amount).GreaterThan(0)`. */
  function AmountPositiveErrors(ctx: ValidationContext): seq<ValidationFailure>
  {
    if Amount(ctx.instanceToValidate) > 0 then []
    else [Failure(BuildPropertyName(ctx.propertyChain, "Amount"), "'Amount' must be greater than '0'.", "GreaterThanValidator")]
  }

  /** `RuleFor(x => x.Amount).Equal(0)`. */
  function AmountZeroErrors(ctx: ValidationContext): seq<ValidationFailure>
  {
    if Amount(ctx.instanceToValidate) == 0 then []
    else [Failure(BuildPropertyName(ctx.propertyChain, "Amount"), "'Amount' must be equal to '0'.", "EqualValidator")]
  }

  function NormalOrderValidator(): Validator
  {
    Validator(
      (ctx: ValidationContext, data: map<string, Value>) => AmountPositiveErrors(ctx),
      (ctx: ValidationContext, data: map<string, Value>) => AmountPositiveErrors(ctx))
  }

  function FreeOrderValidator(): Validator
  {
    Validator(
      (ctx: ValidationContext, data: map<string, Value>) => AmountZeroErrors(ctx),
      (ctx: ValidationContext, data: map<string, Value>) => AmountZeroErrors(ctx))
  }

  /** `(p, order) => order.ProductName == "FreeProduct" ? freeOrderValidator : normalOrderValidator`. */
  function OrderKindProvider(c: PropertyValidatorContext): Option<Validator>
  {
    Some(if Field(c.propertyValue, "ProductName") == Text("FreeProduct") then FreeOrderValidator() else NormalOrderValidator())
  }

  ghost predicate IsOrderKindAdaptor(a: ChildValidatorAdaptor)
  {
    a.validatorProvider == Some(OrderKindProvider) && !a.HasRuleSets() && a.condition.None? && a.asyncCondition.None?
  }

  /** A person whose only property set is the given orders. */
  function PersonWithOrders(orders: seq<Value>): Value
  {
    Record(map["Orders" := List(orders)])
  }

  /** The collection rule over a single element: that element's outcome. */
  lemma ForEachSingle(a: ChildValidatorAdaptor, async: bool, ctx: ValidationContext, name: string, item: Value)
    requires item != Null
    ensures var element := ElementContext(ctx, name, item, 0);
      var o := if async then a.AsyncOutcome(element, map[]) else a.SyncOutcome(element, map[]);
      ForEach(a, async, ctx, name, [item], 0, map[]).errors == o.errors
  {
  }

  /**
   * `Creates_validator_using_context_from_property_value`: the provider is given each element
   * and picks the validator by its product name; a free product of amount zero passes, a
   * default order fails the normal validator's `GreaterThan(0)`.
   */
  lemma CreatesValidatorFromPropertyValue(a: ChildValidatorAdaptor, data: RootContextData)
    requires IsOrderKindAdaptor(a)
    ensures var free := [Order(Text("FreeProduct"), 0)];
      ForEach(a, false, RootContext(PersonWithOrders(free), data), "Orders", free, 0, map[]).errors == []
    ensures var plain := [Order(Null, 0)];
      var errors := ForEach(a, false, RootContext(PersonWithOrders(plain), data), "Orders", plain, 0, map[]).errors;
      |errors| > 0 && errors[0].errorCode == "GreaterThanValidator"
  {
    FreeOrderPasses(a, data);
    PlainOrderFails(a, data);
  }

  /** The free product is checked by the free-order validator, and passes. */
  lemma FreeOrderPasses(a: ChildValidatorAdaptor, data: RootContextData)
    requires IsOrderKindAdaptor(a)
    ensures var free := [Order(Text("FreeProduct"), 0)];
      ForEach(a, false, RootContext(PersonWithOrders(free), data), "Orders", free, 0, map[]).errors == []
  {
    var free := Order(Text("FreeProduct"), 0);
    var ctx := RootContext(PersonWithOrders([free]), data);
    ForEachSingle(a, false, ctx, "Orders", free);
    a.ResultIsChildErrors(ElementContext(ctx, "Orders", free, 0), map[]);
  }

  /** A default order is checked by the normal validator, and fails its `GreaterThan(0)`. */
  lemma PlainOrderFails(a: ChildValidatorAdaptor, data: RootContextData)
    requires IsOrderKindAdaptor(a)
    ensures var plain := [Order(Null, 0)];
      var errors := ForEach(a, false, RootContext(PersonWithOrders(plain), data), "Orders", plain, 0, map[]).errors;
      |errors| > 0 && errors[0].errorCode == "GreaterThanValidator"
  {
    var plain := Order(Null, 0);
    var ctx := RootContext(PersonWithOrders([plain]), data);
    ForEachSingle(a, false, ctx, "Orders", plain);
    a.ResultIsChildErrors(ElementContext(ctx, "Orders", plain, 0), map[]);
  }
}
