/**
 * The build step that turns every `@AccessToken` annotation instance into an
 * access-token build item, after checking that no class carries the annotation
 * both on itself and elsewhere: a class either carries one class-level
 * `@AccessToken` and nothing else, or any number of method-level ones.
 */
module OidcTokenPropagationCommonProcessor {
  import opened Wrappers

  /** The client name `exchangeTokenClient` may use to mean the default client. */
  const DefaultClient := "Default"

  /** A method, identified by its declaring class and its name. */
  datatype MethodInfo = MethodInfo(declaringClass: string, name: string)

  /** What an annotation is placed on: a class (by name) or a method. */
  datatype AnnotationTarget = ClassTarget(className: string) | MethodTarget(methodInfo: MethodInfo)

  /** One `@AccessToken` annotation instance, with its `exchangeTokenClient` value when the attribute is given. */
  datatype AnnotationInstance = AnnotationInstance(target: AnnotationTarget, exchangeTokenClient: Option<string>)

  /** The build item produced for one annotation instance; `methodInfo` is `None` for a class-level annotation. */
  datatype AccessTokenInstanceBuildItem = AccessTokenInstanceBuildItem(
    clientName: string,
    exchangeToken: bool,
    target: AnnotationTarget,
    methodInfo: Option<MethodInfo>)

  /** The step's failure: some class carries `@AccessToken` both at class level and once more. */
  datatype CollectError = AppliedOnClassAndItsMethods

  /** Reads the build item's data off one annotation instance. */
  datatype ItemBuilder = ItemBuilder(instance: AnnotationInstance) {

    /** The token-exchange client name: empty for the default client, otherwise the attribute value. */
    function ToClientName(): (name: string)
      ensures instance.exchangeTokenClient.None? ==> name == ""
      ensures instance.exchangeTokenClient == Some(DefaultClient) ==> name == ""
      ensures instance.exchangeTokenClient.Some? && instance.exchangeTokenClient.value != DefaultClient
              ==> name == instance.exchangeTokenClient.value
    {
      if instance.exchangeTokenClient.None? || instance.exchangeTokenClient.value == DefaultClient then ""
      else instance.exchangeTokenClient.value
    }

    /** Tokens are exchanged exactly when the annotation gives `exchangeTokenClient`, even as "Default". */
    function ToExchangeToken(): (exchange: bool)
      ensures exchange <==> instance.exchangeTokenClient.Some?
    {
      instance.exchangeTokenClient.Some?
    }

    /** The annotated method, or `None` when the annotation is on a class. */
    function TargetMethod(): (methodInfo: Option<MethodInfo>)
      ensures methodInfo.Some? <==> instance.target.MethodTarget?
      ensures methodInfo.Some? ==> methodInfo.value == instance.target.methodInfo
    {
      if instance.target.MethodTarget? then Some(instance.target.methodInfo) else None
    }

    /** The class the annotation belongs to: the declaring class of an annotated method, or the annotated class. */
    function TargetClassName(): (name: string)
      ensures instance.target.MethodTarget? ==> name == instance.target.methodInfo.declaringClass
      ensures instance.target.ClassTarget? ==> name == instance.target.className
    {
      if instance.target.MethodTarget? then instance.target.methodInfo.declaringClass
      else instance.target.className
    }

    /** The build item for this annotation instance. */
    function Build(): (item: AccessTokenInstanceBuildItem)
      ensures item.target == instance.target
      ensures item.clientName == ToClientName() && item.exchangeToken == ToExchangeToken()
      ensures item.methodInfo == TargetMethod()
    {
      AccessTokenInstanceBuildItem(ToClientName(), ToExchangeToken(), instance.target, TargetMethod())
    }
  }

  /** A named client implies token exchange; an explicit "Default" client exchanges tokens under the empty name. */
  lemma ClientNameNeedsExchange(builder: ItemBuilder)
    ensures builder.ToClientName() != "" ==> builder.ToExchangeToken()
    ensures builder.instance.exchangeTokenClient == Some(DefaultClient) ==>
      builder.ToExchangeToken() && builder.ToClientName() == ""
  {
  }

  /**
   * A build item still tells which class its annotation belongs to: the
   * declaring class of its method, or the annotated class when it has none.
   */
  lemma BuildItemKeepsTargetClass(builder: ItemBuilder)
    ensures var item := builder.Build();
      && (item.methodInfo.Some? ==> item.methodInfo.value.declaringClass == builder.TargetClassName())
      && (item.methodInfo.None? ==> item.target == ClassTarget(builder.TargetClassName()))
  {
  }

  /**
   * `groupingBy(ItemBuilder::targetClassName)`: each target class name mapped
   * to the builders for that class, in encounter order.
   */
  function GroupByTargetClass(builders: seq<ItemBuilder>): (groups: map<string, seq<ItemBuilder>>)
    ensures forall className :: className in groups ==> groups[className] != []
    ensures forall className, builder :: className in groups && builder in groups[className] ==>
      builder in builders && builder.TargetClassName() == className
  {
    if builders == [] then map[]
    else
      var prefix := builders[..|builders| - 1];
      var groups := GroupByTargetClass(prefix);
      var last := builders[|builders| - 1];
      var key := last.TargetClassName();
      assert builders == prefix + [last];
      groups[key := (if key in groups then groups[key] else []) + [last]]
  }

  /** The builders whose target class is `className`, in order. */
  function ForClass(builders: seq<ItemBuilder>, className: string): seq<ItemBuilder>
  {
    if builders == [] then []
    else
      var rest := ForClass(builders[..|builders| - 1], className);
      var last := builders[|builders| - 1];
      if last.TargetClassName() == className then rest + [last] else rest
  }

  /** The check applied to one class's builders: more than one, and one of them class-level. */
  predicate MixesClassLevel(classBuilders: seq<ItemBuilder>)
  {
    |classBuilders| > 1 && exists builder :: builder in classBuilders && builder.TargetMethod().None?
  }

  /** Some group fails the check. */
  predicate SomeGroupMixesClassLevel(groups: map<string, seq<ItemBuilder>>)
  {
    exists className :: className in groups && MixesClassLevel(groups[className])
  }

  /** The builders for the annotation instances, in order. */
  function ItemBuilders(annotations: seq<AnnotationInstance>): (builders: seq<ItemBuilder>)
    ensures |builders| == |annotations|
    ensures forall i :: 0 <= i < |annotations| ==> builders[i].instance == annotations[i]
  {
    seq(|annotations|, i requires 0 <= i < |annotations| => ItemBuilder(annotations[i]))
  }

  /** `collectAccessTokenInstances`: one build item per annotation instance, or the step's failure. */
  function CollectAccessTokenInstances(annotations: seq<AnnotationInstance>)
    : (r: Result<seq<AccessTokenInstanceBuildItem>, CollectError>)
    ensures r.Success? ==> |r.value| == |annotations|
    ensures r.Success? ==> forall i :: 0 <= i < |annotations| ==> r.value[i] == ItemBuilder(annotations[i]).Build()
  {
    var itemBuilders := ItemBuilders(annotations);
    if itemBuilders != [] && SomeGroupMixesClassLevel(GroupByTargetClass(itemBuilders)) then
      Failure(AppliedOnClassAndItsMethods)
    else
      Success(seq(|itemBuilders|, i requires 0 <= i < |itemBuilders| => itemBuilders[i].Build()))
  }

  /**
   * The rule the step enforces, stated on positions: two different annotation
   * instances belong to the same class and one of them is on the class itself.
   */
  predicate ClassLevelShared(annotations: seq<AnnotationInstance>)
  {
    exists i, j :: 0 <= i < |annotations| && 0 <= j < |annotations| && i != j
      && annotations[i].target.ClassTarget?
      && ItemBuilder(annotations[i]).TargetClassName() == ItemBuilder(annotations[j]).TargetClassName()
  }

  /** The group of a class is exactly the builders for that class, in order, and exists when that is non-empty. */
  lemma {:induction false} GroupIsForClass(builders: seq<ItemBuilder>, className: string)
    ensures className in GroupByTargetClass(builders) <==> ForClass(builders, className) != []
    ensures className in GroupByTargetClass(builders) ==>
      GroupByTargetClass(builders)[className] == ForClass(builders, className)
  {
    if builders != [] {
      GroupIsForClass(builders[..|builders| - 1], className);
    }
  }

  /** A builder is in the group of a class exactly when it is one of the builders and targets that class. */
  lemma {:induction false} ForClassMembers(builders: seq<ItemBuilder>, className: string, builder: ItemBuilder)
    ensures builder in ForClass(builders, className) <==> builder in builders && builder.TargetClassName() == className
  {
    if builders != [] {
      var prefix := builders[..|builders| - 1];
      ForClassMembers(prefix, className, builder);
      assert builders == prefix + [builders[|builders| - 1]];
    }
  }

  /** Two different positions targeting the same class put at least two builders in its group. */
  lemma {:induction false} TwoPositionsGroupTwo(builders: seq<ItemBuilder>, className: string, i: nat, j: nat)
    requires i < |builders| && j < |builders| && i != j
    requires builders[i].TargetClassName() == className && builders[j].TargetClassName() == className
    ensures |ForClass(builders, className)| > 1
  {
    var n := |builders| - 1;
    var prefix := builders[..n];
    if i == n || j == n {
      var k := if i == n then j else i;
      assert prefix[k] == builders[k];
      ForClassMembers(prefix, className, builders[k]);
    } else {
      assert prefix[i] == builders[i] && prefix[j] == builders[j];
      TwoPositionsGroupTwo(prefix, className, i, j);
    }
  }

  /** A group of at least two holds, besides any given position of that class, another position of it. */
  lemma {:induction false} GroupOfTwoHasAnother(builders: seq<ItemBuilder>, className: string, i: nat)
    returns (j: nat)
    requires |ForClass(builders, className)| > 1
    requires i < |builders| && builders[i].TargetClassName() == className
    ensures j < |builders| && j != i && builders[j].TargetClassName() == className
  {
    var n := |builders| - 1;
    var prefix := builders[..n];
    if builders[n].TargetClassName() == className {
      if i == n {
        var other := ForClass(prefix, className)[0];
        ForClassMembers(prefix, className, other);
        var k :| 0 <= k < |prefix| && prefix[k] == other;
        j := k;
      } else {
        j := n;
      }
    } else {
      assert prefix[i] == builders[i];
      var k := GroupOfTwoHasAnother(prefix, className, i);
      assert prefix[k] == builders[k];
      j := k;
    }
  }

  /** The grouped check fails exactly when two positions share a class and one of them is class-level. */
  lemma GroupCheckIsPositional(annotations: seq<AnnotationInstance>)
    ensures SomeGroupMixesClassLevel(GroupByTargetClass(ItemBuilders(annotations))) <==> ClassLevelShared(annotations)
  {
    var builders := ItemBuilders(annotations);
    var groups := GroupByTargetClass(builders);
    if SomeGroupMixesClassLevel(groups) {
      var className :| className in groups && MixesClassLevel(groups[className]);
      GroupIsForClass(builders, className);
      var builder: ItemBuilder :| builder in groups[className] && builder.TargetMethod().None?;
      ForClassMembers(builders, className, builder);
      var i :| 0 <= i < |builders| && builders[i] == builder;
      var j := GroupOfTwoHasAnother(builders, className, i);
      assert annotations[i].target.ClassTarget?;
      assert ItemBuilder(annotations[j]).TargetClassName() == ItemBuilder(annotations[i]).TargetClassName();
    }
    if ClassLevelShared(annotations) {
      var i, j :| 0 <= i < |annotations| && 0 <= j < |annotations| && i != j
        && annotations[i].target.ClassTarget?
        && ItemBuilder(annotations[i]).TargetClassName() == ItemBuilder(annotations[j]).TargetClassName();
      var className := builders[i].TargetClassName();
      TwoPositionsGroupTwo(builders, className, i, j);
      GroupIsForClass(builders, className);
      ForClassMembers(builders, className, builders[i]);
      assert MixesClassLevel(groups[className]);
    }
  }

  /**
   * The step fails exactly when some class carries more than one annotation
   * instance and one of them is class-level; otherwise it yields one build item
   * per annotation instance, in order.
   */
  lemma CollectFailsIffClassLevelShared(annotations: seq<AnnotationInstance>)
    ensures CollectAccessTokenInstances(annotations).Failure? <==> ClassLevelShared(annotations)
  {
    GroupCheckIsPositional(annotations);
  }

  /** No annotation instances: no build items and no failure. */
  lemma NoAnnotationsNoItems()
    ensures CollectAccessTokenInstances([]) == Success([])
  {
  }

  /** A class whose only `@AccessToken` is one class-level annotation, or classes annotated on methods only, pass. */
  lemma AcceptedShapes(annotations: seq<AnnotationInstance>)
    requires forall i, j :: 0 <= i < |annotations| && 0 <= j < |annotations| && i != j ==>
               || ItemBuilder(annotations[i]).TargetClassName() != ItemBuilder(annotations[j]).TargetClassName()
               || (annotations[i].target.MethodTarget? && annotations[j].target.MethodTarget?)
    ensures CollectAccessTokenInstances(annotations).Success?
  {
    CollectFailsIffClassLevelShared(annotations);
  }
}
