/**
 * Values derived from an entity (`EntityContext`), and how an annotation's
 * constant-or-class pair is turned into one (`EntityContextHelper`).
 */
module EntityContexts {
  import opened Common
  import opened DataEntries

  /**
   * The marker constant that selects the class instead of a constant. The
   * repository refers to `EntityContext.FROM_ENTITY_CONTEXT` without
   * defining it; any non-empty marker behaves the same here.
   */
  const FROM_ENTITY_CONTEXT: string := "FROM_ENTITY_CONTEXT"

  /** The class an annotation names: the `DefaultContext` placeholder, or a real implementation. */
  datatype ContextClass = DefaultContextClass | ContextClass(get: Row -> Option<string>)

  /** An instance: a `StaticValue`, or an instance of an implementation class. */
  datatype EntityContext = StaticValue(value: string) | Instance(get: Row -> Option<string>)

  /** `get`: a static value yields its constant for every entity. */
  function Get(ctx: EntityContext, entity: Row): (r: Option<string>)
    ensures ctx.StaticValue? ==> r == Some(ctx.value)
    ensures ctx.Instance? ==> r == ctx.get(entity)
  {
    match ctx
    case StaticValue(v) => Some(v)
    case Instance(g) => g(entity)
  }

  /**
   * `getFromAnnotation`: the marker with the placeholder class is an
   * `IllegalArgumentException`, the marker with a real class an instance of
   * it; any other non-empty constant a static value; the empty constant null.
   */
  function GetFromAnnotation(constantValue: string, contextClass: ContextClass): (r: Result<Option<EntityContext>>)
    ensures r.Err? <==> constantValue == FROM_ENTITY_CONTEXT && contextClass.DefaultContextClass?
    ensures r.Err? ==> r.error == IllegalArgument
    ensures constantValue == FROM_ENTITY_CONTEXT && contextClass.ContextClass? ==>
      r == Ok(Some(Instance(contextClass.get)))
    ensures constantValue != FROM_ENTITY_CONTEXT && |constantValue| > 0 ==> r == Ok(Some(StaticValue(constantValue)))
    ensures r == Ok(None) <==> |constantValue| == 0
  {
    if constantValue == FROM_ENTITY_CONTEXT then
      match contextClass
      case DefaultContextClass => Err(IllegalArgument)
      case ContextClass(g) => Ok(Some(Instance(g)))
    else if |constantValue| > 0 then Ok(Some(StaticValue(constantValue)))
    else Ok(None)
  }

  /** A non-empty constant other than the marker yields itself for every entity. */
  lemma ConstantForEveryEntity(constantValue: string, contextClass: ContextClass, e1: Row, e2: Row)
    requires constantValue != FROM_ENTITY_CONTEXT && |constantValue| > 0
    ensures var r := GetFromAnnotation(constantValue, contextClass);
      r.Ok? && r.value.Some? && Get(r.value.value, e1) == Get(r.value.value, e2) == Some(constantValue)
  {
  }
}
