/** Small helpers shared by the factory strategies and the builder. */
module Utility {
  import opened Common
  import opened Runtime

  predicate IsAbstractMethod(m: Method) {
    m.isAbstract
  }

  /** Finds the single abstract method of an interface (the one a generated listener
      implements). Non-abstract methods are skipped; a class that is not an interface is an
      argument error; a second abstract method, or none at all, is a state error. */
  method FindSam(h: Hierarchy, clazz: TypeId) returns (r: Result<Method>)
    ensures !IsInterface(h, clazz) ==> r == Err(IllegalArgument)
    ensures IsInterface(h, clazz) ==>
      var abstracts := Filter(MethodsOf(h, clazz), IsAbstractMethod);
      r == if |abstracts| == 1 then Ok(abstracts[0]) else Err(IllegalState)
  {
    if !IsInterface(h, clazz) {
      return Err(IllegalArgument);
    }
    var ms := MethodsOf(h, clazz);
    var result: Option<Method> := None;
    var i := 0;
    while i < |ms|
      invariant 0 <= i <= |ms|
      invariant |Filter(ms[..i], IsAbstractMethod)| <= 1
      invariant result.None? <==> |Filter(ms[..i], IsAbstractMethod)| == 0
      invariant result.Some? ==> result.value == Filter(ms[..i], IsAbstractMethod)[0]
    {
      assert ms[..i + 1][..i] == ms[..i];
      if !ms[i].isAbstract {
        i := i + 1;
        continue;
      }
      if result.Some? {
        // a second abstract method: at least two are in the whole list
        assert ms == ms[..i + 1] + ms[i + 1..];
        FilterAppend(ms[..i + 1], ms[i + 1..], IsAbstractMethod);
        return Err(IllegalState);
      }
      result := Some(ms[i]);
      i := i + 1;
    }
    assert ms[..i] == ms;
    if result.None? {
      return Err(IllegalState);
    }
    r := Ok(result.value);
  }

  /** A `java.lang.invoke.MethodType`. */
  datatype MethodType = MethodType(returnType: TypeId, params: seq<TypeId>)

  /** The method type of a reflected method: its return type and its parameter types. */
  function MethodTypeFromMethod(m: Method): (r: MethodType)
    ensures r.returnType == m.returnType && r.params == m.params
  {
    MethodType(m.returnType, m.params)
  }

  /** Two methods have the same method type exactly when their return and parameter types
      agree; names, declaring classes and modifiers do not enter. */
  lemma MethodTypeIdentifiesSignature(a: Method, b: Method)
    ensures MethodTypeFromMethod(a) == MethodTypeFromMethod(b) <==>
      a.returnType == b.returnType && a.params == b.params
  {
  }

  /** The default cache processor: a consumer that leaves the buffer as it is and never
      throws. */
  function EmptyConsumer(buffer: seq<Listener>): (r: Result<seq<Listener>>)
    ensures r == Ok(buffer)
  {
    Ok(buffer)
  }
}
