/** `WebServiceClientBuilder`: the client class generated for a web-service
    interface. The generated Java text is kept abstract: each `append` that
    carries information becomes one `Fragment`, so what is modelled is the
    structure of the code (member order, parameter list, how parameters are
    split between path parameters and the request bean, the return) rather
    than its spelling. */
module WebServiceClientBuilder {
  import opened JavaLang

  // ---------------------------------------------------------------------
  // Method names and their order

  /** `String.compareTo`: the difference of the first differing characters,
      or else the difference of the lengths. */
  function CompareTo(a: string, b: string): int
    decreases |a|
  {
    if a == [] || b == [] then |a| - |b|
    else if a[0] != b[0] then a[0] as int - b[0] as int
    else CompareTo(a[1..], b[1..])
  }

  /** Swapping the arguments negates the comparison. */
  lemma {:induction false} CompareToAntisymmetric(a: string, b: string)
    ensures CompareTo(b, a) == -CompareTo(a, b)
    decreases |a|
  {
    if a != [] && b != [] && a[0] == b[0] {
      CompareToAntisymmetric(a[1..], b[1..]);
    }
  }

  /** Two names compare equal exactly when they are the same name. */
  lemma {:induction false} CompareToZero(a: string, b: string)
    ensures CompareTo(a, b) == 0 <==> a == b
    decreases |a|
  {
    if a != [] && b != [] && a[0] == b[0] {
      CompareToZero(a[1..], b[1..]);
      assert a == [a[0]] + a[1..] && b == [b[0]] + b[1..];
    }
  }

  /** The order `compareTo <= 0` is transitive. */
  lemma {:induction false} CompareToTransitive(a: string, b: string, c: string)
    requires CompareTo(a, b) <= 0 && CompareTo(b, c) <= 0
    ensures CompareTo(a, c) <= 0
    decreases |a|
  {
    if a != [] && b != [] && c != [] && a[0] == b[0] && b[0] == c[0] {
      CompareToTransitive(a[1..], b[1..], c[1..]);
    }
  }

  // ---------------------------------------------------------------------
  // Interface methods and the generated code

  /** The declared return type: `void`, or a class together with the
      generic type passed on to `client.execute`. */
  datatype ReturnType = Void | Returns(returnClass: string, genericType: string)

  /** A parameter: its class and the value of its `@PathParam`, if it has one. */
  datatype Param = Param(typeName: string, pathParam: Option<string>)

  /** A method of the service interface as reflection shows it; `path` is
      its `@Path` value and `httpMethod` what `HTTPMethods.httpMethod` gives. */
  datatype MethodDecl = MethodDecl(
    name: string, returnType: ReturnType, params: seq<Param>, path: string, httpMethod: string)

  /** One informative piece of the generated method text. */
  datatype Fragment =
    | Signature(returnType: ReturnType, name: string)   // public <type> <name>(
    | Separator                                         // ", " between parameters
    | ParamDecl(typeName: string, index: nat)           // <type> param<index>
    | OpenBody                                          // ) {
    | DebugLog(name: string)                            // logger.debug of the method
    | RequestBeanClassDecl(beanClass: Option<string>)   // null, or the bean's class
    | RequestBeanDecl(beanIndex: Option<nat>)           // null, or param<index>
    | NewPathParams                                     // the pathParams map
    | PutPathParams(indexes: map<string, nat>)          // one put per path parameter
    | ServiceURL(path: string)                          // client.serviceURL(path, pathParams)
    | ReturnCast(returnClass: string)                   // return (<type>)
    | Execute(httpMethod: string, returnType: ReturnType) // client.execute(...)
    | CloseBody                                         // }

  /** The parameter declarations of the first `n` parameters. */
  function ParamList(params: seq<Param>, n: nat): seq<Fragment>
    requires n <= |params|
  {
    if n == 0 then []
    else ParamList(params, n - 1) + (if n > 1 then [Separator] else []) + [ParamDecl(params[n - 1].typeName, n - 1)]
  }

  /** The signature lists `param0 .. param(n-1)` in order, each with its
      class, one separator between neighbours and none at either end. */
  lemma {:induction false} ParamListShape(params: seq<Param>, n: nat)
    requires n <= |params|
    ensures |ParamList(params, n)| == if n == 0 then 0 else 2 * n - 1
    ensures forall j :: 0 <= j < |ParamList(params, n)| ==>
      ParamList(params, n)[j] == if j % 2 == 0 then ParamDecl(params[j / 2].typeName, j / 2) else Separator
    decreases n
  {
    if n > 0 {
      ParamListShape(params, n - 1);
    }
  }

  /** The path-parameter map after the first `n` parameters: each
      `@PathParam` value mapped to its index, a later one replacing an
      earlier one of the same name. */
  function PathParamIndexes(params: seq<Param>, n: nat): map<string, nat>
    requires n <= |params|
  {
    if n == 0 then map[]
    else
      var m := PathParamIndexes(params, n - 1);
      match params[n - 1].pathParam
      case Some(name) => m[name := n - 1]
      case None => m
  }

  /** A name is in the map exactly when some parameter carries it. */
  lemma {:induction false} PathParamsDomain(params: seq<Param>, n: nat)
    requires n <= |params|
    ensures forall name :: name in PathParamIndexes(params, n) <==>
      exists i :: 0 <= i < n && params[i].pathParam == Some(name)
    decreases n
  {
    if n > 0 {
      PathParamsDomain(params, n - 1);
      forall name | exists i :: 0 <= i < n && params[i].pathParam == Some(name)
        ensures name in PathParamIndexes(params, n)
      {
        var i :| 0 <= i < n && params[i].pathParam == Some(name);
        if i < n - 1 {
          assert name in PathParamIndexes(params, n - 1);
        }
      }
    }
  }

  /** A name in the map maps to the last parameter that carries it. */
  lemma {:induction false} PathParamsLastWins(params: seq<Param>, n: nat)
    requires n <= |params|
    ensures forall name :: name in PathParamIndexes(params, n) ==>
      && PathParamIndexes(params, n)[name] < n
      && params[PathParamIndexes(params, n)[name]].pathParam == Some(name)
      && forall j :: PathParamIndexes(params, n)[name] < j < n ==> params[j].pathParam != Some(name)
    decreases n
  {
    if n > 0 {
      PathParamsLastWins(params, n - 1);
    }
  }

  /** The request-bean index after the first `n` parameters: the last one
      without `@PathParam`, or none. */
  function RequestBeanIndex(params: seq<Param>, n: nat): (r: Option<nat>)
    requires n <= |params|
    ensures r.Some? ==> r.value < n && params[r.value].pathParam.None?
  {
    if n == 0 then None
    else if params[n - 1].pathParam.None? then Some(n - 1)
    else RequestBeanIndex(params, n - 1)
  }

  /** The request bean is the last parameter without `@PathParam`; there is
      none exactly when every parameter is a path parameter. */
  lemma {:induction false} RequestBeanIsLast(params: seq<Param>, n: nat)
    requires n <= |params|
    ensures RequestBeanIndex(params, n).None? <==> forall j :: 0 <= j < n ==> params[j].pathParam.Some?
    ensures RequestBeanIndex(params, n).Some? ==>
      forall j :: RequestBeanIndex(params, n).value < j < n ==> params[j].pathParam.Some?
    decreases n
  {
    if n > 0 {
      RequestBeanIsLast(params, n - 1);
    }
  }

  /** Every parameter falls into exactly one group: a path parameter, whose
      name is in the map at its own or a later index, or a request-bean
      candidate, at or before the bean index; the bean is never a path
      parameter. */
  lemma ParamsPartitioned(params: seq<Param>)
    ensures forall i :: 0 <= i < |params| && params[i].pathParam.Some? ==>
      && params[i].pathParam.value in PathParamIndexes(params, |params|)
      && i <= PathParamIndexes(params, |params|)[params[i].pathParam.value]
    ensures forall i :: 0 <= i < |params| && params[i].pathParam.None? ==>
      RequestBeanIndex(params, |params|).Some? && i <= RequestBeanIndex(params, |params|).value
    ensures RequestBeanIndex(params, |params|).Some? ==>
      RequestBeanIndex(params, |params|).value !in PathParamIndexes(params, |params|).Values
  {
    var n := |params|;
    PathParamsDomain(params, n);
    PathParamsLastWins(params, n);
    RequestBeanIsLast(params, n);
    var m := PathParamIndexes(params, n);
    forall i | 0 <= i < n && params[i].pathParam.Some?
      ensures i <= m[params[i].pathParam.value]
    {
      var name := params[i].pathParam.value;
      if m[name] < i {
        assert params[i].pathParam == Some(name);
      }
    }
    forall i | 0 <= i < n && params[i].pathParam.None?
      ensures RequestBeanIndex(params, n).Some? && i <= RequestBeanIndex(params, n).value
    {
    }
    if RequestBeanIndex(params, n).Some? {
      var b := RequestBeanIndex(params, n).value;
      forall name | name in m
        ensures m[name] != b
      {
      }
    }
  }

  /** The class of the request bean, if there is one. */
  function RequestBeanClass(params: seq<Param>): Option<string>
  {
    match RequestBeanIndex(params, |params|)
    case Some(i) => Some(params[i].typeName)
    case None => None
  }

  /** The text `buildMethod` produces for a method, as fragments. */
  function MethodCode(m: MethodDecl): seq<Fragment>
  {
    [Signature(m.returnType, m.name)] + ParamList(m.params, |m.params|)
    + [OpenBody, DebugLog(m.name),
       RequestBeanClassDecl(RequestBeanClass(m.params)),
       RequestBeanDecl(RequestBeanIndex(m.params, |m.params|)),
       NewPathParams, PutPathParams(PathParamIndexes(m.params, |m.params|)),
       ServiceURL(m.path)]
    + (if m.returnType.Returns? then [ReturnCast(m.returnType.returnClass)] else [])
    + [Execute(m.httpMethod, m.returnType), CloseBody]
  }

  /** A `return (T)` is emitted exactly for a non-void method, right before
      the call; `client.execute` is emitted exactly once, just before the
      closing brace. */
  lemma ReturnAndExecute(m: MethodDecl)
    ensures (exists j :: 0 <= j < |MethodCode(m)| && MethodCode(m)[j].ReturnCast?) <==> m.returnType.Returns?
    ensures |MethodCode(m)| >= 2
    ensures MethodCode(m)[|MethodCode(m)| - 2] == Execute(m.httpMethod, m.returnType)
    ensures MethodCode(m)[|MethodCode(m)| - 1] == CloseBody
    ensures forall j :: 0 <= j < |MethodCode(m)| - 2 ==> !MethodCode(m)[j].Execute?
    ensures m.returnType.Returns? ==> MethodCode(m)[|MethodCode(m)| - 3] == ReturnCast(m.returnType.returnClass)
  {
    var code := MethodCode(m);
    var list := ParamList(m.params, |m.params|);
    ParamListShape(m.params, |m.params|);
    assert forall j :: 0 <= j < |list| ==> !list[j].Execute? && !list[j].ReturnCast?;
    var tail := if m.returnType.Returns? then [ReturnCast(m.returnType.returnClass)] else [];
    var head := [Signature(m.returnType, m.name)] + list
      + [OpenBody, DebugLog(m.name),
         RequestBeanClassDecl(RequestBeanClass(m.params)),
         RequestBeanDecl(RequestBeanIndex(m.params, |m.params|)),
         NewPathParams, PutPathParams(PathParamIndexes(m.params, |m.params|)),
         ServiceURL(m.path)];
    assert forall j :: 0 <= j < |head| ==> !head[j].Execute? && !head[j].ReturnCast? by {
      forall j | 0 <= j < |head|
        ensures !head[j].Execute? && !head[j].ReturnCast?
      {
        if 1 <= j < 1 + |list| {
          assert head[j] == list[j - 1];
        }
      }
    }
    assert code == head + tail + [Execute(m.httpMethod, m.returnType), CloseBody];
    if m.returnType.Void? {
      forall j | 0 <= j < |code|
        ensures !code[j].ReturnCast?
      {
        if j < |head| {
          assert code[j] == head[j];
        }
      }
    } else {
      assert code[|head|].ReturnCast?;
    }
    forall j | 0 <= j < |code| - 2
      ensures !code[j].Execute?
    {
      if j < |head| {
        assert code[j] == head[j];
      }
    }
  }

  /** `buildMethod`: one pass over the parameters that writes their
      declarations and fills the path-parameter map and the request-bean
      slot, then the body. */
  method BuildMethod(m: MethodDecl) returns (code: seq<Fragment>)
    ensures code == MethodCode(m)
  {
    var pathParamIndexes: map<string, nat> := map[];
    var requestBeanClass: Option<string> := None;
    var requestBeanIndex: Option<nat> := None;
    var params := m.params;
    code := [Signature(m.returnType, m.name)];
    for i := 0 to |params|
      invariant pathParamIndexes == PathParamIndexes(params, i)
      invariant requestBeanIndex == RequestBeanIndex(params, i)
      invariant requestBeanClass == if requestBeanIndex.Some? then Some(params[requestBeanIndex.value].typeName) else None
      invariant code == [Signature(m.returnType, m.name)] + ParamList(params, i)
    {
      if i > 0 {
        code := code + [Separator];
      }
      code := code + [ParamDecl(params[i].typeName, i)];
      match params[i].pathParam {
        case Some(name) =>
          pathParamIndexes := pathParamIndexes[name := i];
        case None =>
          requestBeanIndex := Some(i);
          requestBeanClass := Some(params[i].typeName);
      }
    }
    code := code + [OpenBody, DebugLog(m.name), RequestBeanClassDecl(requestBeanClass),
                    RequestBeanDecl(requestBeanIndex), NewPathParams, PutPathParams(pathParamIndexes),
                    ServiceURL(m.path)];
    if m.returnType.Returns? {
      code := code + [ReturnCast(m.returnType.returnClass)];
    }
    code := code + [Execute(m.httpMethod, m.returnType), CloseBody];
  }

  // ---------------------------------------------------------------------
  // The generated class

  /** Methods in ascending order of name. */
  predicate SortedByName(ms: seq<MethodDecl>)
  {
    forall p, q :: 0 <= p < q < |ms| ==> CompareTo(ms[p].name, ms[q].name) <= 0
  }

  /** `Arrays.sort(methods, Comparator.comparing(Method::getName))`: a
      stable insertion sort that moves each method left past every method
      with a greater name. */
  method SortByName(a: array<MethodDecl>)
    modifies a
    ensures SortedByName(a[..])
    ensures multiset(a[..]) == multiset(old(a[..]))
  {
    for i := 0 to a.Length
      invariant forall p, q :: 0 <= p < q < i ==> CompareTo(a[p].name, a[q].name) <= 0
      invariant multiset(a[..]) == multiset(old(a[..]))
    {
      Insert(a, i);
    }
  }

  /** Within `s[..i + 1]`, every pair of positions other than `j` is in
      order. */
  predicate SortedExcept(s: seq<MethodDecl>, i: int, j: int)
    requires 0 <= i < |s|
  {
    forall p, q :: 0 <= p < q <= i && p != j && q != j ==> CompareTo(s[p].name, s[q].name) <= 0
  }

  /** The method at `j` is not greater than any method after it, up to `i`. */
  predicate BelowRest(s: seq<MethodDecl>, i: int, j: int)
    requires 0 <= j <= i < |s|
  {
    forall q :: j < q <= i ==> CompareTo(s[j].name, s[q].name) <= 0
  }

  /** Swapping the inserted method with a greater left neighbour keeps both
      invariants of the insertion one position further left. */
  lemma SwapStep(s: seq<MethodDecl>, i: int, j: int)
    requires 0 < j <= i < |s|
    requires SortedExcept(s, i, j) && BelowRest(s, i, j)
    requires CompareTo(s[j - 1].name, s[j].name) > 0
    ensures SortedExcept(s[j - 1 := s[j]][j := s[j - 1]], i, j - 1)
    ensures BelowRest(s[j - 1 := s[j]][j := s[j - 1]], i, j - 1)
  {
    CompareToAntisymmetric(s[j - 1].name, s[j].name);
  }

  /** Exchanges `a[j - 1]` and `a[j]`. */
  method Swap(a: array<MethodDecl>, j: int)
    requires 0 < j < a.Length
    modifies a
    ensures a[..] == old(a[..])[j - 1 := old(a[j])][j := old(a[j - 1])]
    ensures multiset(a[..]) == multiset(old(a[..]))
  {
    a[j - 1], a[j] := a[j], a[j - 1];
  }

  /** When the inserted method at `j` is not below its left neighbour, the
      whole of `s[..i + 1]` is in order. */
  lemma InsertDone(s: seq<MethodDecl>, i: int, j: int)
    requires 0 <= j <= i < |s|
    requires SortedExcept(s, i, j) && BelowRest(s, i, j)
    requires j > 0 ==> CompareTo(s[j - 1].name, s[j].name) <= 0
    ensures forall p, q :: 0 <= p < q <= i ==> CompareTo(s[p].name, s[q].name) <= 0
  {
    forall p, q | 0 <= p < q <= i
      ensures CompareTo(s[p].name, s[q].name) <= 0
    {
      if q == j && p < j - 1 {
        CompareToTransitive(s[p].name, s[j - 1].name, s[j].name);
      }
    }
  }

  /** Moves `a[i]` left into the sorted prefix `a[..i]`. */
  method Insert(a: array<MethodDecl>, i: int)
    requires 0 <= i < a.Length
    requires forall p, q :: 0 <= p < q < i ==> CompareTo(a[p].name, a[q].name) <= 0
    modifies a
    ensures forall p, q :: 0 <= p < q <= i ==> CompareTo(a[p].name, a[q].name) <= 0
    ensures multiset(a[..]) == multiset(old(a[..]))
  {
    var j := i;
    while j > 0 && CompareTo(a[j - 1].name, a[j].name) > 0
      invariant 0 <= j <= i
      invariant multiset(a[..]) == multiset(old(a[..]))
      invariant SortedExcept(a[..], i, j) && BelowRest(a[..], i, j)
    {
      SwapStep(a[..], i, j);
      Swap(a, j);
      j := j - 1;
    }
    InsertDone(a[..], i, j);
  }

  /** Methods sorted by name, no two sharing a name. */
  predicate SortedDistinct(s: seq<MethodDecl>)
  {
    forall p, q :: 0 <= p < q < |s| ==> CompareTo(s[p].name, s[q].name) < 0
  }

  /** Two such orderings of the same methods start with the same method. */
  lemma HeadsAgree(s: seq<MethodDecl>, t: seq<MethodDecl>)
    requires SortedDistinct(s) && SortedByName(t)
    requires multiset(s) == multiset(t) && s != []
    ensures t != [] && s[0] == t[0]
  {
    assert s[0] in multiset(t);
    var k :| 0 <= k < |t| && t[k] == s[0];
    assert t[0] in multiset(s);
    var m :| 0 <= m < |s| && s[m] == t[0];
    if m != 0 {
      assert CompareTo(s[0].name, s[m].name) < 0;
      assert CompareTo(t[0].name, t[k].name) <= 0;
      CompareToAntisymmetric(s[0].name, s[m].name);
    }
  }

  /** Dropping the first method keeps a sequence sorted. */
  lemma TailSorted(s: seq<MethodDecl>)
    requires s != []
    ensures SortedDistinct(s) ==> SortedDistinct(s[1..])
    ensures SortedByName(s) ==> SortedByName(s[1..])
  {
    assert forall p :: 0 <= p < |s| - 1 ==> s[1..][p] == s[p + 1];
  }

  /** Dropping an equal first method keeps both orderings of the same
      methods. */
  lemma TailsSameMethods(s: seq<MethodDecl>, t: seq<MethodDecl>)
    requires multiset(s) == multiset(t) && s != [] && t != [] && s[0] == t[0]
    ensures multiset(s[1..]) == multiset(t[1..])
  {
    assert s == [s[0]] + s[1..] && t == [t[0]] + t[1..];
    assert multiset(s[1..]) == multiset(s) - multiset{s[0]};
    assert multiset(t[1..]) == multiset(t) - multiset{t[0]};
  }

  /** Two orderings of the same methods that are both sorted by name are
      the same ordering when no two methods share a name: the sort makes the
      generated class independent of the order reflection lists the methods. */
  lemma {:induction false} SortedIsUnique(s: seq<MethodDecl>, t: seq<MethodDecl>)
    requires SortedDistinct(s) && SortedByName(t)
    requires multiset(s) == multiset(t)
    ensures s == t
    decreases |s|
  {
    if s == [] {
      assert |t| == |multiset(t)| == 0;
    } else {
      HeadsAgree(s, t);
      TailSorted(s);
      TailSorted(t);
      TailsSameMethods(s, t);
      SortedIsUnique(s[1..], t[1..]);
      assert s == [s[0]] + s[1..] && t == [t[0]] + t[1..];
    }
  }

  /** A member of the generated class. */
  datatype Member = ClientField | LoggerField | ClientConstructor | GeneratedMethod(code: seq<Fragment>)

  /** The generated methods, one per interface method, in the given order. */
  function GeneratedMethods(ms: seq<MethodDecl>): (r: seq<Member>)
    ensures |r| == |ms|
    ensures forall i :: 0 <= i < |ms| ==> r[i] == GeneratedMethod(MethodCode(ms[i]))
  {
    if ms == [] then [] else [GeneratedMethod(MethodCode(ms[0]))] + GeneratedMethods(ms[1..])
  }

  lemma GeneratedMethodsAppend(ms: seq<MethodDecl>, m: MethodDecl)
    ensures GeneratedMethods(ms + [m]) == GeneratedMethods(ms) + [GeneratedMethod(MethodCode(m))]
  {
    var r := GeneratedMethods(ms + [m]);
    assert forall i :: 0 <= i < |ms| ==> (ms + [m])[i] == ms[i];
    assert r[|ms|] == GeneratedMethod(MethodCode(m));
  }

  /** The builder, with the members added to the class being generated. */
  class WebServiceClientBuilder {
    var members: seq<Member>

    constructor ()
      ensures members == []
    {
      members := [];
    }

    /** `build`: the two fields and the constructor, then one method per
        interface method in ascending order of name. `methods` is the array
        `getMethods` returns; it is sorted in place. */
    method Build(methods: array<MethodDecl>)
      modifies this, methods
      ensures SortedByName(methods[..])
      ensures multiset(methods[..]) == multiset(old(methods[..]))
      ensures members == old(members) + [ClientField, LoggerField, ClientConstructor] + GeneratedMethods(methods[..])
    {
      members := members + [ClientField, LoggerField, ClientConstructor];
      SortByName(methods);
      ghost var start := members;
      ghost var sorted := methods[..];
      for i := 0 to methods.Length
        modifies this
        invariant methods[..] == sorted
        invariant members == start + GeneratedMethods(methods[..i])
      {
        var code := BuildMethod(methods[i]);
        members := members + [GeneratedMethod(code)];
        assert methods[..i + 1] == methods[..i] + [methods[i]];
        GeneratedMethodsAppend(methods[..i], methods[i]);
      }
      assert methods[..methods.Length] == methods[..];
    }
  }
}
