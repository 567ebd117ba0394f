/**
 * `ModifyAssembly`: find type `Starter`, its method `Awake`, the call to
 * `SetAdditionalAssemblies` (the injection location) and the instruction after
 * the call to `add_eventLogMessage` (the array-size anchor), then patch the
 * body so that the compiler's reference array holds the extra assembly names.
 */
module Injector {
  import opened Results
  import opened Lookup
  import opened Cil
  import opened Patcher

  const TargetType := "Starter"
  const TargetMethod := "Awake"
  const InjectionCall := "SetAdditionalAssemblies"
  const EventLogCall := "add_eventLogMessage"

  /** The part of the module graph the patch walks: types, their methods, method bodies. */
  datatype MethodDef = MethodDef(name: string, body: seq<Instr>)
  datatype TypeDef = TypeDef(name: string, methods: seq<MethodDef>)
  datatype Module = Module(types: seq<TypeDef>)

  /** Why the run stops before writing anything. */
  datatype Failure =
    | TypeLookup(typeError: LookupError)        // Single over module.Types
    | MethodLookup(methodError: LookupError)    // Single over Starter's methods
    | InjectionLookup(injectionError: LookupError)
    | EventLogLookup(eventLogError: LookupError)
    | NoSuccessor      // the add_eventLogMessage call is the last instruction: Next is null
    | InjectionRemoved // the replace removed the injection location before an insertion

  /** Where the patch applies: type, method, injection location, array-size anchor. */
  datatype Anchors = Anchors(typeIdx: nat, methodIdx: nat, injection: nat, arraySize: nat)

  predicate IsStarter(t: TypeDef) { t.name == TargetType }
  predicate IsAwake(m: MethodDef) { m.name == TargetMethod }
  predicate IsInjectionCall(i: Instr) { i.Call? && i.callee == InjectionCall }
  predicate IsEventLogCall(i: Instr) { i.Call? && i.callee == EventLogCall }

  predicate InModule(m: Module, a: Anchors)
  {
    a.typeIdx < |m.types| && a.methodIdx < |m.types[a.typeIdx].methods|
  }

  function BodyOf(m: Module, a: Anchors): seq<Instr>
    requires InModule(m, a)
  {
    m.types[a.typeIdx].methods[a.methodIdx].body
  }

  /** `a` names the one Starter type, its one Awake method and the two anchors of its body. */
  ghost predicate IsTarget(m: Module, a: Anchors)
  {
    && UniqueAt(m.types, IsStarter, a.typeIdx)
    && UniqueAt(m.types[a.typeIdx].methods, IsAwake, a.methodIdx)
    && UniqueAt(BodyOf(m, a), IsInjectionCall, a.injection)
    && 1 <= a.arraySize < |BodyOf(m, a)|
    && UniqueAt(BodyOf(m, a), IsEventLogCall, a.arraySize - 1)
  }

  /** The four `Single` lookups, in the order the source runs them, then `.Next`. */
  function Locate(m: Module): (r: Result<Anchors, Failure>)
    ensures r.Ok? ==> IsTarget(m, r.value)
    ensures forall a :: IsTarget(m, a) ==> r == Ok(a)
  {
    match Single(m.types, IsStarter)
    case Err(e) => Err(TypeLookup(e))
    case Ok(t) =>
      match Single(m.types[t].methods, IsAwake)
      case Err(e) => Err(MethodLookup(e))
      case Ok(k) =>
        var body := m.types[t].methods[k].body;
        match Single(body, IsInjectionCall)
        case Err(e) => Err(InjectionLookup(e))
        case Ok(j) =>
          match Single(body, IsEventLogCall)
          case Err(e) => Err(EventLogLookup(e))
          case Ok(c) =>
            if c + 1 < |body| then Ok(Anchors(t, k, j, c + 1)) else Err(NoSuccessor)
  }

  /** The module with the located method's body replaced and every other part left as it was. */
  function WithBody(m: Module, a: Anchors, body: seq<Instr>): (r: Module)
    requires InModule(m, a)
    ensures InModule(r, a) && BodyOf(r, a) == body
    ensures |r.types| == |m.types|
    ensures forall t :: 0 <= t < |m.types| && t != a.typeIdx ==> r.types[t] == m.types[t]
    ensures r.types[a.typeIdx].name == m.types[a.typeIdx].name
    ensures |r.types[a.typeIdx].methods| == |m.types[a.typeIdx].methods|
    ensures forall k :: 0 <= k < |m.types[a.typeIdx].methods| && k != a.methodIdx ==>
              r.types[a.typeIdx].methods[k] == m.types[a.typeIdx].methods[k]
    ensures r.types[a.typeIdx].methods[a.methodIdx].name == m.types[a.typeIdx].methods[a.methodIdx].name
  {
    var ty := m.types[a.typeIdx];
    var md := ty.methods[a.methodIdx];
    Module(m.types[a.typeIdx := ty.(methods := ty.methods[a.methodIdx := md.(body := body)])])
  }

  /**
   * Locates, then patches through an `ILProcessor`. Every failure leaves the
   * module unpatched: the caller gets the error and nothing to write.
   */
  method ModifyAssembly(m: Module, assemblies: seq<string>) returns (r: Result<Module, Failure>)
    ensures Locate(m).Err? ==> r == Err(Locate(m).error)
    ensures Locate(m).Ok? && !PatchSucceeds(Locate(m).value.arraySize, Locate(m).value.injection, assemblies)
            ==> r == Err(InjectionRemoved)
    ensures Locate(m).Ok? && PatchSucceeds(Locate(m).value.arraySize, Locate(m).value.injection, assemblies)
            ==> var a := Locate(m).value;
                r == Ok(WithBody(m, a, Patched(BodyOf(m, a), a.arraySize, a.injection, assemblies)))
  {
    match Locate(m)
    case Err(e) =>
      r := Err(e);
    case Ok(a) =>
      var processor := new ILProcessor(BodyOf(m, a));
      var ok := processor.Patch(a.injection, a.arraySize, assemblies);
      if ok {
        r := Ok(WithBody(m, a, processor.body));
      } else {
        r := Err(InjectionRemoved);
      }
  }

  /** Two calls to SetAdditionalAssemblies in Awake: the lookup fails and nothing is patched. */
  lemma AmbiguousInjection(m: Module, t: nat, k: nat, i: nat, j: nat)
    requires UniqueAt(m.types, IsStarter, t)
    requires UniqueAt(m.types[t].methods, IsAwake, k)
    requires i < j < |m.types[t].methods[k].body|
    requires m.types[t].methods[k].body[i] == Call(InjectionCall)
    requires m.types[t].methods[k].body[j] == Call(InjectionCall)
    ensures Locate(m) == Err(InjectionLookup(Ambiguous))
  {
  }

  /** No type named Starter: the first lookup fails with nothing found. */
  lemma NoStarter(m: Module)
    requires NoneMatch(m.types, IsStarter)
    ensures Locate(m) == Err(TypeLookup(NotFound))
  {
  }

  /** Two types named Starter: the first lookup fails as ambiguous. */
  lemma AmbiguousStarter(m: Module)
    requires TwoMatch(m.types, IsStarter)
    ensures Locate(m) == Err(TypeLookup(Ambiguous))
  {
  }

  /** Starter has no method named Awake. */
  lemma NoAwake(m: Module, t: nat)
    requires UniqueAt(m.types, IsStarter, t)
    requires NoneMatch(m.types[t].methods, IsAwake)
    ensures Locate(m) == Err(MethodLookup(NotFound))
  {
  }

  /** Starter has two methods named Awake. */
  lemma AmbiguousAwake(m: Module, t: nat)
    requires UniqueAt(m.types, IsStarter, t)
    requires TwoMatch(m.types[t].methods, IsAwake)
    ensures Locate(m) == Err(MethodLookup(Ambiguous))
  {
  }

  /** Awake never calls SetAdditionalAssemblies. */
  lemma NoInjectionCall(m: Module, t: nat, k: nat)
    requires UniqueAt(m.types, IsStarter, t)
    requires UniqueAt(m.types[t].methods, IsAwake, k)
    requires NoneMatch(m.types[t].methods[k].body, IsInjectionCall)
    ensures Locate(m) == Err(InjectionLookup(NotFound))
  {
  }

  /** Awake never calls add_eventLogMessage. */
  lemma NoEventLogCall(m: Module, t: nat, k: nat, j: nat)
    requires UniqueAt(m.types, IsStarter, t)
    requires UniqueAt(m.types[t].methods, IsAwake, k)
    requires UniqueAt(m.types[t].methods[k].body, IsInjectionCall, j)
    requires NoneMatch(m.types[t].methods[k].body, IsEventLogCall)
    ensures Locate(m) == Err(EventLogLookup(NotFound))
  {
  }

  /** Awake calls add_eventLogMessage twice: the second anchor lookup fails as ambiguous. */
  lemma AmbiguousEventLog(m: Module, t: nat, k: nat, j: nat)
    requires UniqueAt(m.types, IsStarter, t)
    requires UniqueAt(m.types[t].methods, IsAwake, k)
    requires UniqueAt(m.types[t].methods[k].body, IsInjectionCall, j)
    requires TwoMatch(m.types[t].methods[k].body, IsEventLogCall)
    ensures Locate(m) == Err(EventLogLookup(Ambiguous))
  {
  }

  /** An add_eventLogMessage call that ends the body has no successor to resize. */
  lemma EventLogCallLast(m: Module, t: nat, k: nat, j: nat)
    requires UniqueAt(m.types, IsStarter, t)
    requires UniqueAt(m.types[t].methods, IsAwake, k)
    requires UniqueAt(m.types[t].methods[k].body, IsInjectionCall, j)
    requires var body := m.types[t].methods[k].body;
             UniqueAt(body, IsEventLogCall, |body| - 1)
    ensures Locate(m) == Err(NoSuccessor)
  {
  }

  /** The body from the end-to-end scenario: injection call, event-log call, old array size. */
  function ScenarioModule(): Module
  {
    Module([TypeDef(TargetType, [MethodDef(TargetMethod,
      [Call(InjectionCall), Call(EventLogCall), LdcI4(0)])])])
  }

  /** With the two names `Main` injects, the body becomes the two blocks, then the old body resized to 3. */
  lemma Scenario()
    ensures Locate(ScenarioModule()) == Ok(Anchors(0, 0, 0, 2))
    ensures Patched(BodyOf(ScenarioModule(), Anchors(0, 0, 0, 2)), 2, 0,
                    ["Assembly-CSharp.dll", "ColossalManaged.dll"])
         == [Dup, LdcI4(1), Ldstr("Assembly-CSharp.dll"), StelemRef,
             Dup, LdcI4(2), Ldstr("ColossalManaged.dll"), StelemRef,
             Call(InjectionCall), Call(EventLogCall), LdcI4(3)]
  {
  }

  /** An empty list of names patches only the array size, to 1. */
  lemma EmptyListOnlyResizes(m: Module)
    requires Locate(m).Ok?
    ensures var a := Locate(m).value;
            PatchSucceeds(a.arraySize, a.injection, []) &&
            Patched(BodyOf(m, a), a.arraySize, a.injection, []) == BodyOf(m, a)[a.arraySize := LdcI4(1)]
  {
  }
}
