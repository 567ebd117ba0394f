# CitiesCompilerExtender: the `ModifyAssembly` patch, modelled in Dafny

CitiesCompilerExtender rewrites the game assembly `Assembly-CSharp.dll` so the
in-game mod compiler references extra assemblies. `ModifyAssembly` does the
work in Source/Program.cs. It finds the type `Starter` and its method `Awake`.
In that method's instruction list it finds two anchors:

- the `call` to `SetAdditionalAssemblies`, which is the injection location;
- the instruction after the `call` to `add_eventLogMessage`, which is the array-size anchor.

The patch then replaces the array-size anchor with `ldc.i4 (n + 1)`. For each
of the n assembly names, in order, it inserts `dup; ldc.i4 k; ldstr name;
stelem.ref` right before the injection location, with k = 1, 2, …, n. The
opcodes are those of ECMA-335, Partition III.

Files, one module each:

- `results.dfy`: `Option` and `Result`.
- `lookup.dfy`: LINQ `Single` as `Lookup.Single`, which fails with `NotFound` or `Ambiguous`.
- `cil.dfy`: the instruction datatype `Cil.Instr`, and a typed evaluation stack (int32 and object references) for the inserted instructions.
- `patcher.dfy`: the inserted code `Stores`, the patched body `Patched` as a specification, and Mono.Cecil's `ILProcessor` as a class with `Replace`, `InsertBefore` and the imperative `Patch` loop.
- `injector.dfy`: the module graph (types, methods, bodies), `Locate` (the four lookups), and `ModifyAssembly`.

Instruction identity is positional: an anchor is an index into the body.
Cecil's `InsertBefore` keeps its target object and pushes it one place down.
`Patch` follows this by advancing the injection location's index by one per
insertion, so by four per name.

The code does no more than this:

- The new size is `Count + 1` whatever the array held before; the old operand is never read.
- Only the `call` opcode matches an anchor; `callvirt` does not.
- An empty name list is accepted, and then only the resize happens.
- Nothing checks that the array-size anchor comes before the injection location. The model allows either order.

The model also covers one case from Cecil's semantics. `Replace` removes the
replaced instruction from the list. If the instruction after the
`add_eventLogMessage` call is the `SetAdditionalAssemblies` call itself, the
first `InsertBefore` cannot find its target and throws. `Patch` returns false
in that case, and `ModifyAssembly` fails with `InjectionRemoved`. With an
empty name list there is no insertion, so this case succeeds.

## Model

| member | source | states |
|---|---|---|
| `Lookup.Single` | Source/Program.cs:78-89 | `Ok(k)` exactly when k is the only matching position; `NotFound` exactly when nothing matches; `Ambiguous` exactly when two positions match |
| `Injector.Locate` | Source/Program.cs:78-90 | success yields the unique `Starter` type, its unique `Awake` method, the unique `SetAdditionalAssemblies` call and the successor of the unique `add_eventLogMessage` call; whenever such anchors exist, it returns exactly them |
| `Injector.NoStarter` | Source/Program.cs:78 | no type named `Starter`: the run fails with `TypeLookup(NotFound)` |
| `Injector.AmbiguousStarter` | Source/Program.cs:78 | two types named `Starter`: the run fails with `TypeLookup(Ambiguous)` |
| `Injector.NoAwake` | Source/Program.cs:81 | `Starter` has no `Awake` method: the run fails with `MethodLookup(NotFound)` |
| `Injector.AmbiguousAwake` | Source/Program.cs:81 | `Starter` has two `Awake` methods: the run fails with `MethodLookup(Ambiguous)` |
| `Injector.NoInjectionCall` | Source/Program.cs:86 | `Awake` has no `SetAdditionalAssemblies` call: the run fails with `InjectionLookup(NotFound)` |
| `Injector.NoEventLogCall` | Source/Program.cs:89 | `Awake` has no `add_eventLogMessage` call: the run fails with `EventLogLookup(NotFound)` |
| `Injector.AmbiguousEventLog` | Source/Program.cs:89 | two `add_eventLogMessage` calls: the run fails with `EventLogLookup(Ambiguous)` |
| `Injector.AmbiguousInjection` | Source/Program.cs:86 | two `SetAdditionalAssemblies` calls in `Awake` make the lookup fail as ambiguous |
| `Injector.EventLogCallLast` | Source/Program.cs:89-95 | an `add_eventLogMessage` call that is the last instruction has no successor, and the run fails |
| `Injector.WithBody` | Source/Program.cs:84-113 | only the located method's body changes; every other type and method, and the names, stay as they were |
| `Injector.ModifyAssembly` | Source/Program.cs:73-114 | a lookup failure is returned as is and nothing is patched; an injection location removed by the resize is an error; otherwise the module is returned with the body equal to `Patched` |
| `Injector.Scenario` | Source/Program.cs:64-70 | with `Main`'s two names, the body `[call SetAdditionalAssemblies, call add_eventLogMessage, ldc.i4 0]` becomes the two blocks with indices 1 and 2, then the old body with `ldc.i4 3` |
| `Injector.EmptyListOnlyResizes` | Source/Program.cs:95-99 | with no names the patch succeeds, and its only change is the anchor becoming `ldc.i4 1` |
| `Patcher.Stores` | Source/Program.cs:98-110 | the inserted code has exactly four instructions per name |
| `Patcher.StoresAt` | Source/Program.cs:98-110 | the k-th group of four inserted instructions is `dup; ldc.i4 k; ldstr names[k-1]; stelem.ref` |
| `Patcher.StoreIndices` | Source/Program.cs:98-109 | the index operands run 1, 2, …, n in list order, and each is paired with the name at that place in the list |
| `Patcher.BlockStack` | Source/Program.cs:101-108 | one element-store block runs exactly when an object reference is on top of the stack, and then leaves the stack unchanged |
| `Patcher.StoresStack` | Source/Program.cs:98-110 | all inserted blocks together leave the stack, with the array reference on top, as they found it |
| `Patcher.PatchedLayout` | Source/Program.cs:99-110 | the body grows by 4·n, and the window starting at the injection location's old index holds the inserted code |
| `Patcher.PatchedBlockAt` | Source/Program.cs:98-110 | block k sits at offset 4·(k-1) of that window |
| `Patcher.PatchedResize` | Source/Program.cs:95 | the anchor holds `ldc.i4 (n + 1)`: at its own index if it comes before the injection location, otherwise 4·n places further on |
| `Patcher.PatchedKeepsInjection` | Source/Program.cs:102-108 | when the anchor is not the injection location, the injection instruction follows the window unchanged |
| `Patcher.PatchedLocality` | Source/Program.cs:95-110 | every instruction except the anchor keeps its content: those before the window at the same index, those from the injection location on shifted by 4·n |
| `Patcher.PatchedEmpty` | Source/Program.cs:95-99 | with no names the patched body is the original with the anchor set to `ldc.i4 1` |
| `Patcher.ILProcessor.constructor` | Source/Program.cs:92 | the processor works on the method's instruction list as given |
| `Patcher.ILProcessor.Replace` | Source/Program.cs:95 | the position's instruction is replaced and no other position changes |
| `Patcher.ILProcessor.InsertBefore` | Source/Program.cs:102-108 | the new instruction comes right before the target, and the target and everything after it move down by one |
| `Patcher.ILProcessor.Patch` | Source/Program.cs:92-110 | succeeds unless the anchor is the injection location and there are names to insert; on success the body is `Patched`; on failure only the resize has happened |

## Left out

- Command-line handling, usage text, directory and file checks, and OS detection and path building (`Main`, `ShowUsage`, `DetectOperatingSystem`, `GetProcessOutput`). These are process and filesystem plumbing, not the patch. `Main`'s list of names is used only as test input for `Injector.Scenario`.
- Reading and writing the module (`ModuleDefinition.ReadModule`, `module.Write`) are outside the model. `ModifyAssembly` takes the module graph as a value and returns the new graph, or a failure with nothing to write.
- Console logging.
- The `(MethodReference)` cast: a `call` operand always carries the referenced method's name.
- Cecil's offset and branch-target fix-ups are not modelled. `Cil.Other` carries no branch target, so the requirement that no branch jumps into the insertion window has nothing to constrain in this model.
- Patcher.ILProcessor.Patch: the new size and the indices are unbounded integers. C# `int` arithmetic would wrap once there are 2^31 − 1 names, and `ldc.i4` takes an int32 operand.
- `call` and every opcode other than `dup`, `ldc.i4`, `ldstr` and `stelem.ref` are undefined (`None`) in `Cil.Step`, because their effect depends on signatures that are not modelled. The stack results cover the inserted code only.
- Type lookup covers the module's top-level types, as Cecil's `module.Types` does. Nested types are not part of the model.
