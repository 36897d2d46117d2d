# unorm and vpack: type-directed dispatch of two MaxQ Blueprint nodes

This project models two polymorphic graph nodes of the MaxQ spaceflight
toolkit's editor plug-in:

- `unorm` (K2Node_unorm.cpp) splits a vector into its magnitude (`vmag`) and
  its unit direction (`vout`). It covers four vector kinds: dimensionless,
  distance, velocity and angular velocity.
- `vpack` (K2Node_pack.cpp) packs up to six real inputs (`x y z dx dy dz`)
  into one of six vector kinds on its output pin `Vec`.

Each node keeps a fixed, ordered registry of operation descriptors. It
resolves itself against that registry from the types of the pins linked to
it. It decides which links the editor may make. At compile time it validates
its state and expands into a primitive function call plus named type
conversions, moving its links onto those calls.

Modules:

- `Wrappers`: `Option` and `Result`.
- `Search`: `FirstMatch`, the first-match scan over a registry that every
  dispatch loop of both nodes performs.
- `K2Types`: pin types and the type descriptors (`FK2Type`), together with
  `Is`, which is equality of category, sub-object and container. Also the
  conversion descriptors and the pins.
- `CallGraphs`: the record of what an expansion spawns, wires and moves.
- `Unorm`: the registry, resolution, validation and expansion functions with
  their lemmas, and `UnormNode`, the node's state with its editor and
  compiler operations.
- `Pack`: the same for `vpack`, with `PackNode`, whose input pins live in an
  array the node updates in place.

Each node method is proved against a specification function of the old
state (`Resolution`/`ResolvedOperand`, `Validation`, `Expansion`). The
lemmas then state what the source promises about those functions:
- registry order decides;
- disagreeing pins are an error;
- validation agrees with resolution;
- the shape of every expansion;
- what the editor admits, the node resolves.

## Model

| member | source | states |
|---|---|---|
| Search.FirstMatch | Plugins/MaxQ/Source/SpiceUncooked/Private/K2Node_unorm.cpp:152-159 | the scan returns the index of an entry passing the test with no earlier entry passing it, and returns nothing exactly when no entry passes |
| Unorm.RegistryShape | Plugins/MaxQ/Source/SpiceUncooked/Private/K2Node_unorm.cpp:20-26 | the registry has four named entries; vector types are pairwise distinct, scalar types are pairwise distinct, no vector type is a scalar type, and none is a wildcard |
| Unorm.RegistryChainsTypeCheck | Plugins/MaxQ/Source/SpiceUncooked/Private/K2Node_unorm.cpp:20-26 | in every entry, the input conversion leads from the pin's vector type to SDimensionlessVector, and the output conversion leads from double to the pin's scalar type; without a conversion the pin type is the primitive's own type |
| Unorm.EntriesDistinct | Plugins/MaxQ/Source/SpiceUncooked/Private/K2Node_unorm.cpp:20-26 | two registry entries are equal exactly when their indices are |
| Unorm.ResolutionIsFirstMatch | Plugins/MaxQ/Source/SpiceUncooked/Private/K2Node_unorm.cpp:152-161 | the node resolves to entry i exactly when the first link of `v` or of `vmag` selects entry i and no earlier entry is selected |
| Unorm.GenericWhenNothingSelects | Plugins/MaxQ/Source/SpiceUncooked/Private/K2Node_unorm.cpp:151-163 | the node stays generic exactly when no entry is selected, in particular when neither pin is linked |
| Unorm.ConflictingLinksResolveToEarlierEntry | Plugins/MaxQ/Source/SpiceUncooked/Private/K2Node_unorm.cpp:152-159 | when `v` selects entry i and `vmag` selects entry k, the node resolves to the earlier of the two |
| Unorm.VectorLinkResolves | Plugins/MaxQ/Source/SpiceUncooked/Private/K2Node_unorm.cpp:152-159 | linking only `v` to entry i's vector type resolves the node to entry i |
| Unorm.MagnitudeLinkResolves | Plugins/MaxQ/Source/SpiceUncooked/Private/K2Node_unorm.cpp:152-159 | linking only `vmag` to entry i's scalar type resolves the node to entry i |
| Unorm.ValidationNeedsBothPins | Plugins/MaxQ/Source/SpiceUncooked/Private/K2Node_unorm.cpp:259-267 | validation fails unless both `v` and `vmag` are linked |
| Unorm.ValidationOfLinkedPins | Plugins/MaxQ/Source/SpiceUncooked/Private/K2Node_unorm.cpp:259-270 | with `v` on entry i's vector type and `vmag` on entry k's scalar type, validation yields entry i when i = k and fails otherwise |
| Unorm.ValidationAgreesWithResolution | Plugins/MaxQ/Source/SpiceUncooked/Private/K2Node_unorm.cpp:152-159 | an entry that validation accepts is the entry resolution picks for the same links |
| Unorm.ExpansionShape | Plugins/MaxQ/Source/SpiceUncooked/Private/K2Node_unorm.cpp:286-354 | expansion fails with an operand type error exactly when validation fails; otherwise it spawns unorm_vector first, then the named input conversion, then the named output conversion (one to three calls). The input conversion's return value is wired to the primitive's `v`, and the primitive's magnitude is wired to the output conversion; no other wires exist. `v`'s links move to the input conversion (else the primitive's `v`), `vmag`'s to the output conversion's return value (else the primitive's magnitude), and `vout`'s to the primitive's direction |
| Unorm.DistanceVectorExpansion | Plugins/MaxQ/Source/SpiceUncooked/Private/K2Node_unorm.cpp:286-354 | a distance vector on `v` and a distance on `vmag` resolve to the distance entry and expand to exactly: conversion to dimensionless, then unorm_vector, then conversion of the double to a distance, wired in that chain |
| Unorm.UnormNode.constructor | Plugins/MaxQ/Source/SpiceUncooked/Private/K2Node_unorm.cpp:28-89 | a new node is unresolved; `v` and `vmag` are wildcards and `vout` is an SDimensionlessVector; nothing is linked |
| Unorm.UnormNode.IsConnectionDisallowed | Plugins/MaxQ/Source/SpiceUncooked/Private/K2Node_unorm.cpp:102-137 | `vout` admits only a wildcard or a plain SDimensionlessVector; a resolved node admits exactly the type its entry demands on that pin; a generic node refuses a type iff no entry's type for that pin Matches it |
| Unorm.UnormNode.NodeConnectionListChanged | Plugins/MaxQ/Source/SpiceUncooked/Private/K2Node_unorm.cpp:145-220 | afterwards the node holds `Resolution` of the old links, with both pins wildcards when generic and carrying the entry's types when resolved; links and `vout` are untouched |
| Unorm.UnormNode.NotifyConnectionChanged | Plugins/MaxQ/Source/SpiceUncooked/Private/K2Node_unorm.cpp:241-251 | for a connected pin among its pin's links, the node re-resolves exactly when its pin is a wildcard and the other pin is not, keeping links, `vout` and all pin fields other than the types; otherwise nothing changes |
| Unorm.UnormNode.CheckForErrors | Plugins/MaxQ/Source/SpiceUncooked/Private/K2Node_unorm.cpp:254-271 | the error flag is set exactly when `Validation` finds no entry; otherwise the entry returned is the first on which both linked pins agree; on error it is the unresolved descriptor |
| Unorm.UnormNode.BreakAllNodeLinks | Plugins/MaxQ/Source/SpiceUncooked/Private/K2Node_unorm.cpp:295 | every pin loses its links and nothing else changes |
| Unorm.UnormNode.ExpandNode | Plugins/MaxQ/Source/SpiceUncooked/Private/K2Node_unorm.cpp:286-354 | the outcome is `Expansion` of the old links, on the error path too, and all links are severed |
| Unorm.AdmittedLinkResolves | Plugins/MaxQ/Source/SpiceUncooked/Private/K2Node_unorm.cpp:128-136 | when Matches is no broader than Is, a type a generic node admits on `v` (or `vmag`) resolves the node, once linked alone, to an entry whose vector (or scalar) type Is it |
| Pack.TypesFromOperations | Plugins/MaxQ/Source/SpiceUncooked/Private/K2Node_pack.cpp:469-477 | the supported types list holds each outer type of the operations exactly once, and nothing else (the body of `GetTypesFromOperations` is not part of this model; see Left out) |
| Pack.RegistryShape | Plugins/MaxQ/Source/SpiceUncooked/Private/K2Node_pack.cpp:479-492 | six named entries whose outer types are pairwise distinct struct types; the supported types are exactly the outer types in registry order |
| Pack.SupportedTypeUnique | Plugins/MaxQ/Source/SpiceUncooked/Private/K2Node_pack.cpp:197-206 | at most one supported type Is any given pin type |
| Pack.FirstConcreteLinkDecides | Plugins/MaxQ/Source/SpiceUncooked/Private/K2Node_pack.cpp:176-186 | the discriminating type is the first non-wildcard link; earlier links are wildcards and later links do not affect resolution |
| Pack.NoConcreteLinkIsGeneric | Plugins/MaxQ/Source/SpiceUncooked/Private/K2Node_pack.cpp:188-193 | with only wildcard links, or none, the operand and the output pin become wildcards |
| Pack.ConcreteLinkResolves | Plugins/MaxQ/Source/SpiceUncooked/Private/K2Node_pack.cpp:194-207 | a discriminating type that supported type i Is resolves the operand to that type; a type no supported type Is leaves the operand as it was |
| Pack.EachOperationValidates | Plugins/MaxQ/Source/SpiceUncooked/Private/K2Node_pack.cpp:235-248 | each operation's outer type validates to that operation |
| Pack.GenericOperandFailsValidation | Plugins/MaxQ/Source/SpiceUncooked/Private/K2Node_pack.cpp:235-248 | a wildcard or default operand type is an operand type error |
| Pack.ResolvedOperandValidates | Plugins/MaxQ/Source/SpiceUncooked/Private/K2Node_pack.cpp:194-248 | once a supported concrete link has resolved the operand, validation succeeds with an operation whose outer type Is that link's type |
| Pack.RebuildRestoresOutputPinType | Plugins/MaxQ/Source/SpiceUncooked/Private/K2Node_pack.cpp:71-83 | rebuilding the pins from a resolved or generic operand gives the output pin the type resolution gave it |
| Pack.InputMovesExact | Plugins/MaxQ/Source/SpiceUncooked/Private/K2Node_pack.cpp:371-380 | input links go only to same-named pins of the primitive, and every input pin the primitive has a pin for gets its links moved |
| Pack.ExpansionShape | Plugins/MaxQ/Source/SpiceUncooked/Private/K2Node_pack.cpp:338-406 | operand type error exactly when validation fails, internal error when there is no output pin; otherwise all moves but the last are `InputMoves` of the input pins; the primitive, plus the operation's named conversion as the second call with the primitive's return value as its only wire (no wire without a conversion); the chosen operation's outer type is the operand, and the output links are moved last, onto the last call's return value |
| Pack.DistanceVectorExpansion | Plugins/MaxQ/Source/SpiceUncooked/Private/K2Node_pack.cpp:384-403 | a distance vector operand expands to vpack_vector feeding the dimensionless-to-distance conversion, which receives the output links |
| Pack.OutputPinTypeFor | Plugins/MaxQ/Source/SpiceUncooked/Private/K2Node_pack.cpp:71-83 | the output pin is allocated as a wildcard or with the operand's own pin type, never without a category |
| Pack.PackNode.constructor | Plugins/MaxQ/Source/SpiceUncooked/Private/K2Node_pack.cpp:30-88 | default values are six zeros; the output pin takes the operand type when fixed and is a wildcard otherwise; six real input pins are shown exactly when they have a label |
| Pack.PackNode.IsConnectionDisallowed | Plugins/MaxQ/Source/SpiceUncooked/Private/K2Node_pack.cpp:101-146 | inputs admit only wildcard, double or real; a fixed output admits what its operand Matches or a wildcard; a wildcard output of a generic node admits a wildcard or what some supported type Matches; all else is refused |
| Pack.PackNode.RefreshOperand | Plugins/MaxQ/Source/SpiceUncooked/Private/K2Node_pack.cpp:285-336 | labels are the struct's labels or the first three input names; exactly the labelled pins are shown and renamed; the flag reports whether any hidden flag flipped |
| Pack.PackNode.NodeConnectionListChanged | Plugins/MaxQ/Source/SpiceUncooked/Private/K2Node_pack.cpp:154-210 | without an output pin nothing changes; otherwise the operand and the output pin type become `ResolvedOperand` and `ResolvedOutputPinType` of the old output links, and the inputs are refreshed for the new operand |
| Pack.PackNode.CheckForErrors | Plugins/MaxQ/Source/SpiceUncooked/Private/K2Node_pack.cpp:235-248 | error exactly when no operation's outer type equals the cached operand type; otherwise the first such operation |
| Pack.PackNode.CollectInputMoves | Plugins/MaxQ/Source/SpiceUncooked/Private/K2Node_pack.cpp:371-380 | the input-pin moves are exactly `InputMoves` of the node's input pins |
| Pack.PackNode.BreakAllNodeLinks | Plugins/MaxQ/Source/SpiceUncooked/Private/K2Node_pack.cpp:348 | every pin loses its links and nothing else changes |
| Pack.PackNode.ExpandNode | Plugins/MaxQ/Source/SpiceUncooked/Private/K2Node_pack.cpp:338-406 | the outcome is `Expansion` of the old operand, input pins and output pin, on the error paths too, and all links are severed |
| Pack.AdmittedLinkResolves | Plugins/MaxQ/Source/SpiceUncooked/Private/K2Node_pack.cpp:128-141 | when Matches is no broader than Is, a concrete type that a generic node's wildcard output admits resolves the operand to a type that Is it, and that operand validates |

## Left out

- Tooltips, refusal reasons, titles, menu entries, icons and colours are not modelled. They are display text only.
- `PinTypeChanged`, the graph-changed notifications, `ForceVisualizationCacheClear`, `MarkBlueprintAsStructurallyModified` and the compiler message log are left out: they are editor side effects. Pack's `RefreshOperand` returns its visibility flag instead of notifying.
- `Serialize`, `PostLoad`, `PostPasteNode`, `ReconstructNode` and `ReallocatePinsDuringReconstruction` only call the base class and are not modelled. Pack's rebuild from a stored operand type is the `PackNode` constructor's `savedOperand`.
- Unorm.UnormNode.constructor: models a new node only. Allocating pins for a saved node whose operation is already resolved (K2Node_unorm.cpp:80-88) is not modelled.
- The constructors' reflection checks (`CheckClass`, `FindFunctionByName`) are not modelled. They assert facts about the engine's reflected functions.
- Default values of the input pins are not modelled: they are zeros printed with `SanitizeFloat`. `MovePinLinksOrCopyDefaults` is modelled as moving links only.
- Pack.TypesFromOperations: the body of `OperationType::GetTypesFromOperations` is not part of this model. The model takes it as each outer type once, de-duplicated in first-seen order. `Pack.RegistryShape` proves that on this registry the result is the plain list of outer types in registry order, so nothing else in the model depends on the de-duplication.
- `FK2Type::Matches` and `FK2Type::GetTypePinLabels` are not part of this model. They are parameters: `matches` of every admission test, and `pinLabelsOf` of `PackNode`.
- `BreakAllNodeLinks` is an engine routine that is not part of this model. It is modelled as clearing every pin's links and changing nothing else.
- Links are modelled as snapshots of the linked pins' types, held in each pin's `linkedTo`, which the host keeps current. The aliasing by which the source reads a linked pin's type live is not modelled. So `NotifyConnectionChanged` requires the changed pin's new type to be among its pin's links already.
- K2Utilities (`SetPinType`, `SetPinTypeToWildcard`) is not part of this model. They are modelled as giving the pin exactly the operand's type, or the wildcard type.
- `FK2Type`'s equality operator is not part of this model. It is taken to be equality of all four descriptor fields.
- The USpiceK2 declarations are not part of this model. Their names are stand-ins:
  - `unorm_vector`, `vpack_vector` and `vpack_state_vector` are written as those strings;
  - `unorm_vector_input`, `unorm_vector_output_mag` and `unorm_vector_output_direction` are written as "v", "vmag" and "vout";
  - `conv_input` is written as "value";
  - `vpack_inputs` is written as `x y z dx dy dz`, so `vpack_inputs_n` is six.
- The `FK2Conversion` and `FK2Type` factories are not part of this model. The conversion names ("Conv_" followed by the two type names) and the type names ("wildcard", "double", the struct names) are invented. The model only compares them with None and with each other.
- Which input pins a spawned primitive has is a parameter of pack expansion (`hasPin`). So are the engine's spawning, wiring and link moving: they are recorded as a `CallGraph` rather than performed.
- Pack validation uses the operand type cached by `NodeConnectionListChanged`, not a fresh scan of the links, and resolution reads only the output pin's links. The code does this and the model follows it.
- Unorm's `NodeConnectionListChanged` tests `vmag` against the entry's vector type (K2Node_unorm.cpp:208), where the scalar type was evidently meant. The model keeps the test as written and proves that the rewrite happens anyway: `vmag` only ever carries a wildcard or a scalar type.
- The SPICE utilities and the vector tests belong to the numeric library, not to the node dispatch, and are not modelled.
