# go-vitotrol attribute registry in Dafny

This project models the attribute registry of go-vitotrol, a Go client for
the Viessmann Vitotrol™ web service. The registry maps each 16-bit attribute
ID to a descriptor. A descriptor holds a value type, access rights, a name,
documentation and a custom flag. Two indexes are derived from the registry:
`AttributesNames2IDs` (name to ID) and `Attributes` (the list of all IDs).
`AddAttributeRef` stores a caller-supplied descriptor with its custom flag
forced on, and then rebuilds both indexes from the whole registry.

Modules:

- `Access` (`access.dfy`): the two-bit access-rights flags and their label
  table `AccessToStr`. Go's `uint8` is an integer newtype below 256. The
  bitwise operators are applied through `bv8`.
- `Vitodata` (`vitodata.dfy`): the value type of an attribute, kept opaque.
  An enumeration carries only its labels.
- `Attributes` (`attributes.dfy`): descriptors, the registry, the two index
  builders, `AddAttributeRef`, and the lemmas relating them.
- `Catalogue` (`catalogue.dfy`): the 43 built-in attributes and package
  initialisation.
- `CatalogueSize` (`catalogue_size.dfy`): the catalogue's parts share no key,
  so it holds exactly 43 entries.
- `Values` (`values.dfy`): a timestamped value and its numeric reading.

Go leaves the iteration order of a map unspecified. The two index builders
therefore pick the next key nondeterministically (`:|`), so their contracts
hold for every order. The indexes are specified by what they must contain:
- `IsNameIndex`: the index is defined on exactly the registry's names, and
  each name maps to a key carrying it.
- `IsAttributeList`: every key appears exactly once.

`NamesWalk` is the name index that a walk in a given order builds: each
visit stores the key under its name, so the key visited last wins a shared
name. `ComputeNames2IDs` also returns, as a ghost, the order it took, and its
result is that order's walk. Every walk order builds the same index exactly
when names are unique (`WalksAgreeIffUnique`). With a shared name, each of
the colliding keys wins under some order (`OrderVisitingLast`).

The package-level globals are a value `State(refs, names2IDs, attributes)`.
`AddAttributeRef` is a method from one state to the next.

The catalogue keeps the names as they are written. Every entry is named after
its ID constant except `BetriebsartM2`, whose name is
`"konf_betriebsart_rw-0x005e"`. All 43 names are still distinct. The
on/off enumerations keep the code's German labels, `"Aus"` and `"Ein"`.

## Model

| member | source | states |
|---|---|---|
| Access.FlagLaws | attributes.go:64-68 | ReadOnly is 1, WriteOnly is 2, ReadWrite is their union 3; the two single flags share no bit and each is contained in ReadWrite |
| Access.AccessToStrDomain | attributes.go:71-75 | the label table is defined on exactly the three non-empty two-bit flag sets: ReadOnly, WriteOnly and ReadWrite, nothing else |
| Access.AccessLabelsDistinct | attributes.go:71-75 | two access values in the label table have the same label if and only if they are equal |
| Access.AccessLabel | attributes.go:89 | looking an access value up in the label table yields a non-empty label exactly for the three flag sets, and Go's zero value "" for anything else |
| Attributes.Insert | attributes.go:434-436 | the registry update keeps every other key's descriptor, adds the ID to the key set, and stores the given descriptor, differing only in custom being true |
| Attributes.ComputeNames2IDs | attributes.go:442-448 | for any walk order, the result is defined on exactly the registry's names and maps each name to a key whose descriptor carries that name; it is the last-visit-wins walk over the order taken, which lists every key once |
| Attributes.ComputeAttributes | attributes.go:450-456 | for any walk order, the result lists every registry key exactly once and nothing else, so its length is the registry size |
| Attributes.AddAttributeRef | attributes.go:429-440 | adds or silently replaces the descriptor with custom forced on; other keys are unchanged; both indexes are again exact projections; the name index is the walk of some order over the new registry; the list grows by one only for a new ID; the new name maps to the ID when no other key carries it, and otherwise to the ID or to an older key carrying the name |
| Attributes.AttributeListLength | attributes.go:450-456 | any duplicate-free list of all keys has exactly as many entries as the registry |
| Attributes.AttributeListsArePermutations | attributes.go:450-456 | two lists of all IDs of one registry are permutations of each other: only the order depends on the walk |
| Attributes.NamesWalkContents | attributes.go:442-448 | a walk stores exactly the names of the keys it visits, each against a visited key carrying that name |
| Attributes.WalkIsNameIndex | attributes.go:442-448 | a walk over any order listing each key once builds a valid name index |
| Attributes.LastVisitWins | attributes.go:444-446 | whatever was visited before, the key visited last owns its name in the walk's index |
| Attributes.OrderVisitingLast | attributes.go:442-448 | every key has a walk order over the registry that lists each key once, visits that key last, and whose index resolves that key's name to it |
| Attributes.IndexPreferring | attributes.go:442-448 | for any key, the index built by a walk visiting the key last is a valid name index resolving the key's name to the key |
| Attributes.NameIndexInvertsUniqueNames | attributes.go:442-448 | when names are unique, the name index sends every key's name back to that key |
| Attributes.NameIndexDeterminedIffUnique | attributes.go:442-448 | all name indexes of a registry coincide if and only if its names are unique |
| Attributes.WalksAgreeIffUnique | attributes.go:442-448 | every walk order builds the same name index if and only if the registry's names are unique |
| Attributes.WalksAgreeWhenUnique | attributes.go:442-448 | with unique names, two walks over the same registry build the same index |
| Attributes.WalksDisagreeOnSharedName | attributes.go:442-448 | two keys sharing a name give two walk orders, each listing every key once, whose indexes differ |
| Attributes.InsertNamesUnique | attributes.go:434-436 | after an addition, names are unique if and only if the untouched keys had unique names and none of them carries the new name |
| Attributes.InsertOverwrites | attributes.go:429-436 | adding twice under one ID leaves only the second descriptor (no check against overriding) |
| Attributes.InsertCommutes | attributes.go:434-436 | additions under different IDs commute |
| Attributes.PatchedNameIndex | attributes.go:438-448 | with unique names, patching the old name index (drop the replaced name, point the new name at the ID) gives a valid name index of the new registry |
| Attributes.RebuildMatchesPatch | attributes.go:434-456 | with unique names, the full rebuild equals the incremental patch of the old name index, and the new ID list is the old one plus the ID if it is new, up to order |
| Attributes.AddMayResolveToOlderKey | attributes.go:438-448 | when an older key already carries the added name, some walk order over the updated registry resolves the name to that older key, so the added ID is guaranteed to win the name only when the name is new |
| Attributes.AddAllKeysAndCustom | attributes.go:429-436 | after any sequence of additions, the keys are the old keys plus the added IDs; a descriptor is custom exactly when its ID was added or it was custom before; IDs never added keep their descriptors |
| Catalogue.SeedWellFormed | attributes.go:93-427 | the built-in catalogue has pairwise distinct names, does not use the error sentinel 0xffff as a key, and marks no entry custom |
| CatalogueSize.SeedSize | attributes.go:93-427 | the catalogue holds exactly 43 entries: the five parts it is written as have pairwise disjoint keys, so no entry is lost in their union |
| Catalogue.Build | attributes.go:458-463 | for a registry with unique names and without the sentinel key, the derived state is consistent, the name index is the exact inverse of the name projection, and neither index mentions the sentinel |
| Catalogue.Init | attributes.go:458-463 | package initialisation over the catalogue gives a consistent state whose name index sends every built-in name to its own ID, and the sentinel is in neither index |
| Catalogue.CustomExactlyWhenAdded | attributes.go:429-436 | starting from the catalogue, after any sequence of additions an attribute is custom exactly when it was added, and the keys are the built-in IDs plus the added ones |
| Values.Num | attributes.go:471-476 | the parser's error is discarded: a malformed value reads as 0, an out-of-range value as an infinity, and otherwise the parsed number is returned |
| Values.MalformedReadsAsZero | attributes.go:471-476 | a malformed value and the text "0" give the same reading, zero, for any parser that reads "0" as zero: non-numeric and zero values cannot be told apart |

## Left out

- `AttrRef.String` (attributes.go:87-90): string formatting. Only its access-label lookup is modelled, as `Access.AccessLabel`.
- Parsing and formatting of `VitodataType` values, and `NewEnum`: they live in a file that is not part of this model. The type is opaque, and an enumeration keeps its labels.
- Float parsing (`strconv.ParseFloat`): it is a parameter of `Values.Num`, constrained only by its documented outcomes. IEEE 754 arithmetic and rounding are not modelled.
- `Value.Time`: its type is defined in a file that is not part of this model, so it is a type parameter.
- Concurrency: the globals are updated without locking, and the two index rebuilds are separate steps. The model treats `AddAttributeRef` as one atomic transition.
- Pointer aliasing: the registry stores `*AttrRef`, and callers could mutate a stored descriptor through a retained pointer. The model stores descriptors by value.
- Values.Num: the doc comment of `Num` promises 0 for any non-numeric value. The code also returns ±Inf for an out-of-range value, and the model follows the code.
