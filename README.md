# kvdi authorization core in Dafny

This project models two small authorization cores of kvdi and proves properties of both.

- **The RBAC `Rule`** (`apis/rbac/v1/rules.go`). A rule holds four string lists: verbs, resource types, resource-name patterns and namespaces. The model covers:
  - `IsEmpty`;
  - the three exact-or-wildcard scans `HasVerb`, `HasResourceType` and `HasNamespace`;
  - the regex scan `MatchesResourceName`, which skips patterns that fail to compile;
  - the structural equality `DeepEqual`, which sorts copies of the four fields and compares them element by element through `strSliceEqual`.

  Module `Rules` is in `rules.dfy`. Module `StringOrder` is in `string_order.dfy`. It holds Go's string order and a specification of `sort.Strings`: the result is sorted and is a permutation of the input.
- **The `RoleGrant` capability mask** (`pkg/util/grants/grants.go`). It has eight single-bit grants, their union `All`, the any-bit test `Has` and `Names`, which returns the names of the set bits in bit order. Module `Grants` is in `grants.dfy`.

Each Go loop is a method with loop invariants:
- the scans (rules.go:119-173);
- `strSliceEqual` (rules.go:92-117);
- the counting loop of `Names` (grants.go:38-42).

Each such method is proved against a predicate or function that says what it decides:
- `Admits`: the dimension lists the value itself or its wildcard;
- `SomePatternMatches`: some pattern both compiles and matches;
- `SameFields`: all four fields are equal as multisets;
- `NamesOf`: the names selected from the flag bits.

Lemmas about those definitions state what rules.go and grants.go promise their callers.

Three things are parameters or fixed choices rather than modelled code:
- Go's `regexp` package is a parameter, `RegexEngine`, made of two total functions: `compiles(pattern)` and `matchString(pattern, name)`.
- The wildcards `VerbAll`, `ResourceAll` and `NamespaceAll` are the literal `"*"`. They are defined outside the modelled file, and the doc comments at rules.go:34, :37 and :53 give their value.
- `RoleGrant` is a `bv64`, because Go's `int` is 64 bits wide on the platforms kvdi targets.

`DeepEqual` compares sorted, non-deduplicated copies, so each field is compared as a multiset; `SameFieldsCountsDuplicates` proves that repeats matter. The doc comment at rules.go:65-66 speaks of `reflect.DeepEqual`, but the code compares through `strSliceEqual`.

## Model

| member | source | states |
|---|---|---|
| `Rules.IsEmpty` | apis/rbac/v1/rules.go:57-63 | A rule is empty exactly when it is the zero value, with all four lists empty |
| `Rules.HasVerb` | apis/rbac/v1/rules.go:119-130 | True iff `VerbAll` or the verb itself is in `Verbs`; early exit on either |
| `Rules.HasResourceType` | apis/rbac/v1/rules.go:132-143 | True iff `ResourceAll` or the resource itself is in `Resources` |
| `Rules.MatchesResourceName` | apis/rbac/v1/rules.go:145-160 | True iff some pattern both compiles and matches the name; patterns that do not compile are skipped |
| `Rules.HasNamespace` | apis/rbac/v1/rules.go:162-173 | True iff `NamespaceAll` or the namespace itself is in `Namespaces` |
| `Rules.StrSliceEqual` | apis/rbac/v1/rules.go:92-117 | The element-wise comparison is sequence equality; the second loop is unreachable |
| `Rules.DeepEqual` | apis/rbac/v1/rules.go:65-90 | True iff each of the four fields holds the same multiset of strings in both rules |
| `Rules.WildcardAdmitsEverything` | apis/rbac/v1/rules.go:120-130 | A list holding the wildcard admits every value, recognized or not |
| `Rules.EmptyDimensionAdmitsNothing` | apis/rbac/v1/rules.go:120-130 | An empty list admits no value |
| `Rules.EmptyPatternsMatchNothing` | apis/rbac/v1/rules.go:147-160 | An empty pattern list matches no name, whatever the regex engine does |
| `Rules.EmptyRuleMatchesNothing` | apis/rbac/v1/rules.go:57-63 | An empty rule grants no verb, resource type or namespace and matches no name |
| `Rules.SameElementsAdmitAlike` | apis/rbac/v1/rules.go:133-143 | Admission depends only on the multiset of a list, not on its order |
| `Rules.PatternOrderIrrelevant` | apis/rbac/v1/rules.go:147-160 | Reordering the patterns never changes whether a name matches |
| `Rules.InvalidPatternSkipped` | apis/rbac/v1/rules.go:148-154 | Inserting a pattern that does not compile anywhere in the list never changes the result |
| `Rules.OneValidOneInvalid` | apis/rbac/v1/rules.go:147-160 | With an invalid pattern followed by a valid one, a name matches iff the valid one matches it |
| `Rules.SameFieldsReflexive` | apis/rbac/v1/rules.go:67-90 | Every rule is DeepEqual to itself |
| `Rules.SameFieldsSymmetric` | apis/rbac/v1/rules.go:67-90 | DeepEqual is symmetric |
| `Rules.SameFieldsTransitive` | apis/rbac/v1/rules.go:67-90 | DeepEqual is transitive |
| `Rules.SameFieldsIgnoresOrder` | apis/rbac/v1/rules.go:76-84 | Reordering any of the four fields keeps the rule DeepEqual to the original |
| `Rules.SameFieldsCountsDuplicates` | apis/rbac/v1/rules.go:86-90 | `["read","read"]` and `["read"]` are not DeepEqual |
| `Rules.SameFieldsIsSyntactic` | apis/rbac/v1/rules.go:81-88 | Patterns `"a"` and `"b"` are not DeepEqual even when the engine gives them the same meaning |
| `Rules.SameFieldsDecideAlike` | apis/rbac/v1/rules.go:67-90 | Rules that are DeepEqual take the same verb, resource type, name and namespace decisions |
| `Rules.SameFieldsAsEmpty` | apis/rbac/v1/rules.go:58-63 | A rule is DeepEqual to the empty rule iff it is empty |
| `StringOrder.SortStrings` | apis/rbac/v1/rules.go:76-84 | The sorted copy is sorted in Go's string order and is a permutation of the input |
| `StringOrder.SortedUnique` | apis/rbac/v1/rules.go:86-89 | Two sorted sequences with the same multiset are equal |
| `StringOrder.SortedCopiesEqualIff` | apis/rbac/v1/rules.go:76-89 | The sorted copies are equal iff the inputs are equal as multisets |
| `Grants.Has` | pkg/util/grants/grants.go:34 | Has implies both masks are non-zero; a non-zero grant wholly contained in r is had |
| `Grants.HasMeansSharedGrant` | pkg/util/grants/grants.go:34 | On the named bits, `r.Has(g)` holds iff r and g share at least one declared grant: any overlap, not containment |
| `Grants.SharedGrantOfOverlap` | pkg/util/grants/grants.go:34 | When r has g on the named bits, some declared grant is had by both |
| `Grants.BitInBoth` | pkg/util/grants/grants.go:5-21 | A declared bit set in both r and g makes r overlap g within `All` |
| `Grants.HasMonotone` | pkg/util/grants/grants.go:34 | If a has x then a OR b and b OR a have x |
| `Grants.SingleGrantHasAll` | pkg/util/grants/grants.go:34 | Every single declared grant has `All`, and so does `All` |
| `Grants.CombinedGrants` | pkg/util/grants/grants.go:34 | `ReadUsers OR WriteUsers` has both grants and does not have `ReadRoles` |
| `Grants.DeclaredAreBits` | pkg/util/grants/grants.go:5-14 | The i-th declared constant is `1 << i` for i in 0..7 |
| `Grants.DeclaredDisjoint` | pkg/util/grants/grants.go:5-14 | The eight constants are pairwise disjoint |
| `Grants.AllIsLowByte` | pkg/util/grants/grants.go:16-21 | `All` is 255 and contains every declared grant |
| `Grants.GrantNamesDistinct` | pkg/util/grants/grants.go:23-32 | The eight names are pairwise different |
| `Grants.Names` | pkg/util/grants/grants.go:36-44 | Returns the names selected by bits 0..7 in bit order: a name is listed iff `r` has its grant, and there is one name per set bit |
| `Grants.FlagsAreShiftTests` | pkg/util/grants/grants.go:39 | The bit flag for i is the test `r&(1<<uint(i)) != 0` |
| `Grants.FlagsAreHas` | pkg/util/grants/grants.go:39 | The bit flag for i is `r.Has` of the i-th declared grant |
| `Grants.NamesOfListsHadGrants` | pkg/util/grants/grants.go:36-44 | `r.Names()` lists a name iff `r` has its grant, and has one name per set bit among bits 0..7 |
| `Grants.SelectedMembership` | pkg/util/grants/grants.go:37-43 | After i steps of the loop, a name is in the result iff its index is below i and its bit is set |
| `Grants.SelectedLength` | pkg/util/grants/grants.go:37-43 | After i steps of the loop, the result has one name per set bit below i |
| `Grants.SelectedPrefix` | pkg/util/grants/grants.go:37-43 | The result after fewer steps is a prefix of the result after more steps (the loop only appends) |
| `Grants.NamesInBitOrder` | pkg/util/grants/grants.go:36-44 | Of two set bits, the lower one's name comes first in `Names()` |
| `Grants.NamesIgnoreHighBits` | pkg/util/grants/grants.go:38-39 | Bits above 7 do not change `Names()` |
| `Grants.SelectedNoneAndEvery` | pkg/util/grants/grants.go:37-43 | No set flags select nothing; all set flags select the names in order |
| `Grants.NamesOfNoneAndAll` | pkg/util/grants/grants.go:23-44 | `Names(0)` is empty and `Names(All)` is `grantNames` |
| `Grants.NamesIgnoreUnionOrder` | pkg/util/grants/grants.go:36-44 | `(a OR b).Names()` equals `(b OR a).Names()` |
| `Grants.NamesOfReadWriteUsers` | pkg/util/grants/grants.go:36-44 | `ReadUsers OR WriteUsers`, in either order, yields `["ReadUsers", "WriteUsers"]` |

## Left out

- Go's `regexp` engine is not modelled. `MatchesResourceName` takes it as the `RegexEngine` parameter, so every property holds whatever the engine does.
- `sort.Strings` is specified rather than reproduced. `SortStrings` is an insertion sort, and its contract says the result is sorted and a permutation of the input. DeepEqual's result does not depend on the algorithm, because a sorted permutation is unique (`SortedUnique`).
- Strings are compared by code point, which gives the same order as Go's byte-wise comparison of their UTF-8 encodings. A Go string is an arbitrary byte sequence, and one that is not valid UTF-8 has no counterpart in a Dafny `string`. No modelled decision depends on this: the scans and `strSliceEqual` use equality only, and the order used for sorting does not change `DeepEqual`'s result, because sorted permutations of equal multisets are equal (`SortedUnique`).
- `DeepCopy`, `verbsToStrings` and `resourcesToStrings` are defined outside rules.go (`DeepCopy` is generated code). `DeepCopy` is modelled as a value copy. The two conversions are the identity, since `Verb` and `Resource` are Go string types.
- `Rule` is an immutable value, so "DeepEqual does not modify its receiver or argument" holds by construction. The model does not show what slice aliasing would do if the copies were left out.
- Go distinguishes nil slices from empty ones. Every modelled function looks only at the length, so both are the empty sequence here. This covers the result of `Names` too: with none of bits 0..7 set it returns a nil slice (grants.go:37, :43), which JSON encodes as `null` rather than `[]`; the model returns the empty sequence.
- Every `Rule` method has a pointer receiver (rules.go:58, :67, :120, :133, :147, :163), so a call on a nil `*Rule` panics. The model takes the rule as a value and has no nil case.
- Aggregating rules across roles, looking up Role and RoleBinding, and the per-request authorization decision are not in the modelled files, so nothing is claimed about them.
- pkg/api/desktop_sesssions.go is HTTP, Kubernetes client and DNS plumbing, so it is not part of this model. It uses `grants.WriteDesktopSessions`, which grants.go does not define, so the model does not define it either.
- JSON tags and `omitempty` serialization are not modelled.
- `RoleGrant` is 64 bits wide. A build for a 32-bit platform would use a 32-bit `int`. Bits 0..7 and every property proved here are the same at either width.
