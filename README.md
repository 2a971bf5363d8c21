# PMD: type variables, database pseudo file names, data-flow lookup

A Dafny model of three small pieces of PMD, the static-analysis engine:

- **`JTypeVar`** (module `TypeVars`, `type_vars.dfy`): the contract of a Java type
  variable. A variable is either a *declared* type parameter (a symbol, a name, an
  upper bound) or a *capture variable* produced by capture conversion (no symbol,
  the wildcard it came from, a lower and an upper bound, reference identity).
  Capture identity is an explicit `id`. Types are a small `TypeMirror` datatype.
  A type mentions a variable by its substitution key (`SubstVar`), so an F-bound
  such as `T extends Comparable<T>` is a finite value. A substitution is a total
  function from keys to types; it maps a variable it leaves alone to `Var(v)`.
  `cloneWithBounds` and `withUpperBound` return a new type variable; `substInBounds`
  returns the variable itself when no bound changes and a new one otherwise. For a
  capture variable, a new instance's identity is supplied by the caller as `newId`,
  which stands for allocation.
- **`SourceObject`** (module `DatabaseSource`, `source_object.dfy`): a database
  object with four mutable, nullable string fields (`schema`, `name`, `type`,
  `revision`), modelled as a class. `getPseudoFileName` builds
  `/Database/<schema>/<type>/<name><suffix>` step by step. The suffix comes from a
  case-insensitive switch over the object type. A null field prints as `null`, as
  Java's `StringBuilder.append` does. The field `type` is called `objectType`
  because `type` is a Dafny keyword.
- **`DataFlowNode.get`** (module `DataFlow`, `data_flow.dfy`): the data-flow entry of
  an AST node, or of its nearest ancestor that has one. The AST is a parent map plus
  the map of data-flow entries held in the nodes' user data. A depth map, which
  falls from child to parent, stands for the acyclicity of the parent relation.

`wrappers.dfy` holds `Option` (a nullable reference) and `Result` (value or thrown
exception).

## Model

| member | source | states |
|---|---|---|
| `TypeVars.Symbol` | pmd-java/src/main/java/net/sourceforge/pmd/lang/java/types/JTypeVar.java:41-46 | the symbol is null exactly when the variable is a capture variable; a declared parameter's symbol is its substitution key |
| `TypeVars.CapturedOrigin` | pmd-java/src/main/java/net/sourceforge/pmd/lang/java/types/JTypeVar.java:93-97 | the captured origin is non-null exactly for capture variables, so exactly one of symbol and origin is null |
| `TypeVars.IsCaptured` | pmd-java/src/main/java/net/sourceforge/pmd/lang/java/types/JTypeVar.java:80-85 | a variable is a capture variable exactly when it is keyed by its instance identity rather than by a symbol |
| `TypeVars.IsCaptureOf` | pmd-java/src/main/java/net/sourceforge/pmd/lang/java/types/JTypeVar.java:88-91 | `isCaptureOf(w)` holds exactly when the variable is a capture variable whose origin is `w` |
| `TypeVars.UpperBound` | pmd-java/src/main/java/net/sourceforge/pmd/lang/java/types/JTypeVar.java:57-69 | every type variable, of either sort, has an upper bound, which may be an intersection type |
| `TypeVars.LowerBound` | pmd-java/src/main/java/net/sourceforge/pmd/lang/java/types/JTypeVar.java:72-77 | a lower bound other than the bottom type (NULL_TYPE) occurs only on a capture variable; a declared parameter has only an upper bound |
| `TypeVars.Name` | pmd-java/src/main/java/net/sourceforge/pmd/lang/java/types/JTypeVar.java:49-54 | the name of a declared parameter is its symbol's name; the autogenerated name of a capture variable is never empty |
| `TypeVars.Equals` | pmd-java/src/main/java/net/sourceforge/pmd/lang/java/types/JTypeVar.java:35-36 | two type variables are equal exactly when their substitution keys are: the same symbol for declared parameters, the same instance for capture variables (line 83), never one of each |
| `TypeVars.EqualityBySort` | pmd-java/src/main/java/net/sourceforge/pmd/lang/java/types/JTypeVar.java:35-36 | equality is equality of substitution keys: two declared parameters with one symbol are equal whatever their bounds, and two distinct capture instances are unequal whatever their bounds (reference identity, line 83) |
| `TypeVars.Subst` | pmd-java/src/main/java/net/sourceforge/pmd/lang/java/types/JTypeVar.java:106 | a type that is a mention of a variable is replaced by what the substitution maps it to; any other type keeps its outer shape: the same class with as many type arguments, an array, a wildcard of the same kind, an intersection of as many components |
| `TypeVars.SubstFreeVars` | pmd-java/src/main/java/net/sourceforge/pmd/lang/java/types/JTypeVar.java:106 | every mention is rewritten, however deeply nested: the variables mentioned by the result are exactly those mentioned by the replacements of the variables of the input |
| `TypeVars.SubstIdentity` | pmd-java/src/main/java/net/sourceforge/pmd/lang/java/types/JTypeVar.java:105-110 | a substitution that leaves every variable mentioned in a type alone gives back that very type |
| `TypeVars.SubstInBounds` | pmd-java/src/main/java/net/sourceforge/pmd/lang/java/types/JTypeVar.java:105-110 | the bounds become the substituted bounds; symbol and origin are kept, so the variable itself is never replaced; unchanged bounds give back the same variable; otherwise a capture variable becomes a new instance, unequal to the old one when `newId` differs from its identity, and a declared parameter stays equal to the old one |
| `TypeVars.SubstInBoundsNoOp` | pmd-java/src/main/java/net/sourceforge/pmd/lang/java/types/JTypeVar.java:105-110 | a substitution that touches no variable of either bound returns the very same variable |
| `TypeVars.FBoundedSubstInBounds` | pmd-java/src/main/java/net/sourceforge/pmd/lang/java/types/JTypeVar.java:31-33 | for `T extends Comparable<T>`, substituting for T in the bounds rewrites the mention inside the bound and keeps T itself |
| `TypeVars.CloneWithBounds` | pmd-java/src/main/java/net/sourceforge/pmd/lang/java/types/JTypeVar.java:112-115 | fails with UnsupportedOperation exactly when the variable is not a capture variable; otherwise it returns a new capture of the same wildcard with exactly the given bounds, unequal to the old one when `newId` differs from its identity |
| `TypeVars.WithUpperBound` | pmd-java/src/main/java/net/sourceforge/pmd/lang/java/types/JTypeVar.java:117-125 | the result has exactly the new upper bound, the same lower bound, and the same symbol or capture origin; a declared parameter stays equal (same symbol, same name), a capture becomes a new instance, unequal to the old one when `newId` differs from its identity |
| `TypeVars.AcceptVisitor` | pmd-java/src/main/java/net/sourceforge/pmd/lang/java/types/JTypeVar.java:100-103 | visiting a type variable is a call of the visitor's `visitTypeVar(this, p)` |
| `TypeVars.AcceptVisitorDispatch` | pmd-java/src/main/java/net/sourceforge/pmd/lang/java/types/JTypeVar.java:100-103 | `acceptVisitor` calls `visitTypeVar(this, p)` and no other case of the visitor: for a fixed `visitTypeVar`, its result does not depend on the visitor's other cases |
| `TypeVars.StreamMethods` | pmd-java/src/main/java/net/sourceforge/pmd/lang/java/types/JTypeVar.java:130-136 | the methods of a type variable are the methods enumerated on its upper bound with the same prefilter |
| `TypeVars.StreamMethodsByUpperBound` | pmd-java/src/main/java/net/sourceforge/pmd/lang/java/types/JTypeVar.java:130-136 | the methods of a type variable are those of its upper bound, so variables with the same upper bound have the same methods |
| `TypeVars.StreamMethodsWithUpperBound` | pmd-java/src/main/java/net/sourceforge/pmd/lang/java/types/JTypeVar.java:130-136 | after `withUpperBound(ub)`, method lookup is lookup on `ub` |
| `DatabaseSource.AsciiUpper` | pmd-core/src/main/java/net/sourceforge/pmd/util/database/SourceObject.java:51 | upper-casing keeps the length and upper-cases each character on its own |
| `DatabaseSource.SuffixOfUpper` | pmd-core/src/main/java/net/sourceforge/pmd/util/database/SourceObject.java:51-79 | the switch over the upper-cased type gives a non-empty suffix exactly for the eight table entries, and for each the table's suffix |
| `DatabaseSource.SuffixFromType` | pmd-core/src/main/java/net/sourceforge/pmd/util/database/SourceObject.java:48-82 | the suffix is one of nine fixed strings, is empty for a null or empty type, and never holds a '/' |
| `DatabaseSource.SuffixFollowsTable` | pmd-core/src/main/java/net/sourceforge/pmd/util/database/SourceObject.java:51-79 | the switch equals the table JAVA_SOURCE .java, TRIGGER .trg, FUNCTION .fnc, PROCEDURE .prc, PACKAGE_BODY .pkb, PACKAGE .pks, TYPE_BODY .tpb, TYPE .tps, looked up by the upper-cased type; any other type gets the empty suffix |
| `DatabaseSource.SuffixIgnoresCase` | pmd-core/src/main/java/net/sourceforge/pmd/util/database/SourceObject.java:51 | a type and its upper-cased form get the same suffix |
| `DatabaseSource.SuffixDeterminesType` | pmd-core/src/main/java/net/sourceforge/pmd/util/database/SourceObject.java:52-75 | the table is one-to-one: two types with the same non-empty suffix are the same up to case, and the table read backwards gives that type |
| `DatabaseSource.SourceObject.constructor` | pmd-core/src/main/java/net/sourceforge/pmd/util/database/SourceObject.java:26-34 | a new object has all four fields null |
| `DatabaseSource.SourceObject.SetSchema` | pmd-core/src/main/java/net/sourceforge/pmd/util/database/SourceObject.java:31 | sets `schema` and changes no other field |
| `DatabaseSource.SourceObject.SetName` | pmd-core/src/main/java/net/sourceforge/pmd/util/database/SourceObject.java:32 | sets `name` and changes no other field |
| `DatabaseSource.SourceObject.SetType` | pmd-core/src/main/java/net/sourceforge/pmd/util/database/SourceObject.java:33 | sets `type` and changes no other field |
| `DatabaseSource.SourceObject.SetRevision` | pmd-core/src/main/java/net/sourceforge/pmd/util/database/SourceObject.java:34 | sets `revision` and changes no other field |
| `DatabaseSource.SourceObject.PseudoFileName` | pmd-core/src/main/java/net/sourceforge/pmd/util/database/SourceObject.java:36-46 | returns `"/Database/" + schema + "/" + type + "/" + name + suffix(type)` with nulls printed as "null", starts with "/Database/", and changes no field |
| `DatabaseSource.PseudoFileNameSegments` | pmd-core/src/main/java/net/sourceforge/pmd/util/database/SourceObject.java:36-46 | when schema, type and name hold no '/', the name splits on '/' into exactly "", "Database", schema, type, and name followed by the suffix |
| `DatabaseSource.PseudoFileNameInjective` | pmd-core/src/main/java/net/sourceforge/pmd/util/database/SourceObject.java:36-46 | objects whose schema, type and name hold no '/' and that print differently get different pseudo file names |
| `DataFlow.Ancestry` | pmd-core/src/main/java/net/sourceforge/pmd/lang/dfa/DataFlowNode.java:43-44 | the chain from the node through each parent link up to a node that has no parent |
| `DataFlow.Get` | pmd-core/src/main/java/net/sourceforge/pmd/lang/dfa/DataFlowNode.java:41-48 | a non-null result is the data-flow entry of some node; the walk terminates on an acyclic parent relation |
| `DataFlow.GetStep` | pmd-core/src/main/java/net/sourceforge/pmd/lang/dfa/DataFlowNode.java:42-47 | a node's own entry is returned; a node without one and with a parent gives its parent's result; a root without one gives null |
| `DataFlow.GetFindsNearestEntry` | pmd-core/src/main/java/net/sourceforge/pmd/lang/dfa/DataFlowNode.java:41-48 | the result is the entry of the nearest node on the ancestor-or-self chain that has one, with no closer one skipped; it is null exactly when no node on that chain has an entry |

## Left out

- Type annotations (`withAnnotations` and the annotation part of every derived variable) are not modelled.
- Method enumeration is the unconstrained parameter `methodsOf`, for every upper bound, including one that is itself a type variable; the stream, its laziness and `JMethodSig` are not modelled. So the chained delegation of `<T extends String, U extends T>`, where U's methods are T's and so String's, is not modelled, and neither is the endless delegation through mutually bounded variables (`<T extends X, X extends T>`), which the source leaves unguarded.
- TypeVars.SubstInBounds, TypeVars.WithUpperBound, TypeVars.CloneWithBounds: a new capture instance's bounds keep mentioning the old identity; a capture that occurs in its own bound is not renamed to the new instance, so for such a capture the sharing of one instance by all its occurrences (JTypeVar.java lines 31-33) is not promised. The class that implements capture variables is not part of this model.
- TypeVars.UpperBound: the default upper bound `Object` of a parameter declared without a bound is not modelled; the bound is whatever the variable was built with.
- Greatest lower bounds and capture conversion are only mentioned by the interface's documentation and are not modelled.
- `TypeMirror` is reduced to what bounds need: no enclosing types, erasure or subtyping. `Subst` rewrites mentions of variables only, as the substitution engine does.
- TypeVars.SubstInBounds, TypeVars.CloneWithBounds, TypeVars.WithUpperBound: a new capture instance's identity is the caller's `newId`; the model does not enforce that it is fresh, so the contracts promise a new instance unequal to the old one only when `newId` differs from the old identity.
- TypeVars.Name: the class that generates a capture variable's name is not part of this model. The model's "capture#" followed by the identity is a stand-in, and for a capture variable the contract states only that the name is non-empty.
- DatabaseSource.SuffixFromType: upper-cases ASCII letters only. Java's `toUpperCase(Locale.ROOT)` also maps some other characters to ASCII; for example, the dotless ı becomes I, so Java gives "trıgger" the suffix .trg while the model gives none.
- The Lombok-generated `equals`, `hashCode` and `toString` of `SourceObject`, and its unused logger, are not modelled. The generated getters are plain field reads.
- `DataFlowNode`'s other members (`addPathToChild`, `removePathToChild`, `reverseParentPathsTo`, `setType` and the accessors) have no bodies in the source and are not modelled.
- DataFlow.Get: an acyclic parent relation is assumed, through the depth map. On a cyclic parent relation the Java recursion would not terminate, and the model does not cover that case.
- `RendererFactory` is Java reflection and logging and is not part of this model.
