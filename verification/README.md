# mrustc: expansion pass and supporting structures, verified in Dafny

mrustc compiles Rust with a C++ program. This project models the parts of it that rewrite or read
programs before type checking, and proves what they are for:

* the desugaring visitor of the expansion pass (`if let` and `while let` chains, `for`, `try`, `?`,
  `do yeet`, destructuring assignment), against an evaluator for the language with and without the sugar;
* the code that `#[derive]` generates for comparisons, hashing and serialization, against an evaluator
  for that code;
* the interned strings and their sorted blocks, the loader of crates, the item loop with its guard
  against macro recursion, the evaluator of `cfg` conditions and the loop that resolves `cfg_attr`;
* the parsers of `format_args!` and `asm!` templates with what writes such templates, and the string
  escaper.

Code that changes things step by step is modelled by classes and methods with loops, proved against
functions; the functions carry the lemmas. `dafny verify dfyconfig.toml` checks everything.

## The modules

| module | models |
|---|---|
| `Ast`, `Semantics` | expressions, patterns and values; a big-step evaluator with fuel for loops and closure calls. The outside world is an arbitrary function of the history of calls, so equal histories mean the same calls in the same order |
| `Lowering`, `Expander` | the desugaring as functions, and as the visitor that carries it out |
| `Assignment`, `Preservation`, `Inventory`, `Desugaring`, `Refusal` | what assignees take apart; the simulation; the loops and closures that an expression holds; what follows of whole programs; which programs are refused |
| `DeriveCode`, `DeriveCompare`, `DeriveHash`, `DeriveSerial` | type definitions, generated code and its evaluator; the derived methods |
| `Interner` | `RcString`, `TieredSet` and the cache of ranks |
| `CrateLoader` | `load_extern_crate` over a map of crate files |
| `ItemLoop`, `ItemPasses` | the item loop of `Expand_Mod` over an arbitrary macro expander; the passes that `Expand` makes of it |
| `FormatArgs`, `FormatText`, `FormatRoundTrip`, `FormatNumbering`, `FormatParser`, `FormatArguments` | the format-string parser as functions and as the scanner it is; how format strings are written and what they mean; the arguments |
| `Cfg`, `CfgAttr` | `cfg` conditions on token streams; the in-place `cfg_attr` loop |
| `AsmTemplate` | the template parser of `asm!`, and the printer of lines |
| `Escaper`, `Utf8`, `Decimal`, `Sequences`, `Wrappers` | the escaper; encodings of characters and numbers; helpers |

The main theorem on desugaring is `Desugaring.ProgramPreserved`: take the bodies of a program and lower each of
them, take the closures that the program holds and those that its lowered form holds, and run both. At every fuel
each lowered body ends as the source body does, in the same bindings and with the same history of calls; inside of
`try` blocks (`Desugaring.ExpressionPreserved`) a residual has become the `break` that carries it out of the
innermost one, and outside of any it is a `return`, from a closure no further than the closure. So conditions of
a chain are run left to right and at most once, bindings of earlier ones are seen by later ones and by the true body
only, iterators and right sides are run once, and all parts of a value are bound before the first place is written,
because that is what the evaluator says of the source and the histories are equal. Running out of fuel agrees as
well, so the one runs for ever exactly if the other does. The proof is a simulation (`Preservation.Sim`) for any two
tables of closures of which one holds the lowered code of the other, and a structural induction (`Inventory.Carry`)
that these are the closures that the pass leaves behind.

Where the code and what is said about it disagree, the code is followed:

* The header of the `cfg` evaluator calls a list of conditions `all()`; the code combines it as `any()`
  does (`Cfg.StreamIsAny`).
* `{:x?}` and `{:X?}` are recognised, but the parser does not step over them: `?}` becomes text
  (`FormatRoundTrip.HexDebugLeavesText`); the round trip holds exactly without them.
* A precision of `.*` is recognised, but its star is not stepped over, so that every such fragment is an
  error (`FormatNumbering.StarPrecisionFails`); `{:.*}` with two arguments is one
  (`FormatNumbering.StarWithArguments`), and no string that is parsed has such a fragment
  (`FormatNumbering.ParseNumbers`).
* The printer of `asm!` lines doubles `{` but not `}`, and writes a modifier as it is; its round trip holds
  exactly without `}` in the text and without backslash and quote as a modifier (`AsmTemplate.RoundTrip`).
* The short name of a crate is its real name up to the first `-`, but without a `-` it is the name that was
  asked for (`CrateLoader.ShortName`).
* The derived `encode` drops the results of encoding the fields and answers `Ok`
  (`DeriveSerial.AnswerOfFields`, and `DeriveSerial.FailureHidden` for an instance), where `decode` has a `?`
  after every read.

## Model

| member | source | states |
|---|---|---|
| Desugaring.ProgramPreserved | src/expand/mod.cpp:946-1712 | with the closures of the lowered program for those of the program, every lowered body ends as the source body does at every fuel, with equal bindings and equal history of calls; residuals leave the function, or the closure they arise in, by `return` |
| Desugaring.ExpressionPreserved | src/expand/mod.cpp:946-1688 | the same of every expression below any stack of `try` blocks: a residual is the `break` to the innermost label |
| Preservation.SimIfLet | src/expand/mod.cpp:1375-1419 | an `if let` chain and the block labelled `#iflet` agree: one of the two bodies is run, the conditions left to right up to the first that fails; the one label, reused at every depth, reaches no other block |
| Preservation.SimChain | src/expand/mod.cpp:1281-1311 | the nested matches and ifs made from a chain run the body below the bindings of all conditions, or what was put for failure |
| Preservation.SimWhile | src/expand/mod.cpp:1313-1340 | `while let` and its loop agree for every number of turns; `break` and `continue` in the body, labelled or not, hit the same loop |
| Preservation.SimFor | src/expand/mod.cpp:1215-1279 | `for` and its match over a loop agree; the iterator expression is run once, outside of the loop |
| Preservation.SimForLoop | src/expand/mod.cpp:1237-1277 | turn by turn, the made-up variable `it` holds the iterator and the body neither sees nor changes it |
| Preservation.SimTry | src/expand/mod.cpp:946-974 | a `try` block and its loop agree: the body is run once and never again, and its value goes through `Result::Ok` in the old library interface and through `Try::from_output` in the new one |
| Preservation.SimQMark | src/expand/mod.cpp:1582-1686 | `?` agrees with its match in both library interfaces, the old one with `From` and the new one with residuals |
| Preservation.SimFlow | src/expand/mod.cpp:1001-1027 | `do yeet` leaves the innermost `try` block, or the function, with the residual of its value; `break`, `continue` and `return` stay |
| Preservation.SimAssign | src/expand/mod.cpp:1034-1201 | destructuring assignment and its block of one `let` and single assignments agree, for every nesting of tuples, arrays, structs, `_` and `..` |
| Preservation.SimStore | src/expand/mod.cpp:1188-1199 | writing the temporaries one after the other stores the value as the assignee says: left to right, place expressions run as they are reached |
| Inventory.Carry | src/expand/mod.cpp:1426-1435 | the closures that a lowered expression holds are those of the source, in order, with their parameters and with their code lowered outside of any `try` block, whatever stack is around them; nothing else makes or loses a closure |
| Desugaring.ClosuresCarried | src/expand/mod.cpp:1689-1712 | the same of the bodies of a program, each visited by a visitor of its own |
| Desugaring.TablesRelated | src/expand/mod.cpp:1426-1435 | so what closures run in the lowered program is what they ran in the source, lowered |
| Desugaring.ProgramsHaveTables | src/expand/mod.cpp:1426-1435 | such closures can be looked up on both sides: lowering neither renames nor doubles one |
| Desugaring.OnlyResidualsJump | src/expand/mod.cpp:1018-1027 | a lowered expression ends in a jump to a made-up label exactly if the source ends in a residual inside of a `try` block, and the jump is to the innermost one; no other generated `break` escapes |
| Desugaring.TryBlockEnds | src/expand/mod.cpp:946-974 | a lowered `try` block ends in a last call, of `Result::Ok` or `Try::from_output` by library interface, with the value of its body, or in its first residual; other jumps pass through it |
| Desugaring.TryBlockSpelled | src/expand/mod.cpp:957-971 | the node that replaces a `try` block, written out: the labelled loop and the `break` with the call of either function |
| Desugaring.TryNumbersDistinct | src/expand/mod.cpp:954-957 | each number handed out for a `#try` label names one loop of the result, and no others are used |
| Desugaring.SinglePlaceUnchanged | src/expand/mod.cpp:1180-1199 | an assignment stays as it is exactly if its left side is a single place or cannot be assigned to |
| Desugaring.TemporariesMatchPlaces | src/expand/mod.cpp:1076-1083 | the temporaries in the pattern stand in the order of the places, one for each |
| Desugaring.TemporariesOnce | src/expand/mod.cpp:1076-1083 | no two temporaries of an assignment have the same name |
| Assignment.AssigneesAreTaken | src/expand/mod.cpp:1044-1179 | turning a left side into a pattern succeeds exactly on what may be assigned to |
| Assignment.PatternTakes | src/expand/mod.cpp:1117-1168 | the pattern matches exactly the values that fit the left side, and binds their parts to the temporaries in order |
| Expander.ToPattern.Pattern | src/expand/mod.cpp:1044-1179 | the pattern visitor yields the pattern and appends the places in order, and fails exactly on what is no assignee |
| Expander.ToPattern.TuplePattern | src/expand/mod.cpp:1146-1168 | the loop over a tuple moves what it has to the start when it meets `..`, and refuses a second one |
| Expander.DesugarLetChain | src/expand/mod.cpp:1281-1311 | the loop from the last condition to the first builds the chain |
| Expander.MakeStores | src/expand/mod.cpp:1189-1199 | one assignment for each temporary, in order |
| Expander.Visitor.Visit | src/expand/mod.cpp:737-777 | visiting a node yields its lowered form and the next label number; the stack of labels is as before and its labels are distinct; errors are reported exactly for what is rejected |
| Refusal.RefusedExactly | src/expand/mod.cpp:1084-1107 | those errors are reported exactly if anywhere in the program, closures and left sides included, something is assigned to that is neither a place nor `_` nor a tuple, array or struct of such |
| Expander.Visitor.VisitTry | src/expand/mod.cpp:946-974 | the label is on the stack during the visit of the body and off it afterwards |
| Expander.Visitor.VisitClosure | src/expand/mod.cpp:1426-1435 | the stack is empty inside of a closure and restored after it |
| Expander.Visitor.VisitAssign | src/expand/mod.cpp:1034-1201 | visits the left side, then the value, and replaces the node unless the left side is a single place |
| Expander.Visitor.VisitIfLet | src/expand/mod.cpp:1375-1419 | visits conditions, true body and false body in this order and replaces the node by the labelled block |
| Expander.Visitor.VisitWhileLet | src/expand/mod.cpp:1313-1340 | visits conditions and body and replaces the node by the loop |
| Expander.Visitor.VisitFor | src/expand/mod.cpp:1215-1279 | visits iterator and body and replaces the node by the match |
| Expander.Visitor.VisitFlow | src/expand/mod.cpp:1001-1027 | visits the value, and replaces `do yeet` only |
| DeriveCode.MakeRefpatA | src/expand/derive.cpp:104-137 | one binding by reference and one node for each field, in order |
| DeriveCode.MakeRefpatAB | src/expand/derive.cpp:138-177 | the same on two sides at once |
| DeriveCode.VariantMatches | src/expand/derive.cpp:633-672 | the pattern of a variant matches the values of that variant and no others, and binds every field, by position or by name |
| DeriveCode.BindingsNeverCollide | src/expand/derive.cpp:138-177 | bindings of the two sides differ from each other, from those of other fields and from the names of arguments |
| DeriveCompare.HandleStruct | src/expand/derive.cpp:611-624 | one comparison for each field in order, then the answer for equal values |
| DeriveCompare.HandleEnum | src/expand/derive.cpp:627-705 | one arm for each variant in order, then the arm for values of different variants |
| DeriveCompare.CompareDecides | src/expand/derive.cpp:731-738 | one comparison returns early exactly if the fields decide, with what they decide (for the three traits) |
| DeriveCompare.ComparisonMeans | src/expand/derive.cpp:597-706 | the generated `eq`, `partial_cmp` and `cmp`, for every definition and all values: lexicographic in the fields within a variant, by discriminants across variants; nothing is written or read |
| DeriveCompare.EqIsStructural | src/expand/derive.cpp:731-746 | `eq` is true exactly for the same variant with no field unequal |
| DeriveCompare.CmpIsTotalOrder | src/expand/derive.cpp:977-1013 | `cmp` is a total order if it is one on the fields of each type and the discriminants differ |
| DeriveCompare.EqualMeansEqExactly | src/expand/derive.cpp:1005-1013 | `cmp` answers `Equal` exactly for values that `eq` calls equal, if and only if no two variants have the same discriminant |
| DeriveCompare.PartialAgrees | src/expand/derive.cpp:779-823 | `partial_cmp` is `Some` of `cmp` if that holds of the fields |
| DeriveCompare.PartialIsFirstAnswer | src/expand/derive.cpp:779-807 | in general it is the first answer of a field that is not `Some(Equal)`, be it `None` |
| DeriveCompare.CmpIsFirstAnswer | src/expand/derive.cpp:977-1013 | a run of the generated `cmp` answers with the first answer of a field that is not `Equal` |
| DeriveCompare.VariantsCompared | src/expand/derive.cpp:813-823 | between two variants, runs of the three methods answer false, and by the order of the two discriminants as they are given |
| DeriveHash.HandleStruct | src/expand/derive.cpp:1389-1411 | one call for each field, in order |
| DeriveHash.HandleEnum | src/expand/derive.cpp:1413-1472 | the index of the variant goes before its fields, unless it is the only variant |
| DeriveHash.HashingMeans | src/expand/derive.cpp:1370-1472 | the hasher is fed the index, if there are other variants, and then the hashes of the fields in order |
| DeriveHash.HashesInOrder | src/expand/derive.cpp:1389-1472 | what a run feeds the hasher, token by token: the number of the variant exactly if there are two or more, then each field in the order of declaration |
| DeriveHash.EqualHashAlike | src/expand/derive.cpp:1389-1472 | values that `eq` calls equal feed the hasher the same sequence, if equal fields do |
| DeriveHash.HashTellsApart | src/expand/derive.cpp:1413-1472 | different values feed different sequences, whatever follows, if the hashes of the fields can be told apart: no field and no needed index is left out |
| DeriveSerial.EncodeStruct | src/expand/derive.cpp:1546-1604 | the calls of the encoder for a struct, with the names and indexes of its fields |
| DeriveSerial.EncodeEnum | src/expand/derive.cpp:1606-1702 | the calls of the encoder for each variant |
| DeriveSerial.DecodeShape | src/expand/derive.cpp:1786-1814 | each field is read in order by the call with its name or index, and the value is built of them |
| DeriveSerial.DecodeStruct | src/expand/derive.cpp:1781-1838 | the calls of the decoder for a struct; none for a unit struct |
| DeriveSerial.DecodeEnum | src/expand/derive.cpp:1840-1940 | the list of variant names, an arm for each index, and the arm for unknown ones |
| DeriveSerial.EncodingMeans | src/expand/derive.cpp:1546-1702 | what is written for every value of every definition; the answer is `Ok` whatever the fields answer |
| DeriveSerial.EncodedLog | src/expand/derive.cpp:1546-1702 | what a run of `encode` says to its encoder, said of the definition alone: the call for the type or variant with its name, index and length, then for each field the call with that field's own name or index and what the field writes |
| DeriveSerial.StructsSpelled | src/expand/derive.cpp:1546-1604 | the two methods made for a struct of any kind, written out node by node |
| DeriveSerial.EncodeArmsSpelled | src/expand/derive.cpp:1617-1688 | the arm of `encode` for a variant of any kind, written out |
| DeriveSerial.VariantsSpelled | src/expand/derive.cpp:1856-1900 | what `decode` builds for a variant of any kind, written out: each field is read under its own name or index and with its own type |
| DeriveSerial.EnumsSpelled | src/expand/derive.cpp:1840-1940 | the two methods made for an enum, around those |
| DeriveSerial.AnswerOfFields | src/expand/derive.cpp:1556-1582 | so the answer is that of the fields exactly if encoding every field succeeds |
| DeriveSerial.FailureHidden | src/expand/derive.cpp:1556-1582 | a struct with one field whose encoding fails, and the answer is `Ok` |
| DeriveSerial.DecodingMeans | src/expand/derive.cpp:1781-1940 | decoding what was written gives the value back and leaves what follows |
| DeriveSerial.LogDecoded | src/expand/derive.cpp:1781-1940 | whatever is written like that, with names, indexes and lengths said of the definition alone, is decoded to the value |
| DeriveSerial.RoundTrip | src/expand/derive.cpp:1546-1940 | decode after encode is the identity, for unit, tuple and named shapes and every variant, whether the serializer tells variants by name or by index |
| DeriveSerial.UnknownIndexRefused | src/expand/derive.cpp:1906-1913 | an index that no variant has is answered with the error, and nothing more is read |
| Interner.OrdIsLexicographic | src/rc_string.cpp:43-55 | `ord` is the byte-wise lexicographic order, and Equal means equal |
| Interner.TieredSet.BlockAfter | src/rc_string.cpp:129-132 | the binary search finds the first block that does not start before the string |
| Interner.TieredSet.SlotFor | src/rc_string.cpp:145-145 | the binary search in a block finds the first entry not before the string |
| Interner.TieredSet.Neighbours | src/rc_string.cpp:133-152 | the slot that the two searches find is where the string belongs in the whole |
| Interner.TieredSet.LookupOrAdd | src/rc_string.cpp:120-154 | the slot holds the string; the flag is true exactly if it was new; then it is the only entry that is added; the entries stay strictly increasing, blocks within 1024 and, once there are two, at least half full |
| Interner.TieredSet.InsertIntoBlock | src/rc_string.cpp:194-236 | splitting a full block loses and doubles nothing: the whole is what it was with one entry put in |
| Interner.StepPasses | src/rc_string.cpp:156-192 | the iterator meets the entries one by one, in order, and equals the end, in block and slot, exactly after the last one |
| Interner.Interner.NewInterned | src/rc_string.cpp:242-255 | the object for a string; a new one makes the ranks out of date, a known one changes nothing |
| Interner.Interner.RenewRanks | src/rc_string.cpp:261-265 | the walk up to the end position gives every entry its rank, counted from one |
| Interner.Interner.OrdInterned | src/rc_string.cpp:256-268 | comparing ranks is comparing bytes; ranks are valid afterwards |
| Interner.Run | src/rc_string.cpp:242-268 | over any interleaving: equal strings get the same object and different ones different objects, and every comparison is the byte-wise one |
| CrateLoader.Crate.LoadExternCrate | src/ast/crate.cpp:275-330 | ends on every finite set of crate files, with cycles too. On success the name is the one in the file that was found; whatever is new is the crate of a file that is reached, with the dependencies that the file has, and every file that gives a crate is good; the order holds every loaded crate once and with all its dependencies, and is topological exactly if there is no cycle. It fails only if over crates that are not loaded yet a file is reached that is missing or another crate than it should be; where no crate is reached under two files, exactly then |
| CrateLoader.TrailLoaded | src/ast/crate.cpp:275-304 | after a load that has worked, every file on a way over crates that were not loaded is there, and is the crate it should be |
| CrateLoader.ShortName | src/ast/crate.cpp:333-350 | the short name is the real name up to its first `-`, or without one the name that was asked for |
| CrateLoader.Crate.Load | src/ast/crate.cpp:275-306 | the same at every depth of the recursion, with the crates that are under way: the crate that is stored is the one of the file, and an error is that of a broken file |
| CrateLoader.Crate.LoadDeps | src/ast/crate.cpp:292-304 | every dependency is loaded afterwards; an error is that of a dependency that was not loaded and did not load, or turned out to be another crate |
| CrateLoader.Crate.List | src/ast/crate.cpp:305-312 | the crate goes on the list after its dependencies, and the first `core` is remembered |
| CrateLoader.TopologicalMeansAcyclic | src/ast/crate.cpp:305-306 | no graph with a cycle has a topological order, so the order is one exactly for acyclic graphs |
| CrateLoader.FirstShortIsFirst | src/ast/crate.cpp:308-312 | the name that is remembered for `core` is that of the first crate on the list with that short name |
| ItemLoop.Module.ExpandItems | src/expand/mod.cpp:1944-2101 | the loop that splices into the list it walks visits the items in the depth-first order of expansion, for every expander; at each item the height of the guard stack is the number of expansions it came out of. Afterwards the list is what was visited, in order, with exactly those invocations marked that this pass has expanded, and the items before are as they were; the two flags say whether something was expanded and whether something was deferred. If nothing that is unmarked can be expanded, no item changes and none is added |
| ItemLoop.SettledStays | src/expand/mod.cpp:2068-2100 | a pass over a list of which nothing can be expanded visits each item once and leaves the list alone, expanded invocations included |
| ItemLoop.UnmarkedWasDeferred | src/expand/mod.cpp:2094-2098 | what is unmarked after a pass is exactly what the pass has deferred |
| ItemLoop.Module.PopEnded | src/expand/mod.cpp:1953-1958 | markers are taken off exactly where the expansions end |
| ItemLoop.Module.Splice | src/expand/mod.cpp:2081-2092 | new items come right after the invocation, which is marked as expanded, nothing else changes, and the markers of outer expansions stay at their items |
| ItemLoop.EndingHere | src/expand/mod.cpp:1955-1955 | comparing the address on top of the stack tells whether the innermost expansion ends here |
| ItemLoop.DepthBounded | src/expand/mod.cpp:2063-2065 | no item is visited deeper than 201, one above the limit, and the error is about an invocation there: so the loop ends for every expander |
| ItemLoop.EndlessRecursionStops | src/expand/mod.cpp:2063-2065 | an invocation that expands to itself for ever ends in the error after one visit at each depth, which are 202 from the top |
| ItemPasses.Expand | src/expand/mod.cpp:2615-2635 | one pass, up to five more for as long as each has expanded something and left something, and a last one: in the end every invocation is expanded, or the last pass has come upon an unknown macro, or some pass went too deep; on a list of expanded invocations it changes nothing, whatever macros there are |
| ItemPasses.ExpandedStays | src/expand/mod.cpp:2068-2068 | once everything is expanded no number of passes changes anything |
| ItemPasses.PassCompletes | src/expand/mod.cpp:2632-2635 | a pass leaves every invocation expanded exactly if it has deferred none |
| FormatRoundTrip.ScalarRead | src/expand/format_args.cpp:128-191 | decoding inverts the encoding of section 3 of RFC 3629, for every scalar value |
| FormatRoundTrip.FragMeans | src/expand/format_args.cpp:265-508 | a fragment that is written out is read as what it means: argument, fill, alignment, sign, `#`, zero, width, precision and type |
| FormatRoundTrip.ParseWritten | src/expand/format_args.cpp:228-518 | any list of fragments and literal texts: the parser yields what they mean, but that `x?` and `X?` leave `?}` in the text after them |
| FormatRoundTrip.RoundTrip | src/expand/format_args.cpp:228-518 | parsing what was written gives back what was meant, or the same error, exactly if there is no `x?` or `X?` |
| FormatRoundTrip.HexDebugLeavesText | src/expand/format_args.cpp:480-487 | the text after `{:x?}` is `?}` |
| FormatRoundTrip.PositionWraps | src/expand/format_args.cpp:270-280 | a position of any size is that of its low 32 bits, or an error if these are out of range |
| FormatRoundTrip.TypesTaken | src/expand/format_args.cpp:461-476 | a type of one character is accepted exactly if it is one of eight |
| FormatRoundTrip.LongTypesTaken | src/expand/format_args.cpp:477-490 | of longer types `x?` and `X?` are accepted and no others |
| FormatRoundTrip.JunkRefused | src/expand/format_args.cpp:493-499 | after the name of an argument anything but a colon and a closing brace is an error, the end of the string included |
| FormatRoundTrip.NoPrecisionRefused | src/expand/format_args.cpp:444-447 | after a point there must be a digit, a letter or a star |
| FormatRoundTrip.LoneBrace | src/expand/format_args.cpp:234-242 | a closing brace that is not doubled is read as one that is |
| FormatNumbering.StarPrecisionFails | src/expand/format_args.cpp:396-407 | a fragment with `.*` is always an error, however many arguments there are |
| FormatNumbering.StarWithArguments | src/expand/format_args.cpp:400-407 | `{:.*}` with two free arguments is an error |
| FormatNumbering.GetNamedOnce | src/expand/format_args.cpp:211-226 | a known name keeps its place, a new one is appended once, and asking again changes nothing |
| FormatNumbering.FragNumber | src/expand/format_args.cpp:265-508 | of any fragment: its argument, and its width and precision if they are given by name, stand for what is named; fixed and numbered ones are as written |
| FormatNumbering.ParseNumbers | src/expand/format_args.cpp:196-519 | over every string: names and named arguments stay inverse to each other, arguments that were given stay where they are, and in the final table every fragment, width and precision has the argument that its name says, below the number of arguments |
| FormatNumbering.WrittenArguments | src/expand/format_args.cpp:211-226 | the parser on any string that is written out of fragments: fragment j, its width and its precision have the arguments that they name in the final table, and the k-th fragment that names none takes free argument k |
| FormatNumbering.NamedWidth | src/expand/format_args.cpp:375-389 | a width by name is the number, after the free arguments, of the argument of that name in the final table |
| FormatParser.Parser.GetNamedArg | src/expand/format_args.cpp:211-226 | looks the name up and appends it if it is new |
| FormatParser.Parser.AlignPart | src/expand/format_args.cpp:299-324 | reads a fill character only if an alignment follows it |
| FormatParser.Parser.CountPart | src/expand/format_args.cpp:356-395 | a number or a name before `$`; a name that no `$` follows is put back |
| FormatParser.Parser.FragPart | src/expand/format_args.cpp:250-514 | the scanner reads one fragment as the function on texts does, with the same errors |
| FormatParser.Parser.ParseFormatString | src/expand/format_args.cpp:196-519 | the scanner reads the whole string as the function does |
| FormatArguments.CollectArguments | src/expand/format_args.cpp:586-622 | the loop over the arguments gives names their places in order and counts the others; it fails exactly if a name is given twice |
| FormatArguments.ExpandArguments | src/expand/format_args.cpp:586-627 | arguments and format string together: the parser starts from the table of the given names, these keep their places, and every fragment, width and precision has the argument that it says |
| Cfg.CheckTokens | src/expand/cfg.cpp:46-147 | on the tokens of any condition, with any commas, the evaluator yields its truth and leaves exactly what follows: the lists never stop early |
| Cfg.ValueDecides | src/expand/cfg.cpp:66-99 | `name = "value"` holds exactly if that pair is configured, or no pair of the name is and its callback accepts the value |
| Cfg.FlagDecides | src/expand/cfg.cpp:138-146 | a bare name holds exactly if any pair of the name is configured, or the name is as a flag |
| Cfg.UnknownFunction | src/expand/cfg.cpp:100-136 | `cfg(..)` is run like `any(..)`, and any other name but `all` and `not` before a parenthesis is an error |
| Cfg.NoStringRefused | src/expand/cfg.cpp:66-79 | anything but a string after `=` is an error |
| Cfg.NoCloseRefused | src/expand/cfg.cpp:103-131 | a list or `not` that is not closed after a condition is an error |
| Cfg.StreamIsAny | src/expand/cfg.cpp:149-162 | the list after `cfg` holds if any of its conditions does |
| Cfg.DeMorgan | src/expand/cfg.cpp:100-131 | `not(any(..))` and `all(not(..), ..)` are run to the same answer, and so are their duals |
| Cfg.CheckCfg | src/expand/cfg.cpp:46-60 | the evaluator on a stream takes the tokens that the function takes, and yields its answer or an error as it does |
| Cfg.CheckCfgNamed | src/expand/cfg.cpp:61-147 | the same after the name: value, function or flag |
| Cfg.CheckCfgList | src/expand/cfg.cpp:103-131 | the loop over a list runs every condition in it |
| Cfg.CheckCfgStream | src/expand/cfg.cpp:149-162 | the loop over the outermost list does too |
| CfgAttr.AttributeList.ExpandCfgAttr | src/expand/mod.cpp:239-253 | the loop that erases and inserts as it goes ends on any nesting, with the flattened list, in which no `cfg_attr` is left |
| CfgAttr.FlattenPlain | src/expand/mod.cpp:239-253 | flattening leaves no condition at any depth |
| CfgAttr.FlattenAgain | src/expand/mod.cpp:239-253 | a second run changes nothing |
| CfgAttr.ConditionDecides | src/expand/cfg.cpp:180-201 | a `cfg_attr` is replaced by its attributes, in order, if its condition holds and dropped if not |
| AsmTemplate.WrittenMeans | src/expand/asm.cpp:452-533 | a template that is written out is read as what it means: texts, indexes, modifiers and the text at the end |
| AsmTemplate.EmptyInOrder | src/expand/asm.cpp:487-493 | empty placeholders take the parameters in order |
| AsmTemplate.LinesMean | src/expand/asm.cpp:445-534 | the count goes on from line to line |
| AsmTemplate.IndexesInRange | src/expand/asm.cpp:487-506 | on any text, every index that is accepted is that of a parameter |
| AsmTemplate.AllIndexesInRange | src/expand/asm.cpp:445-534 | the same of all lines of one `asm!`, whatever their texts, with the count carried on |
| AsmTemplate.NumberAccepted | src/expand/asm.cpp:494-499 | a number of any size, with anything but a digit after it: beyond 64 bits it is an error, and below it is accepted exactly if what is left of it in 32 bits is the index of a parameter |
| AsmTemplate.RoundTrip | src/ast/expr.cpp:155-183 | any line of ASCII text, printed, taken as the string literal that it looks like and parsed, is as it was exactly if its texts hold no `}` and no NUL and no modifier is a backslash or a quote |
| AsmTemplate.SimpleRoundTrip | src/ast/expr.cpp:155-183 | of printable text without backslash and quote the same holds without reading a literal |
| AsmTemplate.LineLiteral | src/ast/expr.cpp:155-183 | as a string literal, a printed line is its texts with opening braces doubled and its placeholders |
| AsmTemplate.ControlForms | src/ast/expr.cpp:164-167 | control characters are printed as two upper-case hexadecimal digits |
| AsmTemplate.TemplateParser.ReadLine | src/expand/asm.cpp:452-533 | the scanner reads a line as the function does |
| AsmTemplate.TemplateParser.ReadLines | src/expand/asm.cpp:445-534 | the scanner reads all lines as the function does, with the same errors |
| AsmTemplate.Output.PutText | src/ast/expr.cpp:155-169 | the printer writes text character by character |
| AsmTemplate.Output.PutLine | src/ast/expr.cpp:171-183 | the printer writes a line between quotes |
| Escaper.RoundTrip | src/debug.cpp:152-200 | unescaping gives back every well-formed text of section 3 of RFC 3629 |
| Escaper.RoundTripExactly | src/debug.cpp:152-200 | on any bytes: they are got back exactly if they are well-formed text |
| Escaper.AsciiForm | src/debug.cpp:157-171 | the four escapes of one character, the hexadecimal ones of control characters, and all other ASCII characters as they are |
| Escaper.PrintableStays | src/debug.cpp:163-171 | printable text without backslash and quote is written as it is |
| Escaper.SequenceForm | src/debug.cpp:174-195 | a sequence of two, three or four bytes is written as the number that its bits carry, whether or not it is the shortest |
| Escaper.CutDropped | src/debug.cpp:174-195 | a sequence that is cut short is dropped and what cuts it short is kept |
| Escaper.StrayDropped | src/debug.cpp:172-173 | bytes that start no sequence are dropped |
| Escaper.FmtEscaped | src/debug.cpp:152-200 | the loop writes the escaped form of any bytes; every turn moves on, and the terminator is never passed |
| Escaper.StepTail | src/debug.cpp:174-194 | stepping over continuation bytes stops before the first byte that is none |

## Left out

Of the modelled files:

- The desugaring rebuilds nodes instead of moving them in place; aliasing of nodes is not modelled.
- Match guards, or-patterns, bindings by reference, range expressions, compound assignment, plain `while`,
  `let`-`else`, types, `async` and `const` blocks, `asm!` and macros in expressions: the visitor hands them on
  or they belong to other passes. `in_assign_lhs` concerns range expressions only and is left out with them, so
  an assignment inside of an index of a left side is lowered like any other.
- Closures capture by copying what is in scope. A closure is told from others by an identity that stands for the
  node itself.
- `do yeet` without a value: the source makes a call with a missing argument; it is outside of the model.
- A second `..` in a tuple, a struct base and a sized array on a left side stop the source with an internal
  error; here they are errors like others. Errors are remembered in a field, where the source stops at once.
- Name resolution and lowering, which let an unlabelled `break` or `continue` pass through a `#try` loop, are
  not part of this model; the evaluator does what the note at src/expand/mod.cpp:953 asks of them.
- `#[derive]` of `Debug`, `Eq`, `Clone`, `Copy` and `Default`, unions, generic parameters, bounds and the
  impl around the method; explicit discriminants are taken as given and their distinctness is a condition of
  the theorems that need it.
- Derived code meets its hasher, encoder and decoder without naming them; a decoder is one that checks the
  call it is given against the call that was written.
- The interner takes a block's capacity as exactly 1024 and ranks as unbounded; reference counts and
  comparison with C strings are left out.
- The search for crate files is a map from name and file name to what is found; errors end the load. Of the
  three names remembered by short name only `core` is modelled, since the others are alike.
- Only macro invocations add items to the item loop; nested modules have loops of their own, and derives,
  extern blocks and preludes add items elsewhere. What a macro expands to is an arbitrary function of the
  pass and of the visits in it so far.
- ItemPasses.Expand: passes over one module; the last pass reports an unknown macro when it is over, where the
  source stops at the first one.
- The tokens that `format_args!` puts out, the choice between simple and general output, and the overflow of
  `n_free` plus an index; numeric `N$` is not checked against the number of arguments by the source either.
  A lead byte of 0xF8 or more, where the source throws, is an error. Character classes are those of the C locale.
- `cfg` reads its tables as sets and maps; the parser of a nested attribute is not part of this model, so a
  `cfg_attr` holds its attributes already parsed.
- Printing an `asm!` line with bytes above ASCII, for which the source indexes with a negative number.

Of the repository: lexer and parser, name resolution, type checking, MIR, code generation, proc macros, target
specifications, command line, the printer of whole programs, attribute handlers without a body, and file access.
