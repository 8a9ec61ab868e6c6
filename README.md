# A verified model of the SCons 0.96.93 build core

This project models the part of SCons 0.96.93 that decides what gets built
and with which command line. It covers:

- **Nodes** (`Node`, `NodeWalker`, `NodeExplain`). The dependency graph of a node:
  - sources, dependencies, implicit dependencies and ignored nodes, each kept as a list and a dictionary;
  - scanning, `--implicit-cache` reuse, `built()` and `clear()`;
  - the worklist search of `get_implicit_deps`;
  - the depth-first `Walker`, which yields every node after its children;
  - the `--debug=explain` list differences.
- **Substitution** (`SubstLex`, `Subst`, `SubstFacts`, `SubstList`, `SubstListFacts`). Construction-variable expansion:
  - the tokenisation of `$$`, `$(`, `$)`, `$name`, `${...}` and plain text;
  - `scons_subst`, which expands to a string;
  - `scons_subst_list`, which expands to a list of command lines of words;
  - the three modes (`SUBST_RAW`, `SUBST_CMD`, `SUBST_SIG`) and the stripping of `$(`…`$)` regions;
  - the recursion-limit error.
- **Environment** (`EnvFlags`, `EnvIxes`, `EnvMerge`, `Environment`). The construction-variable dictionary:
  - `ParseFlags`, `MergeFlags`, `AppendUnique` and `PrependUnique`;
  - `ReplaceIxes`;
  - the filtering of the reserved names `TARGET`, `TARGETS`, `SOURCE` and `SOURCES`;
  - the special-cased `BUILDERS` and `SCANNERS` entries;
  - the two-layer `OverrideEnvironment`.
- **Configuration** (`Conftest`, `SConf`, `BoolOption`, `PackageOption`):
  - Conftest's result bookkeeping (`_Have`, the `config.h` text) and the `CheckLib` loop;
  - SConf's cache decision for configure tests, the check context and its result messages;
  - the boolean and package options, with their converters and validators.
- **Tools** (`Tex`, `Jar`, `JavaH`, `LaTeXScanner`, `Debug`):
  - the TeX/LaTeX decision and the rerun loop;
  - the jar command-line generators;
  - the javah emitter and its class-path generator;
  - the LaTeX include scanner's naming and search order;
  - the file-name shortening and class selection of `SCons.Debug`.

The modules `Errors`, `Strings`, `Seqs` and `Values` are shared by the rest:

- the Python exceptions the code raises;
- Python string operations;
- sequence facts;
- the Python values held in construction variables.

Code that updates objects in place is modelled imperatively:

- `Node`, `Walker`, `ListSubber`, the SConf context, the environments and the javah nodes are classes whose methods change their fields.
- Loops are `while`/`for` loops with their invariants.
- Each such method is proved against a specifying function of the old state and its inputs.

Pure code is modelled as functions, and the properties are lemmas about those functions.

Collaborators that are not part of the model are parameters of the operations that use them:

- the executor;
- the signature calculator;
- file-system lookups;
- `eval` of `${...}` expressions;
- callables stored in variables;
- `SCons.Util.is_valid_construction_var`;
- the backtick command runner.

A bare `-D` in `ParseFlags` is modelled as written. Environment.py line 616
assigns the misspelled local `appencd_next_arg_to`, so the next word is not
taken as a define: it is read as a flag of its own.

## Model

| member | source | states |
|---|---|---|
| Node.AppendNewProps | src/scons-local-0.96.93/SCons/Node/__init__.py:830-845 | appending through the side dict keeps the old list as a prefix, adds exactly the batch's elements, never creates a duplicate, and leaves the list unchanged exactly when every element was already there |
| Node.FirstNonNode | src/scons-local-0.96.93/SCons/Node/__init__.py:835-837 | the first check loop finds no offender exactly when every element is a Node, and otherwise returns the first element that is not one, the one FirstBad points at |
| Node.FirstBad | src/scons-local-0.96.93/SCons/Node/__init__.py:835-837 | the index of the first element that is not a Node, with every element before it a Node, and -1 exactly when every element is a Node |
| Node.AppendChildren | src/scons-local-0.96.93/SCons/Node/__init__.py:838-845 | the append loop yields the AppendNew list, adds the batch to the side dict, reports an addition exactly when some element was new, and keeps list and dict in step |
| Node.ChildStateMax | src/scons-local-0.96.93/SCons/Node/__init__.py:923-929 | the children's maximum state is 0 when all are 0, otherwise one of the states and at least every other non-zero state |
| Node.UpToDateFromMax | src/scons-local-0.96.93/SCons/Node/__init__.py:65-70 | the maximum state is no_state or up_to_date exactly when the children count as up to date |
| Node.Node.constructor | src/scons-local-0.96.93/SCons/Node/__init__.py:172-216 | a new node has empty edge lists, is not yet scanned, has no state, no build info and no waiting parents |
| Node.Node.AddChild | src/scons-local-0.96.93/SCons/Node/__init__.py:830-845 | nothing is appended when some element is not a Node, and the first such element is reported; otherwise the new elements are appended in first-insertion order, and the executor is reset only when something was added |
| Node.Node.AddNodes | src/scons-local-0.96.93/SCons/Node/__init__.py:838-845 | the appending half adds the unseen nodes in order, resets the executor only when the list grew, and leaves the other three lists alone |
| Node.Node.AddSource | src/scons-local-0.96.93/SCons/Node/__init__.py:818-828 | a non-Node leaves the sources unchanged and yields the UserError naming this node, the first offending value and its type; otherwise the sources gain the new nodes |
| Node.Node.AddDependency | src/scons-local-0.96.93/SCons/Node/__init__.py:794-804 | a non-Node leaves the dependencies unchanged and yields the UserError naming this node, the first offending value and its type; otherwise the dependencies gain the new nodes |
| Node.Node.AddIgnore | src/scons-local-0.96.93/SCons/Node/__init__.py:806-816 | a non-Node leaves the ignore list unchanged and yields the UserError naming this node, the first offending value and its type; otherwise the ignore list gains the new nodes |
| Node.Node.AddToImplicit | src/scons-local-0.96.93/SCons/Node/__init__.py:517-522 | an unscanned node first gets an empty implicit list; the first non-Node escapes as TypeError naming it; otherwise the new implicit dependencies are appended |
| Node.Node.Scan | src/scons-local-0.96.93/SCons/Node/__init__.py:524-568 | a node that is already scanned is left alone; without a builder the implicit list ends empty; with one, the stored dependencies are reused under --implicit-cache when they are still valid, and otherwise the list is left empty for the executor's scan, which is not modelled |
| Node.Node.Clear | src/scons-local-0.96.93/SCons/Node/__init__.py:348-362 | clear drops the implicit list, build info, includes and found includes, resets the executor, and keeps the edge lists |
| Node.Node.Built | src/scons-local-0.96.93/SCons/Node/__init__.py:299-329 | every waiting parent loses its implicit list and build info and nothing else about it changes; the node itself is cleared, keeps its state, waiting parents, edge lists and flags, its executor is reset once, and build info it had before is kept with a recomputed content signature |
| Node.Node.ResetWaitingParents | src/scons-local-0.96.93/SCons/Node/__init__.py:303-306 | each waiting parent has its implicit list and build info reset, and nothing else about it changes |
| Node.Node.ClearAndStore | src/scons-local-0.96.93/SCons/Node/__init__.py:308-329 | the node is cleared with its edge lists, state, waiting parents and flags kept and its executor reset once; build info it held is stored again, with a recomputed content signature when it carried one |
| Node.Node.ResetScan | src/scons-local-0.96.93/SCons/Node/__init__.py:303-306 | one parent's implicit list and build info are reset, and nothing else about it changes |
| Node.Node.AddToWaitingParents | src/scons-local-0.96.93/SCons/Node/__init__.py:334-335 | the parent joins the set of waiting parents |
| Node.Node.ChildrenGet | src/scons-local-0.96.93/SCons/Node/__init__.py:884-889 | the children are the elements of all children that are not ignored, and every such element is among them |
| Node.Node.ChildrenOrder | src/scons-local-0.96.93/SCons/Node/__init__.py:879-889 | children() is the sources, the dependencies and the implicit dependencies, each with the ignored nodes filtered out, the order kept |
| Node.Node.Children | src/scons-local-0.96.93/SCons/Node/__init__.py:897-902 | children() scans the node first and then returns the filtered list |
| Node.Node.CalcSignature | src/scons-local-0.96.93/SCons/Node/__init__.py:612-629 | a derived node uses its build signature when the environment asks for it, and without a stored one gen_binfo scans the node first, leaving the implicit list ScannedImplicit gives; a node that does not exist has none; otherwise the content signature, reusing a cached value, with the implicit list untouched |
| Node.ScannedImplicit | src/scons-local-0.96.93/SCons/Node/__init__.py:524-568 | the implicit list a scan leaves: a scanned node keeps its list, and a fresh list repeats nothing and is non-empty only for a node with a builder under --implicit-cache, holding stored dependencies only |
| Node.Node.ChildrenAreUpToDate | src/scons-local-0.96.93/SCons/Node/__init__.py:915-930 | gen_binfo scans the node first, with the cache decision Scan states, and stores the new build info; then None when always_build is set, otherwise true exactly when every child counts as up to date, and the edge lists are unchanged |
| Node.StatesAreUpToDate | src/scons-local-0.96.93/SCons/Node/__init__.py:924-930 | the maximum-state test is true exactly when every state is no_state, or some is up_to_date and none is above it |
| Node.Node.KidsUpToDate | src/scons-local-0.96.93/SCons/Node/__init__.py:924-930 | the loop over the children finds them up to date exactly when every child's state is no_state or up_to_date |
| Node.Node.Prepare | src/scons-local-0.96.93/SCons/Node/__init__.py:776-788 | prepare raises the StopError naming the first missing source, the executor's missing sources before the missing dependencies and implicit dependencies, and nothing when none is missing |
| Node.MissingOf | src/scons-local-0.96.93/SCons/Node/__init__.py:769-788 | the missing filter keeps exactly the missing children, and its first element is the first missing child |
| Node.Unseen | src/scons-local-0.96.93/SCons/Node/__init__.py:468-475 | the filter keeps exactly the found includes not yet seen, in order, and keeps a duplicate-free list duplicate-free |
| Node.Recursed | src/scons-local-0.96.93/SCons/Node/__init__.py:476-481 | recurse_nodes keeps exactly the nodes whose own includes are scanned in turn |
| Node.QueuedDone | src/scons-local-0.96.93/SCons/Node/__init__.py:461-483 | when the worklist is empty, every include of the start node, and of every result the scanner recurses into, is in the result or is the start node |
| Node.GetImplicitDeps | src/scons-local-0.96.93/SCons/Node/__init__.py:454-483 | no scanner gives no dependencies; otherwise the result never contains the start node, holds only includes found along the way, is closed under the scanner's recursion, repeats nothing when the include lists repeat nothing, and the loop terminates on cyclic include graphs |
| NodeWalker.Walker.constructor | src/scons-local-0.96.93/SCons/Node/__init__.py:1130-1139 | a new walk has the root alone on the stack, with its children as the pending list, and the root alone in the history |
| NodeWalker.Walker.Next | src/scons-local-0.96.93/SCons/Node/__init__.py:1141-1169 | next() returns None exactly when the stack is empty; otherwise it returns a node not on the remaining stack, after all of its children that do not close a cycle; it passes the parent to eval_func, reports each child already on the stack to cycle_func without pushing it, and keeps the history equal to the set of nodes on the stack |
| NodeWalker.Descend | src/scons-local-0.96.93/SCons/Node/__init__.py:1148-1158 | the descent pops pending children off the top frame, reports the ones in the history as cycles and pushes the others, until the top frame has no children left |
| NodeWalker.PopStep | src/scons-local-0.96.93/SCons/Node/__init__.py:1159-1168 | a popped node has every child on the remaining stack, equal to itself, or returned since it was pushed |
| NodeExplain.Dictify | src/scons-local-0.96.93/SCons/Node/__init__.py:1017-1019 | dictify writes every zipped kid into the dictionary and keeps the keys already there |
| NodeExplain.DictifyAppend | src/scons-local-0.96.93/SCons/Node/__init__.py:1017-1019 | a pair added at the end overrides whatever its kid held before |
| NodeExplain.RemovedLines | src/scons-local-0.96.93/SCons/Node/__init__.py:1049-1053 | one "no longer a dependency" line per old kid missing from the new kids, and none when every old kid is still there |
| NodeExplain.ChangedLines | src/scons-local-0.96.93/SCons/Node/__init__.py:1055-1059 | a new kid gets a "new dependency" line and a kid whose signature differs a "changed" line; a kid in both lists without a signature in either dictionary is the KeyError of the lookup |
| NodeExplain.Report | src/scons-local-0.96.93/SCons/Node/__init__.py:1080-1088 | no line means "for unknown reasons", a single line follows the preamble on the same line, and several lines come after it |
| NodeExplain.Fallbacks | src/scons-local-0.96.93/SCons/Node/__init__.py:1061-1078 | with no kid reported, a change of order and then a change of the action is reported, and nothing only when kids and action signature agree |
| NodeExplain.Explain | src/scons-local-0.96.93/SCons/Node/__init__.py:1008-1088 | a missing node is built because it does not exist; no stored info gives None; info without kid lists gives the "No previous build information" message; otherwise the report of the lines |
| NodeExplain.LinesReportEveryChange | src/scons-local-0.96.93/SCons/Node/__init__.py:1047-1059 | every removed, added and changed kid is reported |
| NodeExplain.ExplainSameRecord | src/scons-local-0.96.93/SCons/Node/__init__.py:1080-1081 | a rebuild with the very same record is reported as for unknown reasons |
| NodeExplain.ExplainOneNewDependency | src/scons-local-0.96.93/SCons/Node/__init__.py:1055-1085 | a single implicit dependency added since the last build is reported alone, as a new dependency |
| NodeExplain.ChangedLinesOneNew | src/scons-local-0.96.93/SCons/Node/__init__.py:1055-1059 | kids with agreeing signatures followed by one new kid produce only that kid's line |
| SubstLex.DollarLen | src/scons-local-0.96.93/SCons/Subst.py:318 | the dollar expression at the head of a string: `$$`, `$(` and `$)` are two characters, `$name` runs over name characters, `${...}` ends at the first closing brace, and anything else is no match |
| SubstLex.TokenLen | src/scons-local-0.96.93/SCons/Subst.py:320 | the next `_separate_args` token of a non-empty string is at least one character long and lies within the string |
| SubstLex.Tokens | src/scons-local-0.96.93/SCons/Subst.py:320 | `_separate_args.findall` yields no empty token |
| SubstLex.TokensConcat | src/scons-local-0.96.93/SCons/Subst.py:320 | the tokens put back together give the string: findall loses no character of the argument |
| SubstLex.FirstTokenShape | src/scons-local-0.96.93/SCons/Subst.py:320 | the first token is a dollar expression, a whitespace run, a run of text without `$` or white space, or a lone `$` |
| SubstLex.TokenKinds | src/scons-local-0.96.93/SCons/Subst.py:320 | every token has one of those four shapes |
| SubstLex.TokensNoDollar | src/scons-local-0.96.93/SCons/Subst.py:320 | a string without `$` splits into tokens none of which holds a `$` |
| Subst.Conv | src/scons-local-0.96.93/SCons/Subst.py:43-45 | conversion by mode: a string is itself, a node proxy is its str(), or its for_signature() in SIG mode |
| Subst.MaskedName | src/scons-local-0.96.93/SCons/Subst.py:410-412 | the name masked during re-expansion is the part of the key before its first dot: a prefix of the key without a dot, the key itself when it has none |
| Subst.Unbrace | src/scons-local-0.96.93/SCons/Subst.py:376-377 | the braced key is the token without its first and last characters |
| Subst.Substitute | src/scons-local-0.96.93/SCons/Subst.py:436-464 | substituting a string gives a string |
| SubstFacts.TargetOrSourceStrIsExpansion | src/scons-local-0.96.93/SCons/Subst.py:229-233 | in RAW mode `$TARGET` and `$SOURCE` substitute to str() of the first node, and to '' without nodes |
| Subst.RemoveMarkers | src/scons-local-0.96.93/SCons/Subst.py:291 | removing the `$(` and `$)` markers never lengthens a string |
| Subst.SigScan | src/scons-local-0.96.93/SCons/Subst.py:292 | the span `_remove` consumes after a `$(` ends with `$)` and lies within the text |
| Subst.RemoveSig | src/scons-local-0.96.93/SCons/Subst.py:292 | removing `$( ... $)` spans never lengthens a string |
| Subst.CollapseSpaces | src/scons-local-0.96.93/SCons/Subst.py:324 | `_space_sep.sub(' ', s)` is empty only for the empty string and keeps a leading character that is not blank |
| Subst.QuoteSpacesQuotesBlanks | src/scons-local-0.96.93/SCons/Subst.py:98-104 | exactly the arguments holding a space or tab are changed; taking the added double quotes off gives the argument back, and every blank of the result lies inside the added quotes |
| Subst.EscapeListWords | src/scons-local-0.96.93/SCons/Subst.py:122-149 | every word that is not literal comes out with its blanks inside the added quotes, and a non-literal word without blanks comes out unchanged |
| Subst.EscapeList | src/scons-local-0.96.93/SCons/Subst.py:139-149 | escape_list keeps the number and order of the words and escapes each one on its own |
| SubstFacts.TokensVar | src/scons-local-0.96.93/SCons/Subst.py:320 | `$name` followed by a character that cannot continue a name is one token |
| SubstFacts.TokensDollarDollar | src/scons-local-0.96.93/SCons/Subst.py:318-320 | `$$` is one token |
| SubstFacts.SconsSubstStr | src/scons-local-0.96.93/SCons/Subst.py:334-335 | a value that is not a `$`-free string is substituted and post-processed by mode |
| SubstFacts.SubstTokensPlain | src/scons-local-0.96.93/SCons/Subst.py:362-368 | tokens that are not dollar expressions are copied as they are |
| SubstFacts.SubstituteNoDollar | src/scons-local-0.96.93/SCons/Subst.py:436-464 | a string without `$` substitutes to itself |
| SubstFacts.JoinItemsPlain | src/scons-local-0.96.93/SCons/Subst.py:414-418 | the elements of a list of plain strings are kept and joined with single spaces |
| SubstFacts.SubstPlainList | src/scons-local-0.96.93/SCons/Subst.py:414-418 | in RAW mode a list of plain strings substitutes to the strings joined by spaces |
| SubstFacts.SubstituteList | src/scons-local-0.96.93/SCons/Subst.py:414-418 | substituting a list of plain strings joins them with spaces |
| SubstFacts.EscapedDollar | src/scons-local-0.96.93/SCons/Subst.py:369-370 | `$$` becomes one `$` and the text after it is substituted on its own |
| SubstFacts.DollarDollarEveryMode | src/scons-local-0.96.93/SCons/Subst.py:369-370 | in every mode, `$$` substitutes to `$` |
| SubstFacts.SubstVarThen | src/scons-local-0.96.93/SCons/Subst.py:436-464 | `$name` followed by other text substitutes as its two parts, one after the other |
| SubstFacts.SubstTokenName | src/scons-local-0.96.93/SCons/Subst.py:391-413 | a plain name is looked up first in the local variables and then in the global ones, and is re-substituted with the name masked; an unknown name gives '' |
| SubstFacts.ResubstPlain | src/scons-local-0.96.93/SCons/Subst.py:433-434 | a value that is not a string, a list, a callable or None is not expanded further |
| SubstFacts.ResubstNone | src/scons-local-0.96.93/SCons/Subst.py:431-432 | None expands to '' |
| SubstFacts.UndefinedVariable | src/scons-local-0.96.93/SCons/Subst.py:391-396 | a `$name` defined in neither dictionary expands to nothing |
| SubstFacts.LocalShadowsGlobal | src/scons-local-0.96.93/SCons/Subst.py:391-396 | a local variable is used before a global one of the same name, and the global one is used when there is no local one |
| SubstFacts.SelfReferenceStops | src/scons-local-0.96.93/SCons/Subst.py:410-413 | a variable whose value refers to itself expands once: the inner reference finds the name masked and yields '' |
| SubstFacts.SubstProxyName | src/scons-local-0.96.93/SCons/Subst.py:431-434 | `$name` bound to a node proxy gives its converted string, and bound to None gives '' |
| SubstFacts.SubstDictNames | src/scons-local-0.96.93/SCons/Subst.py:240-280 | subst_dict binds TARGET, TARGETS, SOURCE and SOURCES: None without nodes, the node list for the plural names, the first node otherwise |
| SubstFacts.SpecialName | src/scons-local-0.96.93/SCons/Subst.py:478-481 | `$TARGET`-style names bound to a node proxy or None substitute to the converted node, or to '' |
| SubstFacts.TargetOverridesCaller | src/scons-local-0.96.93/SCons/Subst.py:478-481 | $TARGET or $SOURCE is the first target or source whatever the caller's variables say: its str(), or its for_signature() in SIG mode, and '' without nodes |
| SubstFacts.JoinItemsObjects | src/scons-local-0.96.93/SCons/Subst.py:414-418 | a list of node proxies becomes their converted strings joined by spaces |
| SubstFacts.SubstProxyList | src/scons-local-0.96.93/SCons/Subst.py:414-418 | `$name` bound to a list of node proxies gives their strings joined by spaces |
| SubstFacts.SpecialList | src/scons-local-0.96.93/SCons/Subst.py:478-481 | $TARGETS or $SOURCES bound to node lists gives those nodes' strings joined by spaces, post-processed |
| SubstFacts.TargetsJoined | src/scons-local-0.96.93/SCons/Subst.py:478-481 | in RAW mode $TARGETS or $SOURCES is every target or source, joined by spaces |
| SubstFacts.PostProcessShape | src/scons-local-0.96.93/SCons/Subst.py:500-508 | RAW mode leaves the expansion alone; CMD removes the markers, SIG removes the spans, and both then collapse white space and strip |
| SubstFacts.RemoveMarkersPlain | src/scons-local-0.96.93/SCons/Subst.py:291 | text without `$` has no marker to remove |
| SubstFacts.RemoveMarkersPlainPrefix | src/scons-local-0.96.93/SCons/Subst.py:291 | text without `$` passes through marker removal unchanged, whatever follows it |
| SubstFacts.CmdDropsMarker | src/scons-local-0.96.93/SCons/Subst.py:291 | CMD mode deletes a `$(` or `$)` and keeps what it encloses |
| SubstFacts.SigScanPlain | src/scons-local-0.96.93/SCons/Subst.py:292 | the scan after `$(` stops at the first `$)` when the text in between has no `$` |
| SubstFacts.SigDropsSpan | src/scons-local-0.96.93/SCons/Subst.py:292 | SIG mode deletes a `$( ... $)` span together with what it encloses |
| SubstFacts.SigScanUnclosed | src/scons-local-0.96.93/SCons/Subst.py:292 | a `$(` with no `$)` after it is not matched |
| SubstFacts.SigKeepsUnclosed | src/scons-local-0.96.93/SCons/Subst.py:292 | an unclosed `$(` is kept in SIG mode |
| SubstFacts.CollapseNoBraces | src/scons-local-0.96.93/SCons/Subst.py:324 | outside braces white space collapses: no tab and no two spaces in a row are left |
| SubstFacts.OnceTokensUntouched | src/scons-local-0.96.93/SCons/Subst.py:806-813 | tokens none of which names the key are copied unchanged |
| SubstFacts.OnceOtherKeysUntouched | src/scons-local-0.96.93/SCons/Subst.py:802-803 | a string that does not mention the key comes back as it was |
| SubstFacts.OnceReplacesOnce | src/scons-local-0.96.93/SCons/Subst.py:805-813 | `$key` is replaced by the key's string value, or '' when the key is missing, and that value is not expanded again, even when it mentions the key |
| SubstFacts.OnceListSplices | src/scons-local-0.96.93/SCons/Subst.py:816-826 | in a list or a tuple, an element that is exactly `$key` or `${key}` is replaced by the elements of a list or tuple value, or by the value itself otherwise, with a missing key counting as ''; the other elements are kept |
| SubstFacts.SettledKept | src/scons-local-0.96.93/SCons/Subst.py:500-508 | every mode leaves a string without markers and white space runs as it is |
| SubstList.InitState | src/scons-local-0.96.93/SCons/Subst.py:544-558 | a new ListSubber holds one empty line, starts a new word with the next text and is not inside a strip |
| SubstList.NewWord | src/scons-local-0.96.93/SCons/Subst.py:728-735 | add_new_word puts the converted value, with its literal flag, as a new word at the end of the last line, except while SIG mode drops the words of a strip; either way the next text joins the current word |
| SubstList.CatE | src/scons-local-0.96.93/SCons/Subst.py:642-662 | the events of two steps in a row: the first error wins and otherwise the events are concatenated |
| SubstList.ListSubber.constructor | src/scons-local-0.96.93/SCons/Subst.py:544-558 | the new subber's state is the initial state |
| SubstList.ListSubber.NextLine | src/scons-local-0.96.93/SCons/Subst.py:664-669 | next_line appends an empty line and starts a new word |
| SubstList.ListSubber.ThisWord | src/scons-local-0.96.93/SCons/Subst.py:671-674 | this_word makes the next text join the current word |
| SubstList.ListSubber.NextWord | src/scons-local-0.96.93/SCons/Subst.py:676-678 | next_word makes the next text start a new word and changes nothing else |
| SubstList.ListSubber.AddNewWord | src/scons-local-0.96.93/SCons/Subst.py:728-735 | the state afterwards is the one add_new_word describes |
| SubstList.ListSubber.AddToCurrentWord | src/scons-local-0.96.93/SCons/Subst.py:680-726 | the text joins the last word of the last line unless words are dropped, the line is empty or the word ends in a redirection character, in which case it becomes a new word |
| SubstList.ListSubber.Append | src/scons-local-0.96.93/SCons/Subst.py:664-735 | self.append goes to add_new_word or add_to_current_word as the last next_word or this_word chose |
| SubstList.ListSubber.OpenStrip | src/scons-local-0.96.93/SCons/Subst.py:745-748 | `$(` is appended as a word only in RAW mode and turns the strip on |
| SubstList.ListSubber.CloseStrip | src/scons-local-0.96.93/SCons/Subst.py:750-753 | `$)` is appended as a word only in RAW mode and turns the strip off |
| SubstList.ListSubber.Resubst | src/scons-local-0.96.93/SCons/Subst.py:610-619 | re-substituting a value found for a token either fails with the error of the reference definition or leaves the state its events describe |
| SubstList.ListSubber.Expand | src/scons-local-0.96.93/SCons/Subst.py:560-640 | expand fails exactly when the reference expansion does, with the same error, and otherwise leaves the state its events describe |
| SubstList.ListSubber.ExpandStr | src/scons-local-0.96.93/SCons/Subst.py:571-619 | the string branch of expand: `$$`, `$(`, `$)`, names and plain text, with the same error-or-state agreement |
| SubstList.ListSubber.ExpandEval | src/scons-local-0.96.93/SCons/Subst.py:588-601 | the eval() branch of expand: AttributeError and SyntaxError are errors, the other failures add nothing |
| SubstList.ListSubber.ExpandItems | src/scons-local-0.96.93/SCons/Subst.py:621-624 | each list element is substituted as a list element and followed by a new word |
| SubstList.ListSubber.Token | src/scons-local-0.96.93/SCons/Subst.py:651-660 | white space with a newline starts a new line, other white space is appended inside a list element and starts a new word elsewhere, and anything else is expanded |
| SubstList.ListSubber.Substitute | src/scons-local-0.96.93/SCons/Subst.py:642-662 | substitute fails exactly when the reference definition does and otherwise leaves the state its events describe |
| SubstList.ListSubber.SubstituteTokens | src/scons-local-0.96.93/SCons/Subst.py:650-660 | the loop over the tokens of a string agrees with the events of those tokens |
| SubstList.RunSconsSubstList | src/scons-local-0.96.93/SCons/Subst.py:514-788 | running scons_subst_list on a ListSubber returns the lines the reference definition gives |
| SubstListFacts.LTokenText | src/scons-local-0.96.93/SCons/Subst.py:575-579 | a token of text without `$` is appended as it is |
| SubstListFacts.LTokenBlank | src/scons-local-0.96.93/SCons/Subst.py:652-658 | outside a list element, white space without a newline only starts a new word |
| SubstListFacts.LTokenOpen | src/scons-local-0.96.93/SCons/Subst.py:582-583 | `$(` opens a strip |
| SubstListFacts.LTokenClose | src/scons-local-0.96.93/SCons/Subst.py:584-585 | `$)` closes a strip |
| SubstListFacts.PlainWords | src/scons-local-0.96.93/SCons/Subst.py:642-662 | outside a list element the text of a line becomes the words string.split finds in it, each a new word of the last line |
| SubstListFacts.DroppedWords | src/scons-local-0.96.93/SCons/Subst.py:680-735 | inside a strip in SIG mode the text of a line adds no word |
| SubstListFacts.InElement | src/scons-local-0.96.93/SCons/Subst.py:651-656 | inside a list element every token, white space included, joins the current word |
| SubstListFacts.ElementWord | src/scons-local-0.96.93/SCons/Subst.py:621-624 | a list element becomes one new word, white space inside it included, and the next text starts another word |
| SubstListFacts.LVariableWord | src/scons-local-0.96.93/SCons/Subst.py:603-619 | `$name` whose value is one word of plain text appends that word and lets the next text join it |
| SubstListFacts.ListResult | src/scons-local-0.96.93/SCons/Subst.py:780-788 | scons_subst_list returns the lines the events of the value leave in the initial state |
| SubstListFacts.PlainStringWords | src/scons-local-0.96.93/SCons/Subst.py:642-662 | a string without `$` and without a newline is one command line of the words string.split finds in it |
| SubstListFacts.NewlineSplitsLines | src/scons-local-0.96.93/SCons/Subst.py:653-654 | white space holding a newline ends one command line and starts the next |
| SubstListFacts.ListElementsAreWords | src/scons-local-0.96.93/SCons/Subst.py:621-624 | each element of a list of strings is one word of the command line, white space inside it included |
| SubstListFacts.FirstWord | src/scons-local-0.96.93/SCons/Subst.py:680-685 | the first text of a command is its first word |
| SubstListFacts.RedirectStep | src/scons-local-0.96.93/SCons/Subst.py:708-709 | text after a word ending in a redirection character starts a new word |
| SubstListFacts.JoinStep | src/scons-local-0.96.93/SCons/Subst.py:710-726 | other text joins the current word |
| SubstListFacts.VariableJoinsWord | src/scons-local-0.96.93/SCons/Subst.py:696-726 | a variable's value joins the text before it into one word, unless that text ends in `<`, `>` or a pipe |
| SubstListFacts.StripTail | src/scons-local-0.96.93/SCons/Subst.py:745-753 | after ` $(m$) b` the words of m are dropped in SIG mode and kept in CMD mode |
| SubstListFacts.StripMarkers | src/scons-local-0.96.93/SCons/Subst.py:745-753 | `$( m $)` between two pieces of text: in SIG mode the words of m are dropped, in CMD mode they are kept, and the markers are words in neither |
| EnvFlags.NoFlags | src/scons-local-0.96.93/SCons/Environment.py:504-516 | ParseFlags starts from the eleven keys, each with an empty list |
| EnvFlags.AddAll | src/scons-local-0.96.93/SCons/Environment.py:563-640 | appending to the dictionary keeps its keys and only extends each list |
| EnvFlags.PendingArg | src/scons-local-0.96.93/SCons/Environment.py:564-580 | a pending option takes the next word: a define for CPPDEFINES, a File pair for `-include`, an option pair for both CCFLAGS and LINKFLAGS for `-isysroot` and `-arch`, and the word itself for any other key; nothing stays pending |
| EnvFlags.ParseWords | src/scons-local-0.96.93/SCons/Environment.py:561-640 | the word loop keeps the keys and only ever appends |
| EnvFlags.ParseText | src/scons-local-0.96.93/SCons/Environment.py:530-531 | a string starting with `!` is replaced by the output of the command; the dictionary keeps its keys |
| EnvFlags.ParseValue | src/scons-local-0.96.93/SCons/Environment.py:520-527 | a false argument adds nothing, a string is parsed and a list or tuple is parsed element by element; a successful parse keeps the keys |
| EnvFlags.ParseString | src/scons-local-0.96.93/SCons/Environment.py:561-640 | the loop over the words of one string with append_next_arg_to gives the dictionary the reference definition gives |
| EnvFlags.DoParse | src/scons-local-0.96.93/SCons/Environment.py:520-640 | do_parse, recursing into lists and tuples, agrees with the reference definition |
| EnvFlags.DoParseAll | src/scons-local-0.96.93/SCons/Environment.py:526 | the loop over the elements of a list stops at the first exception and otherwise agrees with the reference definition |
| EnvFlags.ParseFlags | src/scons-local-0.96.93/SCons/Environment.py:494-644 | ParseFlags parses every argument into one dictionary that starts with the eleven empty lists, and keeps those keys |
| EnvFlags.WordTurn | src/scons-local-0.96.93/SCons/Environment.py:563-640 | a word with nothing pending is handled by the chain of tests, which leaves behind what that word asks for |
| EnvFlags.AttachedArgument | src/scons-local-0.96.93/SCons/Environment.py:583-625 | `-Lx`, `-lx`, `-Ix` and `-Fx` put x in LIBPATH, LIBS, CPPPATH and FRAMEWORKPATH, and leave nothing pending |
| EnvFlags.PendingTurn | src/scons-local-0.96.93/SCons/Environment.py:564-580 | a pending option takes the next word, whatever it looks like, and leaves nothing pending |
| EnvFlags.DetachedArgument | src/scons-local-0.96.93/SCons/Environment.py:583-625 | a bare `-L`, `-l`, `-I`, `-F` or `-framework` sends the next word, whatever it looks like, to its key; the word after that is read as a flag again |
| EnvFlags.PendingPair | src/scons-local-0.96.93/SCons/Environment.py:637-638 | `-include`, `-isysroot` and `-arch` take the next word as their argument |
| EnvFlags.PairedArgument | src/scons-local-0.96.93/SCons/Environment.py:570-577 | `-isysroot x` and `-arch x` append the pair of option and x to both CCFLAGS and LINKFLAGS |
| EnvFlags.IncludeArgument | src/scons-local-0.96.93/SCons/Environment.py:567-569 | `-include x` appends the pair of option and File(x) to CCFLAGS only |
| EnvFlags.DefineArgument | src/scons-local-0.96.93/SCons/Environment.py:612-614 | `-Dname` adds the define of name to CPPDEFINES |
| EnvFlags.DefineSplitsAtFirstEquals | src/scons-local-0.96.93/SCons/Environment.py:534-539 | a define `name=value` becomes the pair of name and value, split at the first `=` with later ones kept in the value; without `=` the name stays a string |
| EnvFlags.BareDefineIgnored | src/scons-local-0.96.93/SCons/Environment.py:615-616 | a bare `-D` sets the misspelled local appencd_next_arg_to, so nothing is pending and the next word is read as a flag of its own |
| EnvFlags.BareDefineNameIsLibrary | src/scons-local-0.96.93/SCons/Environment.py:615-616 | so `-D NAME` defines nothing: NAME becomes a library file |
| EnvFlags.RpathForms | src/scons-local-0.96.93/SCons/Environment.py:601-607 | `-Wl,-rpath=x`, `-Wl,-R,x` and `-Wl,-Rx` all put x in RPATH |
| EnvFlags.OtherLinkerFlag | src/scons-local-0.96.93/SCons/Environment.py:608-609 | any other `-Wl,` word goes whole to LINKFLAGS |
| EnvFlags.CompileAndLink | src/scons-local-0.96.93/SCons/Environment.py:626-636 | `+x`, `-pthread` and `-mno-cygwin` go to both CCFLAGS and LINKFLAGS |
| EnvFlags.LibraryWord | src/scons-local-0.96.93/SCons/Environment.py:581-582 | a word that does not start with `-` or `+` is a library file |
| EnvIxes.AfterLastSlash | src/scons-local-0.96.93/SCons/Environment.py:1285 | the index after the last slash of the path: nothing after it is a slash |
| EnvIxes.RStripSlash | src/scons-local-0.96.93/SCons/Environment.py:1285 | the head of os.path.split loses exactly its trailing slashes |
| EnvIxes.ReplaceIxes | src/scons-local-0.96.93/SCons/Environment.py:1269-1291 | ReplaceIxes expands each of the four variable names as `$name` and renames the file part of the path with the results |
| EnvIxes.RenameNameStrips | src/scons-local-0.96.93/SCons/Environment.py:1286-1289 | the slice tests remove a prefix or suffix exactly when it is present; an empty suffix removes nothing |
| EnvIxes.SplitShape | src/scons-local-0.96.93/SCons/Environment.py:1285 | os.path.split gives a canonical head and a tail without slashes |
| EnvIxes.SplitJoin | src/scons-local-0.96.93/SCons/Environment.py:1285-1291 | splitting a joined path gives its parts back |
| EnvIxes.JoinSplit | src/scons-local-0.96.93/SCons/Environment.py:1285-1291 | without a doubled slash in the head, joining the parts of a split gives the path back |
| EnvIxes.RenameRoundTrip | src/scons-local-0.96.93/SCons/Environment.py:1269-1291 | a file name carrying the old affixes around a core gets the new ones, and renaming back with the roles swapped restores the path |
| EnvMerge.LeftmostLoop | src/scons-local-0.96.93/SCons/Environment.py:670-674 | the PATH loop keeps the first occurrence of each element |
| EnvMerge.RightmostLoop | src/scons-local-0.96.93/SCons/Environment.py:676-680 | the other loop keeps the last occurrence of each element |
| EnvMerge.KeepFirstElems | src/scons-local-0.96.93/SCons/Environment.py:670-674 | keeping first occurrences drops duplicates and nothing else |
| EnvMerge.KeepLastElems | src/scons-local-0.96.93/SCons/Environment.py:676-680 | keeping last occurrences drops duplicates and nothing else |
| EnvMerge.KeepFirstSnoc | src/scons-local-0.96.93/SCons/Environment.py:672-674 | an element is kept exactly when it does not occur earlier |
| EnvMerge.KeepLastCons | src/scons-local-0.96.93/SCons/Environment.py:677-680 | an element is kept exactly when it does not occur later |
| EnvMerge.KeepFirstNoDup | src/scons-local-0.96.93/SCons/Environment.py:670-674 | a list without duplicates comes through the PATH rule unchanged |
| EnvMerge.KeepLastNoDup | src/scons-local-0.96.93/SCons/Environment.py:676-680 | a list without duplicates comes through the other rule unchanged |
| EnvMerge.MergePath | src/scons-local-0.96.93/SCons/Environment.py:668-674 | merging a duplicate-free list into a duplicate-free PATH value keeps the old entries where they are and appends only the new ones |
| EnvMerge.MergeOther | src/scons-local-0.96.93/SCons/Environment.py:668-680 | for any other key the merged value moves to the end: the old entries it repeats are dropped from their old places |
| Environment.CopyNonReserved | src/scons-local-0.96.93/SCons/Environment.py:146-153 | the result holds exactly the items whose names are not reserved |
| Environment.CopyNonReservedIdempotent | src/scons-local-0.96.93/SCons/Environment.py:146-153 | filtering twice is filtering once |
| Environment.SetBuilders | src/scons-local-0.96.93/SCons/Environment.py:160-167 | the builder dictionary is emptied and then filled from the value; it fails exactly when the value or the old entry is not a dictionary, and other keys are kept |
| Environment.Store | src/scons-local-0.96.93/SCons/Environment.py:302-310 | a reserved name is ignored, BUILDERS goes through the corrected handler SetBuilders, SCANNERS is stored as it is, any other name is stored only if valid; other keys are never touched |
| Environment.UniqueAll | src/scons-local-0.96.93/SCons/Environment.py:974-1000 | the AppendUnique and PrependUnique loop never loses a key |
| Environment.KeepsLeftmostSuffix | src/scons-local-0.96.93/SCons/Environment.py:670 | the slice test key[-4:] == 'PATH' is the suffix test |
| Environment.AppendUniqueList | src/scons-local-0.96.93/SCons/Environment.py:986-990 | AppendUnique with a list keeps the old list in front and appends exactly the new elements not yet there, in their order; duplicate-free inputs give a duplicate-free result |
| Environment.PrependUniqueList | src/scons-local-0.96.93/SCons/Environment.py:1238-1243 | PrependUnique with a list puts the new elements not yet there in front of the unchanged old list |
| Environment.UniqueEntryIdempotent | src/scons-local-0.96.93/SCons/Environment.py:986-990 | adding the same list a second time changes nothing |
| Environment.UniqueAllFrame | src/scons-local-0.96.93/SCons/Environment.py:974-1000 | a key that no item names keeps its entry, or its absence |
| Environment.ReservedUntouched | src/scons-local-0.96.93/SCons/Environment.py:974-978 | AppendUnique and PrependUnique never touch a reserved name |
| Environment.DedupedElems | src/scons-local-0.96.93/SCons/Environment.py:669-681 | MergeFlags stores a list without duplicates that holds every element it walked |
| Environment.MergeIntoList | src/scons-local-0.96.93/SCons/Environment.py:661-681 | merging into a variable holding a non-empty duplicate-free list: a PATH variable keeps its entries in place and appends the new ones, any other moves the merged value to the end |
| Environment.MergeIntoAbsent | src/scons-local-0.96.93/SCons/Environment.py:663-664 | a variable not set yet takes the new list deduplicated |
| Environment.BuildersWithoutEntry | src/scons-local-0.96.93/SCons/Environment.py:160-167 | as written, _set_BUILDERS on a dictionary without BUILDERS raises NameError; the corrected handler stores the builders |
| Environment.Env.constructor | src/scons-local-0.96.93/SCons/Environment.py:273-281 | the new environment holds the keywords |
| Environment.Env.GetItem | src/scons-local-0.96.93/SCons/Environment.py:299-300 | __getitem__ returns the value of a present key and raises KeyError for a missing one |
| Environment.Env.Get | src/scons-local-0.96.93/SCons/Environment.py:312-314 | get returns the value, or the default where the key is missing |
| Environment.Env.HasKey | src/scons-local-0.96.93/SCons/Environment.py:316-317 | has_key holds exactly when __getitem__ succeeds |
| Environment.Env.DelItem | src/scons-local-0.96.93/SCons/Environment.py:295-297 | __delitem__ removes a present key and raises KeyError for a missing one |
| Environment.Env.SetItem | src/scons-local-0.96.93/SCons/Environment.py:302-310 | __setitem__ leaves the state Store describes |
| Environment.Env.MergeFlags | src/scons-local-0.96.93/SCons/Environment.py:646-682 | MergeFlags with unique set leaves the state the reference merge describes |
| Environment.Env.MergeLoop | src/scons-local-0.96.93/SCons/Environment.py:658-681 | the loop over the keys leaves the state the reference merge describes |
| Environment.Env.MergeKey | src/scons-local-0.96.93/SCons/Environment.py:659-681 | one item of the loop leaves the state MergeOne describes |
| Environment.Env.AddUnique | src/scons-local-0.96.93/SCons/Environment.py:975-999 | the common loop leaves the state UniqueAll describes |
| Environment.Env.AppendUnique | src/scons-local-0.96.93/SCons/Environment.py:974-1000 | AppendUnique leaves the state UniqueAll describes with appending |
| Environment.Env.PrependUnique | src/scons-local-0.96.93/SCons/Environment.py:1227-1253 | PrependUnique leaves the state UniqueAll describes with prepending |
| Environment.OverrideEnv.constructor | src/scons-local-0.96.93/SCons/Environment.py:1715-1718 | the override environment wraps the subject and the overrides |
| Environment.OverrideEnv.Dictionary | src/scons-local-0.96.93/SCons/Environment.py:1762-1766 | the subject's dictionary updated with the overrides |
| Environment.OverrideEnv.GetItem | src/scons-local-0.96.93/SCons/Environment.py:1727-1731 | __getitem__ looks in the overrides and then in the subject, and agrees with Dictionary |
| Environment.OverrideEnv.Get | src/scons-local-0.96.93/SCons/Environment.py:1750-1755 | get agrees with Dictionary and returns the default for a missing key |
| Environment.OverrideEnv.HasKey | src/scons-local-0.96.93/SCons/Environment.py:1756-1761 | has_key holds exactly for the keys of Dictionary |
| Environment.OverrideEnv.SetItem | src/scons-local-0.96.93/SCons/Environment.py:1732-1735 | __setitem__ applies only the validity test and stores the value in the overrides |
| Environment.OverrideEnv.DelItem | src/scons-local-0.96.93/SCons/Environment.py:1736-1749 | __delitem__ deletes from both layers and raises KeyError only when neither held the key |
| Conftest.LangToSuffix | src/scons-local-0.96.93/SCons/Conftest.py:500-516 | no language or C gives ("C", ".c"), the C++ spellings give ("C++", ".cpp"), and any other name is unsupported with its message |
| Conftest.LangToSuffixCanonical | src/scons-local-0.96.93/SCons/Conftest.py:511-514 | the unified name of a supported language is recognised as the same language |
| Conftest.HaveKey | src/scons-local-0.96.93/SCons/Conftest.py:462-463 | the symbol is upper-cased and every character outside [A-Z0-9_] becomes '_', keeping the length |
| Conftest.HaveKeyIdempotent | src/scons-local-0.96.93/SCons/Conftest.py:462-463 | normalising twice is normalising once, and a symbol made only of [A-Z0-9_] is kept |
| Conftest.HaveKeyIgnoresCase | src/scons-local-0.96.93/SCons/Conftest.py:462 | have_foo and HAVE_FOO name the same symbol |
| Conftest.HaveLineParses | src/scons-local-0.96.93/SCons/Conftest.py:465-472 | the line written for a symbol reads back as that symbol: defined for 1, recorded as undefined for 0, and defined to the value's text otherwise |
| Conftest.HaveState | src/scons-local-0.96.93/SCons/Conftest.py:446-479 | _Have records the symbol in havedict and, without a header file, appends its line to config_h |
| Conftest.YesNoState | src/scons-local-0.96.93/SCons/Conftest.py:430-443 | _YesNoResult records whether the test passed under the symbol, when there is one, and displays yes or no |
| Conftest.CallText | src/scons-local-0.96.93/SCons/Conftest.py:380-387 | the call shown is its first line followed by "..", or the call without its trailing ';', or the call itself |
| Conftest.ProgramText | src/scons-local-0.96.93/SCons/Conftest.py:353-378 | the test program ends with a main() that holds the call and returns 0 |
| Conftest.TryLib | src/scons-local-0.96.93/SCons/Conftest.py:389-424 | one library is tried with LIBS extended by it and the extra libraries; LIBS is put back after a failure or when autoadd is off, and the checking message and result are shown |
| Conftest.TryLibsOutcome | src/scons-local-0.96.93/SCons/Conftest.py:389-424 | the search stops at the first library that builds; LIBS then keeps it only with autoadd on, and when none builds every library was tried and the last message is returned |
| Conftest.UnnamedKeepsLibs | src/scons-local-0.96.93/SCons/Conftest.py:405-413 | an empty library name never changes LIBS |
| Conftest.Context.constructor | src/scons-local-0.96.93/SCons/SConf.py:662-671 | a new check context has an empty havedict and nothing shown |
| Conftest.Context.Display | src/scons-local-0.96.93/SCons/SConf.py:754-762 | the message is added to what was shown |
| Conftest.Context.AppendLibs | src/scons-local-0.96.93/SCons/SConf.py:744-747 | AppendLIBS appends the names to LIBS and returns the old LIBS |
| Conftest.Context.SetLibs | src/scons-local-0.96.93/SCons/SConf.py:749-752 | SetLIBS replaces LIBS and returns the old LIBS |
| Conftest.Context.Have | src/scons-local-0.96.93/SCons/Conftest.py:446-479 | the state afterwards is the one _Have describes |
| Conftest.Context.YesNoResult | src/scons-local-0.96.93/SCons/Conftest.py:430-443 | the state afterwards is the one _YesNoResult describes |
| Conftest.Context.TryLibrary | src/scons-local-0.96.93/SCons/Conftest.py:391-422 | one pass of the loop body leaves the state and result TryLib describes |
| Conftest.Context.CheckLib | src/scons-local-0.96.93/SCons/Conftest.py:322-424 | CheckLib leaves the state and returns the result of the reference search |
| Conftest.Context.TryLibraries | src/scons-local-0.96.93/SCons/Conftest.py:389-424 | the loop over the libraries agrees with the reference search |
| SConf.ModeOf | src/scons-local-0.96.93/SCons/SConf.py:60-71 | a mode is selected exactly by "auto", "force" or "cache"; any other name is a ValueError with its message |
| SConf.ModeRoundTrip | src/scons-local-0.96.93/SCons/SConf.py:60-71 | each mode has exactly one name |
| SConf.Settings.constructor | src/scons-local-0.96.93/SCons/SConf.py:58 | the cache mode starts as AUTO |
| SConf.Settings.SetCacheMode | src/scons-local-0.96.93/SCons/SConf.py:60-71 | SetCacheMode sets the named mode; an unknown name raises ValueError and leaves the mode as it was |
| SConf.CreateIncludes | src/scons-local-0.96.93/SCons/SConf.py:782-796 | one include line per header, with the last header kept apart when asked; an empty list with leaveLast, and quotes shorter than two characters where a line is written, raise IndexError |
| SConf.IncludeLinesAppend | src/scons-local-0.96.93/SCons/SConf.py:793-796 | the lines of two header lists are the lines of their concatenation |
| SConf.LeaveLastCompletes | src/scons-local-0.96.93/SCons/SConf.py:788-796 | the lines kept and the line of the last header together are the lines of the whole list |
| SConf.OneHeaderIsList | src/scons-local-0.96.93/SCons/SConf.py:785-786 | a single header is the list holding only it |
| SConf.ResultText | src/scons-local-0.96.93/SCons/SConf.py:694-702 | Result shows yes or no for an int, a string as it is, and raises TypeError for anything else |
| SConf.Shown | src/scons-local-0.96.93/SCons/SConf.py:754-760 | Display puts "(cached) " in front only while a cached result is reported |
| SConf.CollectNodeStates | src/scons-local-0.96.93/SCons/SConf.py:238-265 | the tests are cachable when every target has SConf information, up to date when moreover every signature matches outside CACHE mode, and cached_error records whether any stored result failed |
| SConf.Decide | src/scons-local-0.96.93/SCons/SConf.py:267-287 | execute raises the cache error, raises the cached failure, reports up to date, refuses a dry run or builds, in that order of tests |
| SConf.CacheModeNeverBuilds | src/scons-local-0.96.93/SCons/SConf.py:250-286 | in CACHE mode nothing is ever rebuilt |
| SConf.ForceModeRebuilds | src/scons-local-0.96.93/SCons/SConf.py:274-286 | in FORCE mode every test is built again, or refused in a dry run |
| SConf.NewTargetBuilds | src/scons-local-0.96.93/SCons/SConf.py:260-264 | a target never built in a configure context is always built in AUTO mode outside a dry run |
| SConf.BuildNodesResult | src/scons-local-0.96.93/SCons/SConf.py:397-412 | BuildNodes returns 1 unless some node ends in a state other than executed and up_to_date |
| SConf.TestGuardAsWritten | src/scons-local-0.96.93/SCons/SConf.py:547-549 | as written, the guard raises a UserError without its message once the context is finished |
| SConf.TestGuard | src/scons-local-0.96.93/SCons/SConf.py:547-549 | the guard raises a UserError naming the misuse exactly when the context is no longer active |
| SConf.TestGuardLosesMessage | src/scons-local-0.96.93/SCons/SConf.py:547-549 | the written guard loses the message the corrected one carries |
| SConf.SConfContext.constructor | src/scons-local-0.96.93/SCons/SConf.py:619-620 | a new configure context is active, has shown nothing and starts from the config.h text stored for its file, or the empty text |
| SConf.SConfContext.Shutdown | src/scons-local-0.96.93/SCons/SConf.py:624-641 | _shutdown works only once: a second call raises UserError; the first hands the config.h text on |
| SConf.SConfContext.CallTest | src/scons-local-0.96.93/SCons/SConf.py:546-555 | a test called after Finish raises UserError and changes nothing; otherwise its config.h text is appended, the messages the test showed are kept, "error: no result" is shown (with the cached prefix when the test left the flag set) when it showed no result, the cached flag ends set only when the test set it and showed a result, and its return value is returned |
| SConf.CheckContext.constructor | src/scons-local-0.96.93/SCons/SConf.py:662-671 | a new check context has shown no result and holds no config.h text |
| SConf.CheckContext.Display | src/scons-local-0.96.93/SCons/SConf.py:754-762 | the cached prefix is shown once and then cleared |
| SConf.CheckContext.Message | src/scons-local-0.96.93/SCons/SConf.py:680-686 | Message shows the text, marks the result as cached and lets a result be shown again |
| SConf.CheckContext.Result | src/scons-local-0.96.93/SCons/SConf.py:688-707 | Result shows the text only when no result was shown since the last Message, then clears the cached flag, and raises TypeError for a value that is neither int nor string |
| BoolOption.TextToBool | src/scons-local-0.96.93/SCons/Options/BoolOption.py:52-66 | the lower-cased text decides: a true word gives 1, a false word 0, and anything else raises ValueError naming the text |
| BoolOption.Validate | src/scons-local-0.96.93/SCons/Options/BoolOption.py:69-77 | the stored value must be 1 or 0, otherwise UserError; a missing key is the KeyError of the lookup |
| BoolOption.MakeBoolOption | src/scons-local-0.96.93/SCons/Options/BoolOption.py:80-88 | the help text gains the two answers yes and no, in parentheses |
| BoolOption.StringListsDisjoint | src/scons-local-0.96.93/SCons/Options/BoolOption.py:45-46 | no text is both true and false |
| BoolOption.TextToBoolIgnoresCase | src/scons-local-0.96.93/SCons/Options/BoolOption.py:63 | a text and its lower-case form convert alike |
| BoolOption.TextToBoolUpperCase | src/scons-local-0.96.93/SCons/Options/BoolOption.py:63 | the upper-case spelling of an accepted text is accepted with the same value |
| BoolOption.ConvertedValuesValidate | src/scons-local-0.96.93/SCons/Options/BoolOption.py:52-77 | whatever the converter produces, the validator accepts |
| BoolOption.TextToBoolRoundTrip | src/scons-local-0.96.93/SCons/Options/BoolOption.py:45-66 | the value's own text, as saved to an options file, reads back as the same value |
| PackageOption.Convert | src/scons-local-0.96.93/SCons/Options/PackageOption.py:65-72 | an enable word is 1, a disable word 0, in any case, and any other text is kept without an error |
| PackageOption.SharedWordsAgree | src/scons-local-0.96.93/SCons/Options/PackageOption.py:62-63 | the words both option kinds read agree, and enable, search and disable belong to package options only |
| PackageOption.ConvertRoundTrip | src/scons-local-0.96.93/SCons/Options/PackageOption.py:62-72 | a converted value written out as str() does reads back as itself |
| PackageOption.Validated | src/scons-local-0.96.93/SCons/Options/PackageOption.py:75-88 | False is accepted, True is replaced by what searchfunc finds when there is one, and any other value must name an existing path |
| PackageOption.Validate | src/scons-local-0.96.93/SCons/Options/PackageOption.py:75-88 | the validator leaves the environment the reference definition describes |
| PackageOption.ConvertedAnswerValidates | src/scons-local-0.96.93/SCons/Options/PackageOption.py:81-85 | a yes or no answer is accepted without a look at the file system unless a search is asked for |
| PackageOption.PathAnswerValidates | src/scons-local-0.96.93/SCons/Options/PackageOption.py:86-88 | a path answer is accepted exactly when the path exists, and the environment is left as it is |
| PackageOption.MakePackageOption | src/scons-local-0.96.93/SCons/Options/PackageOption.py:91-105 | the help text gains a line listing the accepted answers |
| Tex.DropMembers | src/scons-local-0.96.93/SCons/Tool/tex.py:154 | the filter keeps exactly the log's .aux names other than base.aux |
| Tex.TexEmitter | src/scons-local-0.96.93/SCons/Tool/tex.py:135-156 | the emitter's list is the given targets followed by what the reference definition adds |
| Tex.AppendBlock | src/scons-local-0.96.93/SCons/Tool/tex.py:140-147 | one source adds the three index files when it calls `\makeindex` and the two bibliography files when it calls `\bibliography`, in that order |
| Tex.DropLoop | src/scons-local-0.96.93/SCons/Tool/tex.py:154 | the filter loop keeps the names other than base.aux, in their order |
| Tex.SourceTargetsAppend | src/scons-local-0.96.93/SCons/Tool/tex.py:139-147 | the sources' files are added source by source, in source order |
| Tex.SourceTargetsNames | src/scons-local-0.96.93/SCons/Tool/tex.py:139-147 | every file added for the sources is an index or bibliography file of the base name |
| Tex.EmittedShape | src/scons-local-0.96.93/SCons/Tool/tex.py:135-156 | the given targets stay in front, base.aux and base.log follow right after them, and nothing else is added but side files of the base name and the other .aux files the log names |
| Tex.IsLaTeX | src/scons-local-0.96.93/SCons/Tool/tex.py:115-123 | is_LaTeX returns 1 exactly when some source declares a document style or class, and 0 otherwise |
| Tex.RerunLoop | src/scons-local-0.96.93/SCons/Tool/tex.py:102-109 | the rerun loop runs LaTeX again as long as retries remain and the log asks for another run |
| Tex.LaTeXAuxAction | src/scons-local-0.96.93/SCons/Tool/tex.py:62-110 | the builder runs LaTeX, then BibTeX when an .aux file has bibdata, then MakeIndex and LaTeX when there is an .idx file, then the reruns |
| Tex.RerunsBound | src/scons-local-0.96.93/SCons/Tool/tex.py:102-109 | at most LATEXRETRIES reruns, all of them LaTeX, and none past the first log that no longer asks for one |
| Tex.AuxActionsBound | src/scons-local-0.96.93/SCons/Tool/tex.py:62-110 | the whole builder runs at most LATEXRETRIES actions besides the first LaTeX run, BibTeX and the index pair, and always starts with LaTeX |
| Jar.FirstManifest | src/scons-local-0.96.93/SCons/Tool/jar.py:58-61 | the index of the first source whose contents start with Manifest-Version, or -1 when there is none |
| Jar.JarManifest | src/scons-local-0.96.93/SCons/Tool/jar.py:56-62 | jarManifest returns the first manifest source, or nothing when there is none |
| Jar.KeptMembers | src/scons-local-0.96.93/SCons/Tool/jar.py:44-46 | exactly the sources that are not manifests are archived |
| Jar.JarSources | src/scons-local-0.96.93/SCons/Tool/jar.py:40-54 | jarSources gives the arguments of the kept sources, in their order |
| Jar.KeptAppend | src/scons-local-0.96.93/SCons/Tool/jar.py:44-53 | keeping commutes with concatenation, so the order of the sources is the order of the arguments |
| Jar.ArgsForShape | src/scons-local-0.96.93/SCons/Tool/jar.py:47-53 | without JARCHDIR the arguments are the kept paths; with it each kept path comes as -C, the directory and the path relative to it |
| Jar.FlagsFor | src/scons-local-0.96.93/SCons/Tool/jar.py:64-74 | the flags hold m exactly when they already did or a manifest is present, and at most one m is appended to them |
| Jar.JarFlags | src/scons-local-0.96.93/SCons/Tool/jar.py:64-74 | the jarFlags loop agrees with the reference definition |
| JavaH.JavaNode.constructor | src/scons-local-0.96.93/SCons/Tool/javah.py:84-95 | a new node has its path and class and no java attributes |
| JavaH.ClassSuffix | src/scons-local-0.96.93/SCons/Tool/javah.py:49 | the class suffix is JAVACLASSSUFFIX, or .class when it is not set |
| JavaH.ClassdirName | src/scons-local-0.96.93/SCons/Tool/javah.py:50-61 | JAVACLASSDIR when it is set and not empty, else the first source's classdir attribute, else . |
| JavaH.DirPrefix | src/scons-local-0.96.93/SCons/Tool/javah.py:63-66 | no prefix for the current directory, otherwise the class directory followed by the separator |
| JavaH.DerivedClassNameRoundTrip | src/scons-local-0.96.93/SCons/Tool/javah.py:72-78 | a class file under the class directory gives back the name it was made from, in the current directory and in any other |
| JavaH.DerivedClassNamePlain | src/scons-local-0.96.93/SCons/Tool/javah.py:72-78 | with no prefix and no suffix to strip, the path itself goes to the class-name rule |
| JavaH.HeaderName | src/scons-local-0.96.93/SCons/Tool/javah.py:92 | the header name is the class name with every dot replaced by an underscore, followed by .h |
| JavaH.SetClassAttributes | src/scons-local-0.96.93/SCons/Tool/javah.py:68-82 | every source gets the class directory and keeps its class name attribute or gets the derived one; nothing else changes |
| JavaH.HeaderTargets | src/scons-local-0.96.93/SCons/Tool/javah.py:86-95 | the target becomes a directory, and each source gets a fresh header file in it that remembers the directory |
| JavaH.OutFlag | src/scons-local-0.96.93/SCons/Tool/javah.py:99-107 | the flag is -d and the lookup directory when the first target has one, otherwise -o and the target; an empty list raises IndexError |
| JavaH.EmitJavaHeaders | src/scons-local-0.96.93/SCons/Tool/javah.py:45-97 | every source gets its attributes; an empty target list raises IndexError, a File target list is returned unchanged, and otherwise there is one header per source and the output flag names the target directory; sources keep their other attributes, and the targets other than the first are not touched |
| LaTeXScanner.LatexName | src/scons-local-0.96.93/SCons/Scanner/LaTeX.py:55-59 | latex_name appends .tex unless the keyword starts with includegraphics |
| LaTeXScanner.LatexNameKeywords | src/scons-local-0.96.93/SCons/Scanner/LaTeX.py:40 | include and input name .tex files, and includegraphics, with or without options, keeps the name |
| LaTeXScanner.SortKeyIgnoresKeyword | src/scons-local-0.96.93/SCons/Scanner/LaTeX.py:60-61 | graphics options do not change the sort key, and an include and an input of the same file sort together |
| LaTeXScanner.PathDirs | src/scons-local-0.96.93/SCons/Scanner/LaTeX.py:63 | a callable path is called for its directories |
| LaTeXScanner.FindInclude | src/scons-local-0.96.93/SCons/Scanner/LaTeX.py:62-66 | find_include searches the source directory and then the path entries, and returns the include beside the result |
| LaTeXScanner.FirstFound | src/scons-local-0.96.93/SCons/Scanner/LaTeX.py:64-65 | the search returns the first directory that holds the file, or nothing when none does |
| LaTeXScanner.SourceDirFirst | src/scons-local-0.96.93/SCons/Scanner/LaTeX.py:62-66 | a file next to the source wins over any path entry, and a path entry is used only when the source directory does not hold the file |
| Debug.ShortenList | src/scons-local-0.96.93/SCons/Debug.py:152-162 | three entries, with / replaced by the separator on other systems |
| Debug.FirstFragment | src/scons-local-0.96.93/SCons/Debug.py:166-168 | the first entry whose fragment occurs in the name, or -1 when none does |
| Debug.FuncShorten | src/scons-local-0.96.93/SCons/Debug.py:164-173 | func_shorten replaces the file name by its shortened form and keeps the line and the function name |
| Debug.ShortenedCut | src/scons-local-0.96.93/SCons/Debug.py:166-172 | the shortened name is the tail of the name starting at the matching fragment, or right after it, and the whole name when nothing matches |
| Debug.Sort | src/scons-local-0.96.93/SCons/Debug.py:59 | list.sort() gives a sorted permutation |
| Debug.StringToClasses | src/scons-local-0.96.93/SCons/Debug.py:56-62 | "*" gives every tracked class name, sorted; anything else is split into the names it lists |

## Left out

- The executor, the signature calculator and the file-system nodes are not part of this model. They are parameters: the factory results, the stored implicit dependencies, `current()` and the signature values.
- Node.Node.Scan: the executor's own scan of the sources and targets (Node/__init__.py:569-579) is not modelled, because the Executor is not part of this model. On that path the implicit list ends empty rather than holding the scanner results.
- Node.GetImplicitDeps: `disambiguate()` is the identity of the base class, and subclasses that change it are not part of this model. Its "never repeats a node" ensures is conditional on each scanner result being free of duplicates, because the source filters a batch against `seen` before adding that batch.
- Memoizer metaclasses, `logInstanceCreation` and the thread-safety notes of `build`/`retrieve_from_cache` are left out: they are runtime plumbing, and the model is sequential.
- `build()` and `retrieve_from_cache()` themselves are left out, because they call into the executor.
- NodeWalker: the `kids_func` of a Walker is a map from a node to its children, so the parent argument it receives is ignored.
- Subst: `eval` of `${...}` and of dotted names, and callables stored in variables, are abstract parameters (`ev` and `call`). Their results are given as values or error kinds.
- Subst: the recursion depth is bounded by a fuel argument. Running out shows as an explicit `RecursionLimit` error, where Python would raise a RuntimeError from its own stack limit.
- Subst: the optional `conv` argument of `scons_subst` and `scons_subst_list` (Subst.py:326, 466-467, 514, 755-756), which `Environment.subst` passes on (Environment.py:370), is not modelled. Conversion is always by mode, the default.
- Values.ToString: containers are rendered with the str of each element, not its repr, and a one-element tuple as `(a)`, not `(a,)`.
- EnvIxes: the path rules are those of POSIX `os.path` only.
- Subst: the `__builtin__` bookkeeping of the global variables is left out, because it only matters to Python's `eval`.
- EnvFlags.ParseFlags: the backtick `!cmd` branch is a parameter (`backtick`), because it runs a process.
- EnvFlags.ParseFlags: making File nodes for the `.a`/`.lib` words is a parameter (`file`).
- Environment: `SCons.Util.is_valid_construction_var` is a parameter of the environment (`validVar`).
- Environment: Python dictionary iteration order is the order of the given sequence of pairs.
- Environment.MergeOne: when the key is absent the source stores the caller's list and then reverses and dedupes it in place (Environment.py:663, 677), so the caller's list is changed too. Values are immutable here, so that aliasing is not modelled.
- Environment.Env.MergeFlags: the `unique=0` path delegates to `Append`, which is not part of this model. Only the merging path is modelled.
- Environment: the removal of scanner map entries on a `SCANNERS` update and the deep copy of keyword values are left out. Values are immutable here, so the copy is the identity.
- Environment: iterating a dictionary value, which Python does over its keys in hash order, is reported as a TypeError. Hash order is not modelled.
- Conftest: the appends to the header file and `_LogFailed` are left out, because they are file I/O.
- Conftest: building and running a test program is a parameter (`build`), which returns the error text or the empty string.
- Conftest.CheckLibResult: with an empty library list the source's `ret` is unbound. This is modelled as an UnboundLocalError result.
- Conftest.Context.CheckLib: the language lookup is done once for the call rather than once per library, since its inputs do not change inside the loop.
- SConf: configure tests are abstract. The model covers the context, the messages and the cache decisions around a test.
- SConf.SConfContext.constructor: the module-global `_ac_config_hs` (SConf.py:83, 619, 641) becomes a map that the constructor takes and Shutdown hands back. Sharing it between configure contexts is left to the caller, since module globals are not modelled.
- SConf: the directory change and output redirection of `BuildNodes` are left out, as are the `Streamer` and the log stream.
- SConf: the `_shutdown` handling of the `SConfSourceBuilder` removal and of the log stream is left out.
- SConf: the sconsign bookkeeping in the build/exception branch of `SConfBuildTask.execute` is left out, because it writes the signature database.
- SConf: the "Only one SConf object may be active at one time" check (SConf.py:343-345) raises a tuple in the same way as the guard under Findings. It is not modelled, because the active-object global is not part of this model.
- PackageOption.Validate: whether a path exists (`os.path.exists`) is a parameter.
- Tex: the regular-expression search of the log for `.aux` names is given as the list of names it finds.
- Tex: file reads and the state of the log after each LaTeX run are parameters (`contents`, `logAfter`).
- Tex: `SCons.Util.splitext` is not part of this model, so the base name is an argument.
- Tex: `int()` of `LATEXRETRIES` is taken as an integer.
- Tex.TexEmitter: the target list the source extends in place is returned as a new sequence, so aliasing is not modelled.
- Tex: `TeXLaTeXFunction` and the builder wiring are left out. They only dispatch on the LaTeX decision, which is modelled.
- JavaH: `rfile()` is the identity.
- JavaH: `target[0].File` gives a fresh node.
- JavaH: the lookup directory is stored as a path string.
- JavaH: `env.Dir().rdir()` and `javac.classname` are parameters.
- JavaH.OutFlag: a target that is not a list is not modelled, since targets are always a sequence here.
- Jar: the path of a source relative to `JARCHDIR` is a parameter (`relative`).
- LaTeXScanner: `FS.find_file` and `_my_normcase` are parameters (`findFile`, `normcase`). `FirstFound` is a reference search that they can be instantiated with.
- Debug: the keys of `tracked_classes` are given as a list.
- Debug: `os.sep` is a parameter.
- Debug: the functions other than `func_shorten` and `string_to_classes` (memory, timing, `caller`, `Trace`, `fetchLoggedInstances`) are runtime plumbing, and are not part of this model.

## Findings

| source | as written | input that shows it | evidently intended | confidence | as-written member | corrected member |
|---|---|---|---|---|---|---|
| src/scons-local-0.96.93/SCons/Environment.py:160-167 | when the environment has no BUILDERS entry, the KeyError handler builds a BuilderDict from the undefined name `kwbd`, so it raises NameError | setting BUILDERS in an environment whose dictionary has no BUILDERS key (lemma Environment.BuildersWithoutEntry) | create an empty BuilderDict for the key, then update it with the new builders | not executed | Environment.SetBuildersAsWritten | Environment.SetBuilders |
| src/scons-local-0.96.93/SCons/SConf.py:547-549 | TestWrapper raises the tuple of UserError and its message; Python 2 raises the tuple's first element, so the UserError carries no message | calling a configure test after Finish, when the context is not active (lemma SConf.TestGuardLosesMessage) | raise UserError with the message "Test called after sconf.Finish()" | not executed | SConf.TestGuardAsWritten | SConf.TestGuard |
