# ImportInternalFunctionSniff, modelled in Dafny

This project models the PHP_CodeSniffer rule `ImportInternalFunctionSniff` of
the WpOnepix coding standard. The rule scans a PHP file's identifiers. It
reports calls to PHP's built-in functions that should be imported with
`use function` inside a namespace. It also reports a leading `\` that is
redundant or not allowed. Its fixes delete the `\` or insert a sorted block of
`use function` lines for each namespace.

Two parts are modelled over an abstract token sequence:

- **The call-site decision (`processString`).** It is the pure function
  `ImportInternalFunction.Decide`. The function applies four checks in the
  source's order:
  1. the next non-empty token is `(`;
  2. the lowered name is a built-in;
  3. the token before the name, skipping whitespace, comments and `\`, is not
     `function`, `new`, an identifier, `::` or `->`;
  4. the name is or is not preceded by a `\`.

  It then picks at most one of NoNamespace, ExcludeRedundantFQN, RedundantFQN,
  ImportFQN and Import. It also picks the fixer calls and the name to import.
  The method `Sniff.ProcessString` performs that decision on the sniff's state.
- **The per-namespace state machine (`process`, `importFunction`,
  `importFunctions`).** It is the class `Sniff`. Its fields are the
  `exclude` list, the built-in set, the import map `importedFunctions`, the
  error list `diags` and the recorded fixer calls `edits`. `Process` runs the
  source's do-while loop over the `T_STRING` tokens.
  - When the enclosing namespace changes, it flushes the pending names as one
    sorted `use function` block. It then installs the new namespace's import
    map and reports ExcludeImported for each import whose fqn is excluded.
  - It flushes again at the end of the file and returns `numTokens + 1`.
  - A ghost log `flushed` records each non-empty flush, and a ghost log
    `returned` records each name `processString` returns, with its namespace.
  - The whole run is specified by functions on a value `ScanState`:
    `SwitchTo` (a namespace change), `Classify` (the decision), `Turn` (one
    identifier), `Run` (the turns for a list of identifiers), `Visits` (the
    identifier `process` is called at and every later `T_STRING`) and
    `Finish` (the last flush). `Process` ends in exactly the state
    `Finish(Run(Visits(...), start))`: its errors, fixer calls, import map and
    both logs are those functions of the file. `RunFrom` is the same loop run
    front to back as the source writes it, and `RunFromIsRun` proves the two
    agree; `RunOnlyAppends` proves that a run never takes back an error, a
    fixer call or a log entry.
  - `Process` also proves that every flushed block is sorted, has no
    duplicates, holds only built-ins and holds no excluded name, and that
    namespaces are flushed at most once each, in source order. Each block
    holds exactly the names returned in its namespace, and every namespace
    that returned a name, the last one included, has a block. So each such
    namespace has exactly one block, and that block is `sort()` of its names
    (`OneSortedBlockPerNamespace`).

Modules:

- `PhpTokens` (`php_tokens.dfy`): token codes and tokens, the host's
  `findNext` and `findPrevious` as recursive scans with full specifications,
  and the ASCII-only `strtolower` of PHP 8.2 and later (earlier versions
  follow the locale, which is not modelled).
- `Fixer` (`fixer.dfy`): the diagnostic codes, a diagnostic (code and token
  pointer) and the fixer calls (`beginChangeset`, `endChangeset`,
  `replaceToken`, `addContent`, `addNewline`) as values.
- `UseBlock` (`use_block.dfy`): PHP's `sort()` on the pending names, and the
  text of the `use function` block. A reader takes the block apart again and
  recovers exactly the sorted names.
- `ImportInternalFunction` (`import_internal_function.dfy`): the decision, its
  lemmas, the ExcludeImported report and fix, the flush, and the `Sniff`
  class.

Inputs from outside the sniff:

- The host's "does the user want this fixed" answer from `addFixableError` is
  an oracle `wantsFix: Diagnostic -> bool`.
- `getGlobalUses` (from `NamespacesTrait`) is a parameter `globalUses`. It
  maps a namespace pointer to an ordered list of (key, entry) pairs, which
  stands for a PHP array.
- `getBuiltInFunctions` is the constructor's argument.
- The configured `exclude` value is an optional list.
- `findEndOfStatement` and `scope_opener` are attributes of each token.
- The file's end-of-line string is a parameter.

Behaviour of the code that the model keeps and that the lemmas state:

- When `findPrevious` finds nothing before the name, the source reads
  `$tokens[false]`. PHP reads that as token 0, and the model does the same:
  with only whitespace, comments and `\` before the name the call is global
  (`NothingBefore`). Otherwise the call is global exactly when the first
  other token before the name is not `function`, `new`, an identifier, `::`
  or `->` (`GlobalCallAt`, `MemberOrDeclarationNotGlobal`).
- A bare call of an excluded name produces no diagnostic at all
  (`ExcludedNeverImported`).
- A `\`-qualified call outside a namespace is reported as NoNamespace, not
  as RedundantFQN (`QualifiedWithoutNamespace`).
- The ExcludeImported fix blanks tokens `ptr` through the end of the
  statement. After the loop the counter is one past the end of the
  statement, so the whitespace check looks at the token after that one. The
  token that directly follows the statement is never blanked
  (`ExcludeImportedFixBlanks`).
- The namespace pointer only ever changes from nothing to a keyword, or from
  one keyword to a later one. So the `getGlobalUses` call never takes its
  fallback pointer 0, and `EnterNamespace` requires a namespace.
- Outside a namespace the import map is never consulted. A map left over from
  an earlier file therefore has no effect (`NoNamespaceIgnoresImports`).
- The pending list is never deduplicated. It never needs to be, because a
  name that was imported once in a namespace is never returned again in that
  namespace (`ImportedNotReturnedAgain`, `PendingExtend`, and the
  `PendingWell` part of `Process`'s invariant).

## Model

| member | source | states |
|---|---|---|
| PhpTokens.FindNext | WpOnepixStandard/Sniffs/PHP/ImportInternalFunctionSniff.php:147-148 | the first index from `from` on whose code is a hit (outside `types` when excluding), with every token before it a miss, or none when all are misses |
| PhpTokens.FindPrevious | WpOnepixStandard/Sniffs/PHP/ImportInternalFunctionSniff.php:157-162 | the last index below the start whose code is a hit, with every token between a miss, or none when nothing down to index 0 is a hit |
| PhpTokens.FindPreviousMonotone | WpOnepixStandard/Sniffs/PHP/ImportInternalFunctionSniff.php:83-84 | a later identifier never has an earlier enclosing `namespace` keyword than an earlier one |
| PhpTokens.Lower | WpOnepixStandard/Sniffs/PHP/ImportInternalFunctionSniff.php:152 | strtolower keeps the length, maps each ASCII capital to its small letter and leaves every other character alone |
| PhpTokens.LowerIdempotent | WpOnepixStandard/Sniffs/PHP/ImportInternalFunctionSniff.php:196 | lowering an already lowered name changes nothing |
| UseBlock.StrLeTotal | WpOnepixStandard/Sniffs/PHP/ImportInternalFunctionSniff.php:262 | any two names are ordered one way or the other under PHP's string comparison |
| UseBlock.StrLeAntisymmetric | WpOnepixStandard/Sniffs/PHP/ImportInternalFunctionSniff.php:262 | two names that each sort at most the other are equal |
| UseBlock.StrLeTransitive | WpOnepixStandard/Sniffs/PHP/ImportInternalFunctionSniff.php:262 | the name order is transitive |
| UseBlock.SortNames | WpOnepixStandard/Sniffs/PHP/ImportInternalFunctionSniff.php:262 | sort() yields an ascending list that is a permutation of its input |
| UseBlock.SortedUnique | WpOnepixStandard/Sniffs/PHP/ImportInternalFunctionSniff.php:262 | two sorted arrangements of the same names are the same list |
| UseBlock.SortNamesUnique | WpOnepixStandard/Sniffs/PHP/ImportInternalFunctionSniff.php:262 | any sorted permutation of the names is the list sort() returns |
| UseBlock.NoDupOfPermutation | WpOnepixStandard/Sniffs/PHP/ImportInternalFunctionSniff.php:262 | sorting a list without duplicates gives a list without duplicates |
| UseBlock.BlockSnoc | WpOnepixStandard/Sniffs/PHP/ImportInternalFunctionSniff.php:276-278 | appending a name appends exactly its `eol + "use function " + name + ";"` line to the block |
| UseBlock.BuildBlock | WpOnepixStandard/Sniffs/PHP/ImportInternalFunctionSniff.php:275-278 | the `$content .=` loop builds the concatenation of one line per name, in list order |
| UseBlock.ParseBlockRoundTrip | WpOnepixStandard/Sniffs/PHP/ImportInternalFunctionSniff.php:275-280 | reading the inserted block back gives exactly the names it was built from, in order, when no name holds `;` |
| ImportInternalFunction.QualifierOf | WpOnepixStandard/Sniffs/PHP/ImportInternalFunctionSniff.php:173-174 | the reported qualifier is a `\` before the name with only whitespace and comments between, and any such `\` is the one reported, so none means there is none |
| ImportInternalFunction.Decide | WpOnepixStandard/Sniffs/PHP/ImportInternalFunctionSniff.php:141-240 | a name is returned only inside a namespace, only for a built-in that is not excluded and not already imported with an fqn, and only together with one wanted ImportFQN or Import error; at most one error, always at the identifier and never ExcludeImported; edits only with an error, and every token replaced is the `\` qualifier, replaced by "" |
| ImportInternalFunction.NotACallIgnored | WpOnepixStandard/Sniffs/PHP/ImportInternalFunctionSniff.php:146-171 | not a call, not a built-in, or preceded by `function`, `new`, an identifier, `::` or `->`: no error, no edit, no name |
| ImportInternalFunction.CallSiteAt | WpOnepixStandard/Sniffs/PHP/ImportInternalFunctionSniff.php:147-150 | with only whitespace and comments up to token k, the identifier counts as a call exactly when token k is `(` |
| ImportInternalFunction.MemberOrDeclarationNotGlobal | WpOnepixStandard/Sniffs/PHP/ImportInternalFunctionSniff.php:157-171 | `function`, `new`, an identifier, `::` or `->` before the name, past whitespace, comments and `\`, rules out a global call |
| ImportInternalFunction.QualifiedWithoutNamespace | WpOnepixStandard/Sniffs/PHP/ImportInternalFunctionSniff.php:174-184 | a qualified built-in call with no namespace gives exactly one NoNamespace error, its fix replaces only the `\` by "", and no name is returned |
| ImportInternalFunction.ExcludedNeverImported | WpOnepixStandard/Sniffs/PHP/ImportInternalFunctionSniff.php:185-226 | an excluded name is never returned; qualified in a namespace it gives exactly ExcludeRedundantFQN with the `\` deleted; bare it gives nothing |
| ImportInternalFunction.QualifiedInNamespace | WpOnepixStandard/Sniffs/PHP/ImportInternalFunctionSniff.php:195-220 | imported with the same lowered fqn: RedundantFQN deleting the `\`; imported under another fqn: nothing; not imported: ImportFQN, the `\` deleted in one changeset and the name returned exactly when the fix is wanted |
| ImportInternalFunction.BareCall | WpOnepixStandard/Sniffs/PHP/ImportInternalFunctionSniff.php:222-236 | an unqualified built-in call in a namespace, neither imported nor excluded, gives one Import error with no edit and returns the name exactly when the fix is wanted; otherwise nothing |
| ImportInternalFunction.NoNamespaceIgnoresImports | WpOnepixStandard/Sniffs/PHP/ImportInternalFunctionSniff.php:174-237 | outside a namespace the outcome does not depend on the import map |
| ImportInternalFunction.QualifiedAfterImportRedundant | WpOnepixStandard/Sniffs/PHP/ImportInternalFunctionSniff.php:195-205 | after importFunction has recorded a name, a later `\`-qualified call of it in the namespace is exactly a RedundantFQN error whose fix deletes only the `\` |
| ImportInternalFunction.ImportedNotReturnedAgain | WpOnepixStandard/Sniffs/PHP/ImportInternalFunctionSniff.php:242-251 | once importFunction has recorded a name, no later call in the namespace returns it again |
| ImportInternalFunction.AddedSnoc | WpOnepixStandard/Sniffs/PHP/ImportInternalFunctionSniff.php:244-248 | importing one more pending name is the single map update importFunction makes |
| ImportInternalFunction.UsesMap | WpOnepixStandard/Sniffs/PHP/ImportInternalFunctionSniff.php:94-98 | the import map's keys are exactly the keys of the namespace's imports |
| ImportInternalFunction.UsesMapValues | WpOnepixStandard/Sniffs/PHP/ImportInternalFunctionSniff.php:94-98 | with distinct keys, each key of the import map maps to its own import |
| ImportInternalFunction.ExcludedDiagsExactly | WpOnepixStandard/Sniffs/PHP/ImportInternalFunctionSniff.php:100-106 | an ExcludeImported error is reported at a pointer exactly when some import there has a lowered fqn in `exclude` |
| ImportInternalFunction.ExcludedStep | WpOnepixStandard/Sniffs/PHP/ImportInternalFunctionSniff.php:100-120 | each import of the map adds its own error and fix after those of the imports before it |
| ImportInternalFunction.ExcludeImportedFixBlanks | WpOnepixStandard/Sniffs/PHP/ImportInternalFunctionSniff.php:108-119 | the fix only blanks tokens; it blanks exactly `ptr..eos` and, when it is whitespace, `eos+2`; token `eos+1` is never blanked |
| ImportInternalFunction.FlushEditsShape | WpOnepixStandard/Sniffs/PHP/ImportInternalFunctionSniff.php:264-282 | a nonempty flush starts and ends its changeset, adds exactly one text at the insertion point, and adds a newline exactly when there is no `{` |
| ImportInternalFunction.FlushEditsInsertSortedBlock | WpOnepixStandard/Sniffs/PHP/ImportInternalFunctionSniff.php:264-282 | the one text a flush adds goes at the `{` or else the statement end, and reads back as exactly the names, sorted |
| ImportInternalFunction.PendingExtend | WpOnepixStandard/Sniffs/PHP/ImportInternalFunctionSniff.php:124-131 | a name the decision returns can join the pending list without creating a duplicate or admitting an excluded or non-built-in name |
| ImportInternalFunction.SortKeepsPending | WpOnepixStandard/Sniffs/PHP/ImportInternalFunctionSniff.php:262 | the sorted pending list is sorted and keeps its no-duplicate, built-in and not-excluded properties |
| ImportInternalFunction.FlushAppend | WpOnepixStandard/Sniffs/PHP/ImportInternalFunctionSniff.php:86-92 | flushing the namespace left keeps the flush log well formed and strictly increasing in namespace pointer |
| ImportInternalFunction.SwitchKeepsInvariant | WpOnepixStandard/Sniffs/PHP/ImportInternalFunctionSniff.php:86-98 | after a namespace change the import map is exactly the new namespace's, the pending list is empty and the flush log stays well formed |
| ImportInternalFunction.FlushCloses | WpOnepixStandard/Sniffs/PHP/ImportInternalFunctionSniff.php:86-92 | flushing the current namespace gives every namespace that returned a name a block holding exactly those names |
| ImportInternalFunction.SwitchKeepsMatch | WpOnepixStandard/Sniffs/PHP/ImportInternalFunctionSniff.php:86-92 | after a namespace change the new namespace has returned nothing yet, and every namespace left has its block of exactly its returned names |
| ImportInternalFunction.CollectStep | WpOnepixStandard/Sniffs/PHP/ImportInternalFunctionSniff.php:124-131 | a name returned in the current namespace extends its pending list by that name, and the earlier blocks still match |
| ImportInternalFunction.CollectKeepsInvariant | WpOnepixStandard/Sniffs/PHP/ImportInternalFunctionSniff.php:124-131 | importing a returned name and adding it to the pending list keeps the import map, the pending list and the blocks as the scan requires |
| ImportInternalFunction.OneSortedBlockPerNamespace | WpOnepixStandard/Sniffs/PHP/ImportInternalFunctionSniff.php:82-136 | after the scan, a namespace that returned names has exactly one block, and that block is sort() of those names |
| ImportInternalFunction.IsCallSite | WpOnepixStandard/Sniffs/PHP/ImportInternalFunctionSniff.php:146-150 | the identifier is a call when the first token after it that is not whitespace or a comment is `(` (stated both ways by `CallSiteAt`) |
| ImportInternalFunction.IsGlobalCall | WpOnepixStandard/Sniffs/PHP/ImportInternalFunctionSniff.php:157-171 | the call is global unless the token before the name, skipping whitespace, comments and `\`, is `function`, `new`, an identifier, `::` or `->`; with no such token, token 0 is read |
| ImportInternalFunction.GlobalCallAt | WpOnepixStandard/Sniffs/PHP/ImportInternalFunctionSniff.php:157-171 | when `k` is the first token before the name that is not whitespace, a comment or `\`, the call is global exactly when `k` is none of `function`, `new`, an identifier, `::`, `->` |
| ImportInternalFunction.NothingBefore | WpOnepixStandard/Sniffs/PHP/ImportInternalFunctionSniff.php:157-171 | with only whitespace, comments and `\` before the name, the check reads token 0 and the call is global |
| ImportInternalFunction.ExcludedDiags | WpOnepixStandard/Sniffs/PHP/ImportInternalFunctionSniff.php:100-107 | one error per excluded import at most, every one of them ExcludeImported |
| ImportInternalFunction.ExcludeImportedFix | WpOnepixStandard/Sniffs/PHP/ImportInternalFunctionSniff.php:108-118 | one changeset whose every inner call blanks a token |
| ImportInternalFunction.ExcludedEdits | WpOnepixStandard/Sniffs/PHP/ImportInternalFunctionSniff.php:100-121 | the fixes only open and close changesets and blank tokens, and there are none when no import is excluded |
| ImportInternalFunction.FlushEdits | WpOnepixStandard/Sniffs/PHP/ImportInternalFunctionSniff.php:256-283 | a flush makes fixer calls exactly when there are names to import |
| ImportInternalFunction.SwitchTo | WpOnepixStandard/Sniffs/PHP/ImportInternalFunctionSniff.php:86-121 | the namespace becomes `found` and the returned log is untouched; with no change the state is unchanged; on a change the pending list is emptied and the map becomes the new namespace's `getGlobalUses`; errors, edits and the flush log only grow, and every error added is ExcludeImported |
| ImportInternalFunction.Classify | WpOnepixStandard/Sniffs/PHP/ImportInternalFunctionSniff.php:124-131 | the namespace and flush log are untouched, errors and edits only grow, by at most one error; with no name returned, pending list and map are unchanged; otherwise the name is the lowered identifier, built-in and not excluded, logged with the current namespace, appended to the pending list and imported |
| ImportInternalFunction.Finish | WpOnepixStandard/Sniffs/PHP/ImportInternalFunctionSniff.php:134-136 | no namespace is current and nothing is pending afterwards; map, errors and returned log are untouched, edits and flush log only grow, and not at all when nothing was pending |
| ImportInternalFunction.Sniff.constructor | WpOnepixStandard/Sniffs/PHP/ImportInternalFunctionSniff.php:47-50 | the built-in set is the one given; exclude, import map, errors and edits start empty |
| ImportInternalFunction.Sniff.ImportFunction | WpOnepixStandard/Sniffs/PHP/ImportInternalFunctionSniff.php:242-251 | the map gains `name => {name, fqn: name, ptr: 0}`, nothing else changes, and the name is returned |
| ImportInternalFunction.Sniff.ImportFunctions | WpOnepixStandard/Sniffs/PHP/ImportInternalFunctionSniff.php:256-283 | the edits grow by exactly the flush's changeset, and the log records the sorted names when there are any |
| ImportInternalFunction.Sniff.BlankImport | WpOnepixStandard/Sniffs/PHP/ImportInternalFunctionSniff.php:109-118 | the edits grow by exactly the ExcludeImported changeset for the import at `ptr` |
| ImportInternalFunction.Sniff.ReportExcludedImport | WpOnepixStandard/Sniffs/PHP/ImportInternalFunctionSniff.php:101-119 | an import with an excluded fqn adds one ExcludeImported error, and its fix when wanted; any other import adds nothing |
| ImportInternalFunction.Sniff.ReportExcludedImports | WpOnepixStandard/Sniffs/PHP/ImportInternalFunctionSniff.php:100-121 | the errors and edits grow by exactly those of the excluded imports, in map order |
| ImportInternalFunction.Sniff.ProcessString | WpOnepixStandard/Sniffs/PHP/ImportInternalFunctionSniff.php:141-240 | errors and edits grow by the decision's, and the map gains the returned name's entry and nothing else |
| ImportInternalFunction.Sniff.SwitchKeepsScanning | WpOnepixStandard/Sniffs/PHP/ImportInternalFunctionSniff.php:86-98 | flushing the namespace left and installing the new namespace's map restores the scan invariant with an empty pending list |
| ImportInternalFunction.Sniff.EnterNamespace | WpOnepixStandard/Sniffs/PHP/ImportInternalFunctionSniff.php:94-121 | the import map becomes the new namespace's, and the errors and edits grow by exactly the ExcludeImported errors and fixes of its imports |
| ImportInternalFunction.Sniff.LeaveNamespace | WpOnepixStandard/Sniffs/PHP/ImportInternalFunctionSniff.php:87-89 | the edits grow by exactly the flush of the namespace left, if there is one, and the log records its sorted names when there are any |
| ImportInternalFunction.Sniff.SwitchNamespace | WpOnepixStandard/Sniffs/PHP/ImportInternalFunctionSniff.php:86-121 | the edits grow by the flush of the namespace left followed by the new namespace's ExcludeImported fixes, the errors by its ExcludeImported errors, and the map becomes the new namespace's |
| ImportInternalFunction.Sniff.EnterIfChanged | WpOnepixStandard/Sniffs/PHP/ImportInternalFunctionSniff.php:83-122 | the namespace used is the last `namespace` keyword before the identifier, and the state after the call (map, errors, edits, flush log, pending list) is exactly `SwitchTo` of the state before: the switch on a change, nothing otherwise; the scan invariant is kept |
| ImportInternalFunction.Sniff.Collect | WpOnepixStandard/Sniffs/PHP/ImportInternalFunctionSniff.php:124-131 | the state after the call is exactly `Classify` of the state before: errors and edits grow by the decision's on the map as it was, and a returned name is imported, pending and logged; the scan invariant is kept |
| ImportInternalFunction.Sniff.ScanString | WpOnepixStandard/Sniffs/PHP/ImportInternalFunctionSniff.php:82-131 | the state after one turn of the loop is exactly `Turn` of the state before |
| ImportInternalFunction.Sniff.ScanFile | WpOnepixStandard/Sniffs/PHP/ImportInternalFunctionSniff.php:82-132 | the do-while loop ends in exactly `Run(Visits(stackPtr), state before)`, keeping the scan invariant |
| ImportInternalFunction.Sniff.FinishFile | WpOnepixStandard/Sniffs/PHP/ImportInternalFunctionSniff.php:134-136 | the state after the final flush is exactly `Finish` of the state before, and every namespace that returned a name has its block of exactly those names |
| ImportInternalFunction.Sniff.Process | WpOnepixStandard/Sniffs/PHP/ImportInternalFunctionSniff.php:72-139 | returns numTokens + 1, sets exclude from the configuration, and ends in exactly `Finish(Run(Visits(stackPtr), state at entry with an empty returned log))`; every block flushed is sorted, free of duplicates, built-in only and free of excluded names, namespaces are flushed at most once each, in source order, each block holds exactly the names returned in its namespace, and every namespace that returned a name has a block |
| ImportInternalFunction.StringsFrom | WpOnepixStandard/Sniffs/PHP/ImportInternalFunctionSniff.php:132 | the indices listed are `T_STRING` tokens of the file from `from` on, strictly increasing |
| ImportInternalFunction.StringsFromExactly | WpOnepixStandard/Sniffs/PHP/ImportInternalFunctionSniff.php:132 | an index is listed exactly when it is a `T_STRING` token at or after `from`: none is skipped |
| ImportInternalFunction.Visits | WpOnepixStandard/Sniffs/PHP/ImportInternalFunctionSniff.php:82-132 | every identifier the loop visits is a token of the file |
| ImportInternalFunction.Turn | WpOnepixStandard/Sniffs/PHP/ImportInternalFunctionSniff.php:82-131 | after a turn the current namespace is the last `namespace` keyword before the identifier |
| ImportInternalFunction.Run | WpOnepixStandard/Sniffs/PHP/ImportInternalFunctionSniff.php:82-132 | the current namespace after a run is a token of the file |
| ImportInternalFunction.RunSnoc | WpOnepixStandard/Sniffs/PHP/ImportInternalFunctionSniff.php:82-132 | one more identifier is one more turn |
| ImportInternalFunction.RunAppend | WpOnepixStandard/Sniffs/PHP/ImportInternalFunctionSniff.php:82-132 | running two lists of identifiers one after the other is running their concatenation |
| ImportInternalFunction.RunFrom | WpOnepixStandard/Sniffs/PHP/ImportInternalFunctionSniff.php:82-132 | the loop as the source writes it (a turn, then on to the next `T_STRING`) leaves the current namespace a token of the file |
| ImportInternalFunction.RunFromIsRun | WpOnepixStandard/Sniffs/PHP/ImportInternalFunctionSniff.php:82-132 | the loop as the source writes it makes exactly the turns for the identifiers `Visits` lists, in order |
| ImportInternalFunction.TurnOnlyAppends | WpOnepixStandard/Sniffs/PHP/ImportInternalFunctionSniff.php:82-131 | a turn never takes back an error, a fixer call, a flushed block or a returned name |
| ImportInternalFunction.RunOnlyAppends | WpOnepixStandard/Sniffs/PHP/ImportInternalFunctionSniff.php:82-132 | a whole run never takes back an error, a fixer call, a flushed block or a returned name |

## Left out

- The PHP_CodeSniffer host is not modelled: `File`, `getTokens`, the error
  messages and their `sprintf` data, and the `register` contract. The model
  keeps only that the sniff is called at a token and walks every later
  `T_STRING`.
- `addFixableError` is an oracle. The model always records the diagnostic; an
  error the host suppresses (an ignore annotation, a severity filter) is not
  modelled.
- The fixer applies the recorded calls and may run the sniff several times
  until nothing changes. Neither step is modelled; edits are values in call
  order.
- `Helper::getConfigData` is not modelled. The configured value is an optional
  list, and the `(array)` cast of a scalar configuration value is not modelled.
- `getGlobalUses` and `getBuiltInFunctions` (`NamespacesTrait`) are not part
  of this model. They are inputs. Their results are assumed well formed: keys
  are distinct and every import pointer is a token of the file.
- Tokenizing, `findEndOfStatement` and `scope_opener` are not modelled. The
  last two are token attributes.
- UseBlock.SortNames: models PHP's `sort()` with the default flags only for
  non-numeric strings, compared byte by byte. That is every PHP function
  name; numeric strings, which PHP compares as numbers, are not modelled.
- ImportInternalFunction.ExcludeImportedFix: when the token the whitespace
  check reads (`eos + 2`, or `ptr + 1` when `ptr > eos`) is not a token of
  the file, the source reads it without a bounds check. PHP warns about the
  undefined key, and the host turns that warning into an error that stops the
  file. The model instead treats the missing token as not whitespace and
  blanks nothing more.
