/** ImportInternalFunctionSniff: reports calls to PHP's built-in
    functions that are neither imported with `use function` nor written
    where a leading `\` is required, and records the fixer edits that
    import them or drop the redundant `\`. */
module ImportInternalFunction {
  import opened PhpTokens
  import opened Fixer
  import opened UseBlock

  /** One entry of the per-namespace import map. */
  datatype ImportEntry = ImportEntry(name: string, fqn: Option<string>, ptr: nat)

  /** The entry importFunction writes for a name it imports. */
  function Imported(name: string): ImportEntry {
    ImportEntry(name, Some(name), 0)
  }

  /** What processString does for one identifier: the diagnostics it
      reports, the fixer calls it makes and the name it returns. */
  datatype Decision = Decision(diags: seq<Diagnostic>, edits: seq<Edit>, name: Option<string>)

  const Nothing: Decision := Decision([], [], None)

  /** Codes that, right before the identifier (skipping whitespace,
      comments and `\`), make it a declaration, a constructor, a static
      or a method call rather than a call to the global function. */
  const NotGlobalCallCodes: set<Code> := {Function, New, String, DoubleColon, ObjectOperator}

  /** The lowered identifier text; a token without content gives "". */
  function CallName(tok: Token): string {
    match tok.content
    case Some(c) => Lower(c)
    case None => ""
  }

  /** The next token that is not whitespace or a comment is `(`. */
  predicate IsCallSite(tokens: seq<Token>, p: nat)
    requires p < |tokens|
  {
    var next := FindNext(tokens, p + 1, EmptyCodes, true);
    next.Some? && tokens[next.value].code == OpenParenthesis
  }

  /** The token before the identifier, skipping whitespace, comments and
      `\`, is none of NotGlobalCallCodes. When no such token exists the
      host's findPrevious gives `false`, and `$tokens[false]` reads
      token 0. */
  predicate IsGlobalCall(tokens: seq<Token>, p: nat)
    requires p < |tokens|
  {
    var prev := FindPrevious(tokens, p, EmptyCodes + {NsSeparator}, true);
    tokens[prev.GetOr(0)].code !in NotGlobalCallCodes
  }

  /** The `\` right before the identifier (skipping whitespace and
      comments), if there is one. */
  function QualifierOf(tokens: seq<Token>, p: nat): (r: Option<nat>)
    requires p < |tokens|
    ensures r.Some? ==> r.value < p && tokens[r.value].code == NsSeparator
    ensures r.Some? ==> forall j :: r.value < j < p ==> tokens[j].code in EmptyCodes
    ensures forall q: nat :: (q < p && tokens[q].code == NsSeparator
                              && forall j :: q < j < p ==> tokens[j].code in EmptyCodes) ==> r == Some(q)
  {
    var prev := FindPrevious(tokens, p, EmptyCodes, true);
    if prev.Some? && tokens[prev.value].code == NsSeparator then prev else None
  }

  /** A fixable error whose fix deletes the `\` token `q`. */
  function DropQualifier(code: DiagCode, p: nat, q: nat, wantsFix: Diagnostic -> bool): Decision {
    var d := Diagnostic(code, p);
    Decision([d], if wantsFix(d) then [ReplaceToken(q, "")] else [], None)
  }

  /** processString for the identifier at `p`, given the enclosing
      namespace keyword `ns`, the built-in names, the exclude list, the
      current import map, and whether the host wants each error fixed.
      A name is returned only inside a namespace, only for a built-in
      that is not excluded and not already imported with a known fqn. */
  function Decide(tokens: seq<Token>, p: nat, ns: Option<nat>, builtIns: set<string>,
                  exclude: seq<string>, imported: map<string, ImportEntry>,
                  wantsFix: Diagnostic -> bool): (r: Decision)
    requires p < |tokens|
    ensures r.name.Some? ==> ns.Some? && r.name.value == CallName(tokens[p])
    ensures r.name.Some? ==> r.name.value in builtIns && r.name.value !in exclude
    ensures r.name.Some? && r.name.value in imported ==> imported[r.name.value].fqn.None?
    ensures r.name.Some? ==> r.diags == [Diagnostic(if QualifierOf(tokens, p).Some? then ImportFQN else Import, p)]
    ensures r.name.Some? ==> wantsFix(r.diags[0])
    ensures forall d :: d in r.diags ==> d.ptr == p && d.code != ExcludeImported
    ensures |r.diags| <= 1 && (r.diags == [] ==> r.edits == [])
    ensures forall e :: e in r.edits && e.ReplaceToken? ==> QualifierOf(tokens, p) == Some(e.ptr) && e.text == ""
  {
    var name := CallName(tokens[p]);
    if !IsCallSite(tokens, p) || name !in builtIns || !IsGlobalCall(tokens, p) then Nothing
    else match QualifierOf(tokens, p)
      case Some(q) =>
        if ns.None? then DropQualifier(NoNamespace, p, q, wantsFix)
        else if name in exclude then DropQualifier(ExcludeRedundantFQN, p, q, wantsFix)
        else if name in imported && imported[name].fqn.Some? then
          if Lower(imported[name].fqn.value) == name then DropQualifier(RedundantFQN, p, q, wantsFix)
          else Nothing
        else
          var d := Diagnostic(ImportFQN, p);
          if wantsFix(d) then Decision([d], [BeginChangeset, ReplaceToken(q, ""), EndChangeset], Some(name))
          else Decision([d], [], None)
      case None =>
        if ns.Some? && name !in imported && name !in exclude then
          var d := Diagnostic(Import, p);
          Decision([d], [], if wantsFix(d) then Some(name) else None)
        else Nothing
  }

  /** Not a call, not a built-in, or not a call to the global function:
      nothing is reported, edited or returned. */
  lemma NotACallIgnored(tokens: seq<Token>, p: nat, ns: Option<nat>, builtIns: set<string>,
                        exclude: seq<string>, imported: map<string, ImportEntry>,
                        wantsFix: Diagnostic -> bool)
    requires p < |tokens|
    requires !IsCallSite(tokens, p) || CallName(tokens[p]) !in builtIns || !IsGlobalCall(tokens, p)
    ensures Decide(tokens, p, ns, builtIns, exclude, imported, wantsFix) == Nothing
  {
  }

  /** The next significant token decides IsCallSite: with only
      whitespace and comments between, the identifier is a call exactly
      when token `k` is `(`. */
  lemma CallSiteAt(tokens: seq<Token>, p: nat, k: nat)
    requires p < k < |tokens| && tokens[k].code !in EmptyCodes
    requires forall j :: p < j < k ==> tokens[j].code in EmptyCodes
    ensures IsCallSite(tokens, p) <==> tokens[k].code == OpenParenthesis
  {
  }

  /** A method call `$obj->name(`, a static call `X::name(`, a
      declaration `function name(`, `new name(` or `Foo\name(` is not a
      call to the global function. */
  lemma MemberOrDeclarationNotGlobal(tokens: seq<Token>, p: nat, k: nat)
    requires k < p < |tokens| && tokens[k].code in NotGlobalCallCodes
    requires forall j :: k < j < p ==> tokens[j].code in EmptyCodes + {NsSeparator}
    ensures !IsGlobalCall(tokens, p)
  {
  }

  /** The token the check reads is the first one before the name that is
      not whitespace, a comment or `\`: the call is global exactly when
      that token is none of NotGlobalCallCodes. */
  lemma GlobalCallAt(tokens: seq<Token>, p: nat, k: nat)
    requires k < p < |tokens| && tokens[k].code !in EmptyCodes + {NsSeparator}
    requires forall j :: k < j < p ==> tokens[j].code in EmptyCodes + {NsSeparator}
    ensures IsGlobalCall(tokens, p) <==> tokens[k].code !in NotGlobalCallCodes
  {
  }

  /** With only whitespace, comments and `\` before the name, findPrevious
      gives `false` and the check reads token 0, which is one of those:
      the call is global. */
  lemma NothingBefore(tokens: seq<Token>, p: nat)
    requires 0 < p < |tokens|
    requires forall j :: 0 <= j < p ==> tokens[j].code in EmptyCodes + {NsSeparator}
    ensures IsGlobalCall(tokens, p)
  {
  }

  /** A `\`-qualified call outside any namespace: one NoNamespace error,
      whose fix deletes only the `\`, and no name to import. */
  lemma QualifiedWithoutNamespace(tokens: seq<Token>, p: nat, builtIns: set<string>,
                                  exclude: seq<string>, imported: map<string, ImportEntry>,
                                  wantsFix: Diagnostic -> bool, q: nat)
    requires p < |tokens|
    requires IsCallSite(tokens, p) && CallName(tokens[p]) in builtIns && IsGlobalCall(tokens, p)
    requires QualifierOf(tokens, p) == Some(q)
    ensures var r := Decide(tokens, p, None, builtIns, exclude, imported, wantsFix);
      && r.diags == [Diagnostic(NoNamespace, p)]
      && r.edits == (if wantsFix(Diagnostic(NoNamespace, p)) then [ReplaceToken(q, "")] else [])
      && r.name == None
  {
  }

  /** An excluded name is never returned for import. Qualified inside a
      namespace it gives ExcludeRedundantFQN, whose fix deletes only the
      `\`; written bare it gives nothing at all. */
  lemma ExcludedNeverImported(tokens: seq<Token>, p: nat, ns: Option<nat>, builtIns: set<string>,
                              exclude: seq<string>, imported: map<string, ImportEntry>,
                              wantsFix: Diagnostic -> bool)
    requires p < |tokens| && CallName(tokens[p]) in exclude
    ensures Decide(tokens, p, ns, builtIns, exclude, imported, wantsFix).name == None
    ensures ns.Some? && IsCallSite(tokens, p) && CallName(tokens[p]) in builtIns && IsGlobalCall(tokens, p)
              && QualifierOf(tokens, p).Some? ==>
              var d := Diagnostic(ExcludeRedundantFQN, p);
              Decide(tokens, p, ns, builtIns, exclude, imported, wantsFix)
                == Decision([d], if wantsFix(d) then [ReplaceToken(QualifierOf(tokens, p).value, "")] else [], None)
    ensures QualifierOf(tokens, p).None? ==> Decide(tokens, p, ns, builtIns, exclude, imported, wantsFix) == Nothing
  {
  }

  /** A `\`-qualified call of a built-in, not excluded, inside a
      namespace: RedundantFQN when the name is imported with the same
      lowered fqn, nothing when imported under another fqn, and ImportFQN
      (delete the `\`, return the name) when not imported. */
  lemma QualifiedInNamespace(tokens: seq<Token>, p: nat, ns: nat, builtIns: set<string>,
                             exclude: seq<string>, imported: map<string, ImportEntry>,
                             wantsFix: Diagnostic -> bool, q: nat)
    requires p < |tokens|
    requires IsCallSite(tokens, p) && CallName(tokens[p]) in builtIns && IsGlobalCall(tokens, p)
    requires QualifierOf(tokens, p) == Some(q) && CallName(tokens[p]) !in exclude
    ensures var name := CallName(tokens[p]);
      var r := Decide(tokens, p, Some(ns), builtIns, exclude, imported, wantsFix);
      && (name in imported && imported[name].fqn.Some? && Lower(imported[name].fqn.value) == name ==>
            r == DropQualifier(RedundantFQN, p, q, wantsFix))
      && (name in imported && imported[name].fqn.Some? && Lower(imported[name].fqn.value) != name ==>
            r == Nothing)
      && (!(name in imported && imported[name].fqn.Some?) ==>
            var d := Diagnostic(ImportFQN, p);
            r.diags == [d]
            && r.edits == (if wantsFix(d) then [BeginChangeset, ReplaceToken(q, ""), EndChangeset] else [])
            && r.name == (if wantsFix(d) then Some(name) else None))
  {
  }

  /** A bare call of a built-in inside a namespace that is neither
      imported nor excluded: one Import error with no edit of its own;
      the name is returned for import when the fix is wanted. Outside a
      namespace a bare call is never reported. */
  lemma BareCall(tokens: seq<Token>, p: nat, ns: Option<nat>, builtIns: set<string>,
                 exclude: seq<string>, imported: map<string, ImportEntry>,
                 wantsFix: Diagnostic -> bool)
    requires p < |tokens| && QualifierOf(tokens, p).None?
    requires IsCallSite(tokens, p) && CallName(tokens[p]) in builtIns && IsGlobalCall(tokens, p)
    ensures var name := CallName(tokens[p]);
      var r := Decide(tokens, p, ns, builtIns, exclude, imported, wantsFix);
      var d := Diagnostic(Import, p);
      && (ns.Some? && name !in imported && name !in exclude ==>
            r == Decision([d], [], if wantsFix(d) then Some(name) else None))
      && (ns.None? || name in imported || name in exclude ==> r == Nothing)
  {
  }

  /** Outside a namespace the import map is never consulted, so a map
      left over from an earlier file changes nothing. */
  lemma NoNamespaceIgnoresImports(tokens: seq<Token>, p: nat, builtIns: set<string>,
                                  exclude: seq<string>, m1: map<string, ImportEntry>,
                                  m2: map<string, ImportEntry>, wantsFix: Diagnostic -> bool)
    requires p < |tokens|
    ensures Decide(tokens, p, None, builtIns, exclude, m1, wantsFix)
         == Decide(tokens, p, None, builtIns, exclude, m2, wantsFix)
  {
  }

  /** A name importFunction has recorded is never returned again. */
  lemma ImportedNotReturnedAgain(tokens: seq<Token>, p: nat, ns: Option<nat>, builtIns: set<string>,
                                 exclude: seq<string>, imported: map<string, ImportEntry>,
                                 wantsFix: Diagnostic -> bool, name: string)
    requires p < |tokens|
    ensures Decide(tokens, p, ns, builtIns, exclude, imported[name := Imported(name)], wantsFix).name
            != Some(name)
  {
  }

  /** Once importFunction has recorded a name, a later `\`-qualified call
      of it in the same namespace is a RedundantFQN error whose fix only
      drops the `\`: the recorded fqn is the lowered name itself. */
  lemma QualifiedAfterImportRedundant(tokens: seq<Token>, p: nat, ns: nat, builtIns: set<string>,
                                      exclude: seq<string>, imported: map<string, ImportEntry>,
                                      wantsFix: Diagnostic -> bool, q: nat)
    requires p < |tokens|
    requires IsCallSite(tokens, p) && CallName(tokens[p]) in builtIns && IsGlobalCall(tokens, p)
    requires QualifierOf(tokens, p) == Some(q) && CallName(tokens[p]) !in exclude
    ensures var name := CallName(tokens[p]);
      Decide(tokens, p, Some(ns), builtIns, exclude, imported[name := Imported(name)], wantsFix)
        == DropQualifier(RedundantFQN, p, q, wantsFix)
  {
    if tokens[p].content.Some? {
      LowerIdempotent(tokens[p].content.value);
    }
  }

  // ---------------------------------------------------------------------------
  // The per-namespace import map and the ExcludeImported report

  /** The import map getGlobalUses returns for a namespace, as an
      ordered PHP array of (key, entry) pairs. */
  type Uses = seq<(string, ImportEntry)>

  predicate DistinctKeys(uses: Uses) {
    forall i, j :: 0 <= i < j < |uses| ==> uses[i].0 != uses[j].0
  }

  function UsesMap(uses: Uses): (m: map<string, ImportEntry>)
    ensures forall i :: 0 <= i < |uses| ==> uses[i].0 in m
    ensures forall k :: k in m ==> exists i :: 0 <= i < |uses| && uses[i].0 == k
  {
    if uses == [] then map[]
    else UsesMap(uses[..|uses| - 1])[uses[|uses| - 1].0 := uses[|uses| - 1].1]
  }

  /** With distinct keys, each key maps to its own entry. */
  lemma {:induction false} UsesMapValues(uses: Uses)
    requires DistinctKeys(uses)
    ensures forall i :: 0 <= i < |uses| ==> UsesMap(uses)[uses[i].0] == uses[i].1
  {
    if uses != [] {
      var init := uses[..|uses| - 1];
      assert DistinctKeys(init) by {
        forall i, j | 0 <= i < j < |init| ensures init[i].0 != init[j].0 {
          assert init[i] == uses[i] && init[j] == uses[j];
        }
      }
      UsesMapValues(init);
      forall i | 0 <= i < |uses| - 1 ensures UsesMap(uses)[uses[i].0] == uses[i].1 {
        assert uses[i] == init[i];
      }
    }
  }

  /** The import map after importing `names` on top of `m`. */
  function Added(m: map<string, ImportEntry>, names: seq<string>): map<string, ImportEntry> {
    m + map n | n in names :: Imported(n)
  }

  /** Importing one more name is one more map update. */
  lemma AddedSnoc(m: map<string, ImportEntry>, names: seq<string>, name: string)
    ensures Added(m, names + [name]) == Added(m, names)[name := Imported(name)]
  {
    var l := Added(m, names + [name]);
    var r := Added(m, names)[name := Imported(name)];
    assert l.Keys == r.Keys;
    forall k | k in l ensures l[k] == r[k] {
      if k != name && k !in names {
        assert l[k] == m[k];
      }
    }
  }

  /** An import whose lowered fqn (or "" when it has none) is excluded. */
  predicate ExcludedImport(e: ImportEntry, exclude: seq<string>) {
    Lower(e.fqn.GetOr("")) in exclude
  }

  /** The ExcludeImported error for each excluded import, in map order. */
  function ExcludedDiags(uses: Uses, exclude: seq<string>): (r: seq<Diagnostic>)
    ensures |r| <= |uses|
    ensures forall i :: 0 <= i < |r| ==> r[i].code == ExcludeImported
  {
    if uses == [] then []
    else
      var e := uses[|uses| - 1].1;
      ExcludedDiags(uses[..|uses| - 1], exclude)
        + (if ExcludedImport(e, exclude) then [Diagnostic(ExcludeImported, e.ptr)] else [])
  }

  /** There is one ExcludeImported error at each excluded import's
      pointer and no other. */
  lemma {:induction false} ExcludedDiagsExactly(uses: Uses, exclude: seq<string>, d: Diagnostic)
    ensures d in ExcludedDiags(uses, exclude) <==>
      exists i :: 0 <= i < |uses| && ExcludedImport(uses[i].1, exclude)
                  && d == Diagnostic(ExcludeImported, uses[i].1.ptr)
  {
    if uses != [] {
      var n := |uses| - 1;
      ExcludedDiagsExactly(uses[..n], exclude, d);
      if d in ExcludedDiags(uses, exclude) && d !in ExcludedDiags(uses[..n], exclude) {
        assert ExcludedImport(uses[n].1, exclude) && d == Diagnostic(ExcludeImported, uses[n].1.ptr);
      }
      if exists i :: 0 <= i < |uses| && ExcludedImport(uses[i].1, exclude)
                     && d == Diagnostic(ExcludeImported, uses[i].1.ptr) {
        var i :| 0 <= i < |uses| && ExcludedImport(uses[i].1, exclude)
                 && d == Diagnostic(ExcludeImported, uses[i].1.ptr);
        if i < n {
          assert uses[..n][i] == uses[i];
        }
      }
    }
  }

  /** `count` consecutive ReplaceToken(i, "") calls starting at `from`. */
  function Blanks(from: nat, count: nat): (r: seq<Edit>)
    ensures |r| == count
  {
    seq(count, k requires 0 <= k < count => ReplaceToken(from + k, ""))
  }

  /** The fix for an excluded import at `ptr`: blank `ptr` through its
      end of statement, then, looking at the token one past the loop
      counter's final value, blank it when it is whitespace. */
  function ExcludeImportedFix(tokens: seq<Token>, ptr: nat): (r: seq<Edit>)
    requires ptr < |tokens|
    ensures 2 <= |r| && r[0] == BeginChangeset && r[|r| - 1] == EndChangeset
    ensures forall i :: 0 < i < |r| - 1 ==> r[i].ReplaceToken? && r[i].text == ""
  {
    var eos := tokens[ptr].eos;
    var after := if ptr <= eos then eos + 1 else ptr;
    [BeginChangeset] + Blanks(ptr, after - ptr)
      + (if after + 1 < |tokens| && tokens[after + 1].code == Whitespace then [ReplaceToken(after + 1, "")] else [])
      + [EndChangeset]
  }

  /** The fix blanks the statement's tokens and, when it is whitespace,
      token eos+2; the token right after the statement, eos+1, is never
      blanked. */
  lemma ExcludeImportedFixBlanks(tokens: seq<Token>, ptr: nat)
    requires ptr < |tokens| && ptr <= tokens[ptr].eos
    ensures var fix := ExcludeImportedFix(tokens, ptr); var eos := tokens[ptr].eos;
      && (forall e :: e in fix ==> e == BeginChangeset || e == EndChangeset || (e.ReplaceToken? && e.text == ""))
      && (forall i: nat :: ReplaceToken(i, "") in fix <==>
            (ptr <= i <= eos || (i == eos + 2 && i < |tokens| && tokens[i].code == Whitespace)))
      && ReplaceToken(eos + 1, "") !in fix
  {
    var fix := ExcludeImportedFix(tokens, ptr);
    var eos := tokens[ptr].eos;
    forall i | ptr <= i <= eos ensures ReplaceToken(i, "") in fix {
      assert fix[1 + (i - ptr)] == ReplaceToken(i, "");
    }
  }

  /** Every import points at a token of the file. */
  predicate PtrsInFile(tokens: seq<Token>, uses: Uses) {
    forall i :: 0 <= i < |uses| ==> uses[i].1.ptr < |tokens|
  }

  predicate UsesWellFormed(tokens: seq<Token>, uses: Uses) {
    DistinctKeys(uses) && PtrsInFile(tokens, uses)
  }

  function ExcludedEdits(tokens: seq<Token>, uses: Uses, exclude: seq<string>,
                         wantsFix: Diagnostic -> bool): (r: seq<Edit>)
    requires PtrsInFile(tokens, uses)
    ensures forall i :: 0 <= i < |r| ==> r[i] == BeginChangeset || r[i] == EndChangeset
                                         || (r[i].ReplaceToken? && r[i].text == "")
    ensures (forall i :: 0 <= i < |uses| ==> !ExcludedImport(uses[i].1, exclude)) ==> r == []
  {
    if uses == [] then []
    else
      var e := uses[|uses| - 1].1;
      ExcludedEdits(tokens, uses[..|uses| - 1], exclude, wantsFix)
        + (if ExcludedImport(e, exclude) && wantsFix(Diagnostic(ExcludeImported, e.ptr))
           then ExcludeImportedFix(tokens, e.ptr) else [])
  }

  /** One more import of the map adds its own error and fix. */
  lemma ExcludedStep(tokens: seq<Token>, uses: Uses, k: nat, exclude: seq<string>, wantsFix: Diagnostic -> bool)
    requires PtrsInFile(tokens, uses) && k < |uses|
    ensures var e := uses[k].1; var d := Diagnostic(ExcludeImported, e.ptr);
      && ExcludedDiags(uses[..k + 1], exclude)
           == ExcludedDiags(uses[..k], exclude) + (if ExcludedImport(e, exclude) then [d] else [])
      && ExcludedEdits(tokens, uses[..k + 1], exclude, wantsFix)
           == ExcludedEdits(tokens, uses[..k], exclude, wantsFix)
              + (if ExcludedImport(e, exclude) && wantsFix(d) then ExcludeImportedFix(tokens, e.ptr) else [])
  {
    assert uses[..k + 1][..k] == uses[..k] && uses[..k + 1][k] == uses[k];
  }

  // ---------------------------------------------------------------------------
  // Flushing a namespace's pending imports

  /** Where the block goes: the namespace's `{`, or else its end of
      statement (after an added newline). */
  function InsertionPoint(ns: Token): nat {
    if ns.scopeOpener.Some? then ns.scopeOpener.value else ns.eos
  }

  /** The fixer calls importFunctions makes for the namespace at `nsPtr`. */
  function FlushEdits(tokens: seq<Token>, nsPtr: nat, names: seq<string>, eol: string): (r: seq<Edit>)
    requires nsPtr < |tokens|
    ensures r == [] <==> names == []
  {
    if names == [] then []
    else
      var tok := tokens[nsPtr];
      [BeginChangeset]
        + (if tok.scopeOpener.Some? then [] else [AddNewline(tok.eos)])
        + [AddContent(InsertionPoint(tok), Block(eol, SortNames(names))), EndChangeset]
  }

  /** A nonempty flush is one changeset around one added text, preceded
      by a newline exactly when the namespace has no `{`. */
  lemma FlushEditsShape(tokens: seq<Token>, nsPtr: nat, names: seq<string>, eol: string)
    requires nsPtr < |tokens| && names != []
    ensures var tok := tokens[nsPtr];
      var add := AddContent(InsertionPoint(tok), Block(eol, SortNames(names)));
      var edits := FlushEdits(tokens, nsPtr, names, eol);
      && edits[0] == BeginChangeset && edits[|edits| - 1] == EndChangeset
      && (AddNewline(tok.eos) in edits <==> tok.scopeOpener.None?)
      && add in edits
      && forall e :: e in edits && e.AddContent? ==> e == add
  {
    var tok := tokens[nsPtr];
    var add := AddContent(InsertionPoint(tok), Block(eol, SortNames(names)));
    var edits := FlushEdits(tokens, nsPtr, names, eol);
    if tok.scopeOpener.Some? {
      assert edits == [BeginChangeset, add, EndChangeset];
    } else {
      assert edits == [BeginChangeset, AddNewline(tok.eos), add, EndChangeset];
    }
  }

  /** The one text a flush adds (FlushEditsShape) goes at the insertion
      point and reads back as exactly the names, sorted. */
  lemma FlushEditsInsertSortedBlock(tokens: seq<Token>, nsPtr: nat, names: seq<string>, eol: string)
    requires nsPtr < |tokens|
    requires forall n :: n in names ==> ';' !in n
    ensures forall e :: e in FlushEdits(tokens, nsPtr, names, eol) && e.AddContent? ==>
      && e.ptr == InsertionPoint(tokens[nsPtr])
      && ParseBlock(eol, e.text) == Some(SortNames(names))
      && Sorted(SortNames(names)) && multiset(SortNames(names)) == multiset(names)
  {
    if names != [] {
      var s := SortNames(names);
      forall n | n in s ensures ';' !in n {
        assert n in multiset(s);
      }
      ParseBlockRoundTrip(eol, s);
      FlushEditsShape(tokens, nsPtr, names, eol);
    }
  }

  /** What the loop in process keeps about the pending list: no name
      twice, only built-ins, nothing excluded. */
  predicate PendingWell(names: seq<string>, builtIns: set<string>, exclude: seq<string>) {
    NoDup(names) && forall n :: n in names ==> n in builtIns && n !in exclude
  }

  /** A name that Decide returns while the import map holds the pending
      names can be added to the pending list. */
  lemma PendingExtend(m: map<string, ImportEntry>, pending: seq<string>, name: string,
                      builtIns: set<string>, exclude: seq<string>)
    requires PendingWell(pending, builtIns, exclude)
    requires name in builtIns && name !in exclude
    requires name in Added(m, pending) ==> Added(m, pending)[name].fqn.None?
    ensures PendingWell(pending + [name], builtIns, exclude)
  {
    var s := pending + [name];
    forall i, j | 0 <= i < j < |s| ensures s[i] != s[j] {
      if j == |pending| {
        assert s[i] in pending;
      } else {
        assert s[i] == pending[i] && s[j] == pending[j];
      }
    }
  }

  /** A flushed block: its names are sorted, distinct, built-in and not
      excluded. */
  predicate FlushedWell(names: seq<string>, builtIns: set<string>, exclude: seq<string>) {
    Sorted(names) && PendingWell(names, builtIns, exclude)
  }

  /** Flushing keeps the pending list's properties and sorts it. */
  lemma {:induction false} SortKeepsPending(names: seq<string>, builtIns: set<string>, exclude: seq<string>)
    requires PendingWell(names, builtIns, exclude)
    ensures FlushedWell(SortNames(names), builtIns, exclude)
  {
    var s := SortNames(names);
    NoDupOfPermutation(names, s);
    forall n | n in s ensures n in names {
      assert n in multiset(s);
    }
  }

  /** The log entry a flush of `names` for the namespace `current` adds:
      none when there is no namespace or nothing to import. */
  function FlushEntry(current: Option<nat>, names: seq<string>): seq<(nat, seq<string>)> {
    if current.Some? && names != [] then [(current.value, SortNames(names))] else []
  }

  /** The flushes recorded from `start` on: each block well formed, and
      the namespace pointers strictly increasing. */
  ghost predicate FlushLog(log: seq<(nat, seq<string>)>, start: nat, builtIns: set<string>, exclude: seq<string>) {
    && (forall k :: start <= k < |log| ==> FlushedWell(log[k].1, builtIns, exclude))
    && (forall k, l :: start <= k < l < |log| ==> log[k].0 < log[l].0)
  }

  /** Every namespace flushed from `start` on lies before `bound`. */
  ghost predicate Below(log: seq<(nat, seq<string>)>, start: nat, bound: nat) {
    forall k :: start <= k < |log| ==> log[k].0 < bound
  }

  /** Flushing the pending list of the namespace at `ns` keeps the log
      well formed, and everything in it lies before a later namespace. */
  lemma FlushAppend(log: seq<(nat, seq<string>)>, start: nat, builtIns: set<string>, exclude: seq<string>,
                    ns: nat, names: seq<string>, later: nat)
    requires FlushLog(log, start, builtIns, exclude) && Below(log, start, ns) && ns < later
    requires PendingWell(names, builtIns, exclude)
    ensures var log' := log + [(ns, SortNames(names))];
      FlushLog(log', start, builtIns, exclude) && Below(log', start, later)
  {
    var entry := (ns, SortNames(names));
    var log' := log + [entry];
    SortKeepsPending(names, builtIns, exclude);
    forall k | start <= k < |log'|
      ensures FlushedWell(log'[k].1, builtIns, exclude) && log'[k].0 < later
    {
      if k < |log| {
        assert log'[k] == log[k];
      } else {
        assert log'[k] == entry;
      }
    }
    forall k, l | start <= k < l < |log'| ensures log'[k].0 < log'[l].0 {
      assert log'[k] == log[k];
      if l < |log| {
        assert log'[l] == log[l];
      } else {
        assert log'[l] == entry;
      }
    }
  }

  /** The names processString returned in the namespace at `ns`, in the
      order returned, from a log of (namespace pointer, name) pairs. */
  function NamesIn(ret: seq<(nat, string)>, ns: nat): seq<string> {
    if ret == [] then []
    else NamesIn(ret[..|ret| - 1], ns) + (if ret[|ret| - 1].0 == ns then [ret[|ret| - 1].1] else [])
  }

  /** A log with no entry for `ns` names nothing there. */
  lemma {:induction false} NamesInAbsent(ret: seq<(nat, string)>, ns: nat)
    requires forall i :: 0 <= i < |ret| ==> ret[i].0 != ns
    ensures NamesIn(ret, ns) == []
  {
    if ret != [] {
      NamesInAbsent(ret[..|ret| - 1], ns);
    }
  }

  /** Every entry of the log belongs to a namespace at or before `bound`. */
  ghost predicate LogAtMost(ret: seq<(nat, string)>, bound: nat) {
    forall i :: 0 <= i < |ret| ==> ret[i].0 <= bound
  }

  /** The flushes from `start` on against the names returned: each block
      holds exactly the names returned in its namespace, and every
      namespace that returned a name, except the `current` one, has a
      block. */
  ghost predicate FlushesMatch(log: seq<(nat, seq<string>)>, start: nat, ret: seq<(nat, string)>,
                               current: Option<nat>) {
    && (forall k :: start <= k < |log| ==> multiset(log[k].1) == multiset(NamesIn(ret, log[k].0)))
    && (forall n: nat :: NamesIn(ret, n) != [] ==>
          current == Some(n) || exists k :: start <= k < |log| && log[k].0 == n)
  }

  /** Flushing the current namespace `c`, whose returned names are the
      pending list, matches every namespace that returned a name. */
  lemma FlushCloses(log: seq<(nat, seq<string>)>, start: nat, ret: seq<(nat, string)>, c: nat,
                    pending: seq<string>, next: Option<nat>)
    requires start <= |log| && FlushesMatch(log, start, ret, Some(c)) && NamesIn(ret, c) == pending
    ensures var log' := log + FlushEntry(Some(c), pending);
      FlushesMatch(log', start, ret, next)
  {
    var log' := log + FlushEntry(Some(c), pending);
    forall k | start <= k < |log'| ensures multiset(log'[k].1) == multiset(NamesIn(ret, log'[k].0)) {
      if k < |log| {
        assert log'[k] == log[k];
      }
    }
    forall n: nat | NamesIn(ret, n) != [] ensures exists k :: start <= k < |log'| && log'[k].0 == n {
      if n == c {
        assert log'[|log|].0 == n;
      } else {
        var k :| start <= k < |log| && log[k].0 == n;
        assert log'[k] == log[k];
      }
    }
  }

  /** After process, a namespace in which processString returned names
      has exactly one flushed block, and that block is sort() of those
      names. */
  lemma OneSortedBlockPerNamespace(log: seq<(nat, seq<string>)>, start: nat, ret: seq<(nat, string)>,
                                   builtIns: set<string>, exclude: seq<string>, n: nat)
    requires FlushLog(log, start, builtIns, exclude) && FlushesMatch(log, start, ret, None)
    requires NamesIn(ret, n) != []
    ensures exists k :: start <= k < |log| && log[k].0 == n && log[k].1 == SortNames(NamesIn(ret, n))
    ensures forall k, l :: start <= k < |log| && start <= l < |log| && log[k].0 == n && log[l].0 == n ==> k == l
  {
    var k :| start <= k < |log| && log[k].0 == n;
    assert FlushedWell(log[k].1, builtIns, exclude);
    SortNamesUnique(NamesIn(ret, n), log[k].1);
  }

  /** What holds between two identifiers of process's scan, given the
      namespace being scanned and its pending names: the import map is
      the namespace's own plus the pending names, the pending list is
      well formed, and the flushes since `start` are well formed and all
      lie before the current namespace. */
  ghost predicate ScanInvariant(tokens: seq<Token>, globalUses: nat -> Uses, current: Option<nat>,
                                pending: seq<string>, start: nat, imported: map<string, ImportEntry>,
                                log: seq<(nat, seq<string>)>, builtIns: set<string>, exclude: seq<string>)
  {
    && (current.Some? ==>
          && current.value < |tokens|
          && imported == Added(UsesMap(globalUses(current.value)), pending)
          && Below(log, start, current.value))
    && (current.None? ==> pending == [] && |log| == start)
    && PendingWell(pending, builtIns, exclude)
    && FlushLog(log, start, builtIns, exclude)
  }

  /** Entering a later namespace, after flushing the one left, restores
      the invariant with an empty pending list. */
  lemma SwitchKeepsInvariant(tokens: seq<Token>, globalUses: nat -> Uses, current: Option<nat>,
                             pending: seq<string>, start: nat, imported: map<string, ImportEntry>,
                             log: seq<(nat, seq<string>)>, builtIns: set<string>, exclude: seq<string>,
                             found: nat)
    requires found < |tokens| && AtMost(current, Some(found)) && current != Some(found)
    requires ScanInvariant(tokens, globalUses, current, pending, start, imported, log, builtIns, exclude)
    ensures var log' := log + FlushEntry(current, pending);
      ScanInvariant(tokens, globalUses, Some(found), [], start, UsesMap(globalUses(found)), log', builtIns, exclude)
  {
    if current.Some? && pending != [] {
      FlushAppend(log, start, builtIns, exclude, current.value, pending, found);
    }
    assert UsesMap(globalUses(found)) == Added(UsesMap(globalUses(found)), []);
  }

  /** What holds between two identifiers about the names returned since
      the scan began: those of the current namespace are the pending
      list, none belongs to a later namespace, and the flushes since
      `start` hold exactly the names of the namespaces left. */
  ghost predicate ReturnedMatch(current: Option<nat>, pending: seq<string>, start: nat,
                                log: seq<(nat, seq<string>)>, ret: seq<(nat, string)>)
  {
    && (current.Some? ==> NamesIn(ret, current.value) == pending && LogAtMost(ret, current.value))
    && (current.None? ==> ret == [])
    && start <= |log|
    && FlushesMatch(log, start, ret, current)
  }

  /** Recording one more name returned in the current namespace `c`
      extends the pending list by it and keeps the earlier flushes
      matched. */
  lemma CollectStep(log: seq<(nat, seq<string>)>, start: nat, ret: seq<(nat, string)>, c: nat,
                    pending: seq<string>, name: string)
    requires ReturnedMatch(Some(c), pending, start, log, ret) && Below(log, start, c)
    ensures ReturnedMatch(Some(c), pending + [name], start, log, ret + [(c, name)])
  {
    var ret' := ret + [(c, name)];
    assert ret'[..|ret'| - 1] == ret;
    forall k | start <= k < |log| ensures multiset(log[k].1) == multiset(NamesIn(ret', log[k].0)) {
      assert NamesIn(ret', log[k].0) == NamesIn(ret, log[k].0);
    }
    forall n: nat | NamesIn(ret', n) != [] && n != c
      ensures exists k :: start <= k < |log| && log[k].0 == n
    {
      assert NamesIn(ret', n) == NamesIn(ret, n);
    }
  }

  /** A name Decide returns in the current namespace `c` can be imported
      and added to the pending list without breaking the scan's
      invariants. */
  lemma CollectKeepsInvariant(tokens: seq<Token>, globalUses: nat -> Uses, c: nat, pending: seq<string>,
                              start: nat, imported: map<string, ImportEntry>, log: seq<(nat, seq<string>)>,
                              ret: seq<(nat, string)>, builtIns: set<string>, exclude: seq<string>, name: string)
    requires ScanInvariant(tokens, globalUses, Some(c), pending, start, imported, log, builtIns, exclude)
    requires ReturnedMatch(Some(c), pending, start, log, ret)
    requires name in builtIns && name !in exclude
    requires name in imported ==> imported[name].fqn.None?
    ensures ScanInvariant(tokens, globalUses, Some(c), pending + [name], start, imported[name := Imported(name)],
                          log, builtIns, exclude)
    ensures ReturnedMatch(Some(c), pending + [name], start, log, ret + [(c, name)])
  {
    AddedSnoc(UsesMap(globalUses(c)), pending, name);
    PendingExtend(UsesMap(globalUses(c)), pending, name, builtIns, exclude);
    CollectStep(log, start, ret, c, pending, name);
  }

  /** Entering the later namespace `found`, after flushing the one left,
      keeps the returned names matched with an empty pending list. */
  lemma SwitchKeepsMatch(current: Option<nat>, pending: seq<string>, start: nat,
                         log: seq<(nat, seq<string>)>, ret: seq<(nat, string)>, found: nat)
    requires AtMost(current, Some(found)) && current != Some(found)
    requires ReturnedMatch(current, pending, start, log, ret)
    ensures var log' := log + FlushEntry(current, pending);
      ReturnedMatch(Some(found), [], start, log', ret)
  {
    if current.Some? {
      FlushCloses(log, start, ret, current.value, pending, Some(found));
      NamesInAbsent(ret, found);
      assert LogAtMost(ret, found);
    } else {
      assert NamesIn(ret, found) == [];
    }
  }

  lemma PrefixOfAppend<T>(a: seq<T>, x: seq<T>)
    ensures a <= a + x
  {
    assert (a + x)[..|a|] == a;
  }

  lemma SplitLast<T>(a: seq<T>, b: seq<T>)
    requires b != []
    ensures b == b[..|b| - 1] + [b[|b| - 1]]
    ensures a + b == (a + b[..|b| - 1]) + [b[|b| - 1]]
  {
    AppendAssoc(a, b[..|b| - 1], [b[|b| - 1]]);
  }

  lemma AppendAssoc<T>(a: seq<T>, b: seq<T>, c: seq<T>)
    ensures a + b + c == a + (b + c)
  {
    assert |a + b + c| == |a + (b + c)|;
    forall i | 0 <= i < |a + b + c| ensures (a + b + c)[i] == (a + (b + c))[i] {
      if i >= |a| + |b| {
        assert (a + b + c)[i] == c[i - |a| - |b|];
      }
    }
  }

  lemma PrefixTrans<T>(a: seq<T>, b: seq<T>, c: seq<T>)
    requires a <= b && b <= c
    ensures a <= c
  {
    assert a == b[..|a|] && b == c[..|b|];
  }

  // ---------------------------------------------------------------------------
  // The scan as a function of the file

  /** The identifiers process visits from `from` on: every `T_STRING`
      token, in order (the findNext of line 132, repeated). */
  function StringsFrom(tokens: seq<Token>, from: nat): (r: seq<nat>)
    decreases |tokens| - from
    ensures forall i :: 0 <= i < |r| ==> from <= r[i] < |tokens| && tokens[r[i]].code == String
    ensures forall i, j :: 0 <= i < j < |r| ==> r[i] < r[j]
  {
    match FindNext(tokens, from, {String}, false)
    case None => []
    case Some(k) => [k] + StringsFrom(tokens, k + 1)
  }

  /** An index from `from` on is visited exactly when it is a `T_STRING`. */
  lemma {:induction false} StringsFromExactly(tokens: seq<Token>, from: nat, i: nat)
    decreases |tokens| - from
    ensures i in StringsFrom(tokens, from) <==> from <= i < |tokens| && tokens[i].code == String
  {
    match FindNext(tokens, from, {String}, false)
    case None =>
    case Some(k) =>
      if i != k {
        StringsFromExactly(tokens, k + 1, i);
      }
  }

  /** The do-while of lines 82-132: the token process is called at, then
      every later `T_STRING`. */
  function Visits(tokens: seq<Token>, stackPtr: nat): (r: seq<nat>)
    requires stackPtr < |tokens|
    ensures forall i :: 0 <= i < |r| ==> r[i] < |tokens|
  {
    [stackPtr] + StringsFrom(tokens, stackPtr + 1)
  }

  /** The identifiers from `ptr` on are `ptr` and those from the next
      `T_STRING` on. */
  lemma VisitsNext(tokens: seq<Token>, ptr: nat)
    requires ptr < |tokens|
    ensures FindNext(tokens, ptr + 1, {String}, false).None? ==> Visits(tokens, ptr) == [ptr]
    ensures FindNext(tokens, ptr + 1, {String}, false).Some? ==>
      Visits(tokens, ptr) == [ptr] + Visits(tokens, FindNext(tokens, ptr + 1, {String}, false).value)
  {
  }

  /** What process carries from one identifier to the next: the namespace
      being scanned and its pending names (locals of process), and the
      import map, the errors, the fixer calls and the two logs. */
  datatype ScanState = ScanState(current: Option<nat>, pending: seq<string>,
                                 imported: map<string, ImportEntry>, diags: seq<Diagnostic>, edits: seq<Edit>,
                                 flushed: seq<(nat, seq<string>)>, returned: seq<(nat, string)>)

  /** Lines 86-121: when the namespace `found` differs from the current
      one, flush the pending names of the namespace left, install the
      import map of `found` (of pointer 0 when there is none) and report
      its excluded imports. */
  function SwitchTo(tokens: seq<Token>, st: ScanState, found: Option<nat>, globalUses: nat -> Uses,
                    exclude: seq<string>, wantsFix: Diagnostic -> bool, eol: string): (r: ScanState)
    requires st.current.Some? ==> st.current.value < |tokens|
    requires found != st.current ==> PtrsInFile(tokens, globalUses(found.GetOr(0)))
    ensures r.current == found && r.returned == st.returned
    ensures found == st.current ==> r == st
    ensures found != st.current ==> r.pending == [] && r.imported == UsesMap(globalUses(found.GetOr(0)))
    ensures st.diags <= r.diags && st.edits <= r.edits && st.flushed <= r.flushed
    ensures forall i :: |st.diags| <= i < |r.diags| ==> r.diags[i].code == ExcludeImported
  {
    if found == st.current then st
    else
      var uses := globalUses(found.GetOr(0));
      ScanState(found, [], UsesMap(uses),
                st.diags + ExcludedDiags(uses, exclude),
                st.edits + (if st.current.Some? then FlushEdits(tokens, st.current.value, st.pending, eol) else [])
                  + ExcludedEdits(tokens, uses, exclude, wantsFix),
                st.flushed + FlushEntry(st.current, st.pending), st.returned)
  }

  /** Lines 124-131: processString's decision at `ptr` in the current
      namespace; a returned name is imported, added to the pending list
      and logged with its namespace. */
  function Classify(tokens: seq<Token>, ptr: nat, st: ScanState, builtIns: set<string>, exclude: seq<string>,
                    wantsFix: Diagnostic -> bool): (r: ScanState)
    requires ptr < |tokens|
    ensures r.current == st.current && r.flushed == st.flushed
    ensures st.diags <= r.diags && st.edits <= r.edits && |r.diags| <= |st.diags| + 1
    ensures r.returned == st.returned ==> r.pending == st.pending && r.imported == st.imported
    ensures r.returned != st.returned ==>
      && st.current.Some? && |r.returned| == |st.returned| + 1 && r.returned[..|st.returned|] == st.returned
      && var name := r.returned[|st.returned|].1;
      && r.returned[|st.returned|].0 == st.current.value
      && name == CallName(tokens[ptr]) && name in builtIns && name !in exclude
      && r.pending == st.pending + [name] && r.imported == st.imported[name := Imported(name)]
  {
    var d := Decide(tokens, ptr, st.current, builtIns, exclude, st.imported, wantsFix);
    match d.name
    case None => st.(diags := st.diags + d.diags, edits := st.edits + d.edits)
    case Some(name) =>
      st.(imported := st.imported[name := Imported(name)], diags := st.diags + d.diags,
          edits := st.edits + d.edits, pending := st.pending + [name],
          returned := st.returned + [(st.current.value, name)])
  }

  /** One turn of the do-while for the identifier at `ptr`. */
  function Turn(tokens: seq<Token>, ptr: nat, st: ScanState, globalUses: nat -> Uses, builtIns: set<string>,
                exclude: seq<string>, wantsFix: Diagnostic -> bool, eol: string): (r: ScanState)
    requires ptr < |tokens| && (st.current.Some? ==> st.current.value < |tokens|)
    requires var found := FindPrevious(tokens, ptr, {Namespace}, false);
      found != st.current ==> PtrsInFile(tokens, globalUses(found.GetOr(0)))
    ensures r.current == FindPrevious(tokens, ptr, {Namespace}, false)
  {
    var found := FindPrevious(tokens, ptr, {Namespace}, false);
    Classify(tokens, ptr, SwitchTo(tokens, st, found, globalUses, exclude, wantsFix, eol), builtIns, exclude, wantsFix)
  }

  /** The turns for the identifiers `ptrs`, in order, from `st`. */
  function Run(tokens: seq<Token>, ptrs: seq<nat>, st: ScanState, globalUses: nat -> Uses, builtIns: set<string>,
               exclude: seq<string>, wantsFix: Diagnostic -> bool, eol: string): (r: ScanState)
    requires forall i :: 0 <= i < |ptrs| ==> ptrs[i] < |tokens|
    requires st.current.Some? ==> st.current.value < |tokens|
    requires forall p: nat :: UsesWellFormed(tokens, globalUses(p))
    ensures r.current.Some? ==> r.current.value < |tokens|
    decreases |ptrs|
  {
    if ptrs == [] then st
    else
      var n := |ptrs| - 1;
      Turn(tokens, ptrs[n], Run(tokens, ptrs[..n], st, globalUses, builtIns, exclude, wantsFix, eol),
           globalUses, builtIns, exclude, wantsFix, eol)
  }

  /** One more identifier is one more turn. */
  lemma RunSnoc(tokens: seq<Token>, ptrs: seq<nat>, ptr: nat, st: ScanState, globalUses: nat -> Uses,
                builtIns: set<string>, exclude: seq<string>, wantsFix: Diagnostic -> bool, eol: string)
    requires forall i :: 0 <= i < |ptrs| ==> ptrs[i] < |tokens|
    requires ptr < |tokens| && (st.current.Some? ==> st.current.value < |tokens|)
    requires forall p: nat :: UsesWellFormed(tokens, globalUses(p))
    ensures Run(tokens, ptrs + [ptr], st, globalUses, builtIns, exclude, wantsFix, eol)
            == Turn(tokens, ptr, Run(tokens, ptrs, st, globalUses, builtIns, exclude, wantsFix, eol),
                    globalUses, builtIns, exclude, wantsFix, eol)
  {
    assert (ptrs + [ptr])[..|ptrs|] == ptrs;
  }

  /** A turn only appends: no error, fixer call or log entry is ever
      taken back. */
  lemma TurnOnlyAppends(tokens: seq<Token>, ptr: nat, st: ScanState, globalUses: nat -> Uses, builtIns: set<string>,
                        exclude: seq<string>, wantsFix: Diagnostic -> bool, eol: string)
    requires ptr < |tokens| && (st.current.Some? ==> st.current.value < |tokens|)
    requires var found := FindPrevious(tokens, ptr, {Namespace}, false);
      found != st.current ==> PtrsInFile(tokens, globalUses(found.GetOr(0)))
    ensures var r := Turn(tokens, ptr, st, globalUses, builtIns, exclude, wantsFix, eol);
      st.diags <= r.diags && st.edits <= r.edits && st.flushed <= r.flushed && st.returned <= r.returned
  {
    var found := FindPrevious(tokens, ptr, {Namespace}, false);
    var mid := SwitchTo(tokens, st, found, globalUses, exclude, wantsFix, eol);
    if found != st.current {
      var uses := globalUses(found.GetOr(0));
      AppendAssoc(st.edits, if st.current.Some? then FlushEdits(tokens, st.current.value, st.pending, eol) else [],
                  ExcludedEdits(tokens, uses, exclude, wantsFix));
    }
    assert st.diags <= mid.diags && st.edits <= mid.edits && st.flushed <= mid.flushed && st.returned <= mid.returned;
    var r := Classify(tokens, ptr, mid, builtIns, exclude, wantsFix);
    assert mid.diags <= r.diags && mid.edits <= r.edits && mid.returned <= r.returned;
    PrefixTrans(st.diags, mid.diags, r.diags);
    PrefixTrans(st.edits, mid.edits, r.edits);
    PrefixTrans(st.returned, mid.returned, r.returned);
  }

  /** A run only appends, turn after turn. */
  lemma {:induction false} RunOnlyAppends(tokens: seq<Token>, ptrs: seq<nat>, st: ScanState, globalUses: nat -> Uses,
                                          builtIns: set<string>, exclude: seq<string>,
                                          wantsFix: Diagnostic -> bool, eol: string)
    requires forall i :: 0 <= i < |ptrs| ==> ptrs[i] < |tokens|
    requires st.current.Some? ==> st.current.value < |tokens|
    requires forall p: nat :: UsesWellFormed(tokens, globalUses(p))
    ensures var r := Run(tokens, ptrs, st, globalUses, builtIns, exclude, wantsFix, eol);
      st.diags <= r.diags && st.edits <= r.edits && st.flushed <= r.flushed && st.returned <= r.returned
    decreases |ptrs|
  {
    if ptrs != [] {
      var n := |ptrs| - 1;
      var mid := Run(tokens, ptrs[..n], st, globalUses, builtIns, exclude, wantsFix, eol);
      RunOnlyAppends(tokens, ptrs[..n], st, globalUses, builtIns, exclude, wantsFix, eol);
      assert UsesWellFormed(tokens, globalUses(FindPrevious(tokens, ptrs[n], {Namespace}, false).GetOr(0)));
      TurnOnlyAppends(tokens, ptrs[n], mid, globalUses, builtIns, exclude, wantsFix, eol);
      var r := Run(tokens, ptrs, st, globalUses, builtIns, exclude, wantsFix, eol);
      PrefixTrans(st.diags, mid.diags, r.diags);
      PrefixTrans(st.edits, mid.edits, r.edits);
      PrefixTrans(st.flushed, mid.flushed, r.flushed);
      PrefixTrans(st.returned, mid.returned, r.returned);
    }
  }

  /** A single identifier is a single turn. */
  lemma RunSingle(tokens: seq<Token>, ptr: nat, st: ScanState, globalUses: nat -> Uses, builtIns: set<string>,
                  exclude: seq<string>, wantsFix: Diagnostic -> bool, eol: string)
    requires ptr < |tokens| && (st.current.Some? ==> st.current.value < |tokens|)
    requires forall p: nat :: UsesWellFormed(tokens, globalUses(p))
    ensures Run(tokens, [ptr], st, globalUses, builtIns, exclude, wantsFix, eol)
            == Turn(tokens, ptr, st, globalUses, builtIns, exclude, wantsFix, eol)
  {
    RunSnoc(tokens, [], ptr, st, globalUses, builtIns, exclude, wantsFix, eol);
    assert [] + [ptr] == [ptr];
  }

  /** Running `a` then `b` is running `a + b`. */
  lemma {:induction false} RunAppend(tokens: seq<Token>, a: seq<nat>, b: seq<nat>, st: ScanState,
                                     globalUses: nat -> Uses, builtIns: set<string>, exclude: seq<string>,
                                     wantsFix: Diagnostic -> bool, eol: string)
    requires forall i :: 0 <= i < |a| ==> a[i] < |tokens|
    requires forall i :: 0 <= i < |b| ==> b[i] < |tokens|
    requires st.current.Some? ==> st.current.value < |tokens|
    requires forall p: nat :: UsesWellFormed(tokens, globalUses(p))
    ensures forall i :: 0 <= i < |a + b| ==> (a + b)[i] < |tokens|
    ensures Run(tokens, a + b, st, globalUses, builtIns, exclude, wantsFix, eol)
            == Run(tokens, b, Run(tokens, a, st, globalUses, builtIns, exclude, wantsFix, eol),
                   globalUses, builtIns, exclude, wantsFix, eol)
    decreases |b|
  {
    if b == [] {
      assert a + b == a;
    } else {
      var n := |b| - 1;
      SplitLast(a, b);
      RunAppend(tokens, a, b[..n], st, globalUses, builtIns, exclude, wantsFix, eol);
      RunSnoc(tokens, a + b[..n], b[n], st, globalUses, builtIns, exclude, wantsFix, eol);
      RunSnoc(tokens, b[..n], b[n], Run(tokens, a, st, globalUses, builtIns, exclude, wantsFix, eol),
              globalUses, builtIns, exclude, wantsFix, eol);
    }
  }

  /** The do-while of lines 82-132 as the source runs it: a turn for the
      identifier at `ptr`, then on to the next `T_STRING`, if any. */
  function RunFrom(tokens: seq<Token>, ptr: nat, st: ScanState, globalUses: nat -> Uses, builtIns: set<string>,
                   exclude: seq<string>, wantsFix: Diagnostic -> bool, eol: string): (r: ScanState)
    requires ptr < |tokens| && (st.current.Some? ==> st.current.value < |tokens|)
    requires forall p: nat :: UsesWellFormed(tokens, globalUses(p))
    ensures r.current.Some? ==> r.current.value < |tokens|
    decreases |tokens| - ptr
  {
    var found := FindPrevious(tokens, ptr, {Namespace}, false);
    assert UsesWellFormed(tokens, globalUses(found.GetOr(0)));
    var st' := Turn(tokens, ptr, st, globalUses, builtIns, exclude, wantsFix, eol);
    match FindNext(tokens, ptr + 1, {String}, false)
    case None => st'
    case Some(next) => RunFrom(tokens, next, st', globalUses, builtIns, exclude, wantsFix, eol)
  }

  /** The loop as the source runs it makes exactly the turns for the
      identifiers `Visits` lists, in that order. */
  lemma {:induction false} RunFromIsRun(tokens: seq<Token>, ptr: nat, st: ScanState, globalUses: nat -> Uses,
                                        builtIns: set<string>, exclude: seq<string>, wantsFix: Diagnostic -> bool,
                                        eol: string)
    requires ptr < |tokens| && (st.current.Some? ==> st.current.value < |tokens|)
    requires forall p: nat :: UsesWellFormed(tokens, globalUses(p))
    ensures RunFrom(tokens, ptr, st, globalUses, builtIns, exclude, wantsFix, eol)
            == Run(tokens, Visits(tokens, ptr), st, globalUses, builtIns, exclude, wantsFix, eol)
    decreases |tokens| - ptr
  {
    var st' := Turn(tokens, ptr, st, globalUses, builtIns, exclude, wantsFix, eol);
    RunSingle(tokens, ptr, st, globalUses, builtIns, exclude, wantsFix, eol);
    VisitsNext(tokens, ptr);
    match FindNext(tokens, ptr + 1, {String}, false)
    case None =>
    case Some(next) =>
      RunFromIsRun(tokens, next, st', globalUses, builtIns, exclude, wantsFix, eol);
      RunAppend(tokens, [ptr], Visits(tokens, next), st, globalUses, builtIns, exclude, wantsFix, eol);
  }

  /** Lines 134-136: the flush after the loop, after which no namespace
      is current. */
  function Finish(tokens: seq<Token>, st: ScanState, eol: string): (r: ScanState)
    requires st.current.Some? ==> st.current.value < |tokens|
    ensures r.current.None? && r.pending == []
    ensures r.imported == st.imported && r.diags == st.diags && r.returned == st.returned
    ensures st.edits <= r.edits && st.flushed <= r.flushed
    ensures (st.current.None? || st.pending == []) ==> r.edits == st.edits && r.flushed == st.flushed
  {
    st.(current := None, pending := [],
        edits := st.edits + (if st.current.Some? then FlushEdits(tokens, st.current.value, st.pending, eol) else []),
        flushed := st.flushed + FlushEntry(st.current, st.pending))
  }

  // ---------------------------------------------------------------------------
  // The sniff

  class Sniff {
    /** The names never to import. */
    var exclude: seq<string>
    /** The names of PHP's built-in functions. */
    const builtInFunctions: set<string>
    /** The import map of the namespace being scanned. */
    var importedFunctions: map<string, ImportEntry>
    /** The errors reported to the host, in order. */
    var diags: seq<Diagnostic>
    /** The fixer calls made, in order. */
    var edits: seq<Edit>
    /** Each non-empty flush: the namespace pointer and the sorted names. */
    ghost var flushed: seq<(nat, seq<string>)>
    /** Each name processString returned during the last process call,
        with the pointer of the namespace it was returned in. */
    ghost var returned: seq<(nat, string)>

    constructor (builtIns: set<string>)
      ensures builtInFunctions == builtIns && exclude == [] && importedFunctions == map[]
      ensures diags == [] && edits == [] && flushed == [] && returned == []
    {
      builtInFunctions := builtIns;
      exclude := [];
      importedFunctions := map[];
      diags := [];
      edits := [];
      flushed := [];
      returned := [];
    }

    /** importFunction: record `name` as imported and return it. */
    method ImportFunction(name: string) returns (r: string)
      modifies this`importedFunctions
      ensures importedFunctions == old(importedFunctions)[name := Imported(name)]
      ensures r == name
    {
      importedFunctions := importedFunctions[name := Imported(name)];
      r := name;
    }

    /** importFunctions: one changeset inserting the sorted block of
        `use function` lines for the namespace at `nsPtr`. */
    method ImportFunctions(tokens: seq<Token>, nsPtr: nat, names: seq<string>, eol: string)
      requires nsPtr < |tokens|
      modifies this`edits, this`flushed
      ensures edits == old(edits) + FlushEdits(tokens, nsPtr, names, eol)
      ensures flushed == old(flushed) + FlushEntry(Some(nsPtr), names)
    {
      if names == [] {
        return;
      }
      var sorted := SortNames(names);
      edits := edits + [BeginChangeset];
      var ptr: nat;
      if tokens[nsPtr].scopeOpener.Some? {
        ptr := tokens[nsPtr].scopeOpener.value;
      } else {
        ptr := tokens[nsPtr].eos;
        edits := edits + [AddNewline(ptr)];
      }
      var content := BuildBlock(eol, sorted);
      edits := edits + [AddContent(ptr, content)];
      edits := edits + [EndChangeset];
      flushed := flushed + [(nsPtr, sorted)];
    }

    /** The ExcludeImported fix: one changeset blanking the import
        statement at `ptr`, and the whitespace token the check lands on. */
    method BlankImport(tokens: seq<Token>, ptr: nat)
      requires ptr < |tokens|
      modifies this`edits
      ensures edits == old(edits) + ExcludeImportedFix(tokens, ptr)
    {
      var eos := tokens[ptr].eos;
      edits := edits + [BeginChangeset];
      var i := ptr;
      while i <= eos
        invariant ptr <= i <= if ptr <= eos then eos + 1 else ptr
        invariant edits == old(edits) + [BeginChangeset] + Blanks(ptr, i - ptr)
      {
        assert Blanks(ptr, i + 1 - ptr) == Blanks(ptr, i - ptr) + [ReplaceToken(i, "")];
        edits := edits + [ReplaceToken(i, "")];
        i := i + 1;
      }
      if i + 1 < |tokens| && tokens[i + 1].code == Whitespace {
        edits := edits + [ReplaceToken(i + 1, "")];
      }
      edits := edits + [EndChangeset];
    }

    /** One turn of the ExcludeImported loop: report the import `e` if
        its fqn is excluded, and blank it if the host wants the fix. */
    method ReportExcludedImport(tokens: seq<Token>, e: ImportEntry, wantsFix: Diagnostic -> bool)
      requires e.ptr < |tokens|
      modifies this`diags, this`edits
      ensures var d := Diagnostic(ExcludeImported, e.ptr);
        && diags == old(diags) + (if ExcludedImport(e, exclude) then [d] else [])
        && edits == old(edits) + (if ExcludedImport(e, exclude) && wantsFix(d) then ExcludeImportedFix(tokens, e.ptr) else [])
    {
      if ExcludedImport(e, exclude) {
        var d := Diagnostic(ExcludeImported, e.ptr);
        diags := diags + [d];
        if wantsFix(d) {
          BlankImport(tokens, e.ptr);
        }
      }
    }

    /** The ExcludeImported loop run when a namespace starts. */
    method ReportExcludedImports(tokens: seq<Token>, uses: Uses, wantsFix: Diagnostic -> bool)
      requires UsesWellFormed(tokens, uses)
      modifies this`diags, this`edits
      ensures diags == old(diags) + ExcludedDiags(uses, exclude)
      ensures edits == old(edits) + ExcludedEdits(tokens, uses, exclude, wantsFix)
    {
      for k := 0 to |uses|
        invariant diags == old(diags) + ExcludedDiags(uses[..k], exclude)
        invariant edits == old(edits) + ExcludedEdits(tokens, uses[..k], exclude, wantsFix)
      {
        var e := uses[k].1;
        ghost var d := Diagnostic(ExcludeImported, e.ptr);
        ExcludedStep(tokens, uses, k, exclude, wantsFix);
        AppendAssoc(old(diags), ExcludedDiags(uses[..k], exclude), if ExcludedImport(e, exclude) then [d] else []);
        AppendAssoc(old(edits), ExcludedEdits(tokens, uses[..k], exclude, wantsFix),
                    if ExcludedImport(e, exclude) && wantsFix(d) then ExcludeImportedFix(tokens, e.ptr) else []);
        ReportExcludedImport(tokens, e, wantsFix);
      }
      assert uses[..|uses|] == uses;
    }

    /** processString: report and record what Decide says, importing
        the returned name. */
    method ProcessString(tokens: seq<Token>, p: nat, ns: Option<nat>, wantsFix: Diagnostic -> bool)
      returns (name: Option<string>)
      requires p < |tokens|
      modifies this`diags, this`edits, this`importedFunctions
      ensures var d := Decide(tokens, p, ns, builtInFunctions, exclude, old(importedFunctions), wantsFix);
        && name == d.name
        && diags == old(diags) + d.diags
        && edits == old(edits) + d.edits
        && importedFunctions == if name.Some? then old(importedFunctions)[name.value := Imported(name.value)]
                                else old(importedFunctions)
    {
      var d := Decide(tokens, p, ns, builtInFunctions, exclude, importedFunctions, wantsFix);
      diags := diags + d.diags;
      edits := edits + d.edits;
      name := d.name;
      if d.name.Some? {
        var n := ImportFunction(d.name.value);
        name := Some(n);
      }
    }

    /** ScanInvariant on the sniff's fields. */
    ghost predicate Scanning(tokens: seq<Token>, globalUses: nat -> Uses, current: Option<nat>,
                             pending: seq<string>, start: nat)
      reads this`importedFunctions, this`flushed, this`returned, this`exclude
    {
      && ScanInvariant(tokens, globalUses, current, pending, start, importedFunctions, flushed, builtInFunctions, exclude)
      && ReturnedMatch(current, pending, start, flushed, returned)
    }

    /** The scan state made of the loop's locals and the sniff's fields. */
    ghost function StateOf(current: Option<nat>, pending: seq<string>): ScanState
      reads this`importedFunctions, this`diags, this`edits, this`flushed, this`returned
    {
      ScanState(current, pending, importedFunctions, diags, edits, flushed, returned)
    }

    /** Scanning holds of fields that equal values ScanInvariant and
        ReturnedMatch hold of. */
    lemma ScanningOf(tokens: seq<Token>, globalUses: nat -> Uses, current: Option<nat>, pending: seq<string>,
                     start: nat, imported: map<string, ImportEntry>, log: seq<(nat, seq<string>)>,
                     ret: seq<(nat, string)>)
      requires importedFunctions == imported && flushed == log && returned == ret
      requires ScanInvariant(tokens, globalUses, current, pending, start, imported, log, builtInFunctions, exclude)
      requires ReturnedMatch(current, pending, start, log, ret)
      ensures Scanning(tokens, globalUses, current, pending, start)
    {
    }

    /** Flushing the namespace left and entering the later `found`
        restores the scan's invariant with an empty pending list. */
    lemma SwitchKeepsScanning(tokens: seq<Token>, globalUses: nat -> Uses, current: Option<nat>,
                              pending: seq<string>, found: nat, start: nat)
      requires found < |tokens| && AtMost(current, Some(found)) && current != Some(found)
      requires Scanning(tokens, globalUses, current, pending, start)
      ensures var log' := flushed + FlushEntry(current, pending);
        && ScanInvariant(tokens, globalUses, Some(found), [], start, UsesMap(globalUses(found)), log',
                         builtInFunctions, exclude)
        && ReturnedMatch(Some(found), [], start, log', returned)
    {
      SwitchKeepsInvariant(tokens, globalUses, current, pending, start, importedFunctions, flushed,
                           builtInFunctions, exclude, found);
      SwitchKeepsMatch(current, pending, start, flushed, returned, found);
    }

    /** Entering the namespace at `found`: install its import map and
        report its excluded imports. */
    method EnterNamespace(tokens: seq<Token>, found: nat, globalUses: nat -> Uses, wantsFix: Diagnostic -> bool)
      requires UsesWellFormed(tokens, globalUses(found))
      modifies this`importedFunctions, this`diags, this`edits
      ensures importedFunctions == UsesMap(globalUses(found))
      ensures diags == old(diags) + ExcludedDiags(globalUses(found), exclude)
      ensures edits == old(edits) + ExcludedEdits(tokens, globalUses(found), exclude, wantsFix)
    {
      var uses := globalUses(found);
      importedFunctions := UsesMap(uses);
      ReportExcludedImports(tokens, uses, wantsFix);
    }

    /** Leaving the namespace `current`, if any: import its pending names. */
    method LeaveNamespace(tokens: seq<Token>, current: Option<nat>, pending: seq<string>, eol: string)
      requires current.Some? ==> current.value < |tokens|
      modifies this`edits, this`flushed
      ensures edits == old(edits) + (if current.Some? then FlushEdits(tokens, current.value, pending, eol) else [])
      ensures flushed == old(flushed) + FlushEntry(current, pending)
    {
      if current.Some? {
        ImportFunctions(tokens, current.value, pending, eol);
      } else {
        assert edits == old(edits) + [] && flushed == old(flushed) + [];
      }
    }

    /** What process does when the enclosing namespace changes from
        `current` to the later `found`: flush the pending imports of the
        namespace left, then enter the new one. It keeps the scan's
        invariant, with an empty pending list for the namespace entered. */
    method SwitchNamespace(tokens: seq<Token>, current: Option<nat>, pending: seq<string>, found: nat,
                           globalUses: nat -> Uses, wantsFix: Diagnostic -> bool, eol: string)
      requires found < |tokens| && AtMost(current, Some(found)) && current != Some(found)
      requires UsesWellFormed(tokens, globalUses(found))
      requires current.Some? ==> current.value < |tokens|
      modifies this`edits, this`flushed, this`importedFunctions, this`diags
      ensures diags == old(diags) + ExcludedDiags(globalUses(found), exclude)
      ensures edits == old(edits) + (if current.Some? then FlushEdits(tokens, current.value, pending, eol) else [])
                       + ExcludedEdits(tokens, globalUses(found), exclude, wantsFix)
      ensures importedFunctions == UsesMap(globalUses(found))
      ensures old(diags) <= diags && old(edits) <= edits
      ensures flushed == old(flushed) + FlushEntry(current, pending)
    {
      LeaveNamespace(tokens, current, pending, eol);
      ghost var flushEdits := edits;
      PrefixOfAppend(old(edits), if current.Some? then FlushEdits(tokens, current.value, pending, eol) else []);
      EnterNamespace(tokens, found, globalUses, wantsFix);
      assert edits == flushEdits + ExcludedEdits(tokens, globalUses(found), exclude, wantsFix);
      PrefixOfAppend(old(diags), ExcludedDiags(globalUses(found), exclude));
      PrefixOfAppend(flushEdits, ExcludedEdits(tokens, globalUses(found), exclude, wantsFix));
      PrefixTrans(old(edits), flushEdits, edits);
    }

    /** The rest of one turn of process's loop: classify the identifier
        at `ptr` and add the returned name to the pending list. */
    method Collect(tokens: seq<Token>, ptr: nat, found: Option<nat>, pending: seq<string>,
                   globalUses: nat -> Uses, wantsFix: Diagnostic -> bool, ghost start: nat)
      returns (pending': seq<string>)
      requires ptr < |tokens|
      requires Scanning(tokens, globalUses, found, pending, start)
      modifies this`diags, this`edits, this`importedFunctions, this`returned
      ensures StateOf(found, pending') == Classify(tokens, ptr, old(StateOf(found, pending)), builtInFunctions,
                                                   exclude, wantsFix)
      ensures old(diags) <= diags && old(edits) <= edits
      ensures Scanning(tokens, globalUses, found, pending', start)
    {
      pending' := pending;
      ghost var d := Decide(tokens, ptr, found, builtInFunctions, exclude, importedFunctions, wantsFix);
      var name := ProcessString(tokens, ptr, found, wantsFix);
      PrefixOfAppend(old(diags), d.diags);
      PrefixOfAppend(old(edits), d.edits);
      if name.Some? {
        CollectKeepsInvariant(tokens, globalUses, found.value, pending, start, old(importedFunctions), flushed,
                              returned, builtInFunctions, exclude, name.value);
        pending' := pending + [name.value];
        returned := returned + [(found.value, name.value)];
      }
    }

    /** The start of one turn of process's loop: find the enclosing
        namespace and, when it differs from `current`, flush the pending
        imports and enter it. */
    method EnterIfChanged(tokens: seq<Token>, ptr: nat, current: Option<nat>, pending: seq<string>,
                          globalUses: nat -> Uses, wantsFix: Diagnostic -> bool, eol: string, ghost start: nat)
      returns (found: Option<nat>, pending': seq<string>)
      requires ptr < |tokens|
      requires var ns := FindPrevious(tokens, ptr, {Namespace}, false);
        ns.Some? ==> UsesWellFormed(tokens, globalUses(ns.value))
      requires AtMost(current, FindPrevious(tokens, ptr, {Namespace}, false))
      requires Scanning(tokens, globalUses, current, pending, start)
      modifies this`diags, this`edits, this`importedFunctions, this`flushed
      ensures found == FindPrevious(tokens, ptr, {Namespace}, false)
      ensures StateOf(found, pending') == SwitchTo(tokens, old(StateOf(current, pending)), found, globalUses,
                                                   exclude, wantsFix, eol)
      ensures old(diags) <= diags && old(edits) <= edits
      ensures Scanning(tokens, globalUses, found, pending', start)
    {
      found := FindPrevious(tokens, ptr, {Namespace}, false);
      pending' := pending;
      if found != current {
        ghost var log' := flushed + FlushEntry(current, pending);
        SwitchKeepsScanning(tokens, globalUses, current, pending, found.value, start);
        SwitchNamespace(tokens, current, pending, found.value, globalUses, wantsFix, eol);
        ScanningOf(tokens, globalUses, found, [], start, UsesMap(globalUses(found.value)), log', returned);
        pending' := [];
        assert found.GetOr(0) == found.value;
      }
    }

    /** One turn of process's do-while loop, for the identifier at `ptr`. */
    method ScanString(tokens: seq<Token>, ptr: nat, current: Option<nat>, pending: seq<string>,
                      globalUses: nat -> Uses, wantsFix: Diagnostic -> bool, eol: string, ghost start: nat)
      returns (found: Option<nat>, pending': seq<string>)
      requires ptr < |tokens|
      requires var ns := FindPrevious(tokens, ptr, {Namespace}, false);
        ns.Some? ==> UsesWellFormed(tokens, globalUses(ns.value))
      requires AtMost(current, FindPrevious(tokens, ptr, {Namespace}, false))
      requires Scanning(tokens, globalUses, current, pending, start)
      modifies this`diags, this`edits, this`importedFunctions, this`flushed, this`returned
      ensures found == FindPrevious(tokens, ptr, {Namespace}, false)
      ensures StateOf(found, pending') == Turn(tokens, ptr, old(StateOf(current, pending)), globalUses,
                                               builtInFunctions, exclude, wantsFix, eol)
      ensures old(diags) <= diags && old(edits) <= edits
      ensures Scanning(tokens, globalUses, found, pending', start)
    {
      found, pending' := EnterIfChanged(tokens, ptr, current, pending, globalUses, wantsFix, eol, start);
      ghost var switched := (diags, edits);
      pending' := Collect(tokens, ptr, found, pending', globalUses, wantsFix, start);
      PrefixTrans(old(diags), switched.0, diags);
      PrefixTrans(old(edits), switched.1, edits);
    }

    /** process's do-while loop: every identifier from `stackPtr` on,
        starting outside any namespace. */
    method ScanFile(tokens: seq<Token>, stackPtr: nat, globalUses: nat -> Uses, wantsFix: Diagnostic -> bool,
                    eol: string, ghost start: nat)
      returns (current: Option<nat>, pending: seq<string>)
      requires stackPtr < |tokens|
      requires forall p: nat :: UsesWellFormed(tokens, globalUses(p))
      requires Scanning(tokens, globalUses, None, [], start)
      modifies this`diags, this`edits, this`importedFunctions, this`flushed, this`returned
      ensures Scanning(tokens, globalUses, current, pending, start)
      ensures StateOf(current, pending) == Run(tokens, Visits(tokens, stackPtr), old(StateOf(None, [])), globalUses,
                                               builtInFunctions, exclude, wantsFix, eol)
      ensures old(diags) <= diags && old(edits) <= edits
    {
      current, pending := None, [];
      var ptr := stackPtr;
      while true
        invariant ptr < |tokens|
        invariant AtMost(current, FindPrevious(tokens, ptr, {Namespace}, false))
        invariant Scanning(tokens, globalUses, current, pending, start)
        invariant old(diags) <= diags && old(edits) <= edits
        invariant RunFrom(tokens, ptr, StateOf(current, pending), globalUses, builtInFunctions, exclude, wantsFix, eol)
                  == RunFrom(tokens, stackPtr, old(StateOf(None, [])), globalUses, builtInFunctions, exclude, wantsFix, eol)
        decreases |tokens| - ptr
      {
        ghost var before := (diags, edits);
        current, pending := ScanString(tokens, ptr, current, pending, globalUses, wantsFix, eol, start);
        PrefixTrans(old(diags), before.0, diags);
        PrefixTrans(old(edits), before.1, edits);
        var next := FindNext(tokens, ptr + 1, {String}, false);
        if next.None? {
          break;
        }
        FindPreviousMonotone(tokens, ptr, next.value, {Namespace}, false);
        ptr := next.value;
      }
      RunFromIsRun(tokens, stackPtr, old(StateOf(None, [])), globalUses, builtInFunctions, exclude, wantsFix, eol);
    }

    /** The flush after the loop: the pending imports of the last
        namespace. Afterwards every namespace that had a name returned
        has its block. */
    method FinishFile(tokens: seq<Token>, current: Option<nat>, pending: seq<string>,
                      globalUses: nat -> Uses, eol: string, ghost start: nat)
      requires Scanning(tokens, globalUses, current, pending, start)
      modifies this`edits, this`flushed
      ensures StateOf(None, []) == Finish(tokens, old(StateOf(current, pending)), eol)
      ensures FlushLog(flushed, start, builtInFunctions, exclude)
      ensures FlushesMatch(flushed, start, returned, None)
    {
      if current.Some? {
        ghost var prior := flushed;
        ImportFunctions(tokens, current.value, pending, eol);
        if pending != [] {
          FlushAppend(prior, start, builtInFunctions, exclude, current.value, pending, current.value + 1);
        }
        FlushCloses(prior, start, returned, current.value, pending, None);
      } else {
        assert edits == old(edits) + [] && flushed == old(flushed) + [];
      }
    }

    /** process: scan every identifier from `stackPtr` on, flushing the
        pending imports whenever the enclosing namespace changes and at
        the end. Every flushed block is sorted, free of duplicates,
        built-in and not excluded; each namespace is flushed at most
        once, in source order; and each namespace in which processString
        returned names is flushed with exactly those names. */
    method Process(tokens: seq<Token>, stackPtr: nat, config: Option<seq<string>>,
                   globalUses: nat -> Uses, wantsFix: Diagnostic -> bool, eol: string)
      returns (r: nat)
      requires stackPtr < |tokens|
      requires forall p: nat :: UsesWellFormed(tokens, globalUses(p))
      modifies this
      ensures r == |tokens| + 1
      ensures exclude == config.GetOr([])
      ensures StateOf(None, [])
              == Finish(tokens, Run(tokens, Visits(tokens, stackPtr),
                                    ScanState(None, [], old(importedFunctions), old(diags), old(edits), old(flushed), []),
                                    globalUses, builtInFunctions, exclude, wantsFix, eol), eol)
      ensures FlushLog(flushed, old(|flushed|), builtInFunctions, exclude)
      ensures FlushesMatch(flushed, old(|flushed|), returned, None)
      ensures old(diags) <= diags && old(edits) <= edits
    {
      exclude := config.GetOr([]);
      returned := [];
      ghost var start := |flushed|;
      var current, pending := ScanFile(tokens, stackPtr, globalUses, wantsFix, eol, start);
      FinishFile(tokens, current, pending, globalUses, eol, start);
      r := |tokens| + 1;
    }
  }
}
