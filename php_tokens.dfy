/** The token stream a PHP_CodeSniffer sniff sees, reduced to what the
    import sniff inspects, and the host's two scanning primitives
    (findNext / findPrevious) and PHP's strtolower. */
module PhpTokens {

  datatype Option<T> = None | Some(value: T) {
    function GetOr(default: T): T {
      match this
      case Some(v) => v
      case None => default
    }
  }

  /** Token codes the sniff distinguishes; every other code is `Other`. */
  datatype Code =
    | String          // T_STRING, an identifier
    | Whitespace      // T_WHITESPACE
    | Comment         // T_COMMENT and the T_PHPCS_* annotation comments
    | DocComment      // the T_DOC_COMMENT_* family
    | OpenParenthesis // T_OPEN_PARENTHESIS
    | Function        // T_FUNCTION
    | New             // T_NEW
    | DoubleColon     // T_DOUBLE_COLON, `::`
    | ObjectOperator  // T_OBJECT_OPERATOR, `->`
    | NsSeparator     // T_NS_SEPARATOR, `\`
    | Namespace       // T_NAMESPACE
    | Other(id: int)

  /** A token. `content` is optional as in the host's token array;
      `eos` is the index the host's findEndOfStatement gives for this
      token and `scopeOpener` its `scope_opener` attribute, both supplied
      by the tokenizer rather than computed here. */
  datatype Token = Token(code: Code, content: Option<string>, scopeOpener: Option<nat>, eos: nat)

  /** Tokens::$emptyTokens: whitespace, comments, doc comments and the
      `phpcs:` annotation comments. */
  const EmptyCodes: set<Code> := {Whitespace, Comment, DocComment}

  /** Whether a token with code `c` is a hit for a scan over `types`;
      with `exclude` the scan looks for the first token NOT in `types`. */
  predicate Hit(c: Code, types: set<Code>, exclude: bool) {
    if exclude then c !in types else c in types
  }

  /** findNext(types, from, null, exclude): the first hit at an index
      `from` or later, or None (the host's `false`). */
  function FindNext(tokens: seq<Token>, from: nat, types: set<Code>, exclude: bool): (r: Option<nat>)
    decreases |tokens| - from
    ensures r.Some? ==> from <= r.value < |tokens| && Hit(tokens[r.value].code, types, exclude)
    ensures r.Some? ==> forall j :: from <= j < r.value ==> !Hit(tokens[j].code, types, exclude)
    ensures r.None? ==> forall j :: from <= j < |tokens| ==> !Hit(tokens[j].code, types, exclude)
  {
    if from >= |tokens| then None
    else if Hit(tokens[from].code, types, exclude) then Some(from)
    else FindNext(tokens, from + 1, types, exclude)
  }

  /** findPrevious(types, before - 1, null, exclude): the last hit at an
      index below `before`, scanning down to index 0, or None. A start of
      -1 (before == 0) scans nothing. */
  function FindPrevious(tokens: seq<Token>, before: nat, types: set<Code>, exclude: bool): (r: Option<nat>)
    requires before <= |tokens|
    ensures r.Some? ==> r.value < before && Hit(tokens[r.value].code, types, exclude)
    ensures r.Some? ==> forall j :: r.value < j < before ==> !Hit(tokens[j].code, types, exclude)
    ensures r.None? ==> forall j :: 0 <= j < before ==> !Hit(tokens[j].code, types, exclude)
  {
    if before == 0 then None
    else if Hit(tokens[before - 1].code, types, exclude) then Some(before - 1)
    else FindPrevious(tokens, before - 1, types, exclude)
  }

  /** Order on the results of FindPrevious: None (no hit) comes first. */
  predicate AtMost(a: Option<nat>, b: Option<nat>) {
    a.None? || (b.Some? && a.value <= b.value)
  }

  /** The enclosing-namespace lookup is monotone: a later token never has
      an earlier `namespace` keyword before it than an earlier token. */
  lemma {:induction false} FindPreviousMonotone(tokens: seq<Token>, a: nat, b: nat, types: set<Code>, exclude: bool)
    requires a <= b <= |tokens|
    ensures AtMost(FindPrevious(tokens, a, types, exclude), FindPrevious(tokens, b, types, exclude))
    decreases b - a
  {
    if a < b && !Hit(tokens[b - 1].code, types, exclude) {
      FindPreviousMonotone(tokens, a, b - 1, types, exclude);
    }
  }

  /** strtolower as of PHP 8.2, which folds only the ASCII letters
      whatever the locale. */
  function LowerChar(c: char): (r: char)
    ensures 'A' <= c <= 'Z' ==> r as int == c as int + 32
    ensures !('A' <= c <= 'Z') ==> r == c
    ensures !('A' <= r <= 'Z')
  {
    if 'A' <= c <= 'Z' then (c as int + 32) as char else c
  }

  function Lower(s: string): (r: string)
    ensures |r| == |s|
    ensures forall i :: 0 <= i < |s| ==> r[i] == LowerChar(s[i])
  {
    seq(|s|, i requires 0 <= i < |s| => LowerChar(s[i]))
  }

  /** Lowering twice is lowering once. */
  lemma LowerIdempotent(s: string)
    ensures Lower(Lower(s)) == Lower(s)
  {
    assert forall i :: 0 <= i < |s| ==> Lower(Lower(s))[i] == Lower(s)[i];
  }
}
