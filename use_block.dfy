/** The block of `use function` lines the sniff inserts for one
    namespace: PHP's sort() on the pending names, the text built from
    them, and a reader that takes the text apart again. */
module UseBlock {
  import opened PhpTokens

  /** PHP's comparison of two non-numeric strings: byte-wise, and a
      proper prefix sorts first. */
  predicate StrLe(a: string, b: string) {
    a == [] || (b != [] && (a[0] < b[0] || (a[0] == b[0] && StrLe(a[1..], b[1..]))))
  }

  lemma {:induction false} StrLeTotal(a: string, b: string)
    ensures StrLe(a, b) || StrLe(b, a)
  {
    if a != [] && b != [] && a[0] == b[0] {
      StrLeTotal(a[1..], b[1..]);
    }
  }

  lemma {:induction false} StrLeAntisymmetric(a: string, b: string)
    requires StrLe(a, b) && StrLe(b, a)
    ensures a == b
  {
    if a != [] && b != [] {
      StrLeAntisymmetric(a[1..], b[1..]);
      assert a == [a[0]] + a[1..] && b == [b[0]] + b[1..];
    }
  }

  lemma {:induction false} StrLeTransitive(a: string, b: string, c: string)
    requires StrLe(a, b) && StrLe(b, c)
    ensures StrLe(a, c)
  {
    if a != [] && a[0] == b[0] && b[0] == c[0] {
      StrLeTransitive(a[1..], b[1..], c[1..]);
    }
  }

  predicate Sorted(s: seq<string>) {
    forall i :: 0 < i < |s| ==> StrLe(s[i - 1], s[i])
  }

  /** The first name of a sorted list sorts no later than any other. */
  lemma {:induction false} SortedHeadLeast(s: seq<string>, j: nat)
    requires Sorted(s) && j < |s|
    ensures StrLe(s[0], s[j])
  {
    if j == 0 {
      StrLeTotal(s[0], s[0]);
    } else {
      SortedHeadLeast(s, j - 1);
      StrLeTransitive(s[0], s[j - 1], s[j]);
    }
  }

  /** Two sorted arrangements of the same names start with the same name. */
  lemma SortedSameHead(a: seq<string>, b: seq<string>)
    requires Sorted(a) && Sorted(b) && multiset(a) == multiset(b) && a != [] && b != []
    ensures a[0] == b[0]
  {
    assert a[0] in multiset(b) && b[0] in multiset(a);
    var i :| 0 <= i < |a| && a[i] == b[0];
    var j :| 0 <= j < |b| && b[j] == a[0];
    SortedHeadLeast(a, i);
    SortedHeadLeast(b, j);
    StrLeAntisymmetric(a[0], b[0]);
  }

  /** Two sorted arrangements of the same names are the same list. */
  lemma {:induction false} SortedUnique(a: seq<string>, b: seq<string>)
    requires Sorted(a) && Sorted(b) && multiset(a) == multiset(b)
    ensures a == b
    decreases |a|
  {
    assert |a| == |multiset(a)| == |multiset(b)| == |b|;
    if a != [] {
      SortedSameHead(a, b);
      assert a == [a[0]] + a[1..] && b == [b[0]] + b[1..];
      assert multiset(a[1..]) == multiset(a) - multiset{a[0]} by {
        assert multiset(a) == multiset{a[0]} + multiset(a[1..]);
      }
      assert multiset(b[1..]) == multiset(b) - multiset{b[0]} by {
        assert multiset(b) == multiset{b[0]} + multiset(b[1..]);
      }
      SortedUnique(a[1..], b[1..]);
    }
  }

  /** No name occurs twice. */
  predicate NoDup(s: seq<string>) {
    forall i, j :: 0 <= i < j < |s| ==> s[i] != s[j]
  }

  /** Inserts `x` into the sorted `s`. */
  function Insert(x: string, s: seq<string>): (r: seq<string>)
    requires Sorted(s)
    ensures Sorted(r)
    ensures multiset(r) == multiset(s) + multiset{x}
    ensures r[0] == x || (s != [] && r[0] == s[0])
  {
    if s == [] || StrLe(x, s[0]) then [x] + s
    else
      StrLeTotal(x, s[0]);
      var t := Insert(x, s[1..]);
      assert s == [s[0]] + s[1..];
      [s[0]] + t
  }

  /** sort($functionNames): the names in ascending order. */
  function SortNames(s: seq<string>): (r: seq<string>)
    ensures Sorted(r)
    ensures multiset(r) == multiset(s)
  {
    if s == [] then []
    else
      assert s == [s[0]] + s[1..];
      Insert(s[0], SortNames(s[1..]))
  }

  /** sort() is the only sorted arrangement of the names: any sorted
      permutation of `s` is SortNames(s). */
  lemma SortNamesUnique(s: seq<string>, t: seq<string>)
    requires Sorted(t) && multiset(t) == multiset(s)
    ensures t == SortNames(s)
  {
    SortedUnique(t, SortNames(s));
  }

  /** Sorting keeps a list free of duplicates. */
  lemma {:induction false} NoDupOfPermutation(s: seq<string>, t: seq<string>)
    requires NoDup(s) && multiset(s) == multiset(t)
    ensures NoDup(t)
  {
    forall i, j | 0 <= i < j < |t| ensures t[i] != t[j] {
      if t[i] == t[j] {
        assert multiset(t)[t[i]] >= 2 by {
          assert t == t[..i] + [t[i]] + t[i + 1..j] + [t[j]] + t[j + 1..];
        }
        MultiplicityInNoDup(s, t[i]);
      }
    }
  }

  lemma {:induction false} MultiplicityInNoDup(s: seq<string>, x: string)
    requires NoDup(s)
    ensures multiset(s)[x] <= 1
  {
    if s != [] {
      assert NoDup(s[1..]);
      MultiplicityInNoDup(s[1..], x);
      assert s == [s[0]] + s[1..];
      if s[0] == x {
        assert x !in s[1..] by {
          forall j | 0 <= j < |s[1..]| ensures s[1..][j] != x {
            assert s[1..][j] == s[j + 1];
          }
        }
      }
    }
  }

  const UsePrefix: string := "use function "

  /** sprintf('%suse function %s;', eol, name). */
  function UseLine(eol: string, name: string): string {
    eol + UsePrefix + name + ";"
  }

  /** The lines for `names`, concatenated in order. */
  function Block(eol: string, names: seq<string>): string {
    if names == [] then [] else UseLine(eol, names[0]) + Block(eol, names[1..])
  }

  /** Appending a name to the list appends its line to the text. */
  lemma {:induction false} BlockSnoc(eol: string, names: seq<string>, name: string)
    ensures Block(eol, names + [name]) == Block(eol, names) + UseLine(eol, name)
  {
    if names == [] {
      assert [name][1..] == [];
    } else {
      assert (names + [name])[1..] == names[1..] + [name];
      BlockSnoc(eol, names[1..], name);
    }
  }

  /** The `$content .= ...` loop. */
  method BuildBlock(eol: string, names: seq<string>) returns (content: string)
    ensures content == Block(eol, names)
  {
    content := "";
    var i := 0;
    while i < |names|
      invariant 0 <= i <= |names|
      invariant content == Block(eol, names[..i])
    {
      BlockSnoc(eol, names[..i], names[i]);
      assert names[..i + 1] == names[..i] + [names[i]];
      content := content + UseLine(eol, names[i]);
      i := i + 1;
    }
    assert names[..i] == names;
  }

  function IndexOf(s: string, c: char): (r: Option<nat>)
    ensures r.Some? ==> r.value < |s| && s[r.value] == c && c !in s[..r.value]
    ensures r.None? ==> c !in s
  {
    if s == [] then None
    else if s[0] == c then Some(0)
    else
      var k := IndexOf(s[1..], c);
      if k.None? then None
      else
        assert s[..k.value + 1] == [s[0]] + s[1..][..k.value];
        Some(k.value + 1)
  }

  lemma {:induction false} IndexOfAfter(name: string, c: char, rest: string)
    requires c !in name
    ensures IndexOf(name + [c] + rest, c) == Some(|name|)
  {
    if name != [] {
      assert (name + [c] + rest)[1..] == name[1..] + [c] + rest;
      IndexOfAfter(name[1..], c, rest);
    }
  }

  /** Reads a block back into the names it lists, or None when the text
      is not a sequence of `use function` lines. */
  function ParseBlock(eol: string, s: string): Option<seq<string>>
    decreases |s|
  {
    if s == [] then Some([])
    else
      var head := eol + UsePrefix;
      if |s| < |head| || s[..|head|] != head then None
      else
        var rest := s[|head|..];
        match IndexOf(rest, ';')
        case None => None
        case Some(k) =>
          match ParseBlock(eol, rest[k + 1..])
          case None => None
          case Some(more) => Some([rest[..k]] + more)
  }

  /** The block lists exactly the given names, in the given order, as
      long as no name holds a `;` (PHP function names cannot). */
  lemma {:induction false} ParseBlockRoundTrip(eol: string, names: seq<string>)
    requires forall n :: n in names ==> ';' !in n
    ensures ParseBlock(eol, Block(eol, names)) == Some(names)
  {
    if names != [] {
      var n := names[0];
      var head := eol + UsePrefix;
      var s := Block(eol, names);
      var tail := Block(eol, names[1..]);
      assert s == head + (n + [';'] + tail);
      assert s[..|head|] == head;
      assert s[|head|..] == n + [';'] + tail;
      IndexOfAfter(n, ';', tail);
      assert (n + [';'] + tail)[|n| + 1..] == tail;
      assert (n + [';'] + tail)[..|n|] == n;
      ParseBlockRoundTrip(eol, names[1..]);
      assert names == [n] + names[1..];
    }
  }
}
