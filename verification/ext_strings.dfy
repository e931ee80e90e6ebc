/**
 * The string logic of glExtension: splitting the space-separated GL extension string,
 * the alphabetical order std::sort puts the list in, and the ASCII lower-casing used
 * for case-insensitive lookups.
 *
 * Strings are `seq<char>`; characters are compared by their codes, as std::string's
 * operator< does for the ASCII text GL returns.
 */
module ExtensionText {

  datatype Option<T> = None | Some(value: T)

  // ---------------------------------------------------------------------------
  // Tokenizer
  // ---------------------------------------------------------------------------

  /**
   * The tokens the extension scanner has pushed after reading the characters p: a space
   * pushes the token built so far, any other character extends it.
   */
  function Tokens(p: string): seq<string>
  {
    if p == [] then []
    else if p[|p| - 1] == ' ' then Tokens(p[..|p| - 1]) + [Pending(p[..|p| - 1])]
    else Tokens(p[..|p| - 1])
  }

  /** The token being built after reading p; it is never pushed unless a space follows. */
  function Pending(p: string): string
  {
    if p == [] then []
    else if p[|p| - 1] == ' ' then []
    else Pending(p[..|p| - 1]) + [p[|p| - 1]]
  }

  /** Each token followed by one space, all concatenated. */
  function Join(ts: seq<string>): (s: string)
    ensures ts != [] ==> s != [] && s[|s| - 1] == ' '
  {
    if ts == [] then [] else Join(ts[..|ts| - 1]) + ts[|ts| - 1] + [' ']
  }

  predicate SpaceFree(t: string) {
    forall i :: 0 <= i < |t| ==> t[i] != ' '
  }

  predicate AllSpaceFree(ts: seq<string>) {
    forall k :: 0 <= k < |ts| ==> SpaceFree(ts[k])
  }

  /** Reading one more character: how the token list and the pending token move on. */
  lemma ScanStep(p: string, c: char)
    ensures Tokens(p + [c]) == if c == ' ' then Tokens(p) + [Pending(p)] else Tokens(p)
    ensures Pending(p + [c]) == if c == ' ' then [] else Pending(p) + [c]
  {
    assert (p + [c])[..|p + [c]| - 1] == p;
  }

  /** Exactly one token is pushed per space character. */
  lemma {:induction false} TokenCount(p: string)
    ensures |Tokens(p)| == multiset(p)[' ']
  {
    if p != [] {
      var q, c := p[..|p| - 1], p[|p| - 1];
      assert p == q + [c];
      TokenCount(q);
    }
  }

  /** No token, and not the pending one, contains a space. */
  lemma {:induction false} TokensSpaceFree(p: string)
    ensures AllSpaceFree(Tokens(p)) && SpaceFree(Pending(p))
  {
    if p != [] {
      TokensSpaceFree(p[..|p| - 1]);
    }
  }

  /**
   * Nothing is lost but the characters after the last space: each token followed by a
   * space, then the pending token, gives back the input.
   */
  lemma {:induction false} JoinTokens(p: string)
    ensures Join(Tokens(p)) + Pending(p) == p
  {
    if p != [] {
      var q, c := p[..|p| - 1], p[|p| - 1];
      JoinTokens(q);
      var ts := Tokens(p);
      if c == ' ' {
        assert ts[..|ts| - 1] == Tokens(q);
      }
      assert p == q + [c];
    }
  }

  /**
   * The split is the only one: a list of space-free tokens, each followed by a space,
   * and a space-free remainder that together spell p are Tokens(p) and Pending(p).
   */
  lemma {:induction false} TokensUnique(p: string, ts: seq<string>, rest: string)
    requires AllSpaceFree(ts) && SpaceFree(rest)
    requires Join(ts) + rest == p
    ensures ts == Tokens(p) && rest == Pending(p)
    decreases |p|
  {
    if p == [] {
      assert ts == [];
    } else {
      var q, c := p[..|p| - 1], p[|p| - 1];
      if rest != [] {
        var r := rest[..|rest| - 1];
        assert rest == r + [c];
        assert Join(ts) + r == q;
        TokensUnique(q, ts, r);
      } else {
        var us, t := ts[..|ts| - 1], ts[|ts| - 1];
        assert c == ' ';
        assert Join(us) + t == q;
        assert AllSpaceFree(us);
        TokensUnique(q, us, t);
        assert ts == us + [t];
      }
    }
  }

  /** Scanning a joined list of space-free tokens gives the list back, with nothing pending. */
  lemma JoinRoundTrip(ts: seq<string>)
    requires AllSpaceFree(ts)
    ensures Tokens(Join(ts)) == ts && Pending(Join(ts)) == []
  {
    assert Join(ts) + [] == Join(ts);
    TokensUnique(Join(ts), ts, []);
  }

  // ---------------------------------------------------------------------------
  // Alphabetical order (std::string's operator<)
  // ---------------------------------------------------------------------------

  /** a is not after b: lexicographic by character code, a proper prefix first. */
  predicate LessEq(a: string, b: string)
  {
    a == [] || (b != [] && (a[0] < b[0] || (a[0] == b[0] && LessEq(a[1..], b[1..]))))
  }

  lemma {:induction false} LessEqTotal(a: string, b: string)
    ensures LessEq(a, b) || LessEq(b, a)
  {
    if a != [] && b != [] && a[0] == b[0] {
      LessEqTotal(a[1..], b[1..]);
    }
  }

  lemma {:induction false} LessEqAntisymmetric(a: string, b: string)
    requires LessEq(a, b) && LessEq(b, a)
    ensures a == b
  {
    if a != [] {
      LessEqAntisymmetric(a[1..], b[1..]);
      assert a == [a[0]] + a[1..] && b == [b[0]] + b[1..];
    }
  }

  lemma {:induction false} LessEqTransitive(a: string, b: string, c: string)
    requires LessEq(a, b) && LessEq(b, c)
    ensures LessEq(a, c)
  {
    if a != [] && a[0] == b[0] && b[0] == c[0] {
      LessEqTransitive(a[1..], b[1..], c[1..]);
    }
  }

  predicate Sorted(xs: seq<string>) {
    forall i, j :: 0 <= i < j < |xs| ==> LessEq(xs[i], xs[j])
  }

  /** x placed into the sorted list xs before the first element it is not after. */
  function Insert(x: string, xs: seq<string>): (r: seq<string>)
    requires Sorted(xs)
    ensures Sorted(r) && multiset(r) == multiset(xs) + multiset{x}
  {
    if xs == [] then [x]
    else if LessEq(x, xs[0]) then
      InsertFront(x, xs);
      [x] + xs
    else
      var rest := Insert(x, xs[1..]);
      InsertBehind(x, xs, rest);
      [xs[0]] + rest
  }

  lemma InsertFront(x: string, xs: seq<string>)
    requires Sorted(xs) && xs != [] && LessEq(x, xs[0])
    ensures Sorted([x] + xs)
  {
    forall j | 0 < j < |xs| ensures LessEq(x, xs[j]) {
      LessEqTransitive(x, xs[0], xs[j]);
    }
  }

  lemma InsertBehind(x: string, xs: seq<string>, rest: seq<string>)
    requires Sorted(xs) && xs != [] && !LessEq(x, xs[0])
    requires Sorted(rest) && multiset(rest) == multiset(xs[1..]) + multiset{x}
    ensures Sorted([xs[0]] + rest) && multiset([xs[0]] + rest) == multiset(xs) + multiset{x}
  {
    LessEqTotal(x, xs[0]);
    forall j | 0 <= j < |rest| ensures LessEq(xs[0], rest[j]) {
      assert rest[j] in multiset(rest);
      if rest[j] != x {
        assert rest[j] in multiset(xs[1..]);
        var k :| 1 <= k < |xs| && xs[k] == rest[j];
      }
    }
    assert xs == [xs[0]] + xs[1..];
  }

  /**
   * The extension list in alphabetical order: a sorted permutation of xs. By SortedUnique
   * it is the arrangement std::sort leaves, whatever order it visits the elements in.
   */
  function SortStrings(xs: seq<string>): (r: seq<string>)
    ensures Sorted(r) && multiset(r) == multiset(xs)
  {
    if xs == [] then []
    else
      assert xs == [xs[0]] + xs[1..];
      Insert(xs[0], SortStrings(xs[1..]))
  }

  lemma {:induction false} LessEqReflexive(a: string)
    ensures LessEq(a, a)
  {
    if a != [] {
      LessEqReflexive(a[1..]);
    }
  }

  /** The head of a sorted list is not after any of its elements. */
  lemma SortedHeadLeast(xs: seq<string>, y: string)
    requires Sorted(xs) && y in xs
    ensures LessEq(xs[0], y)
  {
    var k :| 0 <= k < |xs| && xs[k] == y;
    if k == 0 {
      LessEqReflexive(y);
    }
  }

  lemma MultisetTail(xs: seq<string>)
    requires xs != []
    ensures multiset(xs[1..]) == multiset(xs) - multiset{xs[0]}
  {
    assert xs == [xs[0]] + xs[1..];
  }

  /** Two sorted lists holding the same strings are the same list. */
  lemma {:induction false} SortedUnique(a: seq<string>, b: seq<string>)
    requires Sorted(a) && Sorted(b) && multiset(a) == multiset(b)
    ensures a == b
  {
    assert |a| == |multiset(a)| && |b| == |multiset(b)|;
    if a != [] {
      assert a[0] in multiset(b) && b[0] in multiset(a);
      SortedHeadLeast(b, a[0]);
      SortedHeadLeast(a, b[0]);
      LessEqAntisymmetric(a[0], b[0]);
      MultisetTail(a);
      MultisetTail(b);
      SortedUnique(a[1..], b[1..]);
      assert a == [a[0]] + a[1..] && b == [b[0]] + b[1..];
    }
  }

  // ---------------------------------------------------------------------------
  // Lower-casing (::tolower in the C locale)
  // ---------------------------------------------------------------------------

  predicate IsUpper(c: char) {
    'A' <= c <= 'Z'
  }

  /** tolower: an ASCII capital becomes its small letter, any other character is kept. */
  function LowerChar(c: char): char {
    if IsUpper(c) then (c as int + 32) as char else c
  }

  /** The string with every character passed through LowerChar. */
  function Lower(s: string): (r: string)
    ensures |r| == |s|
  {
    seq(|s|, i requires 0 <= i < |s| => LowerChar(s[i]))
  }

  /** Lower-casing leaves no capital behind, and changes nothing but capitals. */
  lemma LowerProperties(s: string)
    ensures forall i :: 0 <= i < |s| ==> !IsUpper(Lower(s)[i])
    ensures forall i :: 0 <= i < |s| && !IsUpper(s[i]) ==> Lower(s)[i] == s[i]
    ensures forall i :: 0 <= i < |s| && IsUpper(s[i]) ==> Lower(s)[i] as int == s[i] as int + 32
  {
  }

  /** Lower-casing twice is lower-casing once. */
  lemma LowerIdempotent(s: string)
    ensures Lower(Lower(s)) == Lower(s)
  {
    LowerProperties(s);
  }

  /** c and d are the same letter in either case, or the same character. */
  predicate SameIgnoringCase(c: char, d: char) {
    c == d || (IsUpper(c) && d as int == c as int + 32) || (IsUpper(d) && c as int == d as int + 32)
  }

  /**
   * Two strings have equal lower-case forms exactly when they have the same length and
   * agree character by character up to ASCII case.
   */
  lemma LowerEqual(a: string, b: string)
    ensures Lower(a) == Lower(b) <==>
              |a| == |b| && forall i :: 0 <= i < |a| ==> SameIgnoringCase(a[i], b[i])
  {
    if |a| == |b| && forall i :: 0 <= i < |a| ==> SameIgnoringCase(a[i], b[i]) {
      forall i | 0 <= i < |a| ensures Lower(a)[i] == Lower(b)[i] {
        assert SameIgnoringCase(a[i], b[i]);
      }
    }
    if Lower(a) == Lower(b) {
      forall i | 0 <= i < |a| ensures SameIgnoringCase(a[i], b[i]) {
        assert Lower(a)[i] == Lower(b)[i];
        assert LowerChar(a[i]) as int == LowerChar(b[i]) as int;
      }
    }
  }
}
