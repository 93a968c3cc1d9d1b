/**
 * String helpers the copy action relies on: the whitespace split behind the word
 * and token statistics, the literal `$FILE_PATH` substitution, `endsWith` and
 * `joinToString`. Strings are sequences of `char`.
 */
module Text {

  /** The characters of the regular-expression class `\s`: space, tab, line feed,
      vertical tab, form feed and carriage return. */
  predicate IsWhitespace(c: char) {
    c == ' ' || c == '\t' || c == '\n' || c == '\U{0B}' || c == '\U{0C}' || c == '\r'
  }

  /** The characters matched by the class `[;{}()\[\],]`. */
  predicate IsPunctuation(c: char) {
    c == ';' || c == '{' || c == '}' || c == '(' || c == ')' || c == '[' || c == ']' || c == ','
  }

  /** Number of occurrences of `c` in `s`. */
  function CountChar(s: string, c: char): (n: nat)
    ensures n <= |s|
  {
    if s == [] then 0 else (if s[0] == c then 1 else 0) + CountChar(s[1..], c)
  }

  lemma {:induction false} CountCharAppend(a: string, b: string, c: char)
    ensures CountChar(a + b, c) == CountChar(a, c) + CountChar(b, c)
  {
    if a == [] {
      assert a + b == b;
    } else {
      assert (a + b)[1..] == a[1..] + b;
      CountCharAppend(a[1..], b, c);
    }
  }

  // ---------------------------------------------------------------------------
  // Splitting

  /** Number of characters of `s` that satisfy `isSep`. */
  function CountWhere(s: string, isSep: char -> bool): (n: nat)
    ensures n <= |s|
  {
    if s == [] then 0 else (if isSep(s[0]) then 1 else 0) + CountWhere(s[1..], isSep)
  }

  /** The pieces of `s` between single separator characters, in order: there is
      always one more piece than there are separators, and pieces may be empty. */
  function SplitWhere(s: string, isSep: char -> bool): (r: seq<string>)
    ensures |r| >= 1
    ensures forall i :: 0 <= i < |r| ==> forall k :: 0 <= k < |r[i]| ==> !isSep(r[i][k])
  {
    if s == [] then [""]
    else
      var rest := SplitWhere(s[1..], isSep);
      if isSep(s[0]) then [""] + rest
      else [[s[0]] + rest[0]] + rest[1..]
  }

  /** There is exactly one more piece than there are separators. */
  lemma {:induction false} SplitWhereCount(s: string, isSep: char -> bool)
    ensures |SplitWhere(s, isSep)| == 1 + CountWhere(s, isSep)
  {
    if s != [] {
      SplitWhereCount(s[1..], isSep);
    }
  }

  /** Number of empty strings in `ps`. */
  function CountEmpty(ps: seq<string>): (n: nat)
    ensures n <= |ps|
  {
    if ps == [] then 0 else (if ps[0] == "" then 1 else 0) + CountEmpty(ps[1..])
  }

  /** The non-empty strings of `ps`, in order. */
  function NonEmpty(ps: seq<string>): (r: seq<string>)
    ensures |r| <= |ps|
    ensures forall i :: 0 <= i < |r| ==> r[i] != "" && r[i] in ps
  {
    if ps == [] then []
    else if ps[0] == "" then NonEmpty(ps[1..])
    else [ps[0]] + NonEmpty(ps[1..])
  }

  /** Only the empty strings are dropped: every non-empty string of `ps` is kept. */
  lemma {:induction false} NonEmptyKeepsEveryNonEmpty(ps: seq<string>)
    ensures |NonEmpty(ps)| == |ps| - CountEmpty(ps)
    ensures forall p :: p in ps && p != "" ==> p in NonEmpty(ps)
  {
    if ps != [] {
      NonEmptyKeepsEveryNonEmpty(ps[1..]);
      assert forall p :: p in ps ==> p == ps[0] || p in ps[1..];
    }
  }

  /** The words of `s`: what `s.split("\\s+".toRegex()).filter { it.isNotEmpty() }`
      yields. Splitting at single whitespace characters and dropping the empty
      pieces gives the same list as splitting at maximal runs of them. */
  function Words(s: string): seq<string> {
    NonEmpty(SplitWhere(s, IsWhitespace))
  }

  /** Reference definition of the word count: the number of positions that hold a
      non-whitespace character which starts the string or follows whitespace.
      `afterSpace` says whether the character before `s` was whitespace (or absent). */
  function WordStarts(s: string, afterSpace: bool): nat {
    if s == [] then 0
    else (if afterSpace && !IsWhitespace(s[0]) then 1 else 0) + WordStarts(s[1..], IsWhitespace(s[0]))
  }

  lemma FirstPieceEmpty(s: string, isSep: char -> bool)
    ensures SplitWhere(s, isSep)[0] == "" <==> (s == [] || isSep(s[0]))
  {
  }

  lemma {:induction false} NonEmptyCons(p: string, ps: seq<string>)
    ensures |NonEmpty([p] + ps)| == (if p == "" then 0 else 1) + |NonEmpty(ps)|
  {
    assert ([p] + ps)[1..] == ps;
  }

  /** The words of `s` are exactly as many as the word starts of `s`. */
  lemma {:induction false} WordCountIsWordStarts(s: string)
    ensures |Words(s)| == WordStarts(s, true)
    ensures WordStarts(s, false) == WordStarts(s, true) - (if s != [] && !IsWhitespace(s[0]) then 1 else 0)
  {
    if s != [] {
      var t := s[1..];
      var p := SplitWhere(t, IsWhitespace);
      WordCountIsWordStarts(t);
      FirstPieceEmpty(t, IsWhitespace);
      if IsWhitespace(s[0]) {
        NonEmptyCons("", p);
      } else {
        var w := [s[0]] + p[0];
        assert SplitWhere(s, IsWhitespace) == [w] + p[1..];
        NonEmptyCons(w, p[1..]);
        assert p == [p[0]] + p[1..];
        NonEmptyCons(p[0], p[1..]);
      }
    }
  }

  /** Every word is a non-empty stretch without whitespace. */
  lemma WordsAreWhitespaceFree(s: string)
    ensures forall i :: 0 <= i < |Words(s)| ==>
      Words(s)[i] != "" && forall k :: 0 <= k < |Words(s)[i]| ==> !IsWhitespace(Words(s)[i][k])
  {
    var ps := SplitWhere(s, IsWhitespace);
    forall i | 0 <= i < |Words(s)|
      ensures Words(s)[i] != "" && forall k :: 0 <= k < |Words(s)[i]| ==> !IsWhitespace(Words(s)[i][k])
    {
      var w := Words(s)[i];
      assert w in ps;
      var j :| 0 <= j < |ps| && ps[j] == w;
    }
  }

  lemma {:induction false} WordStartsBound(s: string, afterSpace: bool)
    ensures WordStarts(s, afterSpace) <= |s|
  {
    if s != [] {
      WordStartsBound(s[1..], IsWhitespace(s[0]));
    }
  }

  // ---------------------------------------------------------------------------
  // Statistics

  /** Number of characters of `s` in the punctuation class. */
  function PunctuationCount(s: string): (n: nat)
    ensures n <= |s|
  {
    if s == [] then 0 else (if IsPunctuation(s[0]) then 1 else 0) + PunctuationCount(s[1..])
  }

  lemma {:induction false} PunctuationCountAppend(a: string, b: string)
    ensures PunctuationCount(a + b) == PunctuationCount(a) + PunctuationCount(b)
  {
    if a == [] {
      assert a + b == b;
    } else {
      assert (a + b)[1..] == a[1..] + b;
      PunctuationCountAppend(a[1..], b);
    }
  }

  /** The number of words of `s`. */
  function WordCount(s: string): nat {
    |Words(s)|
  }

  /** The token estimate: one per word plus one per punctuation character, whatever
      its neighbours. */
  function EstimateTokens(s: string): nat {
    WordCount(s) + PunctuationCount(s)
  }

  /** The word count agrees with the reference count of word starts, and neither
      it nor the token estimate outgrows the text; both are zero exactly for
      blank texts. */
  lemma EstimateTokensBounds(s: string)
    ensures WordCount(s) == WordStarts(s, true) <= |s|
    ensures EstimateTokens(s) <= 2 * |s|
    ensures WordCount(s) == 0 <==> forall k :: 0 <= k < |s| ==> IsWhitespace(s[k])
    ensures EstimateTokens(s) == 0 <==> forall k :: 0 <= k < |s| ==> IsWhitespace(s[k])
  {
    WordCountIsWordStarts(s);
    WordStartsBound(s, true);
    WordStartsAllWhitespace(s);
    PunctuationOfWhitespace(s);
  }

  /** A text has no word start exactly when it is all whitespace. */
  lemma {:induction false} WordStartsAllWhitespace(s: string)
    ensures WordStarts(s, true) == 0 <==> forall k :: 0 <= k < |s| ==> IsWhitespace(s[k])
  {
    if s != [] {
      WordCountIsWordStarts(s[1..]);
      WordStartsAllWhitespace(s[1..]);
      assert forall k :: 1 <= k < |s| ==> s[k] == s[1..][k - 1];
    }
  }

  lemma {:induction false} PunctuationOfWhitespace(s: string)
    ensures (forall k :: 0 <= k < |s| ==> IsWhitespace(s[k])) ==> PunctuationCount(s) == 0
  {
    if s != [] {
      assert forall k :: 0 <= k < |s[1..]| ==> s[1..][k] == s[k + 1];
      PunctuationOfWhitespace(s[1..]);
    }
  }

  /** The line count used by the statistics: the line feeds, plus one for a
      non-empty text (its last line). */
  function LineCount(s: string): (n: nat)
    ensures s == [] <==> n == 0
    ensures n <= |s| + 1
  {
    CountChar(s, '\n') + (if s != [] then 1 else 0)
  }

  /** Gluing two non-empty texts without a separator merges the last line of the
      first with the first line of the second. */
  lemma LineCountAppend(a: string, b: string)
    ensures LineCount(a + b) == LineCount(a) + LineCount(b) - (if a != [] && b != [] then 1 else 0)
  {
    CountCharAppend(a, b, '\n');
  }

  /** Per-text statistics are not additive over concatenation: "foo" and "bar"
      make two words apart and one word together. */
  lemma WordsMergeAcrossConcatenation()
    ensures WordCount("foo") + WordCount("bar") == 2
    ensures WordCount("foo" + "bar") == 1
  {
    WordCountIsWordStarts("foo");
    WordCountIsWordStarts("bar");
    WordCountIsWordStarts("foobar");
    assert "foo" + "bar" == "foobar";
    assert WordStarts("r", false) == 0 by { assert "r"[1..] == ""; }
    assert WordStarts("ar", false) == 0 by { assert "ar"[1..] == "r"; }
    assert WordStarts("bar", false) == 0 by { assert "bar"[1..] == "ar"; }
    assert WordStarts("obar", false) == 0 by { assert "obar"[1..] == "bar"; }
    assert WordStarts("oobar", false) == 0 by { assert "oobar"[1..] == "obar"; }
    assert WordStarts("foobar", true) == 1 by { assert "foobar"[1..] == "oobar"; }
    assert WordStarts("o", false) == 0 by { assert "o"[1..] == ""; }
    assert WordStarts("oo", false) == 0 by { assert "oo"[1..] == "o"; }
    assert WordStarts("foo", true) == 1 by { assert "foo"[1..] == "oo"; }
    assert WordStarts("bar", true) == 1 by { assert "bar"[1..] == "ar"; }
  }

  /** The example "foo(bar, baz);", in three pieces. */
  lemma ExamplePieces()
    ensures "foo(bar, baz);" == "foo(" + "bar, " + "baz);"
  {
  }

  /** The word starts of the three pieces of "foo(bar, baz);". */
  lemma WordStartsOfPieces()
    ensures WordStarts("foo(", true) == 1
    ensures WordStarts("bar, ", false) == 0
    ensures WordStarts("baz);", true) == 1
  {
    assert "foo("[1..] == "oo(";
    WordStartsOfPrefix("oo(");
    assert "bar, "[1..] == "ar, " && "ar, "[1..] == "r, " && "r, "[1..] == ", " && ", "[1..] == " ";
    assert "baz);"[1..] == "az);";
    WordStartsOfPrefix("az);");
  }

  lemma WordStartsExample()
    ensures WordStarts("foo(bar, baz);", true) == 2
  {
    ExamplePieces();
    WordStartsOfPieces();
    WordStartsAppend("foo(", "bar, ", true);
    assert ("foo(" + "bar, ")[|"foo(" + "bar, "| - 1] == ' ';
    WordStartsAppend("foo(" + "bar, ", "baz);", true);
  }

  /** The example "foo(bar, baz);" has two words. */
  lemma WordCountExample()
    ensures WordCount("foo(bar, baz);") == 2
  {
    WordStartsExample();
    WordCountIsWordStarts("foo(bar, baz);");
  }

  /** A text without whitespace, scanned after a non-whitespace character, holds no
      word start. */
  lemma WordStartsOfPrefix(w: string)
    requires forall k :: 0 <= k < |w| ==> !IsWhitespace(w[k])
    ensures WordStarts(w, false) == 0
  {
    WordStartsOfWord(w, false);
  }

  /** The example "foo(bar, baz);" holds four punctuation marks. */
  lemma PunctuationCountExample()
    ensures PunctuationCount("foo(bar, baz);") == 4
  {
    ExamplePieces();
    assert PunctuationCount("foo(") == 1 by {
      assert "foo("[1..] == "oo(" && "oo("[1..] == "o(" && "o("[1..] == "(" && "("[1..] == "";
    }
    assert PunctuationCount("bar, ") == 1 by {
      assert "bar, "[1..] == "ar, " && "ar, "[1..] == "r, " && "r, "[1..] == ", " && ", "[1..] == " " && " "[1..] == "";
    }
    assert PunctuationCount("baz);") == 2 by {
      assert "baz);"[1..] == "az);" && "az);"[1..] == "z);" && "z);"[1..] == ");" && ");"[1..] == ";" && ";"[1..] == "";
    }
    PunctuationCountAppend("foo(", "bar, ");
    PunctuationCountAppend("foo(" + "bar, ", "baz);");
  }

  /** The token estimate of "foo(bar, baz);" is six: two words and four punctuation marks. */
  lemma EstimateTokensExample()
    ensures EstimateTokens("foo(bar, baz);") == 6
  {
    WordCountExample();
    PunctuationCountExample();
  }

  /** A string without whitespace holds at most one word start, at its head. */
  lemma {:induction false} WordStartsOfWord(w: string, afterSpace: bool)
    requires forall k :: 0 <= k < |w| ==> !IsWhitespace(w[k])
    ensures WordStarts(w, afterSpace) == if afterSpace && w != [] then 1 else 0
  {
    if w != [] {
      WordStartsOfWord(w[1..], false);
    }
  }

  /** Word starts of a concatenation: the second part is scanned with the flag the
      first part leaves behind. */
  lemma {:induction false} WordStartsAppend(a: string, b: string, afterSpace: bool)
    ensures WordStarts(a + b, afterSpace) ==
      WordStarts(a, afterSpace) + WordStarts(b, if a == [] then afterSpace else IsWhitespace(a[|a| - 1]))
  {
    if a == [] {
      assert a + b == b;
    } else {
      assert (a + b)[1..] == a[1..] + b;
      WordStartsAppend(a[1..], b, IsWhitespace(a[0]));
      if |a| > 1 {
        assert a[1..][|a[1..]| - 1] == a[|a| - 1];
      }
    }
  }

  // ---------------------------------------------------------------------------
  // Substitution, suffixes and joining

  /** `pat` occurs in `s` at position `i`. */
  predicate OccursAt(s: string, pat: string, i: nat) {
    i + |pat| <= |s| && s[i..i + |pat|] == pat
  }

  /** Literal, case-sensitive replacement of every occurrence of `pat` in `s` by
      `rep`, scanning left to right and resuming after each replaced occurrence. */
  function Replace(s: string, pat: string, rep: string): string
    requires pat != []
    decreases |s|
  {
    if |s| < |pat| then s
    else if s[..|pat|] == pat then rep + Replace(s[|pat|..], pat, rep)
    else [s[0]] + Replace(s[1..], pat, rep)
  }

  /** Occurrences in the tail of `s` are the occurrences in `s` shifted by one. */
  lemma OccursAtTail(s: string, pat: string, i: nat)
    requires s != []
    ensures OccursAt(s[1..], pat, i) <==> OccursAt(s, pat, i + 1)
  {
    if i + |pat| <= |s[1..]| {
      assert s[1..][i..i + |pat|] == s[i + 1..i + 1 + |pat|];
    }
  }

  /** Text in which `pat` does not occur is left as it is. */
  lemma {:induction false} ReplaceWithoutOccurrence(s: string, pat: string, rep: string)
    requires pat != []
    requires forall i: nat :: !OccursAt(s, pat, i)
    ensures Replace(s, pat, rep) == s
    decreases |s|
  {
    if |s| >= |pat| {
      assert !OccursAt(s, pat, 0);
      forall i: nat ensures !OccursAt(s[1..], pat, i) {
        OccursAtTail(s, pat, i);
      }
      ReplaceWithoutOccurrence(s[1..], pat, rep);
    }
  }

  /** A prefix `x` in which no occurrence of `pat` starts (not even one running
      into `y`) is copied unchanged. */
  lemma {:induction false} ReplaceSkipsPrefix(x: string, y: string, pat: string, rep: string)
    requires pat != []
    requires forall i: nat :: i < |x| ==> !OccursAt(x + y, pat, i)
    ensures Replace(x + y, pat, rep) == x + Replace(y, pat, rep)
  {
    var s := x + y;
    if x == [] {
      assert s == y;
    } else if |s| < |pat| {
      assert Replace(s, pat, rep) == s;
      assert Replace(y, pat, rep) == y;
    } else {
      assert !OccursAt(s, pat, 0);
      assert s[..|pat|] != pat;
      assert s[1..] == x[1..] + y;
      forall i: nat | i < |x[1..]| ensures !OccursAt(x[1..] + y, pat, i) {
        OccursAtTail(s, pat, i);
      }
      ReplaceSkipsPrefix(x[1..], y, pat, rep);
      assert Replace(s, pat, rep) == [s[0]] + Replace(s[1..], pat, rep);
      assert [x[0]] + x[1..] == x;
    }
  }

  /** The first occurrence of `pat`, after a prefix where none starts, is
      swapped for `rep` and the replacement carries on after it. */
  lemma ReplaceFirstOccurrence(pre: string, post: string, pat: string, rep: string)
    requires pat != []
    requires forall i: nat :: i < |pre| ==> !OccursAt(pre + pat + post, pat, i)
    ensures Replace(pre + pat + post, pat, rep) == pre + rep + Replace(post, pat, rep)
  {
    assert pre + pat + post == pre + (pat + post);
    ReplaceSkipsPrefix(pre, pat + post, pat, rep);
    assert (pat + post)[..|pat|] == pat && (pat + post)[|pat|..] == post;
  }

  /** A template holding the placeholder once, with no other occurrence, becomes
      the template with the placeholder swapped for `rep`. */
  lemma ReplaceSingle(pre: string, post: string, pat: string, rep: string)
    requires pat != []
    requires forall i: nat :: i < |pre| ==> !OccursAt(pre + pat + post, pat, i)
    requires forall i: nat :: !OccursAt(post, pat, i)
    ensures Replace(pre + pat + post, pat, rep) == pre + rep + post
  {
    ReplaceFirstOccurrence(pre, post, pat, rep);
    ReplaceWithoutOccurrence(post, pat, rep);
  }

  /** No occurrence of `pat` starts inside a text `x` that lacks its first
      character, whatever follows `x`. */
  lemma NoOccurrenceStartsIn(x: string, y: string, pat: string)
    requires pat != [] && pat[0] !in x
    ensures forall i: nat :: i < |x| ==> !OccursAt(x + y, pat, i)
  {
    forall i: nat | i < |x| ensures !OccursAt(x + y, pat, i) {
      assert (x + y)[i] == x[i];
    }
  }

  /** A template made of pieces joined by the placeholder, none of them holding
      the placeholder's first character, becomes the pieces joined by `rep`. */
  lemma {:induction false} ReplaceJoin(pieces: seq<string>, pat: string, rep: string)
    requires pat != []
    requires forall i :: 0 <= i < |pieces| ==> pat[0] !in pieces[i]
    ensures Replace(Join(pieces, pat), pat, rep) == Join(pieces, rep)
  {
    if |pieces| == 1 {
      assert forall i: nat :: !OccursAt(pieces[0], pat, i);
      ReplaceWithoutOccurrence(pieces[0], pat, rep);
    } else if |pieces| > 1 {
      var post := Join(pieces[1..], pat);
      NoOccurrenceStartsIn(pieces[0], pat + post, pat);
      assert pieces[0] + pat + post == pieces[0] + (pat + post);
      ReplaceFirstOccurrence(pieces[0], post, pat, rep);
      ReplaceJoin(pieces[1..], pat, rep);
    }
  }

  /** `s.endsWith(suffix)`, exact and case-sensitive. */
  predicate EndsWith(s: string, suffix: string) {
    |suffix| <= |s| && s[|s| - |suffix|..] == suffix
  }

  /** `s` ends with `suffix` exactly when it is some string followed by `suffix`. */
  lemma EndsWithIffConcat(s: string, suffix: string)
    ensures EndsWith(s, suffix) <==> exists p: string :: s == p + suffix
  {
    if EndsWith(s, suffix) {
      assert s == s[..|s| - |suffix|] + suffix;
    }
    if exists p: string :: s == p + suffix {
      var p: string :| s == p + suffix;
      assert s[|s| - |suffix|..] == suffix;
    }
  }

  /** Whether `name` ends with at least one of `suffixes` (the negation of
      `suffixes.none { name.endsWith(it) }`). */
  function AnyEndsWith(name: string, suffixes: seq<string>): (r: bool)
    ensures r <==> exists i :: 0 <= i < |suffixes| && EndsWith(name, suffixes[i])
  {
    if suffixes == [] then false
    else if EndsWith(name, suffixes[0]) then true
    else
      var r := AnyEndsWith(name, suffixes[1..]);
      assert forall i :: 1 <= i < |suffixes| ==> suffixes[i] == suffixes[1..][i - 1];
      r
  }

  /** `parts.joinToString(separator = sep)`. */
  function Join(parts: seq<string>, sep: string): string {
    if |parts| == 0 then ""
    else if |parts| == 1 then parts[0]
    else parts[0] + sep + Join(parts[1..], sep)
  }

  /** Joining two non-empty lists puts one separator between their joins. */
  lemma {:induction false} JoinAppend(a: seq<string>, b: seq<string>, sep: string)
    requires a != [] && b != []
    ensures Join(a + b, sep) == Join(a, sep) + sep + Join(b, sep)
  {
    if |a| == 1 {
      assert (a + b)[1..] == b;
    } else {
      assert (a + b)[1..] == a[1..] + b;
      JoinAppend(a[1..], b, sep);
    }
  }

  /** Joining the pieces of a split at a single separator character with that
      character gives back the split string. */
  lemma {:induction false} JoinSplitRoundTrip(s: string, isSep: char -> bool, c: char)
    requires forall x :: isSep(x) <==> x == c
    ensures Join(SplitWhere(s, isSep), [c]) == s
  {
    if s != [] {
      JoinSplitRoundTrip(s[1..], isSep, c);
      if s[0] == c {
        JoinSplitAtSeparator(s, isSep, c);
      } else {
        JoinSplitInPiece(s, isSep, c);
      }
    }
  }

  /** A leading separator starts the split with an empty piece. */
  lemma JoinSplitAtSeparator(s: string, isSep: char -> bool, c: char)
    requires s != [] && s[0] == c
    requires forall x :: isSep(x) <==> x == c
    requires Join(SplitWhere(s[1..], isSep), [c]) == s[1..]
    ensures Join(SplitWhere(s, isSep), [c]) == s
  {
    var rest := SplitWhere(s[1..], isSep);
    assert SplitWhere(s, isSep) == [""] + rest;
    JoinAppend([""], rest, [c]);
    assert s == [s[0]] + s[1..];
  }

  /** A leading non-separator is the first character of the first piece. */
  lemma JoinSplitInPiece(s: string, isSep: char -> bool, c: char)
    requires s != [] && s[0] != c
    requires forall x :: isSep(x) <==> x == c
    requires Join(SplitWhere(s[1..], isSep), [c]) == s[1..]
    ensures Join(SplitWhere(s, isSep), [c]) == s
  {
    var rest := SplitWhere(s[1..], isSep);
    assert SplitWhere(s, isSep) == [[s[0]] + rest[0]] + rest[1..];
    JoinExtendFirst(s[0], rest, [c]);
    assert s == [s[0]] + s[1..];
  }

  /** Putting a character in front of the first part puts it in front of the join. */
  lemma JoinExtendFirst(x: char, parts: seq<string>, sep: string)
    requires parts != []
    ensures Join([[x] + parts[0]] + parts[1..], sep) == [x] + Join(parts, sep)
  {
    if |parts| > 1 {
      var tail := Join(parts[1..], sep);
      assert ([[x] + parts[0]] + parts[1..])[1..] == parts[1..];
      assert Join([[x] + parts[0]] + parts[1..], sep) == [x] + parts[0] + sep + tail;
    }
  }

  /** Splitting a line-joined list at the line feeds recovers it, when no part
      holds a line feed. */
  lemma {:induction false} SplitJoinRoundTrip(parts: seq<string>)
    requires parts != []
    requires forall i :: 0 <= i < |parts| ==> '\n' !in parts[i]
    ensures SplitWhere(Join(parts, "\n"), c => c == '\n') == parts
  {
    if |parts| == 1 {
      SplitWithoutSeparator(parts[0], c => c == '\n');
    } else {
      SplitJoinRoundTrip(parts[1..]);
      SplitJoinStep(parts[0], parts[1..], c => c == '\n');
      assert [parts[0]] + parts[1..] == parts;
    }
  }

  /** One more part in front of a line-joined list that splits back into its parts. */
  lemma SplitJoinStep(p: string, ps: seq<string>, isSep: char -> bool)
    requires ps != [] && '\n' !in p
    requires forall x :: isSep(x) <==> x == '\n'
    requires SplitWhere(Join(ps, "\n"), isSep) == ps
    ensures SplitWhere(Join([p] + ps, "\n"), isSep) == [p] + ps
  {
    JoinAppend([p], ps, "\n");
    assert Join([p] + ps, "\n") == p + ['\n'] + Join(ps, "\n");
    SplitAfterPiece(p, Join(ps, "\n"), '\n', isSep);
  }

  lemma {:induction false} SplitWithoutSeparator(p: string, isSep: char -> bool)
    requires forall k :: 0 <= k < |p| ==> !isSep(p[k])
    ensures SplitWhere(p, isSep) == [p]
  {
    if p != [] {
      SplitWithoutSeparator(p[1..], isSep);
      assert [p[0]] + p[1..] == p;
    }
  }

  lemma {:induction false} SplitAfterPiece(p: string, rest: string, c: char, isSep: char -> bool)
    requires isSep(c)
    requires forall k :: 0 <= k < |p| ==> !isSep(p[k])
    ensures SplitWhere(p + [c] + rest, isSep) == [p] + SplitWhere(rest, isSep)
  {
    if p == [] {
      assert (p + [c] + rest)[1..] == rest;
    } else {
      assert (p + [c] + rest)[1..] == p[1..] + [c] + rest;
      SplitAfterPiece(p[1..], rest, c, isSep);
      assert [p[0]] + p[1..] == p;
    }
  }
}
