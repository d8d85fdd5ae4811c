/**
 * The resource prefix that the Android library convention gives every library
 * module: the Gradle project path is split on non-word characters, the piece
 * before the first separator is dropped, repeated pieces are removed (first
 * occurrence kept), the rest are joined with '_', lower-cased, and a final '_'
 * is appended. So the module ":core:module1" gets the prefix "core_module1_".
 */
module ResourcePrefix {
  import opened Kotlin

  /** The separator that joins the pieces and ends the prefix. */
  const Separator: char := '_'

  /**
   * `s.split(Regex("\\W"))`: every non-word character separates two pieces,
   * and empty pieces (leading, inner and trailing) are kept, so there is
   * always one more piece than there are separators.
   */
  function Split(s: string): (pieces: seq<string>)
    ensures |pieces| >= 1
  {
    if s == [] then [""]
    else
      var rest := Split(s[1..]);
      if IsWordChar(s[0]) then [[s[0]] + rest[0]] + rest[1..] else [""] + rest
  }

  /** `joinToString(separator = [sep])`. */
  function Join(pieces: seq<string>, sep: char): string
  {
    if |pieces| == 0 then ""
    else if |pieces| == 1 then pieces[0]
    else pieces[0] + [sep] + Join(pieces[1..], sep)
  }

  /** `distinct()`: each element once, at the place of its first occurrence. */
  function Distinct<T(==)>(xs: seq<T>): (d: seq<T>)
    ensures |d| <= |xs|
  {
    if xs == [] then []
    else
      var init := xs[..|xs| - 1];
      var last := xs[|xs| - 1];
      Distinct(init) + (if last in init then [] else [last])
  }

  /** The derivation of `resourcePrefix` from the project path. */
  function Prefix(path: string): (prefix: string)
    ensures |prefix| >= 1 && prefix[|prefix| - 1] == Separator
  {
    Lowercase(Join(Distinct(Split(path)[1..]), Separator)) + [Separator]
  }

  // ---------------------------------------------------------------------------
  // Split and Join

  /** The number of separators in `s`. */
  function NonWordCount(s: string): nat
  {
    if s == [] then 0 else (if IsWordChar(s[0]) then 0 else 1) + NonWordCount(s[1..])
  }

  /** `s` with every non-word character replaced by `sep`. */
  function Replaced(s: string, sep: char): (r: string)
  {
    if s == [] then [] else [if IsWordChar(s[0]) then s[0] else sep] + Replaced(s[1..], sep)
  }

  /** Every piece of a split is made of word characters only. */
  lemma {:induction false} SplitPiecesAreWords(s: string)
    ensures forall k :: 0 <= k < |Split(s)| ==> AllWordChars(Split(s)[k])
  {
    if s != [] {
      SplitPiecesAreWords(s[1..]);
    }
  }

  /** There is one piece more than there are non-word characters. */
  lemma {:induction false} SplitCount(s: string)
    ensures |Split(s)| == NonWordCount(s) + 1
  {
    if s != [] {
      SplitCount(s[1..]);
    }
  }

  /** Text without a non-word character is a single piece. */
  lemma {:induction false} SplitOfWord(w: string)
    requires AllWordChars(w)
    ensures Split(w) == [w]
  {
    if w != [] {
      SplitOfWord(w[1..]);
      assert [w[0]] + w[1..] == w;
    }
  }

  /** Joining the pieces again gives the text back, with each separator replaced by `sep`. */
  lemma {:induction false} JoinSplit(s: string, sep: char)
    ensures Join(Split(s), sep) == Replaced(s, sep)
  {
    if s != [] {
      JoinSplit(s[1..], sep);
      var rest := Split(s[1..]);
      if IsWordChar(s[0]) {
        var ps := [[s[0]] + rest[0]] + rest[1..];
        assert ps[1..] == rest[1..];
        if |rest| > 1 {
          assert rest == [rest[0]] + rest[1..];
          assert Join(rest, sep) == rest[0] + [sep] + Join(rest[1..], sep);
        }
      } else {
        assert ([""] + rest)[1..] == rest;
      }
    }
  }

  /** Word pieces joined with a non-word separator split back into the same pieces. */
  lemma {:induction false} SplitJoin(pieces: seq<string>, sep: char)
    requires |pieces| >= 1
    requires forall k :: 0 <= k < |pieces| ==> AllWordChars(pieces[k])
    requires !IsWordChar(sep)
    ensures Split(Join(pieces, sep)) == pieces
  {
    if |pieces| == 1 {
      SplitOfWord(pieces[0]);
    } else {
      SplitJoin(pieces[1..], sep);
      SplitWordThenSep(pieces[0], sep, Join(pieces[1..], sep));
      assert pieces == [pieces[0]] + pieces[1..];
    }
  }

  /** A word followed by a separator is split off as the first piece. */
  lemma {:induction false} SplitWordThenSep(w: string, sep: char, t: string)
    requires AllWordChars(w)
    requires !IsWordChar(sep)
    ensures Split(w + [sep] + t) == [w] + Split(t)
  {
    if w == [] {
      assert w + [sep] + t == [sep] + t;
      assert ([sep] + t)[1..] == t;
    } else {
      assert (w + [sep] + t)[1..] == w[1..] + [sep] + t;
      SplitWordThenSep(w[1..], sep, t);
      assert [w[0]] + w[1..] == w;
    }
  }

  /** A word in front of a separator (or of nothing) only lengthens the first piece. */
  lemma {:induction false} SplitWordPrefix(w: string, rest: string)
    requires AllWordChars(w)
    requires rest == [] || !IsWordChar(rest[0])
    ensures |Split(w + rest)| == |Split(rest)|
    ensures Split(w + rest)[0] == w + Split(rest)[0]
    ensures Split(w + rest)[1..] == Split(rest)[1..]
  {
    if w != [] {
      assert (w + rest)[1..] == w[1..] + rest;
      SplitWordPrefix(w[1..], rest);
      assert [w[0]] + (w[1..] + Split(rest)[0]) == w + Split(rest)[0];
    } else {
      assert w + rest == rest;
    }
  }

  /** Joining word pieces with a word character gives word text. */
  lemma {:induction false} JoinOfWords(pieces: seq<string>, sep: char)
    requires forall k :: 0 <= k < |pieces| ==> AllWordChars(pieces[k])
    requires IsWordChar(sep)
    ensures AllWordChars(Join(pieces, sep))
  {
    if |pieces| > 1 {
      JoinOfWords(pieces[1..], sep);
    }
  }

  // ---------------------------------------------------------------------------
  // Distinct

  predicate NoDuplicates<T(==)>(xs: seq<T>) {
    forall i, j :: 0 <= i < j < |xs| ==> xs[i] != xs[j]
  }

  /** The index of the first occurrence of `x` in `xs`. */
  function FirstIndex<T(==)>(xs: seq<T>, x: T): (k: nat)
    requires x in xs
    ensures k < |xs| && xs[k] == x && x !in xs[..k]
  {
    if xs[0] == x then 0 else 1 + FirstIndex(xs[1..], x)
  }

  /** `Distinct` keeps exactly the elements of its input. */
  lemma {:induction false} DistinctElements<T>(xs: seq<T>)
    ensures forall k :: 0 <= k < |Distinct(xs)| ==> Distinct(xs)[k] in xs
    ensures forall k :: 0 <= k < |xs| ==> xs[k] in Distinct(xs)
  {
    if xs != [] {
      var init := xs[..|xs| - 1];
      DistinctElements(init);
      assert xs == init + [xs[|xs| - 1]];
    }
  }

  /** `Distinct` holds each element once. */
  lemma {:induction false} DistinctHasNoDuplicates<T>(xs: seq<T>)
    ensures NoDuplicates(Distinct(xs))
  {
    if xs != [] {
      var init := xs[..|xs| - 1];
      DistinctHasNoDuplicates(init);
      DistinctElements(init);
    }
  }

  /** `Distinct` lists the elements in the order of their first occurrences. */
  lemma {:induction false} DistinctKeepsFirstOccurrenceOrder<T>(xs: seq<T>)
    ensures forall i, j :: 0 <= i < j < |Distinct(xs)| ==>
      Distinct(xs)[i] in xs && Distinct(xs)[j] in xs &&
      FirstIndex(xs, Distinct(xs)[i]) < FirstIndex(xs, Distinct(xs)[j])
  {
    DistinctElements(xs);
    if xs != [] {
      var init := xs[..|xs| - 1];
      var last := xs[|xs| - 1];
      DistinctKeepsFirstOccurrenceOrder(init);
      DistinctElements(init);
      var d := Distinct(xs);
      var di := Distinct(init);
      assert xs == init + [last];
      assert d == di + (if last in init then [] else [last]);
      forall i, j | 0 <= i < j < |d|
        ensures FirstIndex(xs, d[i]) < FirstIndex(xs, d[j])
      {
        assert i < |di|;
        assert d[i] == di[i] && di[i] in di;
        assert d[i] in init;
        FirstIndexOfPrefix(init, last, d[i]);
        if j < |di| {
          FirstIndexOfPrefix(init, last, d[j]);
        } else {
          // d[j] is `last`, seen only at the end of xs
          assert d[j] == last && last !in init;
          assert d[i] in init;
          assert FirstIndex(xs, d[j]) == |xs| - 1;
        }
      }
    }
  }

  /** Appending an element does not move the first occurrence of an earlier element. */
  lemma {:induction false} FirstIndexOfPrefix<T>(init: seq<T>, last: T, x: T)
    requires x in init
    ensures x in init + [last] && FirstIndex(init + [last], x) == FirstIndex(init, x)
  {
    if init[0] != x {
      assert (init + [last])[1..] == init[1..] + [last];
      FirstIndexOfPrefix(init[1..], last, x);
    }
  }

  /** A list without repetitions is its own `Distinct`. */
  lemma {:induction false} DistinctOfDistinct<T>(xs: seq<T>)
    requires NoDuplicates(xs)
    ensures Distinct(xs) == xs
  {
    if xs != [] {
      var init := xs[..|xs| - 1];
      DistinctOfDistinct(init);
      assert xs[|xs| - 1] !in init;
      assert init + [xs[|xs| - 1]] == xs;
    }
  }

  // ---------------------------------------------------------------------------
  // Properties of the prefix

  /** The prefix holds only lower-case letters, digits and '_'. */
  lemma PrefixIsLowerWord(path: string)
    ensures AllLowerWordChars(Prefix(path))
  {
    var pieces := Distinct(Split(path)[1..]);
    SplitPiecesAreWords(path);
    DistinctElements(Split(path)[1..]);
    forall k | 0 <= k < |pieces| ensures AllWordChars(pieces[k]) {
      assert pieces[k] in Split(path)[1..];
    }
    JoinOfWords(pieces, Separator);
    LowercaseOfWords(Join(pieces, Separator));
  }

  /**
   * The first piece of the split, the text before the first separator, never
   * reaches the prefix: putting word text in front of the path does not change it.
   */
  lemma FirstPieceDropped(w: string, rest: string)
    requires AllWordChars(w)
    requires rest == [] || !IsWordChar(rest[0])
    ensures Prefix(w + rest) == Prefix(rest)
  {
    SplitWordPrefix(w, rest);
  }

  /** A path without any separator is a single, dropped piece: the prefix is just "_". */
  lemma NoSeparatorGivesBarePrefix(path: string)
    requires AllWordChars(path)
    ensures Prefix(path) == "_"
  {
    SplitOfWord(path);
  }

  /**
   * For a Gradle path ":seg1:seg2:..." with word segments, the prefix is the
   * segments, repetitions removed, joined with '_', lower-cased and ended with '_'.
   */
  lemma ColonPathPrefix(segments: seq<string>)
    requires forall k :: 0 <= k < |segments| ==> AllWordChars(segments[k])
    ensures Prefix(":" + Join(segments, ':')) == Lowercase(Join(Distinct(segments), '_')) + "_"
  {
    var path := ":" + Join(segments, ':');
    if segments == [] {
      assert path == ":";
      RootPathSplit(path);
      assert Distinct([""]) == [""] by {
        assert [""][..0] == [];
      }
    } else {
      ColonPathSplit(segments);
      assert Split(path)[1..] == segments;
    }
  }

  /** The root project ":" splits into two empty pieces. */
  lemma RootPathSplit(path: string)
    requires path == ":"
    ensures Split(path) == ["", ""]
  {
    SplitWordThenSep("", ':', "");
    assert "" + [':'] + "" == path;
  }

  /** Splitting ":seg1:seg2:..." (at least one segment) gives the empty first piece and then the segments. */
  lemma ColonPathSplit(segments: seq<string>)
    requires |segments| >= 1
    requires forall k :: 0 <= k < |segments| ==> AllWordChars(segments[k])
    ensures Split(":" + Join(segments, ':')) == [""] + segments
  {
    var t := Join(segments, ':');
    SplitAfterSep(':', t);
    SplitJoin(segments, ':');
  }

  /** A leading separator splits off an empty first piece. */
  lemma SplitAfterSep(sep: char, t: string)
    requires !IsWordChar(sep)
    ensures Split([sep] + t) == [""] + Split(t)
  {
    assert ([sep] + t)[1..] == t;
  }

  /** Two pieces joined. */
  lemma JoinPair(a: string, b: string, sep: char)
    ensures Join([a, b], sep) == a + [sep] + b
  {
    assert [a, b][1..] == [b];
  }

  /**
   * For a module path written from distinct lower-case word segments, the
   * prefix is the segments joined with '_' and ended with '_'.
   */
  lemma ModulePathPrefix(segments: seq<string>)
    requires forall k :: 0 <= k < |segments| ==> AllLowerWordChars(segments[k])
    requires NoDuplicates(segments)
    ensures Prefix(":" + Join(segments, ':')) == Join(segments, '_') + "_"
  {
    forall k | 0 <= k < |segments| ensures AllWordChars(segments[k]) {
      LowerWordIsWord(segments[k]);
    }
    ColonPathPrefix(segments);
    DistinctOfDistinct(segments);
    LowerWordsJoin(segments);
    LowercaseOfLowerWords(Join(segments, '_'));
  }

  lemma LowerWordIsWord(s: string)
    requires AllLowerWordChars(s)
    ensures AllWordChars(s)
  {
    forall i | 0 <= i < |s| ensures IsWordChar(s[i]) {
      assert IsLowerWordChar(s[i]);
    }
  }

  /** Joining lower-case word pieces with '_' gives lower-case word text. */
  lemma {:induction false} LowerWordsJoin(pieces: seq<string>)
    requires forall k :: 0 <= k < |pieces| ==> AllLowerWordChars(pieces[k])
    ensures AllLowerWordChars(Join(pieces, '_'))
  {
    if |pieces| > 1 {
      LowerWordsJoin(pieces[1..]);
    }
  }

  // The examples take the path as a parameter fixed by `requires`, so that the
  // verifier does not unfold `Prefix` on a literal argument.

  /** The module ":core:module1" gets the prefix "core_module1_". */
  lemma CoreModuleExample(path: string)
    requires path == ":core:module1"
    ensures Prefix(path) == "core_module1_"
  {
    var segments := ["core", "module1"];
    assert Join(segments, ':') == "core:module1" by {
      assert Join(segments[1..], ':') == "module1";
    }
    assert Join(segments, '_') == "core_module1" by {
      assert Join(segments[1..], '_') == "module1";
    }
    ModulePathPrefix(segments);
  }

  /** Repeated pieces appear once: ":a:a" gets "a_". */
  lemma RepeatedPieceExample(path: string)
    requires path == ":a:a"
    ensures Prefix(path) == "a_"
  {
    var segments := ["a", "a"];
    assert Join(segments, ':') == "a:a" by {
      assert segments[1..] == ["a"];
    }
    assert Distinct(segments) == ["a"] by {
      assert segments[..1] == ["a"];
      assert ["a"][..0] == [];
    }
    ColonPathPrefix(segments);
    assert Lowercase("a") == "a";
  }

  /** Repetitions are removed before lower-casing: ":A:a" keeps both pieces and gets "a_a_". */
  lemma CaseDifferingPiecesKept(path: string)
    requires path == ":A:a"
    ensures Prefix(path) == "a_a_"
  {
    var segments := ["A", "a"];
    assert path == ":" + Join(segments, ':') by {
      JoinPair("A", "a", ':');
    }
    assert Distinct(segments) == segments by {
      DistinctOfDistinct(segments);
    }
    var joined := Join(segments, '_');
    assert Lowercase(joined) == "a_a" by {
      JoinPair("A", "a", '_');
      assert joined == "A_a";
      assert Lowercase(joined)[0] == LowerChar('A');
    }
    ColonPathPrefix(segments);
  }
}
