/** Models of the Python `str` operations the monitor relies on:
    `startswith`, the `in` substring test, `strip()`, `split(sep)` and
    `split()` without a separator. A string is a sequence of code points,
    as a decoded Python `str` is. */
module PyStr {

  /** The characters Python's `str.isspace()` accepts; `strip()` and
      `split()` without arguments remove and split on exactly these. */
  predicate IsSpace(c: char) {
    ('\t' <= c <= '\r') || ('\U{1C}' <= c <= ' ') || c == '\U{85}' || c == '\U{A0}' ||
    c == '\U{1680}' || ('\U{2000}' <= c <= '\U{200A}') || c == '\U{2028}' ||
    c == '\U{2029}' || c == '\U{202F}' || c == '\U{205F}' || c == '\U{3000}'
  }

  predicate AllSpace(s: string) {
    forall k :: 0 <= k < |s| ==> IsSpace(s[k])
  }

  predicate NoSpace(s: string) {
    forall k :: 0 <= k < |s| ==> !IsSpace(s[k])
  }

  /** Concatenation is associative; stated once so that proofs about long
      concatenations can regroup them in one step. */
  lemma AppendAssociative<T>(a: seq<T>, b: seq<T>, c: seq<T>)
    ensures (a + b) + c == a + (b + c)
  {
  }

  // ---------------------------------------------------------------------
  // s.startswith(prefix) and sub in s

  /** `s.startswith(prefix)` */
  predicate StartsWith(s: string, prefix: string) {
    |prefix| <= |s| && s[..|prefix|] == prefix
  }

  /** `sub` occurs in `s` starting at index `i`. */
  predicate OccursAt(s: string, sub: string, i: nat) {
    i + |sub| <= |s| && s[i..i + |sub|] == sub
  }

  /** Python's `sub in s`, as a scan: `sub` starts at the first position,
      or it is in the rest. */
  predicate Contains(s: string, sub: string)
    decreases |s|
  {
    StartsWith(s, sub) || (s != [] && Contains(s[1..], sub))
  }

  /** The scan finds `sub` exactly when it occurs at some index. */
  lemma {:induction false} ContainsOccurs(s: string, sub: string)
    ensures Contains(s, sub) <==> exists i: nat :: OccursAt(s, sub, i)
    decreases |s|
  {
    if StartsWith(s, sub) {
      assert OccursAt(s, sub, 0);
    } else if s != [] {
      ContainsOccurs(s[1..], sub);
      forall i: nat | OccursAt(s[1..], sub, i)
        ensures OccursAt(s, sub, i + 1)
      {
        assert s[1..][i..i + |sub|] == s[i + 1..i + 1 + |sub|];
      }
      forall i: nat | OccursAt(s, sub, i)
        ensures i > 0 && OccursAt(s[1..], sub, i - 1)
      {
        assert s[1..][i - 1..i - 1 + |sub|] == s[i..i + |sub|];
      }
    } else {
      assert forall i: nat :: !OccursAt(s, sub, i);
    }
  }

  // ---------------------------------------------------------------------
  // s.strip()

  /** `s.lstrip()`: drops the leading whitespace. */
  function LStrip(s: string): (r: string)
    ensures |r| <= |s|
    decreases |s|
  {
    if s != [] && IsSpace(s[0]) then LStrip(s[1..]) else s
  }

  /** `s.lstrip()` keeps a suffix of `s`, what it drops is whitespace, and
      what it keeps does not start with whitespace. */
  lemma {:induction false} LStripSpec(s: string)
    ensures var r := LStrip(s);
      r == s[|s| - |r|..] && AllSpace(s[..|s| - |r|]) && (r == [] || !IsSpace(r[0]))
    decreases |s|
  {
    if s != [] && IsSpace(s[0]) {
      LStripSpec(s[1..]);
      var r := LStrip(s[1..]);
      assert s[..|s| - |r|] == [s[0]] + s[1..][..|s| - 1 - |r|];
    }
  }

  /** `s.rstrip()`: drops the trailing whitespace. */
  function RStrip(s: string): (r: string)
    ensures |r| <= |s|
    decreases |s|
  {
    if s != [] && IsSpace(s[|s| - 1]) then RStrip(s[..|s| - 1]) else s
  }

  /** `s.rstrip()` keeps a prefix of `s`, what it drops is whitespace, and
      what it keeps does not end with whitespace. */
  lemma {:induction false} RStripSpec(s: string)
    ensures var r := RStrip(s);
      r == s[..|r|] && AllSpace(s[|r|..]) && (r == [] || !IsSpace(r[|r| - 1]))
    decreases |s|
  {
    if s != [] && IsSpace(s[|s| - 1]) {
      RStripSpec(s[..|s| - 1]);
      var r := RStrip(s[..|s| - 1]);
      assert s[|r|..] == s[..|s| - 1][|r|..] + [s[|s| - 1]];
    }
  }

  /** `s.strip()` */
  function Strip(s: string): (r: string)
    ensures |r| <= |s|
  {
    RStrip(LStrip(s))
  }

  /** `s.strip()` neither starts nor ends with whitespace, and it is empty
      exactly when `s` is all whitespace. */
  lemma StripSpec(s: string)
    ensures var r := Strip(s);
      (r == [] || (!IsSpace(r[0]) && !IsSpace(r[|r| - 1]))) &&
      (r == [] <==> AllSpace(s))
  {
    var l := LStrip(s);
    var r := RStrip(l);
    LStripSpec(s);
    RStripSpec(l);
    assert r != [] ==> r[0] == l[0];
    if r == [] {
      assert s == s[..|s| - |l|] + l;
      assert AllSpace(l[|r|..]);
    } else {
      assert !IsSpace(l[0]);
    }
  }

  lemma {:induction false} LStripOfSpaces(lead: string, t: string)
    requires AllSpace(lead)
    requires t == [] || !IsSpace(t[0])
    ensures LStrip(lead + t) == t
    decreases |lead|
  {
    if lead != [] {
      assert (lead + t)[1..] == lead[1..] + t;
      LStripOfSpaces(lead[1..], t);
    }
  }

  lemma {:induction false} RStripOfSpaces(t: string, trail: string)
    requires AllSpace(trail)
    requires t == [] || !IsSpace(t[|t| - 1])
    ensures RStrip(t + trail) == t
    decreases |trail|
  {
    if trail != [] {
      assert (t + trail)[..|t + trail| - 1] == t + trail[..|trail| - 1];
      RStripOfSpaces(t, trail[..|trail| - 1]);
    }
  }

  /** `strip()` removes exactly the surrounding whitespace: it gives back
      any text that neither starts nor ends with whitespace, whatever
      whitespace is put around it. */
  lemma StripSurrounded(lead: string, t: string, trail: string)
    requires AllSpace(lead) && AllSpace(trail)
    requires t == [] || (!IsSpace(t[0]) && !IsSpace(t[|t| - 1]))
    ensures Strip(lead + t + trail) == t
  {
    if t == [] {
      StripSpec(lead + t + trail);
      assert AllSpace(lead + t + trail) by {
        assert lead + t + trail == lead + trail;
      }
    } else {
      assert lead + t + trail == lead + (t + trail);
      LStripOfSpaces(lead, t + trail);
      RStripOfSpaces(t, trail);
    }
  }

  /** Stripping twice is stripping once. */
  lemma StripIdempotent(s: string)
    ensures Strip(Strip(s)) == Strip(s)
  {
    StripSpec(s);
    StripSurrounded([], Strip(s), []);
    assert [] + Strip(s) + [] == Strip(s);
  }

  // ---------------------------------------------------------------------
  // s.split(sep) and its inverse, sep.join(fields)

  /** `sep.join(fields)` for a one-character separator. */
  function Join(fields: seq<string>, sep: char): string
    decreases |fields|
  {
    if fields == [] then ""
    else if |fields| == 1 then fields[0]
    else fields[0] + [sep] + Join(fields[1..], sep)
  }

  /** `s.split(sep)` for a one-character separator: the pieces of `s`
      between the separators, empty pieces included, so there is always at
      least one. */
  function Split(s: string, sep: char): (fields: seq<string>)
    ensures |fields| >= 1
    decreases |s|
  {
    if s == [] then
      [""]
    else
      var rest := Split(s[1..], sep);
      if s[0] == sep then [""] + rest
      else [[s[0]] + rest[0]] + rest[1..]
  }

  /** No piece of `s.split(sep)` holds the separator. */
  lemma {:induction false} SplitNoSep(s: string, sep: char)
    ensures forall f <- Split(s, sep) :: sep !in f
    decreases |s|
  {
    if s != [] {
      SplitNoSep(s[1..], sep);
      var rest := Split(s[1..], sep);
      assert forall f <- rest[1..] :: f in rest;
    }
  }

  /** Joining the pieces of `s.split(sep)` with `sep` gives `s` back. */
  lemma {:induction false} JoinSplit(s: string, sep: char)
    ensures Join(Split(s, sep), sep) == s
    decreases |s|
  {
    if s != [] {
      var rest := Split(s[1..], sep);
      JoinSplit(s[1..], sep);
      assert s == [s[0]] + s[1..];
      if s[0] == sep {
        assert ([""] + rest)[1..] == rest;
      } else {
        var fields := [[s[0]] + rest[0]] + rest[1..];
        assert Split(s, sep) == fields;
        assert fields[1..] == rest[1..];
        if |rest| == 1 {
          assert Join(fields, sep) == [s[0]] + rest[0];
        } else {
          calc {
            Join(fields, sep);
            ([s[0]] + rest[0]) + [sep] + Join(rest[1..], sep);
            [s[0]] + (rest[0] + [sep] + Join(rest[1..], sep));
            [s[0]] + Join(rest, sep);
          }
        }
      }
    }
  }

  lemma {:induction false} SplitWithoutSep(a: string, sep: char)
    requires sep !in a
    ensures Split(a, sep) == [a]
    decreases |a|
  {
    if a != [] {
      SplitWithoutSep(a[1..], sep);
      assert [a[0]] + a[1..] == a;
    }
  }

  lemma {:induction false} SplitAfterField(a: string, sep: char, t: string)
    requires sep !in a
    ensures Split(a + [sep] + t, sep) == [a] + Split(t, sep)
    decreases |a|
  {
    if a == [] {
      assert ([] + [sep] + t)[1..] == t;
    } else {
      assert (a + [sep] + t)[1..] == a[1..] + [sep] + t;
      SplitAfterField(a[1..], sep, t);
      assert [a[0]] + a[1..] == a;
    }
  }

  /** `s.split(sep)` undoes `sep.join(fields)` when no field holds the
      separator; with `JoinSplit` and `SplitNoSep`, the two are inverses. */
  lemma {:induction false} SplitJoin(fields: seq<string>, sep: char)
    requires |fields| >= 1
    requires forall f <- fields :: sep !in f
    ensures Split(Join(fields, sep), sep) == fields
    decreases |fields|
  {
    if |fields| == 1 {
      SplitWithoutSep(fields[0], sep);
    } else {
      SplitJoin(fields[1..], sep);
      SplitAfterField(fields[0], sep, Join(fields[1..], sep));
      assert [fields[0]] + fields[1..] == fields;
    }
  }

  /** `s.split(sep)` has one field more than `s` has separators. */
  lemma {:induction false} SplitLength(s: string, sep: char)
    ensures |Split(s, sep)| == multiset(s)[sep] + 1
    decreases |s|
  {
    if s != [] {
      SplitLength(s[1..], sep);
      assert s == [s[0]] + s[1..];
      assert multiset(s) == multiset([s[0]]) + multiset(s[1..]);
    }
  }

  // ---------------------------------------------------------------------
  // s.split() without a separator

  /** Length of the run of non-whitespace characters that starts `s`. */
  function WordLength(s: string): (n: nat)
    ensures n <= |s|
    ensures s != [] && !IsSpace(s[0]) ==> n > 0
    decreases |s|
  {
    if s == [] || IsSpace(s[0]) then 0 else 1 + WordLength(s[1..])
  }

  /** The run is free of whitespace and stops at whitespace or at the end. */
  lemma {:induction false} WordLengthSpec(s: string)
    ensures var n := WordLength(s);
      NoSpace(s[..n]) && (n < |s| ==> IsSpace(s[n]))
    decreases |s|
  {
    if s != [] && !IsSpace(s[0]) {
      WordLengthSpec(s[1..]);
      var n := WordLength(s);
      assert s[..n] == [s[0]] + s[1..][..n - 1];
    }
  }

  /** `s.split()`: the maximal runs of non-whitespace characters, in order. */
  function SplitWhitespace(s: string): (words: seq<string>)
    decreases |s|
  {
    if s == [] then []
    else if IsSpace(s[0]) then SplitWhitespace(s[1..])
    else
      var n := WordLength(s);
      [s[..n]] + SplitWhitespace(s[n..])
  }

  /** Every word of `s.split()` is non-empty and holds no whitespace, and
      there are no words exactly when `s` is all whitespace. */
  lemma {:induction false} SplitWhitespaceSpec(s: string)
    ensures forall w <- SplitWhitespace(s) :: w != [] && NoSpace(w)
    ensures SplitWhitespace(s) == [] <==> AllSpace(s)
    decreases |s|
  {
    if s == [] {
    } else if IsSpace(s[0]) {
      SplitWhitespaceSpec(s[1..]);
      assert AllSpace(s) <==> AllSpace(s[1..]) by {
        assert forall k :: 1 <= k < |s| ==> s[k] == s[1..][k - 1];
      }
    } else {
      var n := WordLength(s);
      WordLengthSpec(s);
      SplitWhitespaceSpec(s[n..]);
      assert !AllSpace(s);
    }
  }

  lemma {:induction false} WordLengthOfWord(w: string, t: string)
    requires NoSpace(w)
    requires t == [] || IsSpace(t[0])
    ensures WordLength(w + t) == |w|
    decreases |w|
  {
    if w != [] {
      assert (w + t)[1..] == w[1..] + t;
      WordLengthOfWord(w[1..], t);
    }
  }

  /** `s.split()` undoes `" ".join(words)` when every word is non-empty and
      free of whitespace. */
  lemma {:induction false} SplitWhitespaceJoin(words: seq<string>)
    requires forall w <- words :: w != [] && NoSpace(w)
    ensures SplitWhitespace(Join(words, ' ')) == words
    decreases |words|
  {
    if |words| == 1 {
      var w := words[0];
      WordLengthOfWord(w, []);
      assert w + [] == w && w[|w|..] == [];
    } else if |words| > 1 {
      var w, t := words[0], Join(words[1..], ' ');
      var s := w + [' '] + t;
      WordLengthOfWord(w, [' '] + t);
      assert s == w + ([' '] + t);
      assert s[..|w|] == w;
      assert s[|w|..] == [' '] + t;
      assert ([' '] + t)[1..] == t;
      assert forall v <- words[1..] :: v in words;
      SplitWhitespaceJoin(words[1..]);
      assert [w] + words[1..] == words;
    }
  }

  /** Leading whitespace makes no difference to `s.split()`. */
  lemma {:induction false} SplitWhitespaceSkipSpaces(lead: string, t: string)
    requires AllSpace(lead)
    ensures SplitWhitespace(lead + t) == SplitWhitespace(t)
    decreases |lead|
  {
    if lead != [] {
      assert (lead + t)[0] == lead[0] && IsSpace(lead[0]);
      assert (lead + t)[1..] == lead[1..] + t;
      SplitWhitespaceSkipSpaces(lead[1..], t);
    } else {
      assert lead + t == t;
    }
  }

  /** `s.split()` splits on runs of whitespace: after any leading
      whitespace, a word followed by a non-empty run of whitespace (or by
      the end of the text) is the first word, and the rest is split the
      same way. */
  lemma SplitWhitespaceRun(lead: string, w: string, gap: string, t: string)
    requires AllSpace(lead) && w != [] && NoSpace(w)
    requires (gap != [] && AllSpace(gap)) || (gap == [] && t == [])
    ensures SplitWhitespace(lead + w + gap + t) == [w] + SplitWhitespace(t)
  {
    var after := gap + t;
    var s := w + after;
    AppendAssociative(lead, w, gap);
    AppendAssociative(lead, w + gap, t);
    AppendAssociative(w, gap, t);
    SplitWhitespaceSkipSpaces(lead, s);
    WordLengthOfWord(w, after);
    assert s[0] == w[0];
    assert s[..|w|] == w && s[|w|..] == after;
    SplitWhitespaceSkipSpaces(gap, t);
  }
}
