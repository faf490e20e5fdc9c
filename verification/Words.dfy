/**
 * What splitting, upper-casing, searching and trimming mean, said without the functions of module
 * Text: words between gaps, letters one by one, occurrences by position.
 */
module Words {
  import opened Text

  predicate Blank(gap: string) { forall i | 0 <= i < |gap| :: IsSpace(gap[i]) }

  predicate Solid(word: string) { forall i | 0 <= i < |word| :: !IsSpace(word[i]) }

  /** `s` is `words` in order, with gaps around and between them. */
  ghost predicate SplitInto(s: string, words: seq<string>)
    decreases |words|
  {
    if words == [] then Blank(s) else
    exists a, b | 0 <= a < b <= |s| :: FirstWord(s, a, b) && s[a..b] == words[0] && SplitInto(s[b..], words[1..])
  }

  lemma {:induction false} BlankTrims(s: string, a: nat)
    requires a <= |s| && Blank(s[..a]) && (a == |s| || !IsSpace(s[a]))
    ensures TrimLeft(s) == s[a..]
    decreases |s|
  {
    if a > 0 {
      assert s[0] == s[..a][0];
      assert s[1..][..a - 1] == s[..a][1..] && s[1..][a - 1..] == s[a..];
      assert a < |s| ==> s[1..][a - 1] == s[a];
      BlankTrims(s[1..], a - 1);
    }
  }

  lemma {:induction false} WordEnds(t: string, n: nat)
    requires n <= |t| && Solid(t[..n]) && (n == |t| || IsSpace(t[n]))
    ensures WordLength(t) == n
  {
    if n > 0 {
      assert t[0] == t[..n][0];
      assert t[1..][..n - 1] == t[..n][1..];
      assert n < |t| ==> t[1..][n - 1] == t[n];
      WordEnds(t[1..], n - 1);
    }
  }

  lemma {:induction false} TrimLeftSplits(s: string) returns (a: nat)
    ensures a <= |s| && Blank(s[..a]) && TrimLeft(s) == s[a..] && (a == |s| || !IsSpace(s[a]))
  {
    if s != "" && IsSpace(s[0]) {
      var b := TrimLeftSplits(s[1..]);
      a := b + 1;
      assert s[..a] == [s[0]] + s[1..][..b] && s[1..][b..] == s[a..];
    } else {
      a := 0;
    }
  }

  lemma {:induction false} FieldsSplit(s: string)
    ensures SplitInto(s, Fields(s))
    decreases |s|
  {
    var a := TrimLeftSplits(s);
    var t := TrimLeft(s);
    if t == "" {
      assert s[..a] == s;
    } else {
      var n := WordLength(t);
      var b := a + n;
      FieldsSplit(t[n..]);
      assert Fields(s) == [t[..n]] + Fields(t[n..]);
      assert s[a..b] == t[..n] && s[b..] == t[n..];
      assert Fields(s)[1..] == Fields(t[n..]);
      assert Solid(s[a..b]);
      assert b < |s| ==> s[b] == t[n];
    }
  }

  predicate FirstWord(s: string, a: nat, b: nat) {
    a < b <= |s| && Blank(s[..a]) && Solid(s[a..b]) && (b == |s| || IsSpace(s[b]))
  }

  lemma FirstField(s: string, a: nat, b: nat)
    requires FirstWord(s, a, b)
    ensures Fields(s) == [s[a..b]] + Fields(s[b..])
  {
    hide IsSpace;
    var t := s[a..];
    assert s[a..b][0] == s[a];
    BlankTrims(s, a);
    assert t[..b - a] == s[a..b] && t[b - a..] == s[b..];
    assert b < |s| ==> t[b - a] == s[b];
    WordEnds(t, b - a);
  }

  lemma {:induction false} SplitIsFields(s: string, words: seq<string>)
    requires SplitInto(s, words)
    ensures Fields(s) == words
    decreases |words|
  {
    hide IsSpace, Fields;
    if words == [] {
      assert s[..|s|] == s;
      BlankTrims(s, |s|);
      NoFields(s);
    } else {
      var a, b :| 0 <= a < b <= |s| && FirstWord(s, a, b) && s[a..b] == words[0] && SplitInto(s[b..], words[1..]);
      FirstField(s, a, b);
      SplitIsFields(s[b..], words[1..]);
    }
  }

  lemma NoFields(s: string)
    requires TrimLeft(s) == ""
    ensures Fields(s) == []
  {
  }

  /** `Fields` gives the words, and there is only one way to split a text. */
  lemma FieldsIff(s: string, words: seq<string>)
    ensures Fields(s) == words <==> SplitInto(s, words)
  {
    FieldsSplit(s);
    if SplitInto(s, words) { SplitIsFields(s, words); }
  }

  predicate AllSolid(words: seq<string>) {
    forall i | 0 <= i < |words| :: words[i] != "" && Solid(words[i])
  }

  lemma Splits(s: string, a: nat, b: nat, words: seq<string>)
    requires words != [] && FirstWord(s, a, b) && s[a..b] == words[0] && SplitInto(s[b..], words[1..])
    ensures SplitInto(s, words)
  {
  }

  lemma WordShifts(s: string, a: nat, b: nat)
    requires FirstWord(s, a, b)
    ensures var t := " " + s;
            FirstWord(t, a + 1, b + 1) && t[a + 1..b + 1] == s[a..b] && t[b + 1..] == s[b..]
  {
    var t := " " + s;
    assert t[a + 1..b + 1] == s[a..b] && t[b + 1..] == s[b..];
    assert t[..a + 1] == " " + s[..a];
    assert b < |s| ==> t[b + 1] == s[b];
  }

  lemma SpaceBefore(s: string, words: seq<string>)
    requires SplitInto(s, words)
    ensures SplitInto(" " + s, words)
  {
    hide FirstWord;
    if words != [] {
      var a, b :| 0 <= a < b <= |s| && FirstWord(s, a, b) && s[a..b] == words[0] && SplitInto(s[b..], words[1..]);
      WordShifts(s, a, b);
      Splits(" " + s, a + 1, b + 1, words);
    } else {
      assert Blank(" " + s);
    }
  }

  lemma JoinBegins(words: seq<string>)
    requires AllSolid(words) && words != []
    ensures var s, b := Join(words, " "), |words[0]|;
            && FirstWord(s, 0, b) && s[0..b] == words[0]
            && s[b..] == if |words| == 1 then "" else " " + Join(words[1..], " ")
  {
    hide IsSpace;
    var s, w := Join(words, " "), words[0];
    var rest := if |words| == 1 then "" else " " + Join(words[1..], " ");
    assert s == w + rest;
    assert s[0..|w|] == w && s[..0] == "";
    SpaceFirst(rest);
  }

  lemma SpaceFirst(rest: string)
    ensures rest != "" && rest[0] == ' ' ==> IsSpace(rest[0])
  {
  }

  lemma {:induction false} JoinSplits(words: seq<string>)
    requires AllSolid(words)
    ensures SplitInto(Join(words, " "), words)
  {
    hide FirstWord, Solid;
    if words != [] {
      JoinBegins(words);
      JoinSplits(words[1..]);
      if |words| > 1 { SpaceBefore(Join(words[1..], " "), words[1..]); }
      Splits(Join(words, " "), 0, |words[0]|, words);
    }
  }

  /** Words joined by single spaces are told apart again. */
  lemma FieldsOfJoin(words: seq<string>)
    requires AllSolid(words)
    ensures Fields(Join(words, " ")) == words
  {
    JoinSplits(words);
    SplitIsFields(Join(words, " "), words);
  }

  lemma {:induction false} FieldsAreSolid(s: string)
    ensures AllSolid(Fields(s))
    decreases |s|
  {
    TrimLeftFacts(s);
    var t := TrimLeft(s);
    if t != "" {
      FieldsAreSolid(t[WordLength(t)..]);
    }
  }

  // ---------------------------------------------------------------- letters

  /** `u` is the capital of `c`; the dotless i and the long s have ASCII capitals. */
  predicate Capital(c: char, u: char) {
    if 'a' <= c <= 'z' then u as int == c as int - 32
    else if c == '\U{0131}' then u == 'I'
    else if c == '\U{017f}' then u == 'S'
    else u == c
  }

  predicate Capitals(s: string, u: string) {
    |u| == |s| && forall i | 0 <= i < |s| :: Capital(s[i], u[i])
  }

  lemma UpperIff(s: string, u: string)
    ensures ToUpper(s) == u <==> Capitals(s, u)
  {
    assert forall i | 0 <= i < |s| :: Capital(s[i], Upper(s[i]));
    if Capitals(s, u) {
      assert forall i | 0 <= i < |s| :: u[i] == Upper(s[i]);
    }
  }

  /** The words of a text in capitals. */
  ghost predicate Says(s: string, words: seq<string>) {
    exists u :: Capitals(s, u) && SplitInto(u, words)
  }

  lemma SaysIff(s: string, words: seq<string>)
    ensures Fields(ToUpper(s)) == words <==> Says(s, words)
  {
    UpperIff(s, ToUpper(s));
    FieldsIff(ToUpper(s), words);
    forall u | Capitals(s, u)
      ensures u == ToUpper(s)
    {
      UpperIff(s, u);
    }
  }

  // ---------------------------------------------------------------- occurrences

  predicate OccursAt(s: string, t: string, i: nat) {
    i + |t| <= |s| && s[i..i + |t|] == t
  }

  ghost predicate Occurs(s: string, t: string) { exists i: nat :: OccursAt(s, t, i) }

  lemma OccursOne(s: string, c: char, i: nat)
    ensures OccursAt(s, [c], i) <==> i < |s| && s[i] == c
  {
    if i < |s| { assert s[i..i + 1] == [s[i]]; }
  }

  lemma OccursTwo(s: string, c: char, d: char, i: nat)
    ensures OccursAt(s, [c, d], i) <==> i + 1 < |s| && s[i] == c && s[i + 1] == d
  {
    if i + 1 < |s| { assert s[i..i + 2] == [s[i], s[i + 1]]; }
  }

  lemma OccursShift(s: string, t: string, i: nat)
    requires s != ""
    ensures OccursAt(s, t, i + 1) <==> OccursAt(s[1..], t, i)
  {
    if i + 1 + |t| <= |s| { assert s[i + 1..i + 1 + |t|] == s[1..][i..i + |t|]; }
  }

  lemma OccursFirst(s: string, t: string)
    ensures OccursAt(s, t, 0) <==> t <= s
    ensures s == "" && t != "" ==> !Occurs(s, t)
  {
  }

  /** The index found is the first at which the text occurs. */
  lemma {:induction false} FindFirst(s: string, t: string)
    ensures var r := Find(s, t);
            && (r < 0 <==> !Occurs(s, t))
            && (r >= 0 ==> OccursAt(s, t, r) && forall i: nat | i < r :: !OccursAt(s, t, i))
    decreases |s|
  {
    hide OccursAt;
    OccursFirst(s, t);
    if !(t <= s) && s != "" {
      FindFirst(s[1..], t);
      var r := Find(s[1..], t);
      if r >= 0 { OccursShift(s, t, r); }
      forall i: nat | OccursAt(s, t, i)
        ensures r >= 0 && i >= r + 1
      {
        OccursShift(s, t, i - 1);
      }
    }
  }

  // ---------------------------------------------------------------- trimming

  /** The text without the spaces at both ends. */
  ghost predicate Trimmed(s: string, t: string) {
    exists a, b | 0 <= a <= b <= |s| :: t == s[a..b] && Ends(s, a, b)
  }

  /** Only spaces before `a` and from `b` on, and none at either end between them. */
  predicate Ends(s: string, a: nat, b: nat)
    requires a <= b <= |s|
  {
    && (forall i | 0 <= i < a :: IsSpace(s[i])) && (forall i | b <= i < |s| :: IsSpace(s[i]))
    && (a < b ==> !IsSpace(s[a]) && !IsSpace(s[b - 1]))
  }

  lemma {:induction false} TrimRightSplits(s: string) returns (b: nat)
    ensures b <= |s| && Blank(s[b..]) && TrimRight(s) == s[..b] && (b == 0 || !IsSpace(s[b - 1]))
  {
    if s != "" && IsSpace(s[|s| - 1]) {
      var r := s[..|s| - 1];
      b := TrimRightSplits(r);
      assert s[b..] == r[b..] + [s[|s| - 1]] && r[..b] == s[..b];
    } else {
      b := |s|;
      assert s[..b] == s;
    }
  }

  lemma TrimSpaceTrims(s: string)
    ensures Trimmed(s, TrimSpace(s))
  {
    var a := TrimLeftSplits(s);
    var t := TrimLeft(s);
    var n := TrimRightSplits(t);
    var b := a + n;
    assert s[a..b] == t[..n];
    assert forall i | 0 <= i < a :: s[i] == s[..a][i];
    assert forall i | b <= i < |s| :: s[i] == t[n..][i - b];
    assert n > 0 ==> s[b - 1] == t[n - 1];
    assert Ends(s, a, b);
  }

  /** There is only one way to trim. */
  lemma TrimmedOnce(s: string, t: string, u: string)
    requires Trimmed(s, t) && Trimmed(s, u)
    ensures t == u
  {
    hide IsSpace;
    var a, b :| 0 <= a <= b <= |s| && t == s[a..b] && Ends(s, a, b);
    var c, d :| 0 <= c <= d <= |s| && u == s[c..d] && Ends(s, c, d);
    EndsOnce(s, a, b, c, d);
  }

  lemma EndsOnce(s: string, a: nat, b: nat, c: nat, d: nat)
    requires a <= b <= |s| && c <= d <= |s| && Ends(s, a, b) && Ends(s, c, d)
    ensures (a == c && b == d) || (a == b && c == d)
  {
    hide IsSpace;
  }

  lemma TrimIff(s: string, t: string)
    ensures TrimSpace(s) == t <==> Trimmed(s, t)
  {
    TrimSpaceTrims(s);
    if Trimmed(s, t) { TrimmedOnce(s, t, TrimSpace(s)); }
  }

  /** `r` is `s` without the `c` at both ends. */
  ghost predicate Shed(s: string, c: char, r: string) {
    exists a, b | 0 <= a <= b <= |s| :: r == s[a..b] && Within(s, c, a, b)
  }

  /** Only `c` before `a` and from `b` on, and none at either end between them. */
  predicate Within(s: string, c: char, a: nat, b: nat)
    requires a <= b <= |s|
  {
    && (forall i | 0 <= i < a :: s[i] == c) && (forall i | b <= i < |s| :: s[i] == c)
    && (a < b ==> s[a] != c && s[b - 1] != c)
  }

  lemma {:induction false} TrimAllSheds(s: string, c: char) returns (a: nat, b: nat)
    ensures a <= b <= |s| && TrimAll(s, c) == s[a..b] && Within(s, c, a, b)
    decreases |s|
  {
    a, b := 0, |s|;
    if s != "" && s[0] == c {
      var x, y := TrimAllSheds(s[1..], c);
      a, b := x + 1, y + 1;
      assert s[a..b] == s[1..][x..y];
      assert forall i | 1 <= i < |s| :: s[i] == s[1..][i - 1];
    } else if s != "" && s[|s| - 1] == c {
      a, b := TrimAllSheds(s[..|s| - 1], c);
      assert s[a..b] == s[..|s| - 1][a..b];
    } else {
      assert s[a..b] == s;
    }
  }

  lemma TrimAllIff(s: string, c: char, r: string)
    ensures TrimAll(s, c) == r <==> Shed(s, c, r)
  {
    hide TrimAll;
    var a, b := TrimAllSheds(s, c);
    if Shed(s, c, r) {
      var x, y :| 0 <= x <= y <= |s| && r == s[x..y] && Within(s, c, x, y);
      assert (a == x && b == y) || (a == b && x == y);
    }
  }
}
