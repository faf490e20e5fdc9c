/** Comments and quotes as grammars, and the classifier's scanners against them. */
module Lexing {
  import opened Text
  import opened Words
  import C = Classify

  // ---------------------------------------------------------------- quotes

  predicate IsQuote(c: char) { c == '\'' || c == '"' || c == '`' }

  /** A backslash escapes the next character, except between backticks. */
  predicate Escapes(c: char, q: char) { c == '\\' && q != '`' }

  /** What may stand between two quotes `q`. */
  predicate Inner(b: string, q: char)
    decreases |b|
  {
    || b == ""
    || (Escapes(b[0], q) && |b| >= 2 && Inner(b[2..], q))
    || (!Escapes(b[0], q) && b[0] != q && Inner(b[1..], q))
  }

  /** A quoted name or string with both its quotes. */
  predicate Literal(x: string) {
    |x| >= 2 && IsQuote(x[0]) && x[|x| - 1] == x[0] && Inner(x[1..|x| - 1], x[0])
  }

  /** Characters outside quotes and whole literals. */
  ghost predicate Balanced(s: string)
    decreases |s|
  {
    || s == ""
    || (!IsQuote(s[0]) && Balanced(s[1..]))
    || exists m | 2 <= m <= |s| :: Literal(s[..m]) && Balanced(s[m..])
  }

  /** The scanner's state after reading `s` from state `q`. */
  function After(q: C.Quoting, s: string): C.Quoting
    decreases |s|
  {
    if s == "" then q else After(C.Read1(q, s[0]), s[1..])
  }

  lemma {:induction false} AfterSnoc(q: C.Quoting, s: string, c: char)
    ensures After(q, s + [c]) == C.Read1(After(q, s), c)
    decreases |s|
  {
    if s == "" {
      assert (s + [c])[1..] == "";
    } else {
      AfterSnoc(C.Read1(q, s[0]), s[1..], c);
      assert (s + [c])[1..] == s[1..] + [c];
    }
  }

  lemma {:induction false} AfterJoin(q: C.Quoting, s: string, t: string)
    ensures After(q, s + t) == After(After(q, s), t)
    decreases |s|
  {
    if s == "" {
      assert s + t == t;
    } else {
      AfterJoin(C.Read1(q, s[0]), s[1..], t);
      assert (s + t)[1..] == s[1..] + t;
    }
  }

  lemma {:induction false} StateIsAfter(s: string, n: nat)
    requires n <= |s|
    ensures C.StateAt(s, n) == After(C.Plain, s[..n])
  {
    if n > 0 {
      StateIsAfter(s, n - 1);
      AfterSnoc(C.Plain, s[..n - 1], s[n - 1]);
      assert s[..n] == s[..n - 1] + [s[n - 1]];
    }
  }

  lemma {:induction false} InnerStays(b: string, q: char)
    requires IsQuote(q) && Inner(b, q)
    ensures After(C.Quoted(q, false), b) == C.Quoted(q, false)
    decreases |b|
  {
    if b != "" {
      if Escapes(b[0], q) {
        assert b[1..][1..] == b[2..];
        InnerStays(b[2..], q);
      } else {
        InnerStays(b[1..], q);
      }
    }
  }

  lemma LiteralCloses(x: string)
    requires Literal(x)
    ensures After(C.Plain, x) == C.Plain
  {
    var q, b := x[0], x[1..|x| - 1];
    InnerStays(b, q);
    AfterSnoc(C.Quoted(q, false), b, q);
    assert x[1..] == b + [q];
  }

  lemma {:induction false} BalancedIsPlain(s: string)
    requires Balanced(s)
    ensures After(C.Plain, s) == C.Plain
    decreases |s|
  {
    if s != "" {
      if !IsQuote(s[0]) && Balanced(s[1..]) {
        BalancedIsPlain(s[1..]);
      } else {
        var m :| 2 <= m <= |s| && Literal(s[..m]) && Balanced(s[m..]);
        LiteralCloses(s[..m]);
        BalancedIsPlain(s[m..]);
        AfterJoin(C.Plain, s[..m], s[m..]);
        assert s == s[..m] + s[m..];
      }
    }
  }

  /** A scanner that leaves a quote has read its closing quote. */
  lemma {:induction false} FindClose(q: char, s: string) returns (m: nat)
    requires IsQuote(q) && After(C.Quoted(q, false), s) == C.Plain
    ensures m < |s| && s[m] == q && Inner(s[..m], q) && After(C.Plain, s[m + 1..]) == C.Plain
    decreases |s|
  {
    if Escapes(s[0], q) {
      assert s[1..] != "";
      assert s[1..][1..] == s[2..];
      var k := FindClose(q, s[2..]);
      m := k + 2;
      assert s[..m][2..] == s[2..][..k] && s[2..][k + 1..] == s[m + 1..];
    } else if s[0] == q {
      m := 0;
    } else {
      var k := FindClose(q, s[1..]);
      m := k + 1;
      assert s[..m][1..] == s[1..][..k] && s[1..][k + 1..] == s[m + 1..];
    }
  }

  lemma {:induction false} PlainIsBalanced(s: string)
    requires After(C.Plain, s) == C.Plain
    ensures Balanced(s)
    decreases |s|
  {
    if s != "" {
      if IsQuote(s[0]) {
        var q := s[0];
        var k := FindClose(q, s[1..]);
        var m := k + 2;
        assert s[m..] == s[1..][k + 1..];
        PlainIsBalanced(s[m..]);
        var x := s[..m];
        assert x[1..|x| - 1] == s[1..][..k] && x[|x| - 1] == s[1..][k];
        assert Literal(x);
      } else {
        PlainIsBalanced(s[1..]);
      }
    }
  }

  /** A position is outside quotes if and only if plain characters and whole literals lead up to it. */
  lemma UnquotedIff(s: string, n: nat)
    requires n <= |s|
    ensures C.StateAt(s, n).Plain? <==> Balanced(s[..n])
  {
    StateIsAfter(s, n);
    if Balanced(s[..n]) { BalancedIsPlain(s[..n]); }
    if C.StateAt(s, n).Plain? { PlainIsBalanced(s[..n]); }
  }

  // ---------------------------------------------------------------- comments

  /** From the opening mark to the first closing one. */
  predicate BlockComment(c: string) {
    && |c| >= 4 && c[0] == '/' && c[1] == '*' && c[|c| - 2] == '*' && c[|c| - 1] == '/'
    && forall i | 2 <= i < |c| - 2 :: !(c[i] == '*' && c[i + 1] == '/')
  }

  predicate OpensLine(c: string) {
    || (|c| >= 1 && c[0] == '#')
    || (|c| >= 2 && c[0] == '-' && c[1] == '-' && (|c| == 2 || c[2] == ' ' || c[2] == '\t' || c[2] == '\r' || c[2] == '\n'))
  }

  predicate OpensBlock(c: string) { |c| >= 2 && c[0] == '/' && c[1] == '*' }

  /** `#` or `--` up to the end of the line. */
  predicate WholeLine(c: string) {
    OpensLine(c) && c[|c| - 1] == '\n' && forall i | 0 <= i < |c| - 1 :: c[i] != '\n'
  }

  predicate Comment(c: string) { BlockComment(c) || WholeLine(c) }

  /** A comment that is never closed. */
  predicate Unclosed(c: string) {
    || (OpensBlock(c) && forall i | 2 <= i < |c| - 1 :: !(c[i] == '*' && c[i + 1] == '/'))
    || (OpensLine(c) && forall i | 0 <= i < |c| :: c[i] != '\n')
  }

  /** Spaces and closed comments. */
  ghost predicate Noise(n: string)
    decreases |n|
  {
    || n == ""
    || (IsSpace(n[0]) && Noise(n[1..]))
    || exists m | 0 < m <= |n| :: Comment(n[..m]) && Noise(n[m..])
  }

  /** Nothing to skip: neither a space nor a comment opens the text. */
  predicate Bare(r: string) { r == "" || (!IsSpace(r[0]) && !OpensBlock(r) && !OpensLine(r)) }

  /** What is left of `t` behind its leading spaces and comments; nothing of a comment that is not closed. */
  ghost predicate Uncovers(t: string, v: string) {
    exists n | 0 <= n <= |t| :: Noise(t[..n]) && ((Bare(t[n..]) && v == t[n..]) || (Unclosed(t[n..]) && v == ""))
  }

  predicate Tight(s: string) { s == "" || !IsSpace(s[|s| - 1]) }

  /** Stripping from a place that may begin with spaces. */
  function StripAt(s: string): string { C.StripTrimmed(TrimLeft(s)) }

  lemma TightTrim(s: string)
    requires Tight(s)
    ensures TrimSpace(s) == TrimLeft(s)
  {
    TrimLeftFacts(s);
  }

  lemma BlockFound(c: string, x: string)
    requires BlockComment(c)
    ensures Find((c + x)[2..], "*/") == |c| - 4
  {
    var s := (c + x)[2..];
    FindFirst(s, "*/");
    var k := |c| - 4;
    OccursTwo(s, '*', '/', k);
    forall i: nat | i < k
      ensures !OccursAt(s, "*/", i)
    {
      OccursTwo(s, '*', '/', i);
      assert s[i] == c[i + 2] && s[i + 1] == c[i + 3];
    }
  }

  lemma LineFound(c: string, x: string)
    requires WholeLine(c)
    ensures Find(c + x, "\n") == |c| - 1
  {
    var s, k := c + x, |c| - 1;
    FindFirst(s, "\n");
    OccursOne(s, '\n', k);
    forall i: nat | i < k
      ensures !OccursAt(s, "\n", i)
    {
      OccursOne(s, '\n', i);
    }
  }

  lemma BlockSkipped(c: string, x: string)
    requires BlockComment(c) && Tight(x)
    ensures C.StripTrimmed(c + x) == StripAt(x)
  {
    hide TrimSpace, TrimLeft, C.StripTrimmed;
    var s := c + x;
    assert s[..2] == "/*";
    BlockFound(c, x);
    C.StripBlock(s);
    assert s[|c|..] == x;
    TightTrim(x);
  }

  lemma LineSkipped(c: string, x: string)
    requires WholeLine(c) && Tight(x)
    ensures C.StripTrimmed(c + x) == StripAt(x)
  {
    hide TrimSpace, TrimLeft, C.StripTrimmed;
    var s := c + x;
    assert s[0] == c[0] && (|c| > 1 ==> s[1] == c[1]) && (|c| > 2 ==> s[2] == c[2]);
    assert !("/*" <= s) && ("#" <= s || C.LineComment(s));
    LineFound(c, x);
    C.StripLine(s);
    assert s[|c|..] == x;
    TightTrim(x);
  }

  /** One closed comment is skipped. */
  lemma CommentSkipped(c: string, x: string)
    requires Comment(c) && Tight(x)
    ensures StripAt(c + x) == StripAt(x)
  {
    hide C.StripTrimmed, Tight;
    var s := c + x;
    assert TrimLeft(s) == s;
    if BlockComment(c) { BlockSkipped(c, x); } else { LineSkipped(c, x); }
  }

  lemma SpaceSkipped(s: string)
    requires s != "" && IsSpace(s[0])
    ensures StripAt(s) == StripAt(s[1..])
  {
  }

  lemma {:induction false} NoiseSkipped(n: string, x: string)
    requires Noise(n) && Tight(n + x) && Tight(x)
    ensures StripAt(n + x) == StripAt(x)
    decreases |n|
  {
    hide StripAt, IsSpace, Comment;
    if n == "" {
      assert n + x == x;
    } else if IsSpace(n[0]) && Noise(n[1..]) {
      assert (n + x)[1..] == n[1..] + x;
      SpaceSkipped(n + x);
      NoiseSkipped(n[1..], x);
    } else {
      var m :| 0 < m <= |n| && Comment(n[..m]) && Noise(n[m..]);
      var rest := n[m..] + x;
      assert n + x == n[..m] + rest;
      CommentSkipped(n[..m], rest);
      NoiseSkipped(n[m..], x);
    }
  }

  lemma BareStays(r: string)
    requires Bare(r) && Tight(r)
    ensures StripAt(r) == r
  {
    assert !("/*" <= r) && !("#" <= r) && !C.LineComment(r);
    C.StripPlain(r);
  }

  lemma UnclosedIsNothing(r: string)
    requires Unclosed(r)
    ensures StripAt(r) == ""
  {
    assert !IsSpace(r[0]) && TrimLeft(r) == r;
    if OpensBlock(r) && forall i | 2 <= i < |r| - 1 :: !(r[i] == '*' && r[i + 1] == '/') {
      assert "/*" <= r;
      FindFirst(r[2..], "*/");
      forall i: nat
        ensures !OccursAt(r[2..], "*/", i)
      {
        OccursTwo(r[2..], '*', '/', i);
      }
      C.StripBlock(r);
    } else {
      FindFirst(r, "\n");
      forall i: nat
        ensures !OccursAt(r, "\n", i)
      {
        OccursOne(r, '\n', i);
      }
      assert !("/*" <= r) && ("#" <= r || C.LineComment(r));
      C.StripLine(r);
    }
  }

  lemma ClosedBlock(s: string) returns (m: nat)
    requires OpensBlock(s) && !Unclosed(s)
    ensures 0 < m <= |s| && Comment(s[..m])
  {
    var r := s[2..];
    FindFirst(r, "*/");
    var i :| 2 <= i < |s| - 1 && s[i] == '*' && s[i + 1] == '/';
    OccursTwo(r, '*', '/', i - 2);
    var k := Find(r, "*/");
    OccursTwo(r, '*', '/', k);
    m := k + 4;
    hide Find;
    PrefixBlock(s, m);
  }

  lemma PrefixBlock(s: string, m: nat)
    requires OpensBlock(s) && 4 <= m <= |s| && s[m - 2] == '*' && s[m - 1] == '/'
    requires forall j: nat | j < m - 4 :: !OccursAt(s[2..], "*/", j)
    ensures BlockComment(s[..m])
  {
    forall j | 2 <= j < m - 2
      ensures !(s[j] == '*' && s[j + 1] == '/')
    {
      OccursTwo(s[2..], '*', '/', j - 2);
    }
  }

  lemma ClosedLine(s: string) returns (m: nat)
    requires OpensLine(s) && !Unclosed(s)
    ensures 0 < m <= |s| && Comment(s[..m])
  {
    FindFirst(s, "\n");
    var i :| 0 <= i < |s| && s[i] == '\n';
    OccursOne(s, '\n', i);
    var k := Find(s, "\n");
    OccursOne(s, '\n', k);
    m := k + 1;
    forall j | 0 <= j < k
      ensures s[j] != '\n'
    {
      OccursOne(s, '\n', j);
    }
    assert WholeLine(s[..m]);
  }

  /** Behind leading spaces and closed comments every text is bare or an open comment. */
  lemma {:induction false} FindCover(s: string) returns (n: nat)
    ensures n <= |s| && Noise(s[..n]) && (Bare(s[n..]) || Unclosed(s[n..]))
    decreases |s|
  {
    hide Comment;
    n := 0;
    if s != "" && IsSpace(s[0]) {
      var k := FindCover(s[1..]);
      n := k + 1;
      assert s[..n][1..] == s[1..][..k] && s[n..] == s[1..][k..];
    } else if (OpensBlock(s) || OpensLine(s)) && !Unclosed(s) {
      var m: nat;
      if OpensBlock(s) { m := ClosedBlock(s); } else { m := ClosedLine(s); }
      var k := FindCover(s[m..]);
      n := m + k;
      assert s[..n][..m] == s[..m] && s[..n][m..] == s[m..][..k] && s[n..] == s[m..][k..];
    } else {
      assert s[0..] == s;
    }
  }

  lemma CoverDecides(t: string, n: nat)
    requires Tight(t) && n <= |t| && Noise(t[..n])
    ensures Bare(t[n..]) ==> StripAt(t) == t[n..]
    ensures Unclosed(t[n..]) ==> StripAt(t) == ""
  {
    hide StripAt, Noise, Bare, Unclosed;
    var r := t[n..];
    assert t == t[..n] + r;
    NoiseSkipped(t[..n], r);
    if Bare(r) { BareStays(r); }
    if Unclosed(r) { UnclosedIsNothing(r); }
  }

  /** Stripping leaves what stands behind the leading spaces and comments, and there is only one such rest. */
  lemma StripIff(query: string, t: string, v: string)
    requires Trimmed(query, t)
    ensures C.Strip(query) == v <==> Uncovers(t, v)
  {
    hide StripAt, Noise, Bare, Unclosed, TrimSpace;
    TrimIff(query, t);
    C.TrimSpaceFacts(query);
    assert StripAt(t) == C.Strip(query) by { AtOnce(t); }
    var n := FindCover(t);
    CoverDecides(t, n);
    forall k | 0 <= k <= |t| && Noise(t[..k])
      ensures Bare(t[k..]) ==> StripAt(t) == t[k..]
      ensures Unclosed(t[k..]) ==> StripAt(t) == ""
    {
      CoverDecides(t, k);
    }
  }

  lemma AtOnce(t: string)
    requires C.IsTrimmed(t)
    ensures StripAt(t) == C.StripTrimmed(t)
  {
  }

  /** Nothing but spaces and comments. */
  ghost predicate OnlyComments(s: string) {
    exists t :: Trimmed(s, t) && Uncovers(t, "")
  }

  /** A semicolon outside quotes has more than comments behind it. */
  ghost predicate SeveralStatements(s: string) {
    exists i | 0 <= i < |s| :: s[i] == ';' && Balanced(s[..i]) && !OnlyComments(s[i + 1..])
  }

  lemma OnlyCommentsIff(s: string)
    ensures C.Strip(s) == "" <==> OnlyComments(s)
  {
    hide C.Strip, Uncovers, Trimmed;
    TrimIff(s, TrimSpace(s));
    StripIff(s, TrimSpace(s), "");
    forall t | Trimmed(s, t)
      ensures t == TrimSpace(s)
    {
      TrimIff(s, t);
    }
  }

  /** The scanner for several statements, on the grammars. */
  lemma MultipleIff(s: string)
    ensures C.HasMultiple(s) <==> SeveralStatements(s)
  {
    hide C.Strip, C.StateAt, OnlyComments, Balanced;
    forall i | 0 <= i < |s|
      ensures C.Bare(s, i, ';') && C.Strip(s[i + 1..]) != "" <==> s[i] == ';' && Balanced(s[..i]) && !OnlyComments(s[i + 1..])
    {
      UnquotedIff(s, i);
      OnlyCommentsIff(s[i + 1..]);
    }
  }

  /** The placeholders are the question marks outside quotes. */
  lemma PlaceholderIff(s: string, i: nat)
    requires i < |s|
    ensures i in C.Placeholders(s, |s|) <==> s[i] == '?' && Balanced(s[..i])
  {
    UnquotedIff(s, i);
  }
}
