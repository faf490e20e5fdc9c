/** The classifier's answer on every text, said on the words of the statement. */
module StatementKinds {
  import opened Statements
  import opened Text
  import opened Words
  import opened Lexing

  // ---------------------------------------------------------------- what the classifier reads

  /** `u` is `t` without one closing semicolon and the spaces before it. */
  ghost predicate Cut(t: string, u: string) {
    if t != "" && t[|t| - 1] == ';'
    then |u| < |t| && u == t[..|u|] && Tight(u) && forall i | |u| <= i < |t| - 1 :: IsSpace(t[i])
    else u == t
  }

  /** How a query is read: `t` without outer spaces, `sql` without its semicolon, `v` without leading comments, in words. */
  ghost predicate Reads(query: string, t: string, sql: string, v: string, words: seq<string>) {
    Trimmed(query, t) && Cut(t, sql) && Uncovers(sql, v) && Says(v, words)
  }

  lemma CutIff(t: string, u: string)
    requires C.IsTrimmed(t)
    ensures C.WithoutSemicolon(t) == u <==> Cut(t, u)
  {
    if t != "" && t[|t| - 1] == ';' {
      C.CutFacts(t);
      var w := C.WithoutSemicolon(t);
      var gap := t[|w|..|t| - 1];
      assert forall i | |w| <= i < |t| - 1 :: t[i] == gap[i - |w|];
      assert w == t[..|w|];
    } else {
      assert t != "" ==> t[|t| - 1..] == [t[|t| - 1]];
      C.TrimSpaceFacts(t);
    }
  }

  /** Every query is read in exactly one way, and the classifier's functions compute it. */
  lemma ReadsIff(query: string, t: string, sql: string, v: string, words: seq<string>)
    ensures Reads(query, t, sql, v, words) <==>
              && t == TrimSpace(query) && sql == C.WithoutSemicolon(t) && v == C.Strip(sql) && words == Fields(ToUpper(v))
  {
    hide TrimSpace, Trimmed, C.WithoutSemicolon, Cut, C.Strip, Uncovers, Fields, ToUpper, Says;
    TrimIff(query, t);
    C.TrimSpaceFacts(query);
    if t == TrimSpace(query) {
      CutIff(t, sql);
      if sql == C.WithoutSemicolon(t) {
        CutTrimmed(t);
        StripIff(sql, sql, v);
        SaysIff(v, words);
      }
    }
  }

  lemma CutTrimmed(t: string)
    requires C.IsTrimmed(t)
    ensures Trimmed(C.WithoutSemicolon(t), C.WithoutSemicolon(t))
  {
    if t != "" && t[|t| - 1] == ';' {
      C.CutFacts(t);
    } else {
      CutIff(t, t);
    }
    var u := C.WithoutSemicolon(t);
    assert u[0..|u|] == u && Ends(u, 0, |u|);
  }

  // ---------------------------------------------------------------- reads that depend on the connection

  /** A run of `@` that cannot be paired off. */
  predicate OddRun(s: string, i: nat, j: nat) {
    && i < j <= |s| && (j - i) % 2 == 1
    && (forall k | i <= k < j :: s[k] == '@')
    && (i > 0 ==> s[i - 1] != '@') && (j < |s| ==> s[j] != '@')
  }

  ghost predicate UserVariable(s: string) { exists i: nat, j: nat :: OddRun(s, i, j) }

  lemma RunsShift(s: string, k: nat, i: nat, j: nat)
    requires k <= |s| && (i > 0 || (k > 0 ==> k <= |s| && s[k - 1] != '@'))
    ensures OddRun(s[k..], i, j) <==> i < j && OddRun(s, i + k, j + k)
  {
    if i < j <= |s| - k {
      assert forall m | i <= m < j :: s[k..][m] == s[m + k];
      assert forall m | i + k <= m < j + k :: s[m] == s[k..][m - k];
    }
  }

  lemma {:induction false} UserVariableIff(s: string)
    ensures C.HasLoneAt(s) <==> UserVariable(s)
    decreases |s|
  {
    if s != "" {
      if "@@" <= s {
        UserVariableIff(s[2..]);
        PairDropped(s);
      } else if s[0] == '@' {
        assert |s| == 1 || s[1] != '@';
        assert OddRun(s, 0, 1);
      } else {
        UserVariableIff(s[1..]);
        OtherDropped(s);
      }
    }
  }

  lemma OtherDropped(s: string)
    requires s != "" && s[0] != '@'
    ensures UserVariable(s) <==> UserVariable(s[1..])
  {
    forall i: nat, j: nat
      ensures OddRun(s[1..], i, j) <==> i < j && OddRun(s, i + 1, j + 1)
    {
      RunsShift(s, 1, i, j);
    }
    if UserVariable(s) {
      var i: nat, j: nat :| OddRun(s, i, j);
      assert i > 0;
      assert OddRun(s[1..], i - 1, j - 1);
    }
    if UserVariable(s[1..]) {
      var i: nat, j: nat :| OddRun(s[1..], i, j);
      assert OddRun(s, i + 1, j + 1);
    }
  }

  lemma PairDropped(s: string)
    requires "@@" <= s
    ensures UserVariable(s) <==> UserVariable(s[2..])
  {
    assert s[0] == '@' && s[1] == '@';
    if UserVariable(s) {
      var i: nat, j: nat :| OddRun(s, i, j);
      PairDroppedFrom(s, i, j);
    }
    if UserVariable(s[2..]) {
      var i: nat, j: nat :| OddRun(s[2..], i, j);
      if i == 0 {
        assert forall k | 2 <= k < j + 2 :: s[k] == s[2..][k - 2];
        assert j < |s| - 2 ==> s[j + 2] == s[2..][j];
        assert OddRun(s, 0, j + 2);
      } else {
        RunsShift(s, 2, i, j);
      }
    }
  }

  lemma PairDroppedFrom(s: string, i: nat, j: nat)
    requires |s| >= 2 && s[0] == '@' && s[1] == '@' && OddRun(s, i, j)
    ensures UserVariable(s[2..])
  {
    var r := s[2..];
    if i == 0 {
      assert j >= 3;
      assert forall k | 0 <= k < j - 2 :: r[k] == s[k + 2];
      assert j < |s| ==> r[j - 2] == s[j];
      assert OddRun(r, 0, j - 2);
    } else {
      assert i > 2;
      RunsShift(s, 2, i - 2, j - 2);
    }
  }

  /** Functions and clauses that read or leave something on one connection. */
  predicate ConnectionFunction(f: string) {
    || f == "GET_LOCK(" || f == "RELEASE_LOCK(" || f == "IS_FREE_LOCK(" || f == "IS_USED_LOCK("
    || f == "LAST_INSERT_ID(" || f == "FOUND_ROWS(" || f == "ROW_COUNT(" || f == "CONNECTION_ID("
    || f == "SQL_CALC_FOUND_ROWS" || f == " INTO OUTFILE" || f == " INTO DUMPFILE"
  }

  predicate ConnectionDiagnostics(u: string) {
    "SHOW WARNINGS" <= u || "SHOW ERRORS" <= u || "SHOW STATUS" <= u || "SHOW SESSION" <= u
  }

  /** The text, in capitals, asks for what only one connection knows. */
  ghost predicate ConnectionBound(u: string) {
    (exists f :: ConnectionFunction(f) && Occurs(u, f)) || UserVariable(u) || ConnectionDiagnostics(u)
  }

  lemma ContainsIff(u: string, f: string)
    ensures Contains(u, f) <==> Occurs(u, f)
  {
    FindFirst(u, f);
  }

  lemma FragmentsAre(f: string)
    ensures f in C.UnsafeFragments <==> ConnectionFunction(f)
  {
  }

  lemma FragmentsIff(u: string)
    ensures (exists f | f in C.UnsafeFragments :: Contains(u, f)) <==> exists f :: ConnectionFunction(f) && Occurs(u, f)
  {
    hide Contains, Occurs, ConnectionFunction;
    forall f
      ensures Contains(u, f) <==> Occurs(u, f)
      ensures f in C.UnsafeFragments <==> ConnectionFunction(f)
    {
      ContainsIff(u, f);
      FragmentsAre(f);
    }
    if f :| ConnectionFunction(f) && Occurs(u, f) {
      assert f in C.UnsafeFragments && Contains(u, f);
    }
  }

  lemma DiagnosticsIff(u: string)
    ensures (exists d | d in C.LocalDiagnostics :: d <= u) <==> ConnectionDiagnostics(u)
  {
    if ConnectionDiagnostics(u) {
      assert "SHOW WARNINGS" in C.LocalDiagnostics && "SHOW ERRORS" in C.LocalDiagnostics
             && "SHOW STATUS" in C.LocalDiagnostics && "SHOW SESSION" in C.LocalDiagnostics;
    }
  }

  lemma UnsafeReadIff(u: string)
    ensures C.UnsafeRead(u) <==> ConnectionBound(u)
  {
    hide Contains, ConnectionFunction, ConnectionDiagnostics, UserVariable, C.HasLoneAt;
    FragmentsIff(u);
    UserVariableIff(u);
    DiagnosticsIff(u);
  }

  // ---------------------------------------------------------------- SET

  predicate IsBlank(c: char) { c == ' ' || c == '\t' || c == '\r' || c == '\n' }

  /** `d` is `s` without its blanks. */
  predicate Squeezes(s: string, d: string) {
    if s == "" then d == ""
    else if IsBlank(s[|s| - 1]) then Squeezes(s[..|s| - 1], d)
    else d != "" && d[|d| - 1] == s[|s| - 1] && Squeezes(s[..|s| - 1], d[..|d| - 1])
  }

  lemma {:induction false} SqueezeSnoc(s: string, c: char)
    ensures C.WithoutBlanks(s + [c]) == C.WithoutBlanks(s) + if IsBlank(c) then "" else [c]
    decreases |s|
  {
    if s == "" {
      assert (s + [c])[1..] == "";
    } else {
      SqueezeSnoc(s[1..], c);
      assert (s + [c])[1..] == s[1..] + [c];
    }
  }

  lemma {:induction false} SqueezeIff(s: string, d: string)
    ensures C.WithoutBlanks(s) == d <==> Squeezes(s, d)
    decreases |s|
  {
    if s != "" {
      var r, c := s[..|s| - 1], s[|s| - 1];
      assert s == r + [c];
      SqueezeSnoc(r, c);
      if IsBlank(c) {
        SqueezeIff(r, d);
      } else if d != "" {
        SqueezeIff(r, d[..|d| - 1]);
        assert d == d[..|d| - 1] + [d[|d| - 1]];
      }
    }
  }

  function If(b: bool, s: string): string { if b then s else "" }

  /** The spellings of SET before the variable, blanks left out; the code takes off each of them once, in this order. */
  function Introduction(session: bool, atSession: bool, at: bool, bare: bool): string {
    If(session, "SETSESSION") + If(atSession, "SET@@SESSION.") + If(at, "SET@@") + If(bare, "SET")
  }

  ghost predicate Sets(d: string, assignment: string) {
    exists a, b, c, e :: d == Introduction(a, b, c, e) + assignment
  }

  function Unprefixed(d: string): string {
    TrimPrefix(TrimPrefix(TrimPrefix(TrimPrefix(d, "SETSESSION"), "SET@@SESSION."), "SET@@"), "SET")
  }

  lemma PrefixOff(d: string, p: string) returns (off: bool)
    ensures d == If(off, p) + TrimPrefix(d, p)
  {
    off := p <= d;
  }

  lemma PrefixOn(p: string, rest: string)
    ensures TrimPrefix(p + rest, p) == rest
  {
  }

  lemma NotPrefix(p: string, d: string, k: nat)
    requires k < |p| && k < |d| && d[k] != p[k]
    ensures !(p <= d)
  {
  }

  lemma Nested(a: bool, b: bool, c: bool, e: bool, rest: string)
    ensures Introduction(a, b, c, e) + rest
            == If(a, "SETSESSION") + (If(b, "SET@@SESSION.") + (If(c, "SET@@") + (If(e, "SET") + rest)))
  {
    hide If;
  }

  lemma Unprefixing(a: bool, b: bool, c: bool, e: bool, rest: string)
    requires rest != "" && rest[0] == 'A'
    ensures Unprefixed(Introduction(a, b, c, e) + rest) == rest
  {
    hide Introduction, If, TrimPrefix;
    Nested(a, b, c, e, rest);
    FirstOff(a, b, c, e, rest);
    SecondOff(b, c, e, rest);
    ThirdOff(c, e, rest);
    FourthOff(e, rest);
  }

  lemma FourthOff(e: bool, rest: string)
    requires rest != "" && rest[0] == 'A'
    ensures TrimPrefix(If(e, "SET") + rest, "SET") == rest
  {
    if e { PrefixOn("SET", rest); } else { assert "" + rest == rest; }
  }

  lemma ThirdOff(c: bool, e: bool, rest: string)
    requires rest != "" && rest[0] == 'A'
    ensures var d := If(e, "SET") + rest; TrimPrefix(If(c, "SET@@") + d, "SET@@") == d
  {
    var d := If(e, "SET") + rest;
    if c {
      PrefixOn("SET@@", d);
    } else {
      assert "" + d == d;
      NotPrefix("SET@@", d, if e then 3 else 0);
    }
  }

  lemma SecondOff(b: bool, c: bool, e: bool, rest: string)
    requires rest != "" && rest[0] == 'A'
    ensures var d := If(c, "SET@@") + (If(e, "SET") + rest); TrimPrefix(If(b, "SET@@SESSION.") + d, "SET@@SESSION.") == d
  {
    var d := If(c, "SET@@") + (If(e, "SET") + rest);
    if b {
      PrefixOn("SET@@SESSION.", d);
    } else {
      assert "" + d == d;
      NotPrefix("SET@@SESSION.", d, if c && e then 7 else if c then 5 else if e then 3 else 0);
    }
  }

  lemma FirstOff(a: bool, b: bool, c: bool, e: bool, rest: string)
    requires rest != "" && rest[0] == 'A'
    ensures var d := If(b, "SET@@SESSION.") + (If(c, "SET@@") + (If(e, "SET") + rest));
            TrimPrefix(If(a, "SETSESSION") + d, "SETSESSION") == d
  {
    var d := If(b, "SET@@SESSION.") + (If(c, "SET@@") + (If(e, "SET") + rest));
    if a {
      PrefixOn("SETSESSION", d);
    } else {
      assert "" + d == d;
      NotPrefix("SETSESSION", d, if b || c || e then 3 else 0);
    }
  }

  lemma SetsIff(d: string, assignment: string)
    requires assignment != "" && assignment[0] == 'A'
    ensures Unprefixed(d) == assignment <==> Sets(d, assignment)
  {
    hide Introduction, If, TrimPrefix;
    if Unprefixed(d) == assignment {
      var a := PrefixOff(d, "SETSESSION");
      var d2 := TrimPrefix(d, "SETSESSION");
      var b := PrefixOff(d2, "SET@@SESSION.");
      var d3 := TrimPrefix(d2, "SET@@SESSION.");
      var c := PrefixOff(d3, "SET@@");
      var e := PrefixOff(TrimPrefix(d3, "SET@@"), "SET");
      Nested(a, b, c, e, assignment);
      assert d == Introduction(a, b, c, e) + assignment;
    }
    if Sets(d, assignment) {
      var a, b, c, e :| d == Introduction(a, b, c, e) + assignment;
      Unprefixing(a, b, c, e, assignment);
    }
  }

  predicate StringQuote(c: char) { c == '\'' || c == '"' }

  predicate Quotes(s: string) { forall i | 0 <= i < |s| :: StringQuote(s[i]) }

  /** The character set, in any quotes. */
  ghost predicate Utf8mb4(word: string) {
    exists a, b :: Quotes(a) && Quotes(b) && word == a + "UTF8MB4" + b
  }

  lemma {:induction false} UnquotedSplits(s: string) returns (a: string, b: string)
    ensures Quotes(a) && Quotes(b) && s == a + C.Unquoted(s) + b
    decreases |s|
  {
    a, b := "", "";
    if s != "" && (s[0] == '\'' || s[0] == '"') {
      a, b := UnquotedSplits(s[1..]);
      assert s == [s[0]] + s[1..];
      a := [s[0]] + a;
    } else if s != "" && (s[|s| - 1] == '\'' || s[|s| - 1] == '"') {
      a, b := UnquotedSplits(s[..|s| - 1]);
      assert s == s[..|s| - 1] + [s[|s| - 1]];
      b := b + [s[|s| - 1]];
    }
  }

  lemma {:induction false} QuotesOff(a: string, core: string, b: string)
    requires Quotes(a) && Quotes(b) && core != "" && !StringQuote(core[0]) && !StringQuote(core[|core| - 1])
    ensures C.Unquoted(a + core + b) == core
    decreases |a| + |b|
  {
    var s := a + core + b;
    if a != "" {
      assert s[1..] == a[1..] + core + b;
      QuotesOff(a[1..], core, b);
    } else if b != "" {
      assert s[0] == core[0];
      assert s[..|s| - 1] == a + core + b[..|b| - 1];
      QuotesOff(a, core, b[..|b| - 1]);
    } else {
      assert s == core;
    }
  }

  lemma Utf8mb4Iff(word: string)
    ensures C.Unquoted(word) == "UTF8MB4" <==> Utf8mb4(word)
  {
    var a, b := UnquotedSplits(word);
    if Utf8mb4(word) {
      var p, q :| Quotes(p) && Quotes(q) && word == p + "UTF8MB4" + q;
      QuotesOff(p, "UTF8MB4", q);
    }
  }

  lemma {:induction false} SqueezeJoin(s: string, t: string)
    ensures C.WithoutBlanks(s + t) == C.WithoutBlanks(s) + C.WithoutBlanks(t)
    decreases |s|
  {
    if s == "" {
      assert s + t == t;
    } else {
      SqueezeJoin(s[1..], t);
      assert (s + t)[1..] == s[1..] + t;
    }
  }

  lemma {:induction false} FirstKept(gap: string, t: string)
    requires Blank(gap) && t != "" && !IsBlank(t[0])
    ensures var d := C.WithoutBlanks(gap + t); d != "" && (IsSpace(d[0]) || d[0] == t[0])
    decreases |gap|
  {
    if gap == "" {
      assert gap + t == t;
    } else {
      assert IsSpace(gap[0]);
      assert (gap + t)[1..] == gap[1..] + t;
      if IsBlank(gap[0]) { FirstKept(gap[1..], t); }
    }
  }

  // ---------------------------------------------------------------- the kinds

  predicate Reading(word: string) {
    word == "SELECT" || word == "SHOW" || word == "DESC" || word == "DESCRIBE" || word == "EXPLAIN"
  }

  predicate Writing(word: string) {
    word == "INSERT" || word == "UPDATE" || word == "DELETE" || word == "REPLACE"
  }

  predicate Defining(word: string) {
    word == "CREATE" || word == "ALTER" || word == "DROP" || word == "TRUNCATE" || word == "RENAME"
  }

  /** An assignment to autocommit, blanks left out. */
  ghost predicate Assigns(u: string, assignment: string) {
    exists d :: Squeezes(u, d) && Sets(d, assignment)
  }

  /** The statement `u`, in capitals, made of `words`, is of this kind. */
  ghost predicate Means(kind: Kind, u: string, words: seq<string>) {
    match kind
    case Empty => words == []
    case Begin => words == ["BEGIN"] || words == ["BEGIN", "WORK"] || words == ["START", "TRANSACTION"]
    case Commit => words == ["COMMIT"] || words == ["COMMIT", "WORK"]
    case Rollback => words == ["ROLLBACK"] || words == ["ROLLBACK", "WORK"]
    case Savepoint =>
      ["SAVEPOINT"] <= words || ["RELEASE"] <= words || ["ROLLBACK", "TO"] <= words || ["ROLLBACK", "WORK", "TO"] <= words
    case UseDatabase => ["USE"] <= words
    case WarningCount => words == ["SHOW", "COUNT(*)", "WARNINGS"]
    case AutocommitOn => ["SET"] <= words && (Assigns(u, "AUTOCOMMIT=1") || Assigns(u, "AUTOCOMMIT=ON"))
    case AutocommitOff => ["SET"] <= words && (Assigns(u, "AUTOCOMMIT=0") || Assigns(u, "AUTOCOMMIT=OFF"))
    case SetNames => |words| == 3 && words[0] == "SET" && words[1] == "NAMES" && Utf8mb4(words[2])
    case Read => words != [] && Reading(words[0]) && words != ["SHOW", "COUNT(*)", "WARNINGS"] && !ConnectionBound(u)
    case Write => words != [] && Writing(words[0]) && !Occurs(u, " RETURNING")
    case DDL => words != [] && Defining(words[0]) && !(|words| > 1 && words[1] == "TEMPORARY")
    case Unsupported | Unrecognized => false
  }

  lemma VerbIs(word: string)
    ensures C.VerbOf(word).ReadVerb? <==> Reading(word)
    ensures C.VerbOf(word).WriteVerb? <==> Writing(word)
    ensures C.VerbOf(word).DefineVerb? <==> Defining(word)
    ensures C.VerbOf(word).BeginVerb? <==> word == "BEGIN"
    ensures C.VerbOf(word).StartVerb? <==> word == "START"
    ensures C.VerbOf(word).CommitVerb? <==> word == "COMMIT"
    ensures C.VerbOf(word).RollbackVerb? <==> word == "ROLLBACK"
    ensures C.VerbOf(word).SavepointVerb? <==> word == "SAVEPOINT" || word == "RELEASE"
    ensures C.VerbOf(word).UseVerb? <==> word == "USE"
    ensures C.VerbOf(word).SetVerb? <==> word == "SET"
  {
  }

  lemma WarningCountIff(words: seq<string>)
    requires AllSolid(words)
    ensures Join(words, " ") == "SHOW COUNT(*) WARNINGS" <==> words == ["SHOW", "COUNT(*)", "WARNINGS"]
  {
    hide Join;
    FieldsOfJoin(words);
    JoinedLiteral();
    FieldsOfJoin(["SHOW", "COUNT(*)", "WARNINGS"]);
  }

  lemma PrintableIsSolid(w: string)
    requires w != "" && forall i | 0 <= i < |w| :: '!' <= w[i] <= '~'
    ensures w != "" && Solid(w)
  {
  }

  lemma JoinedLiteral()
    ensures Join(["SHOW", "COUNT(*)", "WARNINGS"], " ") == "SHOW COUNT(*) WARNINGS"
    ensures AllSolid(["SHOW", "COUNT(*)", "WARNINGS"])
  {
    hide Solid;
    var a, b, c := "SHOW", "COUNT(*)", "WARNINGS";
    PrintableIsSolid(a);
    PrintableIsSolid(b);
    PrintableIsSolid(c);
    assert [a, b, c][1..] == [b, c] && [b, c][1..] == [c];
    assert Join([b, c], " ") == b + " " + c;
    assert Join([a, b, c], " ") == a + " " + (b + " " + c);
  }

  lemma AssignsIff(u: string, assignment: string)
    requires assignment != "" && assignment[0] == 'A'
    ensures Unprefixed(C.WithoutBlanks(u)) == assignment <==> Assigns(u, assignment)
  {
    hide Unprefixed, Sets, Squeezes;
    SqueezeIff(u, C.WithoutBlanks(u));
    SetsIff(C.WithoutBlanks(u), assignment);
    forall d | Squeezes(u, d)
      ensures d == C.WithoutBlanks(u)
    {
      SqueezeIff(u, d);
    }
  }

  /** The text begins with the word SET and goes on with NAMES. */
  lemma NamesAssignNothing(u: string, words: seq<string>, assignment: string)
    requires u != "" && !IsSpace(u[0]) && Fields(u) == words && |words| >= 2 && words[0] == "SET" && words[1] == "NAMES"
    requires |assignment| > 3 && assignment[0] == 'A'
    ensures !Assigns(u, assignment)
  {
    hide Fields, Introduction, TrimLeft;
    var gap, rest := SetThenNames(u, words);
    var d := C.WithoutBlanks(u);
    AssignsIff(u, assignment);
    SetsIff(d, assignment);
    assert u == "SET" + (gap + rest);
    SqueezeJoin("SET", gap + rest);
    assert C.WithoutBlanks("SET") == "SET" by { SetStays(); }
    FirstKept(gap, rest);
    assert IsSpace(d[3]) || d[3] == 'N';
    assert d[0] == 'S';
    forall a, b, c, e
      ensures d != Introduction(a, b, c, e) + assignment
    {
      IntroductionBegins(a, b, c, e, assignment);
    }
  }

  lemma SetStays()
    ensures C.WithoutBlanks("SET") == "SET"
  {
    assert "SET"[1..] == "ET" && "ET"[1..] == "T" && "T"[1..] == "";
  }

  lemma IntroductionBegins(a: bool, b: bool, c: bool, e: bool, assignment: string)
    requires |assignment| > 3 && assignment[0] == 'A'
    ensures var d := Introduction(a, b, c, e) + assignment;
            |d| > 3 && (d[0] == 'A' || (d[0] == 'S' && !IsSpace(d[3]) && d[3] != 'N'))
  {
  }

  lemma FirstWordLeads(u: string, a: nat, b: nat)
    requires u != "" && !IsSpace(u[0]) && FirstWord(u, a, b)
    ensures a == 0 && u == u[a..b] + u[b..]
  {
    hide IsSpace;
  }

  lemma NextWordFollows(t: string, c: nat, d: nat)
    requires FirstWord(t, c, d)
    ensures t == t[..c] + t[c..] && Blank(t[..c]) && t[c..] != "" && t[c..][0] == t[c..d][0]
  {
    hide IsSpace;
  }

  lemma SetThenNames(u: string, words: seq<string>) returns (gap: string, rest: string)
    requires u != "" && !IsSpace(u[0]) && Fields(u) == words && |words| >= 2 && words[0] == "SET" && words[1] == "NAMES"
    ensures u == "SET" + gap + rest && Blank(gap) && rest != "" && rest[0] == 'N'
  {
    hide IsSpace, FirstWord, Blank, Fields;
    FieldsIff(u, words);
    var a, b :| 0 <= a < b <= |u| && FirstWord(u, a, b) && u[a..b] == words[0] && SplitInto(u[b..], words[1..]);
    FirstWordLeads(u, a, b);
    var t := u[b..];
    var c, d :| 0 <= c < d <= |t| && FirstWord(t, c, d) && t[c..d] == words[1..][0] && SplitInto(t[d..], words[1..][1..]);
    NextWordFollows(t, c, d);
    gap, rest := t[..c], t[c..];
  }

  // ---------------------------------------------------------------- the theorem

  lemma WorkKinds(v: string, u: string, words: seq<string>)
    requires u == ToUpper(v) && words == Fields(u) && words != []
    ensures Reading(words[0]) ==>
              C.KindOf(v) == if words == ["SHOW", "COUNT(*)", "WARNINGS"] then WarningCount else if ConnectionBound(u) then Unsupported else Read
    ensures Writing(words[0]) ==> C.KindOf(v) == if Occurs(u, " RETURNING") then Unsupported else Write
    ensures Defining(words[0]) ==> C.KindOf(v) == if |words| > 1 && words[1] == "TEMPORARY" then Unsupported else DDL
  {
    hide Fields, ToUpper, C.UnsafeRead, ConnectionBound, Contains, Occurs, Reading, Writing, Defining, C.VerbOf, Join;
    VerbIs(words[0]);
    FieldsAreSolid(u);
    WarningCountIff(words);
    UnsafeReadIff(u);
    ContainsIff(u, " RETURNING");
  }

  lemma ControlKinds(v: string, u: string, words: seq<string>)
    requires u == ToUpper(v) && words == Fields(u) && words != []
    requires !Reading(words[0]) && !Writing(words[0]) && !Defining(words[0]) && words[0] != "SET"
    ensures var kind := C.KindOf(v);
            && (kind == Begin <==> Means(Begin, u, words))
            && (kind == Commit <==> Means(Commit, u, words))
            && (kind == Rollback <==> Means(Rollback, u, words))
            && (kind == Savepoint <==> Means(Savepoint, u, words))
            && (kind == UseDatabase <==> Means(UseDatabase, u, words))
            && kind in {Begin, Commit, Rollback, Savepoint, UseDatabase, Unsupported}
  {
    hide Fields, ToUpper, C.UnsafeRead, ConnectionBound, Contains, Occurs, Reading, Writing, Defining, C.VerbOf, Join;
    VerbIs(words[0]);
  }

  lemma SetKinds(v: string, u: string, words: seq<string>)
    requires u == ToUpper(v) && words == Fields(u) && words != [] && words[0] == "SET" && u != "" && !IsSpace(u[0])
    ensures var kind := C.KindOf(v);
            && (kind == AutocommitOn <==> Means(AutocommitOn, u, words))
            && (kind == AutocommitOff <==> Means(AutocommitOff, u, words))
            && (kind == SetNames <==> Means(SetNames, u, words))
            && kind in {AutocommitOn, AutocommitOff, SetNames, Unsupported}
  {
    hide Fields, ToUpper, C.UnsafeRead, ConnectionBound, Contains, Occurs, C.VerbOf, Join, Assigns, Utf8mb4, C.Unquoted, TrimPrefix, C.WithoutBlanks;
    VerbIs(words[0]);
    AssignsIff(u, "AUTOCOMMIT=1");
    AssignsIff(u, "AUTOCOMMIT=ON");
    AssignsIff(u, "AUTOCOMMIT=0");
    AssignsIff(u, "AUTOCOMMIT=OFF");
    if |words| == 3 && words[1] == "NAMES" {
      Utf8mb4Iff(words[2]);
      NamesAssignNothing(u, words, "AUTOCOMMIT=1");
      NamesAssignNothing(u, words, "AUTOCOMMIT=ON");
      NamesAssignNothing(u, words, "AUTOCOMMIT=0");
      NamesAssignNothing(u, words, "AUTOCOMMIT=OFF");
    }
  }

  /** Which kinds a first word leaves open. */
  lemma KindsByFirstWord(kind: Kind, u: string, words: seq<string>)
    requires words != [] && Means(kind, u, words)
    ensures Reading(words[0]) ==> kind.Read? || kind.WarningCount?
    ensures Writing(words[0]) ==> kind.Write?
    ensures Defining(words[0]) ==> kind.DDL?
    ensures words[0] == "SET" ==> kind.AutocommitOn? || kind.AutocommitOff? || kind.SetNames?
    ensures !Reading(words[0]) && !Writing(words[0]) && !Defining(words[0]) && words[0] != "SET" ==>
              kind.Begin? || kind.Commit? || kind.Rollback? || kind.Savepoint? || kind.UseDatabase?
  {
    hide Assigns, Utf8mb4, ConnectionBound, Occurs;
  }

  lemma KindOfIff(v: string, u: string, words: seq<string>, kind: Kind)
    requires u == ToUpper(v) && words == Fields(u) && words != [] && u != "" && !IsSpace(u[0])
    ensures !kind.Unsupported? ==> (C.KindOf(v) == kind <==> Means(kind, u, words))
  {
    hide Fields, ToUpper, C.KindOf, ConnectionBound, Occurs, Assigns, Utf8mb4;
    if Means(kind, u, words) { KindsByFirstWord(kind, u, words); }
    VerbIs(words[0]);
    if Reading(words[0]) || Writing(words[0]) || Defining(words[0]) {
      WorkKinds(v, u, words);
    } else if words[0] == "SET" {
      SetKinds(v, u, words);
    } else {
      ControlKinds(v, u, words);
    }
  }

  /**
   * The classifier on every query. Without its outer spaces, one closing semicolon and its leading
   * comments, a single statement has the kind its words say, and the text that is kept is the one without
   * spaces and semicolon; several statements, and words of no kind, are unsupported.
   */
  lemma KindExactly(query: string, t: string, sql: string, v: string, u: string, words: seq<string>, kind: Kind)
    requires Reads(query, t, sql, v, words) && Capitals(v, u)
    ensures var r := C.ClassifySQL(query);
            && (!kind.Unsupported? ==> (r.kind == kind <==> !SeveralStatements(t) && Means(kind, u, words)))
            && (r.kind.Unsupported? <==> SeveralStatements(t) || NoKind(u, words))
            && r.sql == if SeveralStatements(t) || words == [] then query else sql
  {
    hide Reads, TrimSpace, C.HasMultiple, SeveralStatements, C.WithoutSemicolon, C.Strip, C.KindOf, Fields, ToUpper, Means;
    ReadsIff(query, t, sql, v, words);
    UpperIff(v, u);
    MultipleIff(t);
    EmptyHasNoSeveral();
    VisibleBegins(sql, v, words);
    NoWordsNoKind(u, words, kind);
    if v != "" {
      KindOfIff(v, u, words, kind);
      forall k: Kind
        ensures !k.Unsupported? ==> (C.KindOf(v) == k <==> Means(k, u, words))
      {
        KindOfIff(v, u, words, k);
      }
      NotUnsupported(u, words);
      assert C.KindOf(v).Unsupported? || Means(C.KindOf(v), u, words);
    }
  }

  ghost predicate NoKind(u: string, words: seq<string>) { forall kind: Kind :: !Means(kind, u, words) }

  lemma EmptyHasNoSeveral()
    ensures !C.HasMultiple("") && C.WithoutSemicolon("") == "" && C.Strip("") == ""
  {
  }

  lemma NotUnsupported(u: string, words: seq<string>)
    ensures !Means(Unsupported, u, words)
  {
  }

  lemma NoWordsNoKind(u: string, words: seq<string>, kind: Kind)
    ensures words == [] ==> (Means(kind, u, words) <==> kind.Empty?)
    ensures Means(Empty, u, words) <==> words == []
  {
    hide Assigns, Utf8mb4, ConnectionBound, Occurs;
  }

  /** A statement that is left has a first word, and no space before it. */
  lemma VisibleBegins(sql: string, v: string, words: seq<string>)
    requires v == C.Strip(sql) && words == Fields(ToUpper(v))
    ensures words == [] <==> v == ""
    ensures v != "" ==> ToUpper(v) != "" && !IsSpace(ToUpper(v)[0])
  {
    hide C.Strip, IsSpace;
    C.TrimSpaceFacts(sql);
    assert C.IsTrimmed(v) by { C.StripTrimmedFacts(TrimSpace(sql)); StripUnfolds(sql); }
    if v != "" { UpperSpace(v[0]); }
  }

  lemma StripUnfolds(sql: string)
    ensures C.Strip(sql) == C.StripTrimmed(TrimSpace(sql))
  {
  }

  lemma UpperSpace(c: char)
    ensures IsSpace(Upper(c)) <==> IsSpace(c)
  {
  }

  /** Every query has a reading. */
  lemma EveryQueryReads(query: string) returns (t: string, sql: string, v: string, words: seq<string>)
    ensures Reads(query, t, sql, v, words)
  {
    hide Reads;
    t := TrimSpace(query);
    sql := C.WithoutSemicolon(t);
    v := C.Strip(sql);
    words := Fields(ToUpper(v));
    ReadsIff(query, t, sql, v, words);
  }
}
