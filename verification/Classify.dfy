/** The conservative SQL classifier (internal/engine/classify.go) and the placeholder counter of the prepared path. */
module Classify {
  import opened Statements
  import opened Text

  // ---------------------------------------------------------------- leading comments

  predicate LineComment(v: string) {
    "--" <= v && (|v| == 2 || v[2] == ' ' || v[2] == '\t' || v[2] == '\r' || v[2] == '\n')
  }

  /** The comment loop on a trimmed value. */
  function StripTrimmed(v: string): string
    decreases |v|
  {
    if "/*" <= v then
      var end := Find(v[2..], "*/");
      if end < 0 then "" else
      TrimmedIsShorter(v[end + 4..]);
      StripTrimmed(TrimSpace(v[end + 4..]))
    else if "#" <= v || LineComment(v) then
      var end := Find(v, "\n");
      if end < 0 then "" else
      TrimmedIsShorter(v[end + 1..]);
      StripTrimmed(TrimSpace(v[end + 1..]))
    else v
  }

  function Strip(query: string): string { StripTrimmed(TrimSpace(query)) }

  lemma TrimmedIsShorter(s: string)
    ensures |TrimSpace(s)| <= |s|
  {
    TrimLeftFacts(s);
    TrimRightFacts(TrimLeft(s));
  }

  method StripLeadingComments(query: string) returns (value: string)
    ensures value == Strip(query)
  {
    value := TrimSpace(query);
    while value != ""
      invariant StripTrimmed(value) == Strip(query)
      decreases |value|
    {
      if "/*" <= value {
        var end := Find(value[2..], "*/");
        if end < 0 {
          return "";
        }
        TrimmedIsShorter(value[end + 4..]);
        value := TrimSpace(value[end + 4..]);
      } else if "#" <= value || LineComment(value) {
        var end := Find(value, "\n");
        if end < 0 {
          return "";
        }
        TrimmedIsShorter(value[end + 1..]);
        value := TrimSpace(value[end + 1..]);
      } else {
        return value;
      }
    }
  }

  predicate IsSuffix(t: string, s: string) { |t| <= |s| && s[|s| - |t|..] == t }

  /** Neither space at an end. */
  predicate IsTrimmed(s: string) { s == "" || (!IsSpace(s[0]) && !IsSpace(s[|s| - 1])) }

  lemma TrimSpaceFacts(s: string)
    ensures IsTrimmed(TrimSpace(s)) && |TrimSpace(s)| <= |s|
    ensures IsTrimmed(s) ==> TrimSpace(s) == s
  {
    TrimLeftFacts(s);
    TrimRightFacts(TrimLeft(s));
  }

  /** A tail of a value without trailing space loses only leading space. */
  lemma TrimTail(v: string, n: nat)
    requires n <= |v| && (v == "" || !IsSpace(v[|v| - 1]))
    ensures TrimSpace(v[n..]) == TrimLeft(v[n..])
    ensures IsSuffix(TrimSpace(v[n..]), v)
  {
    TrimLeftFacts(v[n..]);
  }

  /** The result is a suffix of the trimmed input, begins with no comment and no space, and stripping again changes nothing. */
  lemma {:induction false} StripTrimmedFacts(v: string)
    requires IsTrimmed(v)
    ensures IsSuffix(StripTrimmed(v), v) && IsTrimmed(StripTrimmed(v))
    ensures StripTrimmed(StripTrimmed(v)) == StripTrimmed(v)
    decreases |v|
  {
    var at := if "/*" <= v then Find(v[2..], "*/") + 4 else Find(v, "\n") + 1;
    if ("/*" <= v && at >= 4) || (!("/*" <= v) && ("#" <= v || LineComment(v)) && at >= 1) {
      TrimTail(v, at);
      TrimSpaceFacts(v[at..]);
      StripTrimmedFacts(TrimSpace(v[at..]));
    }
  }

  lemma StripIsIdempotentSuffix(query: string)
    ensures IsSuffix(Strip(query), TrimSpace(query))
    ensures Strip(Strip(query)) == Strip(query)
  {
    TrimSpaceFacts(query);
    StripTrimmedFacts(TrimSpace(query));
    TrimSpaceFacts(Strip(query));
  }

  // ---------------------------------------------------------------- a statement and the same statement without its last semicolon

  predicate Blank(gap: string) { forall c | c in gap :: IsSpace(c) }

  predicate NoTrailingSpace(v: string) { v == "" || !IsSpace(v[|v| - 1]) }

  lemma {:induction false} FindStable(s: string, x: string, t: string)
    requires Find(s, t) >= 0
    ensures Find(s + x, t) == Find(s, t)
  {
    if t <= s {
      assert t <= s + x;
    } else {
      FindStable(s[1..], x, t);
      assert (s + x)[1..] == s[1..] + x;
      assert t <= s + x ==> t <= s by {
        assert |t| <= |s|;
      }
    }
  }

  /** A prefix that reaches into the tail contains the tail's first character. */
  lemma PrefixReaches(s: string, x: string, t: string)
    requires t <= s + x && |s| < |t|
    ensures x != "" && x[0] in t
  {
    assert t[|s|] == (s + x)[|s|];
  }

  /** A tail that shares no character with the pattern adds no occurrence. */
  lemma {:induction false} FindSame(s: string, x: string, t: string)
    requires t != "" && forall c | c in x :: c !in t
    ensures Find(s + x, t) == Find(s, t)
    decreases |s| + |x|
  {
    assert t <= s + x ==> |t| <= |s| by {
      if t <= s + x && |s| < |t| { PrefixReaches(s, x, t); }
    }
    if s != "" {
      FindSame(s[1..], x, t);
      assert (s + x)[1..] == s[1..] + x;
    } else if x != "" {
      FindSame("", x[1..], t);
      assert (s + x)[1..] == "" + x[1..];
    }
  }

  /** A line without an end can only be ended by the tail. */
  lemma {:induction false} FindNewline(s: string, x: string)
    requires Find(s, "\n") < 0
    ensures Find(s + x, "\n") < 0 || Find(s + x, "\n") >= |s|
  {
    if s != "" {
      FindNewline(s[1..], x);
      assert (s + x)[1..] == s[1..] + x;
    }
  }

  lemma TrimExtend(r: string, gap: string)
    requires Blank(gap) && NoTrailingSpace(r)
    ensures TrimSpace(r + gap + ";") == if TrimLeft(r) == "" then ";" else TrimLeft(r) + gap + ";"
    ensures TrimLeft(r) == "" <==> r == ""
    ensures TrimSpace(r) == TrimLeft(r) && IsTrimmed(TrimLeft(r))
  {
    TrimLeftFacts(r);
    if r == "" {
      TrimGap(gap);
      assert r + gap + ";" == gap + ";";
    } else {
      TrimLeftExtend(r, gap + ";");
      assert r + gap + ";" == r + (gap + ";");
      assert TrimLeft(r) + gap + ";" == TrimLeft(r) + (gap + ";");
    }
  }

  lemma {:induction false} TrimGap(gap: string)
    requires Blank(gap)
    ensures TrimLeft(gap + ";") == ";"
  {
    if gap != "" {
      TrimGap(gap[1..]);
      assert (gap + ";")[1..] == gap[1..] + ";";
    }
  }

  lemma {:induction false} TrimLeftExtend(r: string, x: string)
    requires TrimLeft(r) != ""
    ensures TrimLeft(r + x) == TrimLeft(r) + x
  {
    if IsSpace(r[0]) {
      TrimLeftExtend(r[1..], x);
      assert (r + x)[1..] == r[1..] + x;
    }
  }

  /**
   * Appending space and a semicolon to a statement: what was visible stays visible in front of
   * them; if nothing was, nothing but a semicolon or a dash can begin what appears.
   */
  ghost predicate Extends(v: string, gap: string) {
    ExtendsTo(StripTrimmed(TrimSpace(v)), StripTrimmed(TrimSpace(v + gap + ";")), gap)
  }

  ghost predicate ExtendsTo(u: string, w: string, gap: string) {
    if u != "" then w == u + gap + ";" else w == "" || w[0] == ';' || w[0] == '-'
  }

  lemma {:induction false} StripExtend(v: string, gap: string)
    requires Blank(gap) && NoTrailingSpace(v)
    ensures Extends(v, gap)
    decreases |v|, 2
  {
    hide StripTrimmed, ExtendsTo;
    TrimExtend(v, gap);
    TrimLeftFacts(v);
    if v != "" {
      TrimmedExtend(TrimLeft(v), gap);
    } else {
      assert Extends("", gap) by { OnlySemicolon(gap); }
    }
  }

  lemma OnlySemicolon(gap: string)
    ensures ExtendsTo(StripTrimmed(""), StripTrimmed(";"), gap)
  {
  }

  lemma StripBlock(v: string)
    requires "/*" <= v
    ensures var end := Find(v[2..], "*/");
            StripTrimmed(v) == if end < 0 then "" else StripTrimmed(TrimSpace(v[end + 4..]))
  {
  }

  lemma StripLine(v: string)
    requires !("/*" <= v) && ("#" <= v || LineComment(v))
    ensures var end := Find(v, "\n");
            StripTrimmed(v) == if end < 0 then "" else StripTrimmed(TrimSpace(v[end + 1..]))
  {
  }

  lemma StripPlain(v: string)
    requires !("/*" <= v || "#" <= v || LineComment(v))
    ensures StripTrimmed(v) == v
  {
  }

  lemma {:induction false} BlockExtend(t: string, gap: string)
    requires Blank(gap) && IsTrimmed(t) && "/*" <= t && "/*" <= t + gap + ";"
    ensures ExtendsTo(StripTrimmed(t), StripTrimmed(t + gap + ";"), gap)
    decreases |t|, 0
  {
    hide TrimSpace, Find, StripTrimmed;
    var value := t + gap + ";";
    assert value[2..] == t[2..] + (gap + ";");
    FindSame(t[2..], gap + ";", "*/");
    StripBlock(t);
    StripBlock(value);
    var end := Find(t[2..], "*/");
    if end >= 0 {
      assert value[end + 4..] == t[end + 4..] + gap + ";";
      StripExtend(t[end + 4..], gap);
    }
  }

  lemma {:induction false} LineExtend(t: string, gap: string)
    requires Blank(gap) && IsTrimmed(t) && !("/*" <= t) && ("#" <= t || LineComment(t))
    requires var value := t + gap + ";"; !("/*" <= value) && ("#" <= value || LineComment(value))
    ensures ExtendsTo(StripTrimmed(t), StripTrimmed(t + gap + ";"), gap)
    decreases |t|, 0
  {
    hide TrimSpace, Find, StripTrimmed;
    var value := t + gap + ";";
    StripLine(t);
    StripLine(value);
    var end := Find(t, "\n");
    if end >= 0 {
      assert value == t + (gap + ";");
      FindStable(t, gap + ";", "\n");
      assert value[end + 1..] == t[end + 1..] + gap + ";";
      StripExtend(t[end + 1..], gap);
    } else {
      LineEndsInGap(t, gap);
      assert StripTrimmed(";") == ";" by { SemicolonIsPlain(); }
    }
  }

  lemma SemicolonIsPlain()
    ensures StripTrimmed(";") == ";"
  {
    var v := ";";
    assert v[0] == ';' && "#"[0] == '#' && |v| == 1;
    StripPlain(v);
  }

  /** `StripExtend` on a trimmed statement, by the kind of its first comment. */
  lemma {:induction false} TrimmedExtend(t: string, gap: string)
    requires Blank(gap) && IsTrimmed(t) && t != ""
    ensures ExtendsTo(StripTrimmed(t), StripTrimmed(t + gap + ";"), gap)
    decreases |t|, 1
  {
    hide TrimSpace, Find, StripTrimmed;
    var value := t + gap + ";";
    HeadExtend(t, gap);
    if "/*" <= t {
      BlockExtend(t, gap);
    } else if "#" <= t || LineComment(value) {
      LineExtend(t, gap);
    } else {
      StripPlain(value);
      if LineComment(t) { DashDash(t); } else { StripPlain(t); }
    }
  }

  /** A bare `--` is a comment that the semicolon turns into text. */
  lemma DashDash(t: string)
    requires LineComment(t) && |t| == 2
    ensures StripTrimmed(t) == ""
  {
    assert t[0] == '-' && t[1] == '-';
    assert t == "--";
  }

  /** A line comment that the gap ends leaves only the semicolon. */
  lemma LineEndsInGap(t: string, gap: string)
    requires Blank(gap) && Find(t, "\n") < 0
    ensures var value := t + gap + ";";
            var e := Find(value, "\n");
            e >= 0 ==> TrimSpace(value[e + 1..]) == ";"
  {
    hide Find, TrimLeft, TrimRight;
    var value := t + gap + ";";
    assert value == t + (gap + ";");
    FindNewline(t, gap + ";");
    var e := Find(value, "\n");
    if e >= 0 {
      assert value[e..e + 1] == "\n";
      assert value[e] == '\n';
      assert value[|value| - 1] == ';';
      assert value[e + 1..] == "" + gap[e + 1 - |t|..] + ";";
      TrimExtend("", gap[e + 1 - |t|..]);
    }
  }

  /** The first characters decide the kind of comment before the semicolon can. */
  lemma HeadExtend(t: string, gap: string)
    requires Blank(gap) && IsTrimmed(t) && t != ""
    ensures var value := t + gap + ";";
            && ("/*" <= t <==> "/*" <= value) && ("#" <= t <==> "#" <= value)
            && ("--" <= t <==> "--" <= value)
            && (LineComment(t) && !LineComment(value) ==> value[0] == '-' && |t| == 2)
            && (LineComment(value) ==> LineComment(t))
  {
    var value := t + gap + ";";
    assert value == t + (gap + ";");
    assert value[0] == t[0];
    if |t| == 1 {
      assert value[1] == ';' || IsSpace(value[1]);
    } else {
      assert value[1] == t[1];
      if |t| > 2 { assert value[2] == t[2]; }
    }
  }

  // ---------------------------------------------------------------- the quote automaton

  /** The reference: outside quotes, or inside one of three kinds, with or without a pending escape. */
  datatype Quoting = Plain | Quoted(quote: char, escaped: bool)

  function Read1(q: Quoting, c: char): Quoting {
    match q
    case Plain => if c == '\'' || c == '"' || c == '`' then Quoted(c, false) else Plain
    case Quoted(quote, escaped) =>
      if escaped then Quoted(quote, false)
      else if c == '\\' && quote != '`' then Quoted(quote, true)
      else if c == quote then Plain
      else q
  }

  /** The state before the character at `n`. */
  function StateAt(s: string, n: nat): Quoting
    requires n <= |s|
  {
    if n == 0 then Plain else Read1(StateAt(s, n - 1), s[n - 1])
  }

  /** Position `i` holds an unquoted `c`. */
  predicate Bare(s: string, i: int, c: char) {
    0 <= i < |s| && StateAt(s, i).Plain? && s[i] == c
  }

  /** Some unquoted semicolon is followed by more than comments. */
  predicate HasMultiple(s: string) {
    exists i | 0 <= i < |s| :: Bare(s, i, ';') && Strip(s[i + 1..]) != ""
  }

  method HasMultipleStatements(query: string) returns (many: bool)
    ensures many == HasMultiple(query)
  {
    var quote: char := '\0';
    var escaped := false;
    for index := 0 to |query|
      invariant StateAt(query, index) == if quote != '\0' then Quoted(quote, escaped) else Plain
      invariant quote != '\0' || !escaped
      invariant forall i | 0 <= i < index :: !(Bare(query, i, ';') && Strip(query[i + 1..]) != "")
    {
      var current := query[index];
      if quote != '\0' {
        if escaped {
          escaped := false;
        } else if current == '\\' && quote != '`' {
          escaped := true;
        } else if current == quote {
          quote := '\0';
        }
      } else if current == '\'' || current == '"' || current == '`' {
        quote := current;
      } else if current == ';' {
        var rest := StripLeadingComments(query[index + 1..]);
        if rest != "" {
          assert Bare(query, index, ';');
          return true;
        }
      }
    }
    return false;
  }

  /** The unquoted placeholders among the first `n` characters. */
  function Placeholders(s: string, n: nat): set<int>
    requires n <= |s|
  {
    set i | 0 <= i < n && Bare(s, i, '?')
  }

  method CountPreparedParameters(query: string) returns (count: nat)
    ensures count == |Placeholders(query, |query|)|
  {
    count := 0;
    var quote: char := '\0';
    var escaped := false;
    assert Placeholders(query, 0) == {};
    for index := 0 to |query|
      invariant StateAt(query, index) == if quote != '\0' then Quoted(quote, escaped) else Plain
      invariant quote != '\0' || !escaped
      invariant count == |Placeholders(query, index)|
    {
      var current := query[index];
      assert Placeholders(query, index + 1)
             == Placeholders(query, index) + if Bare(query, index, '?') then {index} else {};
      if quote != '\0' {
        if escaped {
          escaped := false;
        } else if current == '\\' && quote != '`' {
          escaped := true;
        } else if current == quote {
          quote := '\0';
        }
      } else if current == '\'' || current == '"' || current == '`' {
        quote := current;
      } else if current == '?' {
        count := count + 1;
      }
    }
  }

  // ---------------------------------------------------------------- classification

  datatype Verb =
    | ReadVerb | WriteVerb | DefineVerb | BeginVerb | StartVerb | CommitVerb | RollbackVerb
    | SavepointVerb | UseVerb | SetVerb | OtherVerb

  function VerbOf(word: string): Verb {
    if word in ["SELECT", "SHOW", "DESC", "DESCRIBE", "EXPLAIN"] then ReadVerb
    else if word in ["INSERT", "UPDATE", "DELETE", "REPLACE"] then WriteVerb
    else if word in ["CREATE", "ALTER", "DROP", "TRUNCATE", "RENAME"] then DefineVerb
    else if word == "BEGIN" then BeginVerb
    else if word == "START" then StartVerb
    else if word == "COMMIT" then CommitVerb
    else if word == "ROLLBACK" then RollbackVerb
    else if word in ["SAVEPOINT", "RELEASE"] then SavepointVerb
    else if word == "USE" then UseVerb
    else if word == "SET" then SetVerb
    else OtherVerb
  }

  const UnsafeFragments := [
    "GET_LOCK(", "RELEASE_LOCK(", "IS_FREE_LOCK(", "IS_USED_LOCK(", "LAST_INSERT_ID(", "FOUND_ROWS(",
    "ROW_COUNT(", "CONNECTION_ID(", "SQL_CALC_FOUND_ROWS", " INTO OUTFILE", " INTO DUMPFILE"]
  const LocalDiagnostics := ["SHOW WARNINGS", "SHOW ERRORS", "SHOW STATUS", "SHOW SESSION"]

  /** An `@` is left after every `@@` has been removed from the left. */
  predicate HasLoneAt(s: string) {
    if s == "" then false
    else if "@@" <= s then HasLoneAt(s[2..])
    else s[0] == '@' || HasLoneAt(s[1..])
  }

  predicate UnsafeRead(upper: string) {
    || (exists f | f in UnsafeFragments :: Contains(upper, f))
    || HasLoneAt(upper)
    || (exists d | d in LocalDiagnostics :: d <= upper)
  }

  function WithoutBlanks(s: string): string {
    if s == "" then "" else
    if s[0] == ' ' || s[0] == '\t' || s[0] == '\r' || s[0] == '\n' then WithoutBlanks(s[1..]) else [s[0]] + WithoutBlanks(s[1..])
  }

  /** The SET branch: autocommit in its spellings, SET NAMES utf8mb4, nothing else. */
  function SetKind(upper: string, fields: seq<string>): Kind {
    var compact := TrimPrefix(TrimPrefix(TrimPrefix(TrimPrefix(
      WithoutBlanks(upper), "SETSESSION"), "SET@@SESSION."), "SET@@"), "SET");
    if compact == "AUTOCOMMIT=1" || compact == "AUTOCOMMIT=ON" then AutocommitOn
    else if compact == "AUTOCOMMIT=0" || compact == "AUTOCOMMIT=OFF" then AutocommitOff
    else if |fields| == 3 && fields[1] == "NAMES" && Unquoted(fields[2]) == "UTF8MB4" then SetNames
    else Unsupported
  }

  /** `strings.Trim` with both quote characters. */
  function Unquoted(s: string): string
    decreases |s|
  {
    if s != "" && (s[0] == '\'' || s[0] == '"') then Unquoted(s[1..])
    else if s != "" && (s[|s| - 1] == '\'' || s[|s| - 1] == '"') then Unquoted(s[..|s| - 1])
    else s
  }

  function KindOf(visible: string): Kind {
    var upper := ToUpper(visible);
    var fields := Fields(upper);
    if fields == [] then Empty else
    var plain := |fields| == 1 || (|fields| == 2 && fields[1] == "WORK");
    match VerbOf(fields[0])
    case ReadVerb =>
      if Join(fields, " ") == "SHOW COUNT(*) WARNINGS" then WarningCount
      else if UnsafeRead(upper) then Unsupported
      else Read
    case WriteVerb => if Contains(upper, " RETURNING") then Unsupported else Write
    case DefineVerb => if |fields| > 1 && fields[1] == "TEMPORARY" then Unsupported else DDL
    case BeginVerb => if plain then Begin else Unsupported
    case StartVerb => if |fields| == 2 && fields[1] == "TRANSACTION" then Begin else Unsupported
    case CommitVerb => if plain then Commit else Unsupported
    case RollbackVerb =>
      if |fields| > 1 && (fields[1] == "TO" || (fields[1] == "WORK" && |fields| > 2 && fields[2] == "TO")) then Savepoint
      else if plain then Rollback
      else Unsupported
    case SavepointVerb => Savepoint
    case UseVerb => UseDatabase
    case SetVerb => SetKind(upper, fields)
    case OtherVerb => Unsupported
  }

  /** One trailing semicolon removed. */
  function WithoutSemicolon(trimmed: string): string { TrimSpace(TrimSuffix(trimmed, ";")) }

  function ClassifySQL(query: string): Statement {
    var trimmed := TrimSpace(query);
    if trimmed == "" then Statement(Empty, query)
    else if HasMultiple(trimmed) then Statement(Unsupported, query)
    else
      var sql := WithoutSemicolon(trimmed);
      var visible := Strip(sql);
      if visible == "" then Statement(Empty, query) else Statement(KindOf(visible), sql)
  }

  // ---------------------------------------------------------------- re-classifying what classification returned

  /** The part the classifier keeps, and the semicolon and space it cut. */
  lemma CutFacts(t: string)
    requires IsTrimmed(t) && t != "" && t[|t| - 1] == ';'
    ensures var u := WithoutSemicolon(t);
            && IsTrimmed(u) && |u| < |t|
            && u <= t && Blank(t[|u|..|t| - 1]) && t == u + t[|u|..|t| - 1] + ";"
  {
    hide TrimRight;
    var cut := t[..|t| - 1];
    assert t[|t| - 1..] == ";";
    TrimSpaceFacts(cut);
    if |t| > 1 {
      assert cut[0] == t[0];
      TrimRightFacts(cut);
      var u := TrimRight(cut);
      assert TrimSpace(cut) == u;
      forall c | c in t[|u|..|t| - 1]
        ensures IsSpace(c)
      {
      }
      assert t == u + t[|u|..|t| - 1] + ";";
    } else {
      assert cut == "";
    }
  }

  /** A prefix without trailing space of a single statement is a single statement, when only space and a semicolon was cut. */
  lemma SinglePrefix(u: string, gap: string)
    requires Blank(gap) && NoTrailingSpace(u) && !HasMultiple(u + gap + ";")
    ensures !HasMultiple(u)
  {
    hide Strip, StateAt;
    var t := u + gap + ";";
    forall i | Bare(u, i, ';')
      ensures Strip(u[i + 1..]) == ""
    {
      SameState(u, t, i);
      assert Bare(t, i, ';');
      assert t[i + 1..] == u[i + 1..] + gap + ";";
      StripShrinks(u[i + 1..], gap);
    }
  }

  lemma StripShrinks(v: string, gap: string)
    requires Blank(gap) && NoTrailingSpace(v) && Strip(v + gap + ";") == ""
    ensures Strip(v) == ""
  {
    StripExtend(v, gap);
  }

  lemma {:induction false} SameState(u: string, t: string, n: nat)
    requires u <= t && n <= |u|
    ensures StateAt(u, n) == StateAt(t, n)
  {
    if n > 0 { SameState(u, t, n - 1); }
  }

  lemma {:induction false} LoneAtExtend(p: string, x: string)
    requires HasLoneAt(p) && x != "" && x[0] != '@'
    ensures HasLoneAt(p + x)
  {
    if "@@" <= p {
      LoneAtExtend(p[2..], x);
      assert (p + x)[2..] == p[2..] + x;
      assert "@@" <= p + x;
    } else if p[0] == '@' {
      assert !("@@" <= p + x) by {
        if |p| == 1 { assert (p + x)[1] == x[0]; } else { assert (p + x)[1] == p[1]; }
      }
    } else {
      LoneAtExtend(p[1..], x);
      assert (p + x)[1..] == p[1..] + x;
      assert (p + x)[0] == p[0];
    }
  }

  /** What is unsafe stays unsafe when space and a semicolon follow. */
  lemma UnsafeExtend(u: string, x: string)
    requires UnsafeRead(u) && x != "" && x[0] != '@'
    ensures UnsafeRead(u + x)
  {
    hide Find, HasLoneAt;
    if HasLoneAt(u) {
      LoneAtExtend(u, x);
    } else if exists f | f in UnsafeFragments :: Contains(u, f) {
      var f :| f in UnsafeFragments && Contains(u, f);
      FindStable(u, x, f);
      assert Contains(u + x, f);
    } else {
      var d :| d in LocalDiagnostics && d <= u;
      assert d <= u + x;
    }
  }

  /** The first word of a statement is the same without the cut, unless the semicolon is part of it. */
  lemma FirstFieldExtend(u: string, gap: string)
    requires Blank(gap) && IsTrimmed(u) && u != ""
    requires Fields(u + gap + ";") != [] && ';' !in Fields(u + gap + ";")[0]
    ensures Fields(u) != [] && Fields(u)[0] == Fields(u + gap + ";")[0]
  {
    var t := u + gap + ";";
    assert t[0] == u[0];
    var n, m := WordLength(u), WordLength(t);
    assert t[..m] == Fields(t)[0];
    assert forall i | 0 <= i < m :: t[..m][i] == t[i] && t[i] != ';';
    assert t[|u|] == ';' || IsSpace(t[|u|]);
    assert forall i | 0 <= i < |u| :: t[i] == u[i];
    assert n == m;
    assert t[..m] == u[..n];
  }

  lemma UpperOfSpace(c: char)
    ensures IsSpace(Upper(c)) <==> IsSpace(c)
    ensures IsSpace(c) ==> Upper(c) == c
  {
  }

  lemma UpperExtend(u: string, gap: string)
    requires Blank(gap)
    ensures ToUpper(u + gap + ";") == ToUpper(u) + gap + ";"
    ensures IsTrimmed(u) ==> IsTrimmed(ToUpper(u))
  {
    hide ToUpper;
    var t := u + gap + ";";
    forall i | 0 <= i < |t|
      ensures ToUpper(t)[i] == (ToUpper(u) + gap + ";")[i]
    {
      if |u| <= i < |u| + |gap| {
        assert t[i] in gap;
        UpperOfSpace(t[i]);
      }
    }
    if u != "" {
      UpperOfSpace(u[0]);
      UpperOfSpace(u[|u| - 1]);
    }
  }

  /** The two forms that only a second cut uncovers. */
  predicate SlipsThrough(fields: seq<string>) {
    || Join(fields, " ") == "SHOW COUNT(*) WARNINGS"
    || (|fields| > 1 && VerbOf(fields[0]).DefineVerb? && fields[1] == "TEMPORARY")
  }

  predicate Kept(kind: Kind) { kind.Read? || kind.Write? || kind.DDL? }

  /** The classification of the three kinds that may be prepared. */
  lemma KeptKinds(v: string)
    ensures var upper, fields := ToUpper(v), Fields(ToUpper(v));
            && (KindOf(v).Read? <==> fields != [] && VerbOf(fields[0]).ReadVerb?
                                     && Join(fields, " ") != "SHOW COUNT(*) WARNINGS" && !UnsafeRead(upper))
            && (KindOf(v).Write? <==> fields != [] && VerbOf(fields[0]).WriteVerb? && !Contains(upper, " RETURNING"))
            && (KindOf(v).DDL? <==> fields != [] && VerbOf(fields[0]).DefineVerb? && !(|fields| > 1 && fields[1] == "TEMPORARY"))
  {
    hide Fields, Join, Find, UnsafeRead, ToUpper, VerbOf;
  }

  /** The kind without the cut: the same, except for what slips through. */
  lemma KindExtend(u: string, gap: string)
    requires Blank(gap) && IsTrimmed(u) && u != "" && Kept(KindOf(u + gap + ";"))
    ensures KindOf(u) == KindOf(u + gap + ";") <==> !SlipsThrough(Fields(ToUpper(u)))
  {
    hide Fields, Join, Find, UnsafeRead, ToUpper, VerbOf, KindOf;
    UpperExtend(u, gap);
    KeptKinds(u);
    KeptKinds(u + gap + ";");
    var upper, full := ToUpper(u), ToUpper(u + gap + ";");
    var x := gap + ";";
    assert full == upper + x;
    VerbHasNoSemicolon(Fields(full)[0]);
    FirstFieldExtend(upper, gap);
    if Join(Fields(upper), " ") == "SHOW COUNT(*) WARNINGS" { WarningVerb(Fields(upper)); }
    assert x[0] == ';' || x[0] in gap;
    if UnsafeRead(upper) { UnsafeExtend(upper, x); }
    if Contains(upper, " RETURNING") { FindStable(upper, x, " RETURNING"); }
  }

  lemma VerbHasNoSemicolon(verb: string)
    requires VerbOf(verb).ReadVerb? || VerbOf(verb).WriteVerb? || VerbOf(verb).DefineVerb?
    ensures ';' !in verb
  {
  }

  /** Only a SHOW can read like the warning count. */
  lemma WarningVerb(fields: seq<string>)
    requires fields != [] && Join(fields, " ") == "SHOW COUNT(*) WARNINGS"
    ensures !VerbOf(fields[0]).WriteVerb? && !VerbOf(fields[0]).DefineVerb?
  {
    assert fields[0] <= "SHOW COUNT(*) WARNINGS";
    assert fields[0] != "" ==> fields[0][0] == 'S';
  }

  /** What the classifier accepted is one trimmed statement whose visible part begins with its verb. */
  lemma AcceptedShape(query: string)
    requires Kept(ClassifySQL(query).kind)
    ensures var sql := ClassifySQL(query).sql;
            && IsTrimmed(sql) && sql != "" && TrimSpace(sql) == sql && !HasMultiple(sql)
            && Strip(sql) != "" && ClassifySQL(query).kind == KindOf(Strip(sql))
  {
    hide HasMultiple, KindOf, StripTrimmed;
    TrimSpaceFacts(query);
    var trimmed := TrimSpace(query);
    var sql := WithoutSemicolon(trimmed);
    if trimmed[|trimmed| - 1] == ';' {
      CutFacts(trimmed);
      SinglePrefix(sql, trimmed[|sql|..|trimmed| - 1]);
    } else {
      TrimSpaceFacts(trimmed);
    }
    TrimSpaceFacts(sql);
    assert StripTrimmed("") == "" by { EmptyIsPlain(); }
  }

  lemma EmptyIsPlain()
    ensures StripTrimmed("") == ""
  {
  }

  /** A kept statement begins with neither a semicolon nor a dash, and does not itself slip through. */
  lemma KeptBegins(visible: string)
    requires visible != "" && IsTrimmed(visible) && Kept(KindOf(visible))
    ensures visible[0] != ';' && visible[0] != '-'
    ensures !SlipsThrough(Fields(ToUpper(visible)))
  {
    hide KindOf, Join, UnsafeRead, Find, VerbOf;
    KeptKinds(visible);
    var upper := ToUpper(visible);
    UpperOfSpace(visible[0]);
    var verb := Fields(upper)[0];
    assert verb == upper[..WordLength(upper)];
    assert verb[0] == Upper(visible[0]);
    VerbBegins(verb);
    if Join(Fields(upper), " ") == "SHOW COUNT(*) WARNINGS" { WarningVerb(Fields(upper)); }
  }

  lemma VerbBegins(verb: string)
    requires verb != "" && (VerbOf(verb).ReadVerb? || VerbOf(verb).WriteVerb? || VerbOf(verb).DefineVerb?)
    ensures verb[0] != ';' && verb[0] != '-'
  {
  }

  /**
   * Classification is stable on its own output exactly when cutting one more semicolon uncovers
   * neither the warning count nor a temporary object; without a semicolon left it changes nothing.
   */
  lemma ReclassifyIff(query: string)
    requires Kept(ClassifySQL(query).kind)
    ensures var r := ClassifySQL(query);
            && (ClassifySQL(r.sql).kind == r.kind <==> !SlipsThrough(Fields(ToUpper(Strip(WithoutSemicolon(r.sql))))))
            && (r.sql != "" && r.sql[|r.sql| - 1] != ';' ==> ClassifySQL(r.sql) == r)
  {
    hide HasMultiple, KindOf, StripTrimmed, Fields, ToUpper, SlipsThrough;
    AcceptedShape(query);
    var r := ClassifySQL(query);
    var visible := Strip(r.sql);
    StripTrimmedFacts(r.sql);
    if r.sql[|r.sql| - 1] == ';' {
      CutFacts(r.sql);
      var sql := WithoutSemicolon(r.sql);
      var gap := r.sql[|sql|..|r.sql| - 1];
      StripExtend(sql, gap);
      KeptBegins(visible);
      TrimSpaceFacts(sql);
      StripTrimmedFacts(sql);
      KindExtend(Strip(sql), gap);
    } else {
      KeptBegins(visible);
      assert TrimSuffix(r.sql, ";") == r.sql;
    }
  }

  // ---------------------------------------------------------------- the failing family

  /** After the quote inside the comment nothing is unquoted any more. */
  lemma {:induction false} StaysQuoted(s: string, n: nat)
    requires "/*'" <= s && 3 <= n <= |s| && forall i | 3 <= i < n :: s[i] != '\'' && s[i] != '\\'
    ensures StateAt(s, n) == Quoted('\'', false)
  {
    if n > 3 {
      StaysQuoted(s, n - 1);
    } else {
      assert s[0] == '/' && s[1] == '*' && s[2] == '\'';
      assert StateAt(s, 0) == Plain;
      assert StateAt(s, 1) == Plain;
      assert StateAt(s, 2) == Plain;
    }
  }

  lemma HiddenSemicolons(s: string)
    requires "/*'" <= s && forall i | 3 <= i < |s| :: s[i] != '\'' && s[i] != '\\'
    ensures !HasMultiple(s)
  {
    assert s[0] == '/' && s[1] == '*' && s[2] == '\'';
    forall i | 3 <= i < |s|
      ensures !Bare(s, i, ';')
    {
      StaysQuoted(s, i);
    }
  }

  /** A comment that holds one quote hides two semicolons from the scanner; the words behind it decide the kind. */
  lemma QuoteInComment(body: string)
    requires body != "" && IsTrimmed(body) && forall c | c in body :: c != '\'' && c != '\\'
    requires body[0] != '/' && body[0] != '#' && body[0] != '-'
    ensures var q := "/*'*/" + body;
            IsTrimmed(q) && TrimSpace(q) == q && !HasMultiple(q) && Strip(q) == body
  {
    var q := "/*'*/" + body;
    assert q[0] == '/' && q[1] == '*' && q[2] == '\'' && q[3] == '*' && q[4] == '/';
    assert q[|q| - 1] == body[|body| - 1];
    TrimSpaceFacts(q);
    assert forall i | 5 <= i < |q| :: q[i] in body;
    HiddenSemicolons(q);
    assert q[2..][1..3] == "*/";
    assert !("*/" <= q[2..]) && "*/" <= q[2..][1..];
    assert Find(q[2..], "*/") == 1;
    StripBlock(q);
    assert q[5..] == body;
    TrimSpaceFacts(body);
    StripPlain(body);
  }

  lemma UpperSame(s: string)
    requires forall i | 0 <= i < |s| :: Upper(s[i]) == s[i]
    ensures ToUpper(s) == s
  {
    hide ToUpper;
    assert forall i | 0 <= i < |s| :: ToUpper(s)[i] == s[i];
  }

  lemma LastWord(b: string)
    requires b != "" && forall i | 0 <= i < |b| :: !IsSpace(b[i])
    ensures Fields(b) == [b] == Fields([' '] + b)
  {
    assert TrimLeft(b) == b;
    assert WordLength(b) == |b| && b[..|b|] == b && b[|b|..] == "";
    assert ([' '] + b)[1..] == b;
    assert TrimLeft([' '] + b) == b;
  }

  lemma TwoWords(a: string, b: string)
    requires a != "" && b != ""
    requires (forall i | 0 <= i < |a| :: !IsSpace(a[i])) && (forall i | 0 <= i < |b| :: !IsSpace(b[i]))
    ensures Fields(a + [' '] + b) == [a, b]
  {
    var s := a + [' '] + b;
    assert forall i | 0 <= i < |a| :: s[i] == a[i];
    assert s[|a|] == ' ';
    assert WordLength(s) == |a| && TrimLeft(s) == s;
    assert s[..|a|] == a && s[|a|..] == [' '] + b;
    LastWord(b);
  }

  lemma CreateKind(second: string)
    requires second != "" && forall i | 0 <= i < |second| :: !IsSpace(second[i]) && Upper(second[i]) == second[i]
    ensures KindOf("CREATE" + [' '] + second) == if second == "TEMPORARY" then Unsupported else DDL
  {
    hide Fields, ToUpper;
    TwoWords("CREATE", second);
    UpperSame("CREATE" + [' '] + second);
  }

  /** Behind such a comment, a body whose kind its own semicolon decides is classified differently the second time. */
  lemma SecondCutDecides(body: string)
    requires body != "" && IsTrimmed(body) && forall c | c in body :: c != '\'' && c != '\\'
    requires body[0] != '/' && body[0] != '#' && body[0] != '-'
    ensures var q := "/*'*/" + (body + ";;");
            ClassifySQL(q).kind == KindOf(body + ";") && ClassifySQL(ClassifySQL(q).sql).kind == KindOf(body)
  {
    hide HasMultiple, StripTrimmed, Strip, TrimSpace, KindOf, ClassifySQL, WithoutSemicolon, IsTrimmed;
    var p, r, q := "/*'*/" + body, "/*'*/" + (body + ";"), "/*'*/" + (body + ";;");
    BodiesTrimmed(body);
    QuoteInComment(body);
    QuoteInComment(body + ";");
    QuoteInComment(body + ";;");
    assert q == r + ";" && r == p + ";";
    CutOne(p);
    CutOne(r);
    ClassifyVisible(q, r, body + ";");
    ClassifyVisible(r, p, body);
  }

  lemma BodiesTrimmed(body: string)
    requires body != "" && IsTrimmed(body)
    ensures IsTrimmed(body + ";") && IsTrimmed(body + ";;")
  {
  }

  lemma CutOne(s: string)
    requires TrimSpace(s) == s
    ensures WithoutSemicolon(s + ";") == s
  {
    hide TrimSpace;
    assert (s + ";")[..|s|] == s && (s + ";")[|s|..] == ";";
  }

  lemma ClassifyVisible(q: string, cut: string, visible: string)
    requires q != "" && TrimSpace(q) == q && !HasMultiple(q) && WithoutSemicolon(q) == cut && Strip(cut) == visible != ""
    ensures ClassifySQL(q) == Statement(KindOf(visible), cut)
  {
    hide HasMultiple, Strip, TrimSpace, KindOf, WithoutSemicolon;
  }

  /** `/*'*/CREATE TEMPORARY;;` is accepted as a definition, and its own output is then refused. */
  lemma TemporarySlipsThrough()
    ensures var q := "/*'*/CREATE TEMPORARY;;";
            ClassifySQL(q).kind == DDL && ClassifySQL(ClassifySQL(q).sql).kind == Unsupported
  {
    hide ClassifySQL, KindOf;
    SecondCutDecides("CREATE TEMPORARY");
    assert "/*'*/" + ("CREATE TEMPORARY" + ";;") == "/*'*/CREATE TEMPORARY;;";
    assert "CREATE TEMPORARY" + ";" == "CREATE TEMPORARY;";
    CreateKind("TEMPORARY");
    CreateKind("TEMPORARY;");
    assert "CREATE" + [' '] + "TEMPORARY" == "CREATE TEMPORARY";
    assert "CREATE" + [' '] + "TEMPORARY;" == "CREATE TEMPORARY;";
    assert |"TEMPORARY;"| != |"TEMPORARY"|;
  }
}
