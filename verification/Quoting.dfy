/** Quoting, identifier checks and isolation names used by the connection reset. */
module Quoting {
  import opened Wrappers
  import opened Text
  import opened Words

  // ---------------------------------------------------------------- quotes

  /** `strings.ReplaceAll` of the quote by two of it. */
  function Doubled(v: string, q: char): string {
    if v == "" then "" else (if v[0] == q then [q, q] else [v[0]]) + Doubled(v[1..], q)
  }

  function Quoted(v: string, q: char): string { [q] + Body(v, q) }

  /** What follows the opening quote. */
  function Body(v: string, q: char): string { Doubled(v, q) + [q] }

  /** The meaning of an escape in a MySQL string literal; `\%` and `\_` keep their backslash. */
  function Escape(c: char): string {
    if c == '0' then [0 as char]
    else if c == 'b' then [8 as char]
    else if c == 'n' then [10 as char]
    else if c == 'r' then [13 as char]
    else if c == 't' then [9 as char]
    else if c == 'Z' then [26 as char]
    else if c == '%' || c == '_' then ['\\', c]
    else [c]
  }

  function Behind(head: string, rest: Option<string>): Option<string> {
    if rest.None? then None else Some(head + rest.value)
  }

  /** The server reading a quoted name or string to its closing quote, which must be the last character. */
  function Read(s: string, q: char, escapes: bool): Option<string>
    decreases |s|
  {
    if s == "" then None
    else if escapes && s[0] == '\\' then
      if |s| == 1 then None else Behind(Escape(s[1]), Read(s[2..], q, escapes))
    else if s[0] == q then
      if |s| == 1 then Some("")
      else if s[1] == q then Behind([q], Read(s[2..], q, escapes))
      else None
    else Behind([s[0]], Read(s[1..], q, escapes))
  }

  function Unquoted(s: string, q: char, escapes: bool): Option<string> {
    if s != "" && s[0] == q then Read(s[1..], q, escapes) else None
  }

  /** Every backslash stands before `%` or `_`. */
  predicate Plain(v: string) {
    if v == "" then true
    else if v[0] == '\\' then |v| > 1 && v[1] in {'%', '_'} && Plain(v[2..])
    else Plain(v[1..])
  }

  lemma BodyStep(v: string, q: char)
    requires v != ""
    ensures Body(v, q) == (if v[0] == q then [q, q] else [v[0]]) + Body(v[1..], q)
  {
  }

  lemma {:induction false} MisalignedFails(w: string, q: char, escapes: bool)
    requires q != '\\'
    ensures Read([q] + Body(w, q), q, escapes) == None
    decreases |w|
  {
    var s := [q] + Body(w, q);
    if w == "" {
      assert s[2..] == "";
    } else {
      BodyStep(w, q);
      if w[0] == q {
        assert s[2..] == [q] + Body(w[1..], q);
        MisalignedFails(w[1..], q, escapes);
      }
    }
  }

  lemma ReadEscape(s: string, q: char)
    requires s != "" && s[0] == '\\'
    ensures Read(s, q, true) == if |s| == 1 then None else Behind(Escape(s[1]), Read(s[2..], q, true))
  {
    hide Escape;
  }

  /** What the server sees behind a backslash. */
  lemma BodyBehind(v: string, q: char)
    requires v != "" && v[0] == '\\' && q != '\\'
    ensures var s := Body(v, q);
            && s[0] == '\\' && |s| > 1
            && (|v| == 1 ==> s[2..] == "")
            && (|v| > 1 && v[1] == q ==> s[2..] == [q] + Body(v[2..], q))
            && (|v| > 1 && v[1] != q ==> s[1] == v[1] && s[2..] == Body(v[2..], q))
  {
    BodyStep(v, q);
    if |v| > 1 {
      BodyStep(v[1..], q);
      assert v[1..][1..] == v[2..];
    }
  }

  lemma EscapedStep(v: string, q: char)
    requires v != "" && v[0] == '\\' && q != '\\'
    ensures |v| == 1 ==> Read(Body(v, q), q, true) == None
    ensures |v| > 1 && v[1] == q ==> Read(Body(v, q), q, true) == None
    ensures |v| > 1 && v[1] != q ==> Read(Body(v, q), q, true) == Behind(Escape(v[1]), Read(Body(v[2..], q), q, true))
  {
    hide Escape, Read, Body;
    BodyBehind(v, q);
    ReadEscape(Body(v, q), q);
    if |v| == 1 {
      ReadNothing(q);
    } else if v[1] == q {
      MisalignedFails(v[2..], q, true);
    }
  }

  lemma ReadNothing(q: char)
    ensures Read("", q, true) == None
  {
  }

  lemma PlainStep(v: string, q: char, escapes: bool)
    requires v != "" && !(escapes && v[0] == '\\') && q != '\\'
    ensures Read(Body(v, q), q, escapes) == Behind([v[0]], Read(Body(v[1..], q), q, escapes))
  {
    var s := Body(v, q);
    BodyStep(v, q);
    if v[0] == q {
      assert s[2..] == Body(v[1..], q);
    } else {
      assert s[1..] == Body(v[1..], q);
    }
  }

  lemma {:induction false} ReadBody(v: string, q: char, escapes: bool)
    requires q !in {'\\', '%', '_'}
    ensures Read(Body(v, q), q, escapes) == Some(v) <==> (!escapes || Plain(v))
    ensures Read(Body(v, q), q, escapes).Some? ==> |Read(Body(v, q), q, escapes).value| <= |v|
    decreases |v|
  {
    hide Body;
    if v == "" {
      EmptyBody(q, escapes);
    } else if escapes && v[0] == '\\' {
      EscapedStep(v, q);
      if |v| > 1 && v[1] != q {
        ReadBody(v[2..], q, escapes);
        assert v == v[..2] + v[2..];
        if v[1] in {'%', '_'} {
          assert v[..2] == ['\\', v[1]] == Escape(v[1]);
        }
      }
    } else {
      PlainStep(v, q, escapes);
      ReadBody(v[1..], q, escapes);
      assert v == [v[0]] + v[1..];
    }
  }

  lemma EmptyBody(q: char, escapes: bool)
    requires q != '\\'
    ensures Read(Body("", q), q, escapes) == Some("")
  {
    assert Body("", q) == [q];
  }

  /** The server reads back what was quoted if and only if no backslash in it can act as an escape. */
  lemma UnquoteQuotedIff(v: string, q: char, escapes: bool)
    requires q !in {'\\', '%', '_'}
    ensures Unquoted(Quoted(v, q), q, escapes) == Some(v) <==> (!escapes || Plain(v))
  {
    hide Read, Body;
    assert Quoted(v, q)[1..] == Body(v, q);
    ReadBody(v, q, escapes);
  }

  // ---------------------------------------------------------------- identifiers

  predicate WordCharacter(c: char) {
    c == '_' || 'a' <= c <= 'z' || 'A' <= c <= 'Z' || '0' <= c <= '9'
  }

  predicate Safe(v: string) { v != "" && forall i | 0 <= i < |v| :: WordCharacter(v[i]) }

  /** A safe name is one word of the command it is put into: it can neither end the statement nor begin a quote or comment. */
  lemma SafeIsOneWord(charset: string, collation: string)
    requires Safe(charset) && Safe(collation)
    ensures Fields("SET NAMES " + charset + " COLLATE " + collation) == ["SET", "NAMES", charset, "COLLATE", collation]
    ensures forall c | c in charset + collation :: c !in "'\"`;\\#-/*() ,=@"
  {
    hide Fields, WordCharacter;
    var words := ["SET", "NAMES", charset, "COLLATE", collation];
    WordIsSolid(charset);
    WordIsSolid(collation);
    LettersAreSafe();
    WordIsSolid("SET");
    WordIsSolid("NAMES");
    WordIsSolid("COLLATE");
    FieldsOfJoin(words);
    FiveWords("SET", "NAMES", charset, "COLLATE", collation);
    assert "SET" + " " + "NAMES" + " " + charset + " " + "COLLATE" + " " + collation == "SET NAMES " + charset + " COLLATE " + collation;
    forall c | c in charset + collation
      ensures c !in "'\"`;\\#-/*() ,=@"
    {
      assert WordCharacter(c);
      NotSpecial(c);
    }
  }

  lemma LettersAreSafe()
    ensures Safe("SET") && Safe("NAMES") && Safe("COLLATE")
  {
  }

  lemma NotSpecial(c: char)
    requires WordCharacter(c)
    ensures c !in "'\"`;\\#-/*() ,=@" && !IsSpace(c)
  {
  }

  lemma WordIsSolid(v: string)
    requires Safe(v)
    ensures v != "" && Solid(v)
  {
  }

  lemma FiveWords(a: string, b: string, c: string, d: string, e: string)
    ensures Join([a, b, c, d, e], " ") == a + " " + b + " " + c + " " + d + " " + e
  {
    assert [a, b, c, d, e][1..] == [b, c, d, e] && [b, c, d, e][1..] == [c, d, e] && [c, d, e][1..] == [d, e] && [d, e][1..] == [e];
    assert Join([d, e], " ") == d + " " + e;
    assert Join([c, d, e], " ") == c + " " + (d + " " + e);
    assert Join([b, c, d, e], " ") == b + " " + (c + " " + (d + " " + e));
    assert Join([a, b, c, d, e], " ") == a + " " + (b + " " + (c + " " + (d + " " + e)));
  }

  method SafeResetIdentifier(value: string) returns (ok: bool)
    ensures ok == Safe(value)
  {
    if value == "" {
      return false;
    }
    var i := 0;
    while i < |value|
      invariant i <= |value| && forall j | 0 <= j < i :: WordCharacter(value[j])
    {
      var c := value[i];
      if c != '_' && (c < 'a' || c > 'z') && (c < 'A' || c > 'Z') && (c < '0' || c > '9') {
        return false;
      }
      i := i + 1;
    }
    return true;
  }

  // ---------------------------------------------------------------- isolation names

  /** `strings.ReplaceAll` of one character by another. */
  function Replaced(s: string, from: char, to: char): (r: string)
    ensures |r| == |s| && forall i | 0 <= i < |s| :: r[i] == if s[i] == from then to else s[i]
  {
    if s == "" then "" else [if s[0] == from then to else s[0]] + Replaced(s[1..], from, to)
  }

  function Normalized(v: string): string {
    Join(Fields(Replaced(ToUpper(v), '-', ' ')), " ")
  }

  function ResetIsolation(v: string): Option<string> {
    var n := Normalized(v);
    if n == "READ UNCOMMITTED" || n == "READ COMMITTED" || n == "REPEATABLE READ" || n == "SERIALIZABLE" then Some(n) else None
  }

  /** A word of a normalised name: not empty, no space, no hyphen, upper case. */
  predicate IsWord(w: string) {
    w != "" && forall i | 0 <= i < |w| :: !IsSpace(w[i]) && w[i] != '-' && Upper(w[i]) == w[i]
  }

  predicate AreWords(words: seq<string>) {
    forall i | 0 <= i < |words| :: IsWord(words[i])
  }

  predicate Clean(s: string) {
    forall i | 0 <= i < |s| :: s[i] != '-' && Upper(s[i]) == s[i]
  }

  lemma {:induction false} FieldsAreWords(s: string)
    requires Clean(s)
    ensures AreWords(Fields(s))
    decreases |s|
  {
    TrimLeftFacts(s);
    var t := TrimLeft(s);
    if t != "" {
      var n := WordLength(t);
      assert t == s[|s| - |t|..];
      assert Clean(t[n..]);
      FieldsAreWords(t[n..]);
      assert IsWord(t[..n]);
    }
  }

  lemma {:induction false} JoinIsClean(words: seq<string>)
    requires AreWords(words)
    ensures Clean(Join(words, " "))
  {
    if words != [] {
      assert IsWord(words[0]);
      if |words| > 1 {
        JoinIsClean(words[1..]);
      }
    }
  }

  lemma UpperTwice(c: char)
    ensures Upper(Upper(c)) == Upper(c) && (Upper(c) != '-' <==> c != '-')
  {
  }

  lemma NormalWords(v: string)
    ensures AreWords(Fields(Replaced(ToUpper(v), '-', ' ')))
  {
    var s := Replaced(ToUpper(v), '-', ' ');
    forall i | 0 <= i < |s|
      ensures s[i] != '-' && Upper(s[i]) == s[i]
    {
      UpperTwice(v[i]);
    }
    FieldsAreWords(s);
  }

  /** Normalising twice changes nothing. */
  lemma NormalizedTwice(v: string)
    ensures Normalized(Normalized(v)) == Normalized(v)
  {
    hide Fields, Join, AreWords;
    NormalWords(v);
    var words := Fields(Replaced(ToUpper(v), '-', ' '));
    var n := Join(words, " ");
    JoinIsClean(words);
    assert Replaced(ToUpper(n), '-', ' ') == n;
    FieldsAreSolid(Replaced(ToUpper(v), '-', ' '));
    FieldsOfJoin(words);
  }

  /** The spelling with hyphens that servers report normalises to the same name. */
  lemma HyphensDoNotMatter(v: string)
    ensures Normalized(Replaced(v, ' ', '-')) == Normalized(v)
  {
    hide Fields, Join;
    var a, b := Replaced(ToUpper(Replaced(v, ' ', '-')), '-', ' '), Replaced(ToUpper(v), '-', ' ');
    hide ToUpper, Replaced;
    forall i | 0 <= i < |v|
      ensures a[i] == b[i]
    {
      UpperTwice(v[i]);
    }
    assert a == b;
  }

  /** What a supported baseline asks for is what the server reports afterwards, up to spelling. */
  lemma SupportedIsolationStays(v: string)
    requires ResetIsolation(v).Some?
    ensures Normalized(Replaced(ResetIsolation(v).value, ' ', '-')) == Normalized(v)
  {
    hide Normalized;
    HyphensDoNotMatter(ResetIsolation(v).value);
    NormalizedTwice(v);
  }

  // ---------------------------------------------------------------- which level a name is

  /** The letters of a level name: capitals, with hyphens read as spaces. */
  predicate Letters(v: string, u: string) {
    |u| == |v| && forall i | 0 <= i < |v| :: if v[i] == '-' then u[i] == ' ' else Capital(v[i], u[i])
  }

  /** `v` names the level with these words, in any case, with any hyphens and spaces. */
  ghost predicate Names(v: string, words: seq<string>) {
    exists u :: Letters(v, u) && SplitInto(u, words)
  }

  ghost predicate SameWords(a: string, b: string) {
    exists words :: Names(a, words) && Names(b, words)
  }

  lemma LettersOnce(v: string, u: string)
    ensures Letters(v, u) <==> u == Replaced(ToUpper(v), '-', ' ')
  {
    var r := Replaced(ToUpper(v), '-', ' ');
    assert forall i | 0 <= i < |v| :: if v[i] == '-' then r[i] == ' ' else Capital(v[i], r[i]);
    if Letters(v, u) {
      assert forall i | 0 <= i < |v| :: u[i] == r[i];
    }
  }

  lemma NamesIff(v: string, words: seq<string>)
    ensures Names(v, words) <==> Fields(Replaced(ToUpper(v), '-', ' ')) == words
  {
    hide Letters, SplitInto, Replaced, ToUpper;
    var u := Replaced(ToUpper(v), '-', ' ');
    LettersOnce(v, u);
    FieldsIff(u, words);
    forall w | Letters(v, w)
      ensures w == u
    {
      LettersOnce(v, w);
    }
  }

  /** Names normalise alike if and only if they have the same words. */
  lemma NormalizedIff(a: string, b: string)
    ensures Normalized(a) == Normalized(b) <==> SameWords(a, b)
  {
    hide Names, Fields, Join;
    var u, w := Fields(Replaced(ToUpper(a), '-', ' ')), Fields(Replaced(ToUpper(b), '-', ' '));
    FieldsAreSolid(Replaced(ToUpper(a), '-', ' '));
    FieldsAreSolid(Replaced(ToUpper(b), '-', ' '));
    FieldsOfJoin(u);
    FieldsOfJoin(w);
    NamesIff(a, u);
    forall words
      ensures Names(a, words) <==> words == u
      ensures Names(b, words) <==> words == w
    {
      NamesIff(a, words);
      NamesIff(b, words);
    }
  }

  /** A name that is spelt with these words normalises to them, joined by one space each. */
  lemma NormalizedTo(v: string, words: seq<string>)
    requires AreWords(words)
    ensures Normalized(v) == Join(words, " ") <==> Names(v, words)
  {
    hide Names, Fields, Join;
    FieldsAreSolid(Replaced(ToUpper(v), '-', ' '));
    FieldsOfJoin(Fields(Replaced(ToUpper(v), '-', ' ')));
    FieldsOfJoin(words);
    NamesIff(v, words);
  }

  lemma CapitalWord(w: string)
    requires w != "" && forall i | 0 <= i < |w| :: 'A' <= w[i] <= 'Z'
    ensures IsWord(w)
  {
  }

  lemma PairOfWords(a: string, b: string)
    requires IsWord(a) && IsWord(b)
    ensures AreWords([a, b]) && Join([a, b], " ") == a + " " + b
  {
    assert [a, b][1..] == [b];
  }

  lemma LevelNames()
    ensures AreWords(["READ", "UNCOMMITTED"]) && Join(["READ", "UNCOMMITTED"], " ") == "READ UNCOMMITTED"
    ensures AreWords(["READ", "COMMITTED"]) && Join(["READ", "COMMITTED"], " ") == "READ COMMITTED"
    ensures AreWords(["REPEATABLE", "READ"]) && Join(["REPEATABLE", "READ"], " ") == "REPEATABLE READ"
    ensures AreWords(["SERIALIZABLE"]) && Join(["SERIALIZABLE"], " ") == "SERIALIZABLE"
  {
    hide IsWord;
    CapitalWord("READ");
    CapitalWord("UNCOMMITTED");
    CapitalWord("COMMITTED");
    CapitalWord("REPEATABLE");
    CapitalWord("SERIALIZABLE");
    PairOfWords("READ", "UNCOMMITTED");
    PairOfWords("READ", "COMMITTED");
    PairOfWords("REPEATABLE", "READ");
  }

  /** A baseline's level is the one its words say, in every spelling; any other text is refused. */
  lemma IsolationExactly(v: string)
    ensures ResetIsolation(v) == Some("READ UNCOMMITTED") <==> Names(v, ["READ", "UNCOMMITTED"])
    ensures ResetIsolation(v) == Some("READ COMMITTED") <==> Names(v, ["READ", "COMMITTED"])
    ensures ResetIsolation(v) == Some("REPEATABLE READ") <==> Names(v, ["REPEATABLE", "READ"])
    ensures ResetIsolation(v) == Some("SERIALIZABLE") <==> Names(v, ["SERIALIZABLE"])
    ensures ResetIsolation(v).None? <==>
              && !Names(v, ["READ", "UNCOMMITTED"]) && !Names(v, ["READ", "COMMITTED"])
              && !Names(v, ["REPEATABLE", "READ"]) && !Names(v, ["SERIALIZABLE"])
  {
    hide Normalized, Names, Join, AreWords;
    LevelNames();
    NormalizedTo(v, ["READ", "UNCOMMITTED"]);
    NormalizedTo(v, ["READ", "COMMITTED"]);
    NormalizedTo(v, ["REPEATABLE", "READ"]);
    NormalizedTo(v, ["SERIALIZABLE"]);
  }
}
