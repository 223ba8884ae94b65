/** Splitting a migration file into statements: strip line comments, cut at semicolons, trim, drop the empty. */
module SplitSql {

  // ---- strings.Split, strings.TrimSpace and the comment stripper

  /** strings.Split on a one-character separator: never empty. */
  function SplitOn(s: string, sep: char): (parts: seq<string>)
    ensures |parts| >= 1
  {
    if s == [] then [[]]
    else
      var rest := SplitOn(s[1..], sep);
      if s[0] == sep then [[]] + rest else [[s[0]] + rest[0]] + rest[1..]
  }

  /** unicode.IsSpace. */
  predicate IsSpace(c: char) {
    c in {'\t', '\n', 0xB as char, 0xC as char, '\r', ' ', 0x85 as char, 0xA0 as char, 0x1680 as char,
          0x2028 as char, 0x2029 as char, 0x202F as char, 0x205F as char, 0x3000 as char} ||
    0x2000 as char <= c <= 0x200A as char
  }

  function TrimLeft(s: string): string {
    if s != [] && IsSpace(s[0]) then TrimLeft(s[1..]) else s
  }

  function TrimRight(s: string): string {
    if s != [] && IsSpace(s[|s| - 1]) then TrimRight(s[..|s| - 1]) else s
  }

  function Trim(s: string): string {
    TrimRight(TrimLeft(s))
  }

  /** A line up to its first "--". */
  function StripComment(line: string): string {
    if line == [] || (|line| >= 2 && line[0] == '-' && line[1] == '-') then []
    else [line[0]] + StripComment(line[1..])
  }

  function StripLines(lines: seq<string>): string {
    if lines == [] then [] else StripComment(lines[0]) + "\n" + StripLines(lines[1..])
  }

  /** The text without its comments; every line, the last one too, is ended. */
  function Strip(text: string): string {
    StripLines(SplitOn(text, '\n'))
  }

  function Nonblank(parts: seq<string>): seq<string> {
    if parts == [] then []
    else (if Trim(parts[0]) == [] then [] else [Trim(parts[0])]) + Nonblank(parts[1..])
  }

  function Pieces(stripped: string): seq<string> {
    Nonblank(SplitOn(stripped, ';'))
  }

  function Statements(text: string): seq<string> {
    Pieces(Strip(text))
  }

  lemma Associate(a: string, b: string, c: string, d: string)
    ensures a + (b + c + d) == (a + b) + c + d
  {
  }

  lemma {:induction false} StripLinesAppend(lines: seq<string>, line: string)
    ensures StripLines(lines + [line]) == StripLines(lines) + StripComment(line) + "\n"
  {
    if lines == [] {
      assert StripLines([line]) == StripComment(line) + "\n" + StripLines([]);
    } else {
      StripLinesAppend(lines[1..], line);
      assert (lines + [line])[1..] == lines[1..] + [line];
      Associate(StripComment(lines[0]) + "\n", StripLines(lines[1..]), StripComment(line), "\n");
    }
  }

  lemma {:induction false} NonblankAppend(parts: seq<string>, part: string)
    ensures Nonblank(parts + [part]) == Nonblank(parts) + if Trim(part) == [] then [] else [Trim(part)]
  {
    if parts == [] {
      assert Nonblank([part]) == (if Trim(part) == [] then [] else [Trim(part)]) + Nonblank([]);
    } else {
      NonblankAppend(parts[1..], part);
      assert (parts + [part])[1..] == parts[1..] + [part];
    }
  }

  method SplitStatements(text: string) returns (out: seq<string>)
    ensures out == Statements(text)
  {
    var lines := SplitOn(text, '\n');
    var stripped := "";
    for i := 0 to |lines|
      invariant stripped == StripLines(lines[..i])
    {
      StripLinesAppend(lines[..i], lines[i]);
      assert lines[..i + 1] == lines[..i] + [lines[i]];
      stripped := stripped + StripComment(lines[i]) + "\n";
    }
    assert lines[..|lines|] == lines;
    var parts := SplitOn(stripped, ';');
    out := [];
    for i := 0 to |parts|
      invariant out == Nonblank(parts[..i])
    {
      NonblankAppend(parts[..i], parts[i]);
      assert parts[..i + 1] == parts[..i] + [parts[i]];
      var trimmed := Trim(parts[i]);
      if trimmed != "" {
        out := out + [trimmed];
      }
    }
    assert parts[..|parts|] == parts;
  }

  // ---- clean statements

  predicate NoDashes(s: string) {
    forall i :: 0 <= i < |s| - 1 ==> !(s[i] == '-' && s[i + 1] == '-')
  }

  predicate Trimmed(s: string) {
    s != [] && !IsSpace(s[0]) && !IsSpace(s[|s| - 1])
  }

  /** What a statement looks like after splitting. */
  predicate Clean(s: string) {
    Trimmed(s) && NoDashes(s) && ';' !in s
  }

  lemma {:induction false} TrimFacts(s: string)
    ensures Trim(s) == [] || Trimmed(Trim(s))
    ensures exists i, j :: 0 <= i <= j <= |s| && Trim(s) == s[i..j]
  {
    var i := TrimLeftAt(s);
    var j := TrimRightAt(s[i..]);
    assert Trim(s) == s[i..i + j];
  }

  lemma {:induction false} TrimLeftAt(s: string) returns (i: nat)
    ensures i <= |s| && TrimLeft(s) == s[i..]
    ensures TrimLeft(s) == [] || !IsSpace(TrimLeft(s)[0])
  {
    i := 0;
    if s != [] && IsSpace(s[0]) {
      var k := TrimLeftAt(s[1..]);
      i := k + 1;
    }
  }

  lemma {:induction false} TrimRightAt(s: string) returns (j: nat)
    ensures j <= |s| && TrimRight(s) == s[..j]
    ensures TrimRight(s) == [] || !IsSpace(TrimRight(s)[|TrimRight(s)| - 1])
  {
    j := |s|;
    if s != [] && IsSpace(s[|s| - 1]) {
      j := TrimRightAt(s[..|s| - 1]);
    }
  }

  lemma {:induction false} StripCommentFacts(line: string)
    ensures NoDashes(StripComment(line))
    ensures StripComment(line) != [] ==> line != [] && StripComment(line)[0] == line[0]
  {
    if line != [] && !(|line| >= 2 && line[0] == '-' && line[1] == '-') {
      StripCommentFacts(line[1..]);
      NoDashesCons(line[0], StripComment(line[1..]));
    }
  }

  lemma NoDashesCons(c: char, s: string)
    requires NoDashes(s) && !(c == '-' && s != [] && s[0] == '-')
    ensures NoDashes([c] + s)
  {
  }

  /** A newline, or a semicolon, between two texts keeps their dashes apart. */
  lemma NoDashesJoin(a: string, c: char, b: string)
    requires NoDashes(a) && NoDashes(b) && c != '-'
    ensures NoDashes(a + [c] + b)
  {
    var s := a + [c] + b;
    forall i | 0 <= i < |s| - 1 ensures !(s[i] == '-' && s[i + 1] == '-') {
      if i < |a| - 1 {
        assert s[i] == a[i] && s[i + 1] == a[i + 1];
      } else if i > |a| {
        assert s[i] == b[i - |a| - 1] && s[i + 1] == b[i - |a|];
      }
    }
  }

  lemma {:induction false} StripLinesNoDashes(lines: seq<string>)
    ensures NoDashes(StripLines(lines))
  {
    if lines != [] {
      StripLinesNoDashes(lines[1..]);
      StripCommentFacts(lines[0]);
      NoDashesJoin(StripComment(lines[0]), '\n', StripLines(lines[1..]));
    }
  }

  lemma {:induction false} SplitOnParts(s: string, sep: char)
    ensures forall p :: p in SplitOn(s, sep) ==> sep !in p
    ensures NoDashes(s) ==> forall p :: p in SplitOn(s, sep) ==> NoDashes(p)
    ensures SplitOn(s, sep)[0] != [] ==> s != [] && SplitOn(s, sep)[0][0] == s[0]
  {
    if s != [] {
      SplitOnParts(s[1..], sep);
      var rest, parts := SplitOn(s[1..], sep), SplitOn(s, sep);
      if NoDashes(s) && s[0] != sep {
        assert NoDashes(s[1..]) by {
          assert forall i :: 0 <= i < |s[1..]| ==> s[1..][i] == s[i + 1];
        }
        NoDashesCons(s[0], rest[0]);
      }
      if NoDashes(s) {
        assert forall i :: 0 <= i < |s[1..]| ==> s[1..][i] == s[i + 1];
      }
    }
  }

  lemma {:induction false} NonblankClean(parts: seq<string>)
    requires forall p :: p in parts ==> ';' !in p && NoDashes(p)
    ensures forall t :: t in Nonblank(parts) ==> Clean(t)
  {
    if parts != [] {
      NonblankClean(parts[1..]);
      if Trim(parts[0]) != [] {
        TrimClean(parts[0]);
      }
    }
  }

  lemma TrimClean(p: string)
    requires ';' !in p && NoDashes(p) && Trim(p) != []
    ensures Clean(Trim(p))
  {
    TrimFacts(p);
    var i, j :| 0 <= i <= j <= |p| && Trim(p) == p[i..j];
    assert forall k :: 0 <= k < j - i ==> p[i..j][k] == p[i + k];
  }

  /** Every statement handed to the database is non-empty, trimmed, and free of ";" and "--". */
  lemma StatementsAreClean(text: string)
    ensures forall t :: t in Statements(text) ==> Clean(t)
  {
    StripLinesNoDashes(SplitOn(text, '\n'));
    SplitOnParts(Strip(text), ';');
    NonblankClean(SplitOn(Strip(text), ';'));
  }

  // ---- reading back what was printed

  lemma {:induction false} SplitOnHead(s: string, sep: char, rest: string)
    requires sep !in s
    ensures SplitOn(s + [sep] + rest, sep) == [s] + SplitOn(rest, sep)
  {
    if s == [] {
      assert ([] + [sep] + rest)[1..] == rest;
    } else {
      SplitOnHead(s[1..], sep, rest);
      assert (s + [sep] + rest)[1..] == s[1..] + [sep] + rest;
      assert [s[0]] + s[1..] == s;
    }
  }

  lemma {:induction false} SplitOnWhole(s: string, sep: char)
    requires sep !in s
    ensures SplitOn(s, sep) == [s]
  {
    if s != [] {
      SplitOnWhole(s[1..], sep);
      assert [s[0]] + s[1..] == s;
    }
  }

  lemma TrimTrimmed(s: string)
    requires Trimmed(s)
    ensures Trim(s) == s && Trim(s + "\n") == s
  {
    assert (s + "\n")[..|s|] == s;
  }

  /** A clean statement and its semicolon are read back as that statement. */
  lemma PiecesHead(s: string, rest: string)
    requires Clean(s)
    ensures Pieces(s + ";" + rest) == [s] + Pieces(rest)
  {
    SplitOnHead(s, ';', rest);
    TrimTrimmed(s);
    assert ([s] + SplitOn(rest, ';'))[1..] == SplitOn(rest, ';');
  }

  /** White space before a statement is not read. */
  lemma PiecesSkip(c: char, rest: string)
    requires IsSpace(c)
    ensures Pieces([c] + rest) == Pieces(rest)
  {
    var parts := SplitOn(rest, ';');
    assert ([c] + rest)[1..] == rest;
    assert SplitOn([c] + rest, ';') == [[c] + parts[0]] + parts[1..];
    assert ([c] + parts[0])[1..] == parts[0];
    assert Trim([c] + parts[0]) == Trim(parts[0]);
  }

  lemma PiecesLast(s: string)
    requires Clean(s)
    ensures Pieces(s + "\n") == [s]
  {
    SplitOnWhole(s + "\n", ';');
    TrimTrimmed(s);
    NonblankAppend([], s + "\n");
    assert [] + [s + "\n"] == [s + "\n"];
  }

  lemma PiecesEmpty()
    ensures Pieces("\n") == [] && Pieces("") == []
  {
    SplitOnWhole("\n", ';');
    SplitOnWhole("", ';');
    assert TrimLeft("\n") == TrimLeft("\n"[1..]) == "";
    NonblankAppend([], "\n");
    NonblankAppend([], "");
    assert [] + ["\n"] == ["\n"] && [] + [""] == [""];
  }

  lemma {:induction false} StripClean(line: string)
    requires NoDashes(line)
    ensures StripComment(line) == line
  {
    if line != [] {
      assert forall i :: 0 <= i < |line[1..]| ==> line[1..][i] == line[i + 1];
      StripClean(line[1..]);
      assert [line[0]] + line[1..] == line;
    }
  }

  lemma {:induction false} StripCleanText(text: string)
    requires NoDashes(text)
    ensures Strip(text) == text + "\n"
    decreases |text|
  {
    if '\n' in text {
      var i := FirstNewline(text);
      var line, rest := text[..i], text[i + 1..];
      assert text == line + ['\n'] + rest;
      assert NoDashes(line);
      assert NoDashes(rest) by {
        assert forall k :: 0 <= k < |rest| ==> rest[k] == text[i + 1 + k];
      }
      StripFirstLine(line, rest);
      StripClean(line);
      StripCleanText(rest);
    } else {
      SplitOnWhole(text, '\n');
      StripClean(text);
      StripLinesAppend([], text);
      assert [] + [text] == [text];
    }
  }

  lemma FirstNewline(text: string) returns (i: nat)
    requires '\n' in text
    ensures i < |text| && text[i] == '\n' && '\n' !in text[..i]
  {
    i := 0;
    while text[i] != '\n'
      invariant i < |text| && '\n' !in text[..i] && '\n' in text[i..]
      decreases |text| - i
    {
      i := i + 1;
    }
  }

  lemma StripFirstLine(line: string, rest: string)
    requires '\n' !in line
    ensures Strip(line + "\n" + rest) == StripComment(line) + "\n" + Strip(rest)
  {
    SplitOnHead(line, '\n', rest);
    assert ([line] + SplitOn(rest, '\n'))[1..] == SplitOn(rest, '\n');
  }

  function Join(parts: seq<string>): string {
    if parts == [] then "" else if |parts| == 1 then parts[0] else parts[0] + ";" + Join(parts[1..])
  }

  lemma {:induction false} JoinNoDashes(parts: seq<string>)
    requires forall p :: p in parts ==> Clean(p)
    ensures NoDashes(Join(parts))
  {
    if parts != [] {
      assert parts[0] in parts && Clean(parts[0]);
    }
    if |parts| > 1 {
      JoinNoDashes(parts[1..]);
      NoDashesJoin(parts[0], ';', Join(parts[1..]));
    }
  }

  lemma {:induction false} PiecesOfJoin(parts: seq<string>)
    requires forall p :: p in parts ==> Clean(p)
    ensures Pieces(Join(parts) + "\n") == parts
  {
    if parts == [] {
      PiecesEmpty();
      assert Join(parts) + "\n" == "\n";
    } else if |parts| == 1 {
      PiecesLast(parts[0]);
    } else {
      PiecesOfJoin(parts[1..]);
      PiecesHead(parts[0], Join(parts[1..]) + "\n");
      assert Join(parts) + "\n" == parts[0] + ";" + (Join(parts[1..]) + "\n");
    }
  }

  /** Round trip: statements joined by semicolons split into themselves. */
  lemma SplitOfJoin(parts: seq<string>)
    requires forall p :: p in parts ==> Clean(p)
    ensures Statements(Join(parts)) == parts
  {
    JoinNoDashes(parts);
    StripCleanText(Join(parts));
    PiecesOfJoin(parts);
  }

  /** So splitting is idempotent: what was split and joined again splits the same. */
  lemma SplitTwice(text: string)
    ensures Statements(Join(Statements(text))) == Statements(text)
  {
    StatementsAreClean(text);
    SplitOfJoin(Statements(text));
  }

  // A migration file as it is written: comment lines, and statements ended by a semicolon.
  datatype Item = Comment(text: string) | Statement(sql: string)

  predicate WellWritten(item: Item) {
    match item
    case Comment(text) => '\n' !in text
    case Statement(sql) => Clean(sql)
  }

  function PrintItem(item: Item): string {
    match item
    case Comment(text) => "--" + text + "\n"
    case Statement(sql) => sql + ";" + "\n"
  }

  function Print(items: seq<Item>): string {
    if items == [] then "" else PrintItem(items[0]) + Print(items[1..])
  }

  function StatementsOf(items: seq<Item>): seq<string> {
    if items == [] then []
    else (if items[0].Statement? then [items[0].sql] else []) + StatementsOf(items[1..])
  }

  /** A block of lines without "--" is kept as it is, whatever follows it. */
  lemma {:induction false} StripBlock(block: string, rest: string)
    requires NoDashes(block)
    ensures Strip(block + "\n" + rest) == block + "\n" + Strip(rest)
    decreases |block|
  {
    if '\n' in block {
      var i := FirstNewline(block);
      var line, more := block[..i], block[i + 1..];
      assert block == line + "\n" + more;
      assert NoDashes(line);
      assert NoDashes(more) by {
        assert forall k :: 0 <= k < |more| ==> more[k] == block[i + 1 + k];
      }
      StripFirstLine(line, more + "\n" + rest);
      assert block + "\n" + rest == line + "\n" + (more + "\n" + rest);
      StripClean(line);
      StripBlock(more, rest);
    } else {
      StripFirstLine(block, rest);
      StripClean(block);
    }
  }

  lemma StripStatement(sql: string, rest: string)
    requires Clean(sql)
    ensures Strip(sql + ";" + "\n" + rest) == sql + ";" + ("\n" + Strip(rest))
  {
    NoDashesJoin(sql, ';', "");
    assert sql + [';'] + "" == sql + ";";
    StripBlock(sql + ";", rest);
  }

  lemma StatementThen(sql: string, rest: string)
    requires Clean(sql)
    ensures Statements(PrintItem(Statement(sql)) + rest) == [sql] + Statements(rest)
  {
    StripStatement(sql, rest);
    PiecesHead(sql, "\n" + Strip(rest));
    PiecesSkip('\n', Strip(rest));
  }

  lemma CommentThen(text: string, rest: string)
    requires '\n' !in text
    ensures Statements(PrintItem(Comment(text)) + rest) == Statements(rest)
  {
    StripFirstLine("--" + text, rest);
    PiecesSkip('\n', Strip(rest));
    assert StripComment("--" + text) == "";
    assert "" + "\n" + Strip(rest) == "\n" + Strip(rest);
  }

  /**
   * Round trip: a file printed from clean statements and comment lines, in any order, is read back as those statements.
   */
  lemma {:induction false} SplitOfPrint(items: seq<Item>)
    requires forall i :: 0 <= i < |items| ==> WellWritten(items[i])
    ensures Statements(Print(items)) == StatementsOf(items)
  {
    if items == [] {
      SplitOnWhole("", '\n');
      StripLinesAppend([], "");
      assert [] + [""] == [""];
      PiecesEmpty();
    } else {
      assert WellWritten(items[0]);
      SplitOfPrint(items[1..]);
      if items[0].Comment? {
        CommentThen(items[0].text, Print(items[1..]));
      } else {
        StatementThen(items[0].sql, Print(items[1..]));
      }
    }
  }

  /** strings.Index: the line is cut at its first "--". */
  lemma {:induction false} StripAt(line: string, i: nat)
    requires i + 1 < |line| && line[i] == '-' && line[i + 1] == '-'
    requires forall j :: 0 <= j < i ==> !(line[j] == '-' && line[j + 1] == '-')
    ensures StripComment(line) == line[..i]
  {
    if i > 0 {
      assert !(line[0] == '-' && line[0 + 1] == '-');
      assert forall j :: 0 <= j < i ==> line[1..][j] == line[j + 1];
      StripAt(line[1..], i - 1);
      assert [line[0]] + line[1..][..i - 1] == line[..i];
    }
  }

  lemma StripWithComment(code: string, comment: string)
    requires NoDashes(code)
    ensures StripComment(code + "--" + comment) == code <==> code == [] || code[|code| - 1] != '-'
  {
    var line, n := code + "--" + comment, |code|;
    assert forall j :: 0 <= j < n ==> line[j] == code[j];
    assert line[n] == '-' && line[n + 1] == '-';
    if n > 0 && code[n - 1] == '-' {
      StripAt(line, n - 1);
    } else {
      StripAt(line, n);
    }
  }

  /** A comment at the end of a line is ignored exactly when the code before it does not end in "-". */
  lemma TrailingCommentIgnoredIff(code: string, comment: string, rest: string)
    requires NoDashes(code) && '\n' !in code && '\n' !in comment
    ensures Strip(code + "--" + comment + "\n" + rest) == Strip(code + "\n" + rest)
       <==> code == [] || code[|code| - 1] != '-'
  {
    StripWithComment(code, comment);
    StripFirstLine(code + "--" + comment, rest);
    StripFirstLine(code, rest);
    StripClean(code);
    var kept := StripComment(code + "--" + comment);
    if kept + "\n" + Strip(rest) == code + "\n" + Strip(rest) {
      assert |kept| == |code|;
      assert kept == (kept + "\n" + Strip(rest))[..|kept|] == code;
    }
  }
}
