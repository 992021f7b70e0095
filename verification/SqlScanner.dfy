/** The two SQL character scanners of run_sql_audits.py: comment removal and statement
    splitting.

    Both scanners are specified against one automaton over the unread text. `Mode` says what
    kind of region the next character lies in; `Width`, `Next` and `Emit` say how much one
    step reads, where it leads and what comment removal writes for it. */
module SqlScanner {
  import opened Options

  datatype Mode = Code | Single | Double | Backtick | Bracket | LineComment | BlockComment

  // ---------- The automaton ----------

  predicate Starts(s: string, a: char, b: char) {
    |s| >= 2 && s[0] == a && s[1] == b
  }

  predicate LineEnd(c: char) {
    c == '\r' || c == '\n'
  }

  /** Two characters are read together when they open or close a comment or double a quote. */
  predicate Paired(m: Mode, s: string) {
    match m
    case Code => Starts(s, '-', '-') || Starts(s, '/', '*')
    case Single => Starts(s, '\'', '\'')
    case Double => Starts(s, '"', '"')
    case BlockComment => Starts(s, '*', '/')
    case _ => false
  }

  function Width(m: Mode, s: string): (w: nat)
    requires s != []
    ensures 1 <= w <= |s|
  {
    if Paired(m, s) then 2 else 1
  }

  /** The mode that a character read in `Code` opens. */
  function Opened(c: char): Mode {
    if c == '\'' then Single
    else if c == '"' then Double
    else if c == '`' then Backtick
    else if c == '[' then Bracket
    else Code
  }

  function Next(m: Mode, s: string): Mode
    requires s != []
  {
    match m
    case Code =>
      if Starts(s, '-', '-') then LineComment
      else if Starts(s, '/', '*') then BlockComment
      else Opened(s[0])
    case Single => if s[0] == '\'' && !Paired(m, s) then Code else Single
    case Double => if s[0] == '"' && !Paired(m, s) then Code else Double
    case Backtick => if s[0] == '`' then Code else Backtick
    case Bracket => if s[0] == ']' then Code else Bracket
    case LineComment => if LineEnd(s[0]) then Code else LineComment
    case BlockComment => if Paired(m, s) then Code else BlockComment
  }

  /** A line comment becomes a newline, a block comment a blank; all else is kept. */
  function Emit(m: Mode, s: string): string
    requires s != []
  {
    match m
    case Code => if Starts(s, '-', '-') then ['\n'] else if Starts(s, '/', '*') then [' '] else [s[0]]
    case LineComment => if LineEnd(s[0]) then [s[0]] else []
    case BlockComment => []
    case _ => s[..Width(m, s)]
  }

  /** A semicolon ends a statement exactly when it is read in `Code`. */
  predicate Cuts(m: Mode, s: string)
    requires s != []
  {
    m.Code? && s[0] == ';'
  }

  // ---------- What the scanners compute ----------

  /** The text with its comments removed, read from mode `m`. */
  function Uncommented(m: Mode, s: string): string
    decreases |s|
  {
    if s == [] then [] else Emit(m, s) + Uncommented(Next(m, s), s[Width(m, s)..])
  }

  /** The text cut after each top-level semicolon; the last piece may be empty. */
  function Pieces(m: Mode, s: string): (ps: seq<string>)
    ensures ps != []
    decreases |s|
  {
    if s == [] then [""]
    else
      var w := Width(m, s);
      var rest := Pieces(Next(m, s), s[w..]);
      if Cuts(m, s) then [s[..w]] + rest else Grown(s[..w], rest)
  }

  /** More text in front of the first piece. */
  function Grown(x: string, ps: seq<string>): (r: seq<string>)
    requires ps != []
    ensures r != []
  {
    [x + ps[0]] + ps[1..]
  }

  /** The characters that Python's argument-free `strip` removes. */
  predicate IsSpace(c: char) {
    || '\t' <= c <= '\r'
    || '\U{1c}' <= c <= ' '
    || c == '\U{85}' || c == '\U{a0}' || c == '\U{1680}'
    || '\U{2000}' <= c <= '\U{200a}'
    || c == '\U{2028}' || c == '\U{2029}' || c == '\U{202f}' || c == '\U{205f}' || c == '\U{3000}'
  }

  function TrimLeft(s: string): string {
    if s != [] && IsSpace(s[0]) then TrimLeft(s[1..]) else s
  }

  function TrimRight(s: string): string {
    if s != [] && IsSpace(s[|s| - 1]) then TrimRight(s[..|s| - 1]) else s
  }

  function Trim(s: string): string {
    TrimRight(TrimLeft(s))
  }

  /** The characters that the emptiness test of `split_sql_statements` ignores. */
  predicate Blank(c: char) {
    c == ' ' || c == ';' || c == '\t' || c == '\r' || c == '\n'
  }

  /** Whether stripping the blank characters leaves anything. */
  predicate HasSolid(s: string) {
    s != [] && (!Blank(s[0]) || HasSolid(s[1..]))
  }

  predicate Substantial(t: string) {
    HasSolid(Uncommented(Code, t))
  }

  function Kept(p: string): seq<string> {
    if Substantial(Trim(p)) then [Trim(p)] else []
  }

  function KeptOf(ps: seq<string>): seq<string> {
    if ps == [] then [] else Kept(ps[0]) + KeptOf(ps[1..])
  }

  function Statements(s: string): seq<string> {
    KeptOf(Pieces(Code, s))
  }

  function Concat(ps: seq<string>): string {
    if ps == [] then "" else ps[0] + Concat(ps[1..])
  }

  // ---------- The scanners ----------

  /** The character at index `i`, if the text reaches that far. */
  function Peek(s: string, i: nat): Option<char> {
    if i < |s| then Some(s[i]) else None
  }

  /** The unread text at index `i`; after an unclosed block comment `i` may be one past the end. */
  ghost function Rest(s: string, i: nat): string {
    if i <= |s| then s[i..] else []
  }

  method SkipLine(sql: string, start: nat) returns (i: nat)
    requires start <= |sql|
    ensures start <= i <= |sql| && (i == |sql| || LineEnd(sql[i]))
    ensures forall k :: start <= k < i ==> !LineEnd(sql[k])
  {
    i := start;
    while i < |sql| && !LineEnd(sql[i])
      invariant start <= i <= |sql|
      invariant forall k :: start <= k < i ==> !LineEnd(sql[k])
    {
      i := i + 1;
    }
  }

  predicate ClosesAt(sql: string, k: nat) {
    k + 1 < |sql| && sql[k] == '*' && sql[k + 1] == '/'
  }

  method SkipBlock(sql: string, start: nat) returns (i: nat)
    requires start <= |sql|
    ensures start <= i <= |sql| && (i + 1 >= |sql| || ClosesAt(sql, i))
    ensures forall k :: start <= k < i ==> !ClosesAt(sql, k)
  {
    i := start;
    while i + 1 < |sql| && !(sql[i] == '*' && sql[i + 1] == '/')
      invariant start <= i <= |sql|
      invariant forall k :: start <= k < i ==> !ClosesAt(sql, k)
    {
      i := i + 1;
    }
  }

  lemma {:induction false} LineSkipped(sql: string, start: nat, i: nat)
    requires start <= i <= |sql| && (i == |sql| || LineEnd(sql[i]))
    requires forall k :: start <= k < i ==> !LineEnd(sql[k])
    ensures Uncommented(LineComment, sql[start..]) == Uncommented(Code, sql[i..])
    decreases i - start
  {
    if start < i {
      assert sql[start..][1..] == sql[start + 1..];
      LineSkipped(sql, start + 1, i);
    }
  }

  lemma {:induction false} BlockSkipped(sql: string, start: nat, i: nat)
    requires start <= i <= |sql| && (i + 1 >= |sql| || ClosesAt(sql, i))
    requires forall k :: start <= k < i ==> !ClosesAt(sql, k)
    ensures Uncommented(BlockComment, sql[start..]) == Uncommented(Code, Rest(sql, i + 2))
    decreases i - start
  {
    var rest := sql[start..];
    if start < i {
      assert rest[1..] == sql[start + 1..];
      assert !ClosesAt(sql, start);
      BlockSkipped(sql, start + 1, i);
    } else if i + 1 < |sql| {
      assert rest[2..] == sql[i + 2..];
    } else if i < |sql| {
      assert rest[1..] == [];
    }
  }

  /** One turn of either loop inside a quoted region: `n` characters are read. */
  method ReadQuoted(sql: string, i: nat, mode: Mode) returns (n: nat, mode': Mode)
    requires i < |sql| && (mode.Single? || mode.Double? || mode.Backtick? || mode.Bracket?)
    ensures n == Width(mode, sql[i..]) && mode' == Next(mode, sql[i..])
  {
    n, mode' := 1, mode;
    var c, next := sql[i], Peek(sql, i + 1);
    if mode == Single || mode == Double {
      var quote := if mode == Single then '\'' else '"';
      if c == quote {
        if next == Some(quote) {
          n := 2;
        } else {
          mode' := Code;
        }
      }
    } else if c == if mode == Backtick then '`' else ']' {
      mode' := Code;
    }
  }

  /** `Uncommented` with what has been written so far, as the loop builds it. */
  ghost function Written(output: string, m: Mode, s: string): string
    decreases |s|
  {
    if s == [] then output else Written(output + Emit(m, s), Next(m, s), s[Width(m, s)..])
  }

  lemma {:induction false} WrittenIsUncommented(output: string, m: Mode, s: string)
    ensures Written(output, m, s) == output + Uncommented(m, s)
    decreases |s|
  {
    if s != [] {
      WrittenIsUncommented(output + Emit(m, s), Next(m, s), s[Width(m, s)..]);
    }
  }

  lemma WrittenStep(output: string, m: Mode, sql: string, i: nat, output': string, m': Mode, n: nat)
    requires i < |sql| && n == Width(m, sql[i..]) && m' == Next(m, sql[i..])
    requires output' == output + Emit(m, sql[i..])
    ensures Written(output, m, sql[i..]) == Written(output', m', sql[i + n..])
  {
    assert sql[i..][n..] == sql[i + n..];
  }

  /** What the loop will have written when it is at index `i`. */
  ghost function Eventually(output: string, m: Mode, sql: string, i: nat): string {
    Written(output, m, Rest(sql, i))
  }

  predicate CommentOpens(sql: string, i: nat)
    requires i < |sql|
  {
    var c, next := sql[i], Peek(sql, i + 1);
    (c == '-' && next == Some('-')) || (c == '/' && next == Some('*'))
  }

  /** A comment that opens at `i` and leads on to the text at `j` becomes one character. */
  lemma CommentLeft(output: string, m: Mode, blank: char, sql: string, i: nat, j: nat)
    requires i + 1 < |sql| && Paired(Code, sql[i..]) && m == Next(Code, sql[i..]) && [blank] == Emit(Code, sql[i..])
    requires Uncommented(m, sql[i + 2..]) == Uncommented(Code, Rest(sql, j))
    ensures Eventually(output, Code, sql, i) == Eventually(output + [blank], Code, sql, j)
  {
    WrittenStep(output, Code, sql, i, output + [blank], m, 2);
    hide Uncommented, Written;
    WrittenIsUncommented(output + [blank], m, sql[i + 2..]);
    WrittenIsUncommented(output + [blank], Code, Rest(sql, j));
  }

  /** The comment that opens at `i` is replaced by one character and left at `i'`. */
  method SkipComment(sql: string, i: nat, ghost output: string) returns (blank: char, i': nat)
    requires i < |sql| && CommentOpens(sql, i)
    ensures i < i' <= |sql| + 1
    ensures Eventually(output, Code, sql, i) == Eventually(output + [blank], Code, sql, i')
  {
    hide Uncommented, Written, Eventually;
    if sql[i] == '-' {
      blank := '\n';
      i' := SkipLine(sql, i + 2);
      LineSkipped(sql, i + 2, i');
      CommentLeft(output, LineComment, blank, sql, i, i');
    } else {
      blank := ' ';
      i' := SkipBlock(sql, i + 2);
      BlockSkipped(sql, i + 2, i');
      i' := i' + if i' < |sql| then 1 else 0;
      i' := i' + 1;
      CommentLeft(output, BlockComment, blank, sql, i, i');
    }
  }

  lemma CopyStep(output: string, m: Mode, sql: string, i: nat)
    requires i < |sql| && !m.LineComment? && !m.BlockComment? && (m.Code? ==> !CommentOpens(sql, i))
    ensures var n, m' := Width(m, sql[i..]), Next(m, sql[i..]);
            (m.Code? ==> n == 1 && m' == Opened(sql[i]))
            && Eventually(output, m, sql, i) == Eventually(output + sql[i..i + n], m', sql, i + n)
  {
    var n := Width(m, sql[i..]);
    assert sql[i..][..n] == sql[i..i + n];
    WrittenStep(output, m, sql, i, output + sql[i..i + n], Next(m, sql[i..]), n);
    hide Written;
  }

  /** Outside comments a turn copies what it reads. */
  method CopyTurn(sql: string, i: nat, mode: Mode, ghost output: string) returns (copy: string, i': nat, mode': Mode)
    requires i < |sql| && !mode.LineComment? && !mode.BlockComment?
    requires mode.Code? ==> !CommentOpens(sql, i)
    ensures i < i' <= |sql| && !mode'.LineComment? && !mode'.BlockComment?
    ensures Eventually(output, mode, sql, i) == Eventually(output + copy, mode', sql, i')
  {
    hide Eventually, Width, CommentOpens;
    var n;
    n, mode' := 1, Opened(sql[i]);
    if mode != Code {
      n, mode' := ReadQuoted(sql, i, mode);
    }
    copy, i' := sql[i..i + n], i + n;
    CopyStep(output, mode, sql, i);
  }

  lemma EventuallyAll(output: string, m: Mode, sql: string, i: nat)
    requires i >= |sql|
    ensures Eventually(output, m, sql, i) == output
    ensures Eventually([], Code, sql, 0) == Uncommented(Code, sql)
  {
    WrittenIsUncommented([], Code, sql);
  }

  /** The source's mutually exclusive flags are the single variable `mode`. */
  method SqlWithoutComments(sql: string) returns (output: string)
    ensures output == Uncommented(Code, sql)
  {
    output := [];
    var i := 0;
    var mode := Code;
    EventuallyAll([], Code, sql, |sql|);
    hide *;
    while i < |sql|
      invariant i <= |sql| + 1
      invariant !mode.LineComment? && !mode.BlockComment?
      invariant Eventually(output, mode, sql, i) == Uncommented(Code, sql)
      decreases |sql| + 1 - i
    {
      if mode == Code && CommentOpens(sql, i) {
        var blank;
        blank, i := SkipComment(sql, i, output);
        output := output + [blank];
      } else {
        var copy;
        copy, i, mode := CopyTurn(sql, i, mode, output);
        output := output + copy;
      }
    }
    EventuallyAll(output, mode, sql, i);
  }

  /** `Pieces` with those already cut off and what has been read of the one in progress, as the
      loop builds it. */
  ghost function Pending(pieces: seq<string>, current: string, m: Mode, s: string): seq<string>
    decreases |s|
  {
    if s == [] then pieces + [current]
    else if Cuts(m, s) then Pending(pieces + [current + [';']], [], Code, s[1..])
    else Pending(pieces, current + s[..Width(m, s)], Next(m, s), s[Width(m, s)..])
  }

  function Prefixed(pieces: seq<string>, current: string, rest: seq<string>): seq<string>
    requires rest != []
  {
    pieces + [current + rest[0]] + rest[1..]
  }

  lemma PrefixedStep(pieces: seq<string>, current: string, x: string, rest: seq<string>)
    requires rest != []
    ensures Prefixed(pieces + [current + x], [], rest) == Prefixed(pieces, current, [x] + rest)
    ensures Prefixed(pieces, current + x, rest) == Prefixed(pieces, current, Grown(x, rest))
    ensures Prefixed([], [], rest) == rest
  {
    assert [] + rest[0] == rest[0] && ([x] + rest)[1..] == rest;
    assert current + x + rest[0] == current + (x + rest[0]);
    assert ([x + rest[0]] + rest[1..])[1..] == rest[1..];
  }

  lemma PiecesStep(m: Mode, s: string)
    requires s != []
    ensures var x, rest := s[..Width(m, s)], Pieces(Next(m, s), s[Width(m, s)..]);
            Pieces(m, s) == if Cuts(m, s) then [x] + rest else Grown(x, rest)
    ensures Cuts(m, s) ==> Width(m, s) == 1 && Next(m, s) == Code && s[..1] == [';']
  {
  }

  lemma {:induction false} PendingIsPieces(pieces: seq<string>, current: string, m: Mode, s: string)
    ensures Pending(pieces, current, m, s) == Prefixed(pieces, current, Pieces(m, s))
    decreases |s|
  {
    if s == [] {
      assert current + [] == current && pieces + [current] + [] == pieces + [current];
    } else {
      PiecesStep(m, s);
      hide Width, Next, Cuts, Pieces, Prefixed;
      var w, m' := Width(m, s), Next(m, s);
      PrefixedStep(pieces, current, s[..w], Pieces(m', s[w..]));
      if Cuts(m, s) {
        PendingIsPieces(pieces + [current + [';']], [], Code, s[1..]);
      } else {
        PendingIsPieces(pieces, current + s[..w], m', s[w..]);
      }
    }
  }

  lemma {:induction false} KeptOfAppend(ps: seq<string>, p: string)
    ensures KeptOf(ps + [p]) == KeptOf(ps) + Kept(p)
  {
    if ps != [] {
      assert (ps + [p])[1..] == ps[1..] + [p];
      KeptOfAppend(ps[1..], p);
    }
  }

  method KeepStatement(statements: seq<string>, current: string) returns (r: seq<string>)
    ensures r == statements + Kept(current)
  {
    var statement := Trim(current);
    var bare := SqlWithoutComments(statement);
    if HasSolid(bare) {
      r := statements + [statement];
    } else {
      r := statements;
    }
  }

  /** One turn of the splitting loop that does not end a statement. */
  method ReadWithin(sql: string, i: nat, mode: Mode) returns (n: nat, mode': Mode)
    requires i < |sql| && !Cuts(mode, sql[i..])
    ensures n == Width(mode, sql[i..]) && mode' == Next(mode, sql[i..])
  {
    n, mode' := 1, mode;
    var c, next := sql[i], Peek(sql, i + 1);
    if mode == LineComment {
      if LineEnd(c) {
        mode' := Code;
      }
    } else if mode == BlockComment {
      if c == '*' && next == Some('/') {
        n, mode' := 2, Code;
      }
    } else if mode != Code {
      n, mode' := ReadQuoted(sql, i, mode);
    } else if c == '-' && next == Some('-') {
      n, mode' := 2, LineComment;
    } else if c == '/' && next == Some('*') {
      n, mode' := 2, BlockComment;
    } else {
      mode' := Opened(c);
    }
  }

  lemma PendingCut(pieces: seq<string>, current: string, sql: string, i: nat)
    requires i < |sql| && sql[i] == ';'
    ensures Pending(pieces, current, Code, sql[i..]) == Pending(pieces + [current + [sql[i]]], [], Code, sql[i + 1..])
  {
    assert sql[i..][1..] == sql[i + 1..];
  }

  lemma PendingRead(pieces: seq<string>, current: string, m: Mode, sql: string, i: nat)
    requires i < |sql| && !(m.Code? && sql[i] == ';')
    ensures !Cuts(m, sql[i..])
    ensures var n := Width(m, sql[i..]);
            Pending(pieces, current, m, sql[i..]) == Pending(pieces, current + sql[i..i + n], Next(m, sql[i..]), sql[i + n..])
  {
    var rest, n := sql[i..], Width(m, sql[i..]);
    assert rest[..n] == sql[i..i + n] && rest[n..] == sql[i + n..];
  }

  lemma PendingEnds(pieces: seq<string>, current: string, m: Mode, sql: string)
    ensures Pending(pieces, current, m, sql[|sql|..]) == pieces + [current]
    ensures sql[0..] == sql && Pending([], [], Code, sql) == Pieces(Code, sql)
  {
    PendingIsPieces([], [], Code, sql);
    PrefixedStep([], [], [], Pieces(Code, sql));
  }

  method SplitSqlStatements(sql: string) returns (statements: seq<string>)
    ensures statements == Statements(sql)
  {
    hide *;
    statements := [];
    var current: string := [];
    var i := 0;
    var mode := Code;
    ghost var pieces: seq<string> := [];
    PendingEnds([], [], Code, sql);
    NothingKept();
    while i < |sql|
      invariant i <= |sql|
      invariant statements == KeptOf(pieces)
      invariant Pending(pieces, current, mode, sql[i..]) == Pieces(Code, sql)
    {
      if mode == Code && sql[i] == ';' {
        PendingCut(pieces, current, sql, i);
        current := current + [sql[i]];
        statements := KeepStatement(statements, current);
        KeptOfAppend(pieces, current);
        pieces := pieces + [current];
        current, i := [], i + 1;
      } else {
        PendingRead(pieces, current, mode, sql, i);
        var n, mode' := ReadWithin(sql, i, mode);
        current, i, mode := current + sql[i..i + n], i + n, mode';
      }
    }
    PendingEnds(pieces, current, mode, sql);
    KeptOfAppend(pieces, current);
    statements := KeepStatement(statements, current);
    Finished(sql, statements);
  }

  lemma NothingKept()
    ensures KeptOf([]) == []
  {
  }

  lemma Finished(sql: string, statements: seq<string>)
    requires statements == KeptOf(Pieces(Code, sql))
    ensures statements == Statements(sql)
  {
  }

  // ---------- Classification ----------

  /** Lower-casing of the letters that the admitted keywords are made of. */
  function Lower(s: string): string {
    if s == [] then []
    else [if 'A' <= s[0] <= 'Z' then s[0] - 'A' + 'a' else s[0]] + Lower(s[1..])
  }

  predicate StartsWithKeyword(s: string) {
    "select" <= s || "with" <= s || "pragma" <= s || "explain" <= s
  }

  predicate LooksLikeResultQuery(sql: string) {
    StartsWithKeyword(Lower(TrimLeft(Uncommented(Code, sql))))
  }
}
