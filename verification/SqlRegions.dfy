/** What the two SQL scanners make of literals, comments and all other characters, told by the characters
    alone. Every text begins with exactly the regions named here, so these laws leave nothing open. */
module SqlRegions {
  import opened SqlScanner

  // ---------- Regions ----------

  predicate StartsWith(s: string, c: char) {
    s != [] && s[0] == c
  }

  /** Every quote in the text is doubled. */
  predicate Doubled(w: string, q: char) {
    w == []
    || (if w[0] != q then Doubled(w[1..], q) else |w| >= 2 && w[1] == q && Doubled(w[2..], q))
  }

  /** A literal in doubling quotes, closed or reaching the end of the text. */
  predicate Quoted(x: string, t: string, q: char) {
    && StartsWith(x, q)
    && ((|x| >= 2 && x[|x| - 1] == q && Doubled(x[1..|x| - 1], q) && !StartsWith(t, q))
        || (t == [] && Doubled(x[1..], q)))
  }

  /** A name between two delimiters, closed or reaching the end of the text. */
  predicate Delimited(x: string, t: string, open: char, close: char) {
    && StartsWith(x, open)
    && ((|x| >= 2 && x[|x| - 1] == close && close !in x[1..|x| - 1]) || (t == [] && close !in x[1..]))
  }

  predicate OnOneLine(w: string) {
    '\r' !in w && '\n' !in w
  }

  predicate Line(x: string, t: string) {
    |x| >= 2 && x[0] == '-' && x[1] == '-' && OnOneLine(x[2..]) && (t == [] || t[0] == '\r' || t[0] == '\n')
  }

  predicate Unclosed(w: string) {
    forall k :: 0 <= k < |w| - 1 ==> !(w[k] == '*' && w[k + 1] == '/')
  }

  predicate Block(x: string, t: string) {
    && |x| >= 2 && x[0] == '/' && x[1] == '*'
    && ((|x| >= 4 && x[|x| - 2] == '*' && x[|x| - 1] == '/' && Unclosed(x[2..|x| - 2])) || (t == [] && Unclosed(x[2..])))
  }

  /** A character that opens and ends nothing. */
  predicate Plain(x: string, t: string) {
    && |x| == 1 && x[0] != ';' && x[0] != '\'' && x[0] != '"' && x[0] != '`' && x[0] != '['
    && !(x[0] == '-' && StartsWith(t, '-')) && !(x[0] == '/' && StartsWith(t, '*'))
  }

  /** A literal or a delimited name. */
  predicate Literal(x: string, t: string) {
    Quoted(x, t, '\'') || Quoted(x, t, '"') || Delimited(x, t, '`', '`') || Delimited(x, t, '[', ']')
  }

  // ---------- Reading a stretch of text ----------

  /** From mode `m`, `x` in front of `t` is kept in one piece, written as `out`, and leads to mode `n`. */
  ghost predicate Reads(m: Mode, x: string, out: string, n: Mode, t: string) {
    Pieces(m, x + t) == Grown(x, Pieces(n, t)) && Uncommented(m, x + t) == out + Uncommented(n, t)
  }

  lemma ReadsStep(m: Mode, x: string, t: string)
    requires x != [] && Width(m, x + t) == |x| && !Cuts(m, x + t)
    ensures Reads(m, x, Emit(m, x + t), Next(m, x + t), t)
  {
    assert (x + t)[|x|..] == t && (x + t)[..|x|] == x;
  }

  lemma ReadsNothing(m: Mode, t: string)
    ensures Reads(m, [], [], m, t)
  {
    assert [] + t == t && [] + Pieces(m, t)[0] == Pieces(m, t)[0];
    assert [] + Uncommented(m, t) == Uncommented(m, t);
  }

  lemma ReadsOn(m: Mode, x: string, ox: string, n: Mode, y: string, oy: string, k: Mode, t: string)
    requires Reads(m, x, ox, n, y + t) && Reads(n, y, oy, k, t)
    ensures Reads(m, x + y, ox + oy, k, t)
  {
    hide Pieces, Uncommented;
    assert x + (y + t) == x + y + t;
    assert x + (y + Pieces(k, t)[0]) == x + y + Pieces(k, t)[0];
    assert Grown(y, Pieces(k, t))[1..] == Pieces(k, t)[1..];
    assert ox + (oy + Uncommented(k, t)) == ox + oy + Uncommented(k, t);
  }

  lemma ReadsToEnd(m: Mode, x: string, n: Mode)
    requires Reads(m, x, x, n, [])
    ensures Pieces(m, x) == [x] && Uncommented(m, x) == x
  {
    assert x + [] == x;
  }

  lemma OneCharacter(m: Mode, x: string, t: string)
    requires |x| == 1 && !Paired(m, x + t) && !Cuts(m, x + t)
    ensures Reads(m, x, Emit(m, x + t), Next(m, x + t), t)
  {
    ReadsStep(m, x, t);
  }

  function QuoteMode(q: char): Mode {
    if q == '\'' then Single else Double
  }

  lemma {:induction false} InsideQuotes(q: char, w: string, t: string)
    requires (q == '\'' || q == '"') && Doubled(w, q)
    ensures Reads(QuoteMode(q), w, w, QuoteMode(q), t)
    decreases |w|
  {
    var m := QuoteMode(q);
    if w == [] {
      ReadsNothing(m, t);
    } else {
      var n := if w[0] == q then 2 else 1;
      var x, y := w[..n], w[n..];
      assert w == x + y && (x + (y + t))[..n] == x;
      ReadsStep(m, x, y + t);
      InsideQuotes(q, y, t);
      ReadsOn(m, x, x, m, y, y, m, t);
    }
  }

  lemma {:induction false} InsideDelimiters(m: Mode, close: char, w: string, t: string)
    requires (m == Backtick && close == '`') || (m == Bracket && close == ']')
    requires close !in w
    ensures Reads(m, w, w, m, t)
    decreases |w|
  {
    if w == [] {
      ReadsNothing(m, t);
    } else {
      var x, y := w[..1], w[1..];
      assert w == x + y && (x + (y + t))[..1] == x;
      ReadsStep(m, x, y + t);
      InsideDelimiters(m, close, y, t);
      ReadsOn(m, x, x, m, y, y, m, t);
    }
  }

  lemma {:induction false} InsideLine(w: string, t: string)
    requires OnOneLine(w)
    ensures Reads(LineComment, w, [], LineComment, t)
    decreases |w|
  {
    if w == [] {
      ReadsNothing(LineComment, t);
    } else {
      var x, y := w[..1], w[1..];
      assert w == x + y && x[0] in w;
      ReadsStep(LineComment, x, y + t);
      InsideLine(y, t);
      ReadsOn(LineComment, x, [], LineComment, y, [], LineComment, t);
    }
  }

  lemma {:induction false} InsideBlock(w: string, t: string)
    requires Unclosed(w) && !(w != [] && w[|w| - 1] == '*' && StartsWith(t, '/'))
    ensures Reads(BlockComment, w, [], BlockComment, t)
    decreases |w|
  {
    if w == [] {
      ReadsNothing(BlockComment, t);
    } else {
      var x, y := w[..1], w[1..];
      assert w == x + y && (|w| >= 2 ==> (x + (y + t))[1] == w[1]);
      ReadsStep(BlockComment, x, y + t);
      InsideBlock(y, t);
      ReadsOn(BlockComment, x, [], BlockComment, y, [], BlockComment, t);
    }
  }

  // ---------- The laws ----------

  /** A literal in single or double quotes, its doubled quotes included, is kept verbatim in one piece;
      semicolons and comment marks inside it mean nothing. */
  lemma QuotedIsCopied(q: char, w: string, t: string)
    requires (q == '\'' || q == '"') && Doubled(w, q) && !StartsWith(t, q)
    ensures Pieces(Code, [q] + w + [q] + t) == Grown([q] + w + [q], Pieces(Code, t))
    ensures Uncommented(Code, [q] + w + [q] + t) == [q] + w + [q] + Uncommented(Code, t)
  {
    var m := QuoteMode(q);
    OneCharacter(Code, [q], w + ([q] + t));
    InsideQuotes(q, w, [q] + t);
    OneCharacter(m, [q], t);
    Closing(m, [q], w, [q], t);
  }

  /** A name in backticks or brackets likewise. */
  lemma DelimitedIsCopied(open: char, close: char, w: string, t: string)
    requires (open == '`' && close == '`') || (open == '[' && close == ']')
    requires close !in w
    ensures Pieces(Code, [open] + w + [close] + t) == Grown([open] + w + [close], Pieces(Code, t))
    ensures Uncommented(Code, [open] + w + [close] + t) == [open] + w + [close] + Uncommented(Code, t)
  {
    var m := if open == '`' then Backtick else Bracket;
    OneCharacter(Code, [open], w + ([close] + t));
    InsideDelimiters(m, close, w, [close] + t);
    OneCharacter(m, [close], t);
    Closing(m, [open], w, [close], t);
  }

  lemma Closing(m: Mode, a: string, w: string, b: string, t: string)
    requires Reads(Code, a, a, m, w + (b + t)) && Reads(m, w, w, m, b + t) && Reads(m, b, b, Code, t)
    ensures Pieces(Code, a + w + b + t) == Grown(a + w + b, Pieces(Code, t))
    ensures Uncommented(Code, a + w + b + t) == a + w + b + Uncommented(Code, t)
  {
    hide Pieces, Uncommented, Grown;
    ReadsOn(Code, a, a, m, w, w, m, b + t);
    ReadsOn(Code, a + w, a + w, m, b, b, Code, t);
  }

  /** What opens and never closes reaches to the end. */
  lemma UnclosedIsCopied(open: char, close: char, w: string)
    requires if open == '\'' || open == '"' then close == open && Doubled(w, open)
             else ((open == '`' && close == '`') || (open == '[' && close == ']')) && close !in w
    ensures Pieces(Code, [open] + w) == [[open] + w] && Uncommented(Code, [open] + w) == [open] + w
  {
    var quoted := open == '\'' || open == '"';
    var m := if quoted then QuoteMode(open) else if open == '`' then Backtick else Bracket;
    assert w + [] == w;
    OneCharacter(Code, [open], w);
    if quoted {
      InsideQuotes(open, w, []);
    } else {
      InsideDelimiters(m, close, w, []);
    }
    ReadsOn(Code, [open], [open], m, w, w, m, []);
    ReadsToEnd(Code, [open] + w, m);
  }

  /** A line comment belongs to its piece and is replaced by a line feed; the line's end is kept. */
  lemma LineCommentIsReplaced(w: string, t: string)
    requires OnOneLine(w) && (t == [] || t[0] == '\r' || t[0] == '\n')
    ensures Pieces(Code, ['-', '-'] + w + t) == Grown(['-', '-'] + w, Pieces(Code, t))
    ensures Uncommented(Code, ['-', '-'] + w + t) == ['\n'] + Uncommented(Code, t)
  {
    var x := ['-', '-'];
    assert (x + (w + t))[0] == '-' && (x + (w + t))[1] == '-';
    ReadsStep(Code, x, w + t);
    InsideLine(w, t);
    ReadsOn(Code, x, ['\n'], LineComment, w, [], LineComment, t);
    assert Pieces(LineComment, t) == Pieces(Code, t) && Uncommented(LineComment, t) == Uncommented(Code, t);
    assert ['\n'] + [] == ['\n'];
  }

  /** A block comment belongs to its piece and is replaced by a blank. */
  lemma BlockCommentIsReplaced(w: string, t: string)
    requires Unclosed(w)
    ensures Pieces(Code, ['/', '*'] + w + ['*', '/'] + t) == Grown(['/', '*'] + w + ['*', '/'], Pieces(Code, t))
    ensures Uncommented(Code, ['/', '*'] + w + ['*', '/'] + t) == [' '] + Uncommented(Code, t)
  {
    var x, y := ['/', '*'], ['*', '/'];
    assert (x + (w + (y + t)))[0] == '/' && (x + (w + (y + t)))[1] == '*';
    ReadsStep(Code, x, w + (y + t));
    InsideBlock(w, y + t);
    ReadsStep(BlockComment, y, t);
    ReadsOn(Code, x, [' '], BlockComment, w, [], BlockComment, y + t);
    ReadsOn(Code, x + w, [' '] + [], BlockComment, y, [], Code, t);
    assert [' '] + [] + [] == [' '];
  }

  lemma UnclosedBlockIsReplaced(w: string)
    requires Unclosed(w)
    ensures Pieces(Code, ['/', '*'] + w) == [['/', '*'] + w] && Uncommented(Code, ['/', '*'] + w) == [' ']
  {
    var x := ['/', '*'];
    assert w + [] == w && (x + w)[0] == '/' && (x + w)[1] == '*';
    ReadsStep(Code, x, w);
    InsideBlock(w, []);
    ReadsOn(Code, x, [' '], BlockComment, w, [], BlockComment, []);
    assert x + w + [] == x + w;
  }

  /** A semicolon outside all of these ends a piece, and every other character is kept. */
  lemma OthersAreCopied(c: char, t: string)
    requires Plain([c], t) || c == ';'
    ensures Pieces(Code, [c] + t) == if c == ';' then [[c]] + Pieces(Code, t) else Grown([c], Pieces(Code, t))
    ensures Uncommented(Code, [c] + t) == [c] + Uncommented(Code, t)
  {
    assert ([c] + t)[1..] == t && ([c] + t)[..1] == [c];
  }

  // ---------- Nothing is left open ----------

  lemma {:induction false} QuoteEnds(s: string, q: char) returns (n: nat)
    ensures n <= |s| && Doubled(s[..n], q)
    ensures n < |s| ==> s[n] == q && !StartsWith(s[n + 1..], q)
    decreases |s|
  {
    if s == [] || (s[0] == q && !StartsWith(s[1..], q)) {
      return 0;
    }
    var k := if s[0] == q then 2 else 1;
    n := QuoteEnds(s[k..], q);
    assert s[..k + n][k..] == s[k..][..n];
    assert k + n < |s| ==> s[k..][n + 1..] == s[k + n + 1..];
    n := k + n;
  }

  lemma {:induction false} NameEnds(s: string, close: char) returns (n: nat)
    ensures n <= |s| && close !in s[..n] && (n < |s| ==> s[n] == close)
    decreases |s|
  {
    if s == [] || s[0] == close {
      return 0;
    }
    n := NameEnds(s[1..], close);
    assert s[..n + 1] == [s[0]] + s[1..][..n];
    n := n + 1;
  }

  lemma {:induction false} LineEnds(s: string) returns (n: nat)
    ensures n <= |s| && OnOneLine(s[..n]) && (n < |s| ==> s[n] == '\r' || s[n] == '\n')
    decreases |s|
  {
    if s == [] || s[0] == '\r' || s[0] == '\n' {
      return 0;
    }
    n := LineEnds(s[1..]);
    assert s[..n + 1] == [s[0]] + s[1..][..n];
    n := n + 1;
  }

  lemma {:induction false} BlockEnds(s: string) returns (n: nat)
    ensures n <= |s| && Unclosed(s[..n]) && (n < |s| ==> n + 1 < |s| && s[n] == '*' && s[n + 1] == '/')
    decreases |s|
  {
    if s == [] || (|s| >= 2 && s[0] == '*' && s[1] == '/') {
      return 0;
    }
    n := BlockEnds(s[1..]);
    assert s[..n + 1] == [s[0]] + s[1..][..n];
    n := n + 1;
  }

  predicate Region(x: string, t: string) {
    x == [';'] || Plain(x, t) || Literal(x, t) || Line(x, t) || Block(x, t)
  }

  lemma QuotedBegins(s: string, q: char) returns (n: nat)
    requires StartsWith(s, q)
    ensures 0 < n <= |s| && Quoted(s[..n], s[n..], q)
  {
    var k := QuoteEnds(s[1..], q);
    n := if k < |s| - 1 then k + 2 else |s|;
    assert k < |s| - 1 ==> s[1..][k + 1..] == s[k + 2..] && s[..n][1..n - 1] == s[1..][..k];
    assert k == |s| - 1 ==> s[..n][1..] == s[1..][..k];
  }

  lemma DelimitedBegins(s: string, open: char, close: char) returns (n: nat)
    requires StartsWith(s, open)
    ensures 0 < n <= |s| && Delimited(s[..n], s[n..], open, close)
  {
    var k := NameEnds(s[1..], close);
    n := if k < |s| - 1 then k + 2 else |s|;
    assert k < |s| - 1 ==> s[..n][1..n - 1] == s[1..][..k];
    assert k == |s| - 1 ==> s[..n][1..] == s[1..][..k];
  }

  lemma LineBegins(s: string) returns (n: nat)
    requires |s| >= 2 && s[0] == '-' && s[1] == '-'
    ensures 0 < n <= |s| && Line(s[..n], s[n..])
  {
    var k := LineEnds(s[2..]);
    n := k + 2;
    assert s[..n][2..] == s[2..][..k];
  }

  lemma BlockBegins(s: string) returns (n: nat)
    requires |s| >= 2 && s[0] == '/' && s[1] == '*'
    ensures 0 < n <= |s| && Block(s[..n], s[n..])
  {
    var k := BlockEnds(s[2..]);
    n := if k < |s| - 2 then k + 4 else |s|;
    assert k < |s| - 2 ==> s[..n][2..n - 2] == s[2..][..k];
    assert k == |s| - 2 ==> s[..n][2..] == s[2..][..k];
  }

  /** Every text that is not empty begins with a region to which one of the laws applies. */
  lemma EveryTextBegins(s: string) returns (n: nat)
    requires s != []
    ensures 0 < n <= |s| && Region(s[..n], s[n..])
  {
    hide Quoted, Delimited, Line, Block, Doubled;
    if s[0] == '\'' || s[0] == '"' {
      n := QuotedBegins(s, s[0]);
    } else if s[0] == '`' {
      n := DelimitedBegins(s, '`', '`');
    } else if s[0] == '[' {
      n := DelimitedBegins(s, '[', ']');
    } else if |s| >= 2 && s[0] == '-' && s[1] == '-' {
      n := LineBegins(s);
    } else if |s| >= 2 && s[0] == '/' && s[1] == '*' {
      n := BlockBegins(s);
    } else {
      n := 1;
      assert s[..1] == [s[0]];
    }
  }

  /** What comment removal writes for a region. */
  function Bare(x: string): string {
    if |x| >= 2 && x[0] == '-' && x[1] == '-' then ['\n'] else if |x| >= 2 && x[0] == '/' && x[1] == '*' then [' '] else x
  }

  /** The scanners read a text region by region: a semicolon ends a piece, everything else stays whole, and
      only comments are replaced. With `EveryTextBegins` this fixes what both of them return. */
  lemma RegionIsRead(x: string, t: string)
    requires Region(x, t)
    ensures Pieces(Code, x + t) == if x == [';'] then [x] + Pieces(Code, t) else Grown(x, Pieces(Code, t))
    ensures Uncommented(Code, x + t) == Bare(x) + Uncommented(Code, t)
  {
    hide Pieces, Uncommented;
    if x == [';'] || Plain(x, t) {
      assert x == [x[0]];
      OthersAreCopied(x[0], t);
    } else if Literal(x, t) {
      LiteralIsRead(x, t);
    } else if Line(x, t) {
      assert x == ['-', '-'] + x[2..];
      LineCommentIsReplaced(x[2..], t);
    } else if |x| >= 4 && x[|x| - 2] == '*' && x[|x| - 1] == '/' && Unclosed(x[2..|x| - 2]) {
      assert x == ['/', '*'] + x[2..|x| - 2] + ['*', '/'];
      BlockCommentIsReplaced(x[2..|x| - 2], t);
    } else {
      assert x == ['/', '*'] + x[2..] && x + t == x;
      UnclosedBlockIsReplaced(x[2..]);
      EmptyText(x, t);
    }
  }

  lemma EmptyText(x: string, t: string)
    requires t == []
    ensures Grown(x, Pieces(Code, t)) == [x] && Uncommented(Code, t) == []
  {
    assert x + [] == x;
  }

  lemma LiteralIsRead(x: string, t: string)
    requires Literal(x, t)
    ensures Pieces(Code, x + t) == Grown(x, Pieces(Code, t)) && Uncommented(Code, x + t) == x + Uncommented(Code, t)
  {
    hide Pieces, Uncommented, Doubled;
    var q := x[0];
    var close := if q == '[' then ']' else q;
    var quoted := q == '\'' || q == '"';
    if |x| >= 2 && x[|x| - 1] == close && (if quoted then Doubled(x[1..|x| - 1], q) && !StartsWith(t, q) else close !in x[1..|x| - 1]) {
      var w := x[1..|x| - 1];
      assert x == [q] + w + [close];
      if quoted {
        QuotedIsCopied(q, w, t);
      } else {
        DelimitedIsCopied(q, close, w, t);
      }
    } else {
      assert x == [q] + x[1..] && x + t == x;
      UnclosedIsCopied(q, close, x[1..]);
      EmptyText(x, t);
      assert x + [] == x;
    }
  }

  // ---------- White space, emptiness and the verdict ----------

  /** Stripping removes these 29 code points: five controls, four separators, the blank and Unicode's other spaces. */
  lemma SpacesExactly(c: char)
    ensures Trim([c]) == [] <==>
              c as int in {9, 10, 11, 12, 13, 28, 29, 30, 31, 32, 133, 160, 5760, 8192, 8193, 8194, 8195, 8196, 8197, 8198,
                           8199, 8200, 8201, 8202, 8232, 8233, 8239, 8287, 12288}
  {
    TrimOne(c);
    assert IsSpace(c) <==> 9 <= c as int <= 13 || 28 <= c as int <= 32 || c as int in {133, 160, 5760} || 8192 <= c as int <= 8202
                           || c as int in {8232, 8233, 8239, 8287, 12288};
  }

  /** Stripping removes a run of strippable characters at each end, and nothing strippable is left there. */
  lemma TrimLeavesMiddle(s: string) returns (a: string, b: string)
    ensures s == a + Trim(s) + b
    ensures forall c :: c in a || c in b ==> Trim([c]) == []
    ensures Trim(s) != [] ==> Trim([Trim(s)[0]]) != [] && Trim([Trim(s)[|Trim(s)| - 1]]) != []
  {
    a := LeftSpaces(s);
    b := RightSpaces(TrimLeft(s));
    assert s == a + TrimLeft(s) == a + (Trim(s) + b) == a + Trim(s) + b;
    forall c | c in a || c in b ensures Trim([c]) == [] {
      TrimOne(c);
    }
    if Trim(s) != [] {
      assert TrimLeft(s)[0] == Trim(s)[0];
      TrimOne(Trim(s)[0]);
      TrimOne(Trim(s)[|Trim(s)| - 1]);
    }
  }

  lemma TrimOne(c: char)
    ensures Trim([c]) == if IsSpace(c) then [] else [c]
  {
    var s := [c];
    assert s[1..] == [] && TrimLeft([]) == [] && TrimRight([]) == [];
    assert TrimLeft(s) == if IsSpace(c) then [] else s;
  }

  lemma {:induction false} LeftSpaces(s: string) returns (a: string)
    ensures s == a + TrimLeft(s) && forall c :: c in a ==> IsSpace(c)
    ensures TrimLeft(s) != [] ==> !IsSpace(TrimLeft(s)[0])
  {
    a := [];
    if s != [] && IsSpace(s[0]) {
      var rest := LeftSpaces(s[1..]);
      a := [s[0]] + rest;
      assert s == [s[0]] + s[1..];
    }
  }

  lemma {:induction false} RightSpaces(s: string) returns (b: string)
    ensures s == TrimRight(s) + b && forall c :: c in b ==> IsSpace(c)
    ensures TrimRight(s) != [] ==> !IsSpace(TrimRight(s)[|TrimRight(s)| - 1]) && TrimRight(s)[0] == s[0]
  {
    b := [];
    if s != [] && IsSpace(s[|s| - 1]) {
      var rest := RightSpaces(s[..|s| - 1]);
      b := rest + [s[|s| - 1]];
      assert s == s[..|s| - 1] + [s[|s| - 1]];
    }
  }

  lemma LoneCharacter(c: char)
    ensures Uncommented(Code, [c]) == [c]
    ensures Pieces(Code, [c]) == if c == ';' then [[c], []] else [[c]]
  {
    var s, n := [c], Next(Code, [c]);
    assert Width(Code, s) == 1 && Emit(Code, s) == [c] && s[1..] == [] && s[..1] == [c];
    hide Next, Width, Emit;
    assert Uncommented(n, []) == [] && Pieces(n, []) == [[]];
    assert [c] + [] == [c];
  }

  lemma LoneSolid(c: char)
    ensures Substantial([c]) <==> HasSolid([c])
  {
    hide Pieces;
    LoneCharacter(c);
  }

  lemma NothingKept()
    ensures Kept([]) == [] && !Substantial([])
  {
    assert Trim([]) == [] && Uncommented(Code, []) == [];
  }

  /** One character alone is a statement exactly if it is neither strippable nor a semicolon. */
  lemma OneCharacterStatement(c: char)
    ensures Statements([c]) == if Trim([c]) == [] || c == ';' then [] else [[c]]
  {
    hide Pieces, Uncommented, Trim, HasSolid, Substantial;
    TrimOne(c);
    LoneCharacter(c);
    LoneSolid(c);
    BlankOrNot(c);
    NothingKept();
    SmallPieces(c);
  }

  lemma BlankOrNot(c: char)
    ensures HasSolid([c]) <==> !Blank(c)
    ensures Blank(c) ==> IsSpace(c) || c == ';'
  {
  }

  lemma SmallPieces(c: char)
    ensures KeptOf([[c]]) == Kept([c]) && KeptOf([[c], []]) == Kept([c])
  {
    NothingKept();
    hide Kept;
    var one: seq<string>, two: seq<string> := [[c]], [[c], []];
    assert one[1..] == [] && two[1..][1..] == [] && two[1..][0] == [];
    assert Kept([c]) + [] == Kept([c]);
  }

  /** `word` in any mixture of capital and small letters. */
  predicate InAnyCase(s: string, word: string) {
    |s| == |word| && forall i :: 0 <= i < |s| ==> s[i] == word[i] || s[i] as int + 32 == word[i] as int
  }

  ghost predicate BeginsWith(s: string, word: string) {
    |word| <= |s| && InAnyCase(s[..|word|], word)
  }

  lemma {:induction false} LowerAt(s: string, i: nat)
    requires i < |s|
    ensures |Lower(s)| == |s|
    ensures Lower(s)[i] == if 'A' <= s[i] <= 'Z' then s[i] - 'A' + 'a' else s[i]
    decreases |s|
  {
    if i > 0 {
      LowerAt(s[1..], i - 1);
    } else if |s| > 1 {
      LowerAt(s[1..], 0);
    }
  }

  lemma LowerBegins(s: string, word: string)
    requires word != [] && forall i :: 0 <= i < |word| ==> 'a' <= word[i] <= 'z'
    ensures word <= Lower(s) <==> BeginsWith(s, word)
  {
    forall i | 0 <= i < |s| ensures |Lower(s)| == |s| && Lower(s)[i] == if 'A' <= s[i] <= 'Z' then s[i] - 'A' + 'a' else s[i] {
      LowerAt(s, i);
    }
    assert s == [] ==> Lower(s) == [];
    hide Lower;
    if word <= Lower(s) {
      forall i | 0 <= i < |word| ensures s[i] == word[i] || s[i] as int + 32 == word[i] as int {
        assert Lower(s)[i] == word[i];
      }
    }
    if BeginsWith(s, word) {
      forall i | 0 <= i < |word| ensures Lower(s)[i] == word[i] {
        assert s[..|word|][i] == s[i];
      }
    }
  }

  /** A text is taken for a read-only query exactly when its first characters outside comments and leading
      white space spell one of the four keywords, in whatever case. */
  lemma VerdictExactly(sql: string)
    ensures var bare := TrimLeft(Uncommented(Code, sql));
            LooksLikeResultQuery(sql) <==>
              || BeginsWith(bare, ['s', 'e', 'l', 'e', 'c', 't']) || BeginsWith(bare, ['w', 'i', 't', 'h'])
              || BeginsWith(bare, ['p', 'r', 'a', 'g', 'm', 'a']) || BeginsWith(bare, ['e', 'x', 'p', 'l', 'a', 'i', 'n'])
  {
    hide BeginsWith, Lower, Uncommented, TrimLeft;
    var bare := TrimLeft(Uncommented(Code, sql));
    LowerBegins(bare, ['s', 'e', 'l', 'e', 'c', 't']);
    LowerBegins(bare, ['w', 'i', 't', 'h']);
    LowerBegins(bare, ['p', 'r', 'a', 'g', 'm', 'a']);
    LowerBegins(bare, ['e', 'x', 'p', 'l', 'a', 'i', 'n']);
  }
}
