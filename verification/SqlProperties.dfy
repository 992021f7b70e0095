/** What the two SQL scanners promise about every text: they agree on what is top level, and
    neither creates work for the other or for itself. */
module SqlProperties {
  import opened SqlScanner

  // ---------- Reading one step of a changed text ----------

  /** Removing a comment returns to `Code`. */
  function Settled(m: Mode): Mode {
    if m.LineComment? || m.BlockComment? then Code else m
  }

  /** What one step of removal writes is read back by one step that writes it again, whatever
      follows it that is not the rest of a pair. */
  predicate ReadBack(m: Mode, s: string, out: string)
    requires s != []
  {
    var e, m' := Emit(m, s), Next(m, s);
    if e == [] then Settled(m) == Settled(m') && !Cuts(m, s)
    else out != [] && Width(Settled(m), out) == |e| && Next(Settled(m), out) == Settled(m')
         && Emit(Settled(m), out) == e && Cuts(Settled(m), out) == Cuts(m, s)
  }

  lemma WrittenIsReadBack(m: Mode, s: string, tail: string)
    requires s != []
    requires s[Width(m, s)..] == [] ==> tail == []
    requires s[Width(m, s)..] != [] && Next(m, s).Code? ==> tail != [] && tail[0] == Emit(Code, s[Width(m, s)..])[0]
    ensures ReadBack(m, s, Emit(m, s) + tail)
  {
    var w := Width(m, s);
    assert w < |s| ==> s[w..][0] == s[w];
    assert w + 1 < |s| ==> s[w..][1] == s[w + 1];
  }

  lemma EmittedStep(m: Mode, s: string)
    requires s != []
    ensures ReadBack(m, s, Emit(m, s) + Uncommented(Next(m, s), s[Width(m, s)..]))
  {
    FirstWritten(s[Width(m, s)..]);
    hide *;
    WrittenIsReadBack(m, s, Uncommented(Next(m, s), s[Width(m, s)..]));
  }

  lemma FirstWritten(s: string)
    ensures s == [] ==> forall m :: Uncommented(m, s) == []
    ensures s != [] ==> Uncommented(Code, s) != [] && Uncommented(Code, s)[0] == Emit(Code, s)[0]
  {
  }

  /** A step reads the same from the piece that it lies in as from the whole text. */
  lemma PieceStep(m: Mode, s: string, p: string)
    requires s != [] && p <= s[Width(m, s)..] && (p == [] ==> s[Width(m, s)..] == [])
    ensures var t := s[..Width(m, s)] + p;
            Width(m, t) == Width(m, s) && Next(m, t) == Next(m, s)
            && Emit(m, t) == Emit(m, s) && Cuts(m, t) == Cuts(m, s)
  {
    var w := Width(m, s);
    var t := s[..w] + p;
    assert t[0] == s[0];
    assert |t| >= 2 <==> |s| >= 2;
    assert |s| >= 2 ==> t[1] == s[1];
  }

  /** A longer text is read like its first part, as long as that part holds two characters. */
  lemma PrefixStep(m: Mode, a: string, b: string)
    requires |a| >= 2 || (a != [] && b == [])
    ensures Width(m, a + b) == Width(m, a) && Next(m, a + b) == Next(m, a)
    ensures Emit(m, a + b) == Emit(m, a) && Cuts(m, a + b) == Cuts(m, a)
  {
    assert b == [] ==> a + b == a;
  }

  // ---------- Comment removal ----------

  /** Removing comments from comment-free text changes nothing. */
  lemma {:induction false} RemovalIsIdempotent(m: Mode, s: string)
    ensures Uncommented(Settled(m), Uncommented(m, s)) == Uncommented(m, s)
    decreases |s|
  {
    if s != [] {
      var w, m' := Width(m, s), Next(m, s);
      RemovalIsIdempotent(m', s[w..]);
      EmittedStep(m, s);
      var e, r := Emit(m, s), Uncommented(m', s[w..]);
      assert e == [] ==> e + r == r;
      assert (e + r)[|e|..] == r;
    }
  }

  // ---------- Cutting ----------

  lemma ConcatGrown(x: string, ps: seq<string>)
    requires ps != []
    ensures Concat(Grown(x, ps)) == x + Concat(ps)
  {
    assert Grown(x, ps)[1..] == ps[1..];
    assert x + ps[0] + Concat(ps[1..]) == x + (ps[0] + Concat(ps[1..]));
  }

  lemma ConcatCons(x: string, ps: seq<string>)
    ensures Concat([x] + ps) == x + Concat(ps)
  {
    assert ([x] + ps)[1..] == ps;
  }

  /** Cutting loses nothing. */
  lemma {:induction false} PiecesConcatenate(m: Mode, s: string)
    ensures Concat(Pieces(m, s)) == s
    decreases |s|
  {
    if s == [] {
      ConcatCons([], []);
      assert Pieces(m, s) == [[]] + [];
    } else {
      PiecesStep(m, s);
      PiecesConcatenate(Next(m, s), s[Width(m, s)..]);
      hide *;
      var w := Width(m, s);
      var x, rest := s[..w], Pieces(Next(m, s), s[w..]);
      assert x + s[w..] == s;
      if Cuts(m, s) {
        ConcatCons(x, rest);
      } else {
        ConcatGrown(x, rest);
      }
    }
  }

  function EachUncommented(ps: seq<string>): seq<string> {
    if ps == [] then [] else [Uncommented(Code, ps[0])] + EachUncommented(ps[1..])
  }

  /** Removal on each piece: the first is read from `m`, the others from `Code`. */
  function PiecewiseUncommented(m: Mode, ps: seq<string>): seq<string>
    requires ps != []
  {
    [Uncommented(m, ps[0])] + EachUncommented(ps[1..])
  }

  /** The first piece begins the text, and is empty only if the text is. */
  lemma {:induction false} FirstPiece(m: Mode, s: string)
    ensures Pieces(m, s)[0] <= s && (Pieces(m, s)[0] == [] ==> s == [])
    decreases |s|
  {
    if s != [] && !Cuts(m, s) {
      FirstPiece(Next(m, s), s[Width(m, s)..]);
      assert s[..Width(m, s)] + s[Width(m, s)..] == s;
    }
  }

  lemma PieceUncommented(m: Mode, s: string)
    requires s != []
    ensures var w, m' := Width(m, s), Next(m, s);
            var first := if Cuts(m, s) then [] else Pieces(m', s[w..])[0];
            Uncommented(m, s[..w] + first) == Emit(m, s) + Uncommented(m', first)
  {
    var w, m' := Width(m, s), Next(m, s);
    var first := if Cuts(m, s) then [] else Pieces(m', s[w..])[0];
    if Cuts(m, s) {
      assert s[..1] + [] == [';'];
    } else {
      FirstPiece(m', s[w..]);
      PieceStep(m, s, first);
      assert (s[..w] + first)[w..] == first;
    }
  }

  lemma PiecesOfWritten(e: string, m: Mode, r: string, m': Mode)
    requires e != [] && Width(m, e + r) == |e| && Next(m, e + r) == m'
    ensures var rest := Pieces(m', r);
            Pieces(m, e + r) == if Cuts(m, e + r) then [e] + rest else Grown(e, rest)
  {
    assert (e + r)[|e|..] == r && (e + r)[..|e|] == e;
  }

  lemma AfterCut(m: Mode, s: string)
    requires s != [] && Cuts(m, s)
    ensures Next(m, s) == Code
  {
  }

  /** The scanners agree: removing comments and cutting commute. */
  lemma {:induction false} RemovalCommutesWithCutting(m: Mode, s: string)
    ensures Pieces(Settled(m), Uncommented(m, s)) == PiecewiseUncommented(m, Pieces(m, s))
    decreases |s|
  {
    hide Emit, Next, Width, Cuts;
    if s != [] {
      var w, m', e := Width(m, s), Next(m, s), Emit(m, s);
      var rest, r := Pieces(m', s[w..]), Uncommented(m', s[w..]);
      RemovalCommutesWithCutting(m', s[w..]);
      EmittedStep(m, s);
      PieceUncommented(m, s);
      if e == [] {
        assert e + r == r && [] + Uncommented(m', rest[0]) == Uncommented(m', rest[0]);
      } else {
        PiecesOfWritten(e, Settled(m), r, Settled(m'));
        if Cuts(m, s) {
          AfterCut(m, s);
          assert s[..w] + [] == s[..w] && e + [] == e;
          assert ([s[..w]] + rest)[1..] == rest;
        } else {
          assert Grown(s[..w], rest)[1..] == rest[1..];
        }
      }
    }
  }

  /** `p` has no top-level semicolon. */
  predicate Open(m: Mode, p: string)
    decreases |p|
  {
    p == [] || (!Cuts(m, p) && Open(Next(m, p), p[Width(m, p)..]))
  }

  /** `p` ends with its only top-level semicolon. */
  predicate Closed(m: Mode, p: string)
    decreases |p|
  {
    p != [] && if Cuts(m, p) then |p| == 1 else Closed(Next(m, p), p[Width(m, p)..])
  }

  /** Cutting is final: every piece but the last ends with its only top-level semicolon, and
      the last has none. */
  lemma {:induction false} PiecesAreFinal(m: Mode, s: string, k: nat)
    requires k < |Pieces(m, s)|
    ensures var ps, from := Pieces(m, s), if k == 0 then m else Code;
            if k + 1 < |ps| then Closed(from, ps[k]) else Open(from, ps[k])
    decreases |s|
  {
    if s != [] {
      var w, m' := Width(m, s), Next(m, s);
      var rest := Pieces(m', s[w..]);
      if Cuts(m, s) {
        if k > 0 {
          PiecesAreFinal(m', s[w..], k - 1);
        }
      } else {
        PiecesAreFinal(m', s[w..], k);
        if k == 0 {
          FirstPiece(m', s[w..]);
          PieceStep(m, s, rest[0]);
          assert (s[..w] + rest[0])[w..] == rest[0];
        }
      }
    }
  }

  lemma {:induction false} OpenIsOnePiece(m: Mode, p: string)
    requires Open(m, p)
    ensures Pieces(m, p) == [p]
    decreases |p|
  {
    if p != [] {
      var w, m' := Width(m, p), Next(m, p);
      OpenIsOnePiece(m', p[w..]);
      assert p[..w] + p[w..] == p;
    }
  }

  lemma GrownPieces(m: Mode, a: string, b: string, after: seq<string>)
    requires a + b != [] && !Cuts(m, a + b) && Width(m, a + b) <= |a|
    requires Pieces(Next(m, a + b), a[Width(m, a + b)..] + b) == [a[Width(m, a + b)..]] + after
    ensures Pieces(m, a + b) == [a] + after
  {
    hide Width, Next, Cuts;
    var w := Width(m, a + b);
    assert (a + b)[w..] == a[w..] + b && (a + b)[..w] == a[..w] && a[..w] + a[w..] == a;
  }

  /** A text that follows a closed one is cut as if it stood alone. */
  lemma {:induction false} CuttingAfterClosed(m: Mode, a: string, b: string)
    requires Closed(m, a)
    ensures Pieces(m, a + b) == [a] + Pieces(Code, b)
    decreases |a|
  {
    if Cuts(m, a) {
      assert (a + b)[..1] == a && (a + b)[1..] == b;
    } else {
      var w, m' := Width(m, a), Next(m, a);
      assert a[w..] != [];
      PrefixStep(m, a, b);
      CuttingAfterClosed(m', a[w..], b);
      GrownPieces(m, a, b, Pieces(Code, b));
    }
  }

  // ---------- Trimming ----------

  lemma SpaceIsPlain(s: string)
    requires s != [] && IsSpace(s[0])
    ensures Width(Code, s) == 1 && Next(Code, s) == Code && !Cuts(Code, s) && Emit(Code, s) == [s[0]]
  {
  }

  lemma {:induction false} TrimLeftKeepsCut(p: string)
    ensures Open(Code, p) ==> Open(Code, TrimLeft(p))
    ensures Closed(Code, p) ==> Closed(Code, TrimLeft(p))
  {
    if p != [] && IsSpace(p[0]) {
      SpaceIsPlain(p);
      TrimLeftKeepsCut(p[1..]);
    }
  }

  /** A white-space character at the end is not part of what precedes it. */
  lemma LastSpaceStep(m: Mode, s: string)
    requires |s| >= 2 && IsSpace(s[|s| - 1])
    ensures var t := s[..|s| - 1];
            Width(m, t) == Width(m, s) && Next(m, t) == Next(m, s) && Emit(m, t) == Emit(m, s)
            && Cuts(m, t) == Cuts(m, s) && s[Width(m, s)..][..|s| - Width(m, s) - 1] == t[Width(m, s)..]
  {
    assert s == s[..|s| - 1] + [s[|s| - 1]];
    if |s| >= 3 {
      PrefixStep(m, s[..|s| - 1], [s[|s| - 1]]);
    }
  }

  lemma {:induction false} OpenWithoutLastSpace(m: Mode, p: string)
    requires p != [] && IsSpace(p[|p| - 1]) && Open(m, p)
    ensures Open(m, p[..|p| - 1])
    decreases |p|
  {
    if |p| >= 2 {
      LastSpaceStep(m, p);
      OpenWithoutLastSpace(Next(m, p), p[Width(m, p)..]);
    }
  }

  lemma {:induction false} TrimRightKeepsOpen(p: string)
    requires Open(Code, p)
    ensures Open(Code, TrimRight(p))
  {
    if p != [] && IsSpace(p[|p| - 1]) {
      OpenWithoutLastSpace(Code, p);
      TrimRightKeepsOpen(p[..|p| - 1]);
    }
  }

  lemma {:induction false} ClosedEndsWithSemicolon(m: Mode, p: string)
    requires Closed(m, p)
    ensures p != [] && p[|p| - 1] == ';'
    decreases |p|
  {
    if !Cuts(m, p) {
      ClosedEndsWithSemicolon(Next(m, p), p[Width(m, p)..]);
    }
  }

  lemma TrimKeepsCut(p: string)
    ensures Open(Code, p) ==> Open(Code, Trim(p))
    ensures Closed(Code, p) ==> Closed(Code, Trim(p))
  {
    TrimLeftKeepsCut(p);
    if Open(Code, p) {
      TrimRightKeepsOpen(TrimLeft(p));
    }
    if Closed(Code, p) {
      ClosedEndsWithSemicolon(Code, TrimLeft(p));
    }
  }

  lemma {:induction false} TrimRightEnds(s: string)
    ensures TrimRight(s) <= s
    ensures var t := TrimRight(s); t != [] ==> !IsSpace(t[|t| - 1])
  {
    if s != [] && IsSpace(s[|s| - 1]) {
      TrimRightEnds(s[..|s| - 1]);
    }
  }

  lemma {:induction false} TrimLeftEnds(s: string)
    ensures var t := TrimLeft(s); t != [] ==> !IsSpace(t[0])
  {
    if s != [] && IsSpace(s[0]) {
      TrimLeftEnds(s[1..]);
    }
  }

  lemma TrimIsIdempotent(s: string)
    ensures Trim(Trim(s)) == Trim(s)
  {
    TrimLeftEnds(s);
    TrimRightEnds(TrimLeft(s));
  }

  // ---------- Splitting is a fixed point ----------

  /** A statement as the splitter produces it. */
  predicate Whole(t: string) {
    Trim(t) == t && Substantial(t) && (Open(Code, t) || Closed(Code, t))
  }

  /** Only the last statement may lack its semicolon. */
  predicate Chain(ts: seq<string>) {
    forall k :: 0 <= k < |ts| ==> Whole(ts[k]) && (k + 1 < |ts| ==> Closed(Code, ts[k]))
  }

  lemma {:induction false} KeptIsChain(ps: seq<string>)
    requires forall k :: 0 <= k < |ps| ==> Closed(Code, ps[k]) || (k + 1 == |ps| && Open(Code, ps[k]))
    ensures Chain(KeptOf(ps))
  {
    if ps != [] {
      KeptIsChain(ps[1..]);
      TrimKeepsCut(ps[0]);
      TrimIsIdempotent(ps[0]);
      assert |ps| == 1 ==> KeptOf(ps[1..]) == [];
    }
  }

  lemma StatementsAreChain(s: string)
    ensures Chain(Statements(s))
  {
    var ps := Pieces(Code, s);
    forall k | 0 <= k < |ps| ensures Closed(Code, ps[k]) || (k + 1 == |ps| && Open(Code, ps[k])) {
      PiecesAreFinal(Code, s, k);
    }
    KeptIsChain(ps);
  }

  lemma WholeIsOneStatement(t: string)
    requires Whole(t)
    ensures Statements(t) == [t]
  {
    if Closed(Code, t) {
      CuttingAfterClosed(Code, t, "");
      assert t + "" == t && [t] + [""] == [t, ""];
      KeptOfAppend([t], "");
      KeptOfAppend([], t);
      assert Kept("") == [] && [] + [t] == [t];
    } else {
      OpenIsOnePiece(Code, t);
      KeptOfAppend([], t);
      assert [] + [t] == [t];
    }
  }

  /** Splitting a statement again gives that statement. */
  lemma StatementIsAtomic(s: string, k: nat)
    requires k < |Statements(s)|
    ensures Statements(Statements(s)[k]) == [Statements(s)[k]]
  {
    StatementsAreChain(s);
    WholeIsOneStatement(Statements(s)[k]);
  }

  lemma {:induction false} ChainSplitsBack(ts: seq<string>)
    requires Chain(ts)
    ensures Statements(Concat(ts)) == ts
  {
    if ts == [] {
      assert Kept("") == [] && [""][1..] == [];
    } else if |ts| == 1 {
      assert ts[0] + "" == ts[0];
      WholeIsOneStatement(ts[0]);
    } else {
      assert Chain(ts[1..]);
      ChainSplitsBack(ts[1..]);
      CuttingAfterClosed(Code, ts[0], Concat(ts[1..]));
      var rest := Pieces(Code, Concat(ts[1..]));
      assert ([ts[0]] + rest)[1..] == rest;
    }
  }

  /** Splitting what the splitter kept, put back together, gives the same statements. */
  lemma SplittingIsStable(s: string)
    ensures Statements(Concat(Statements(s))) == Statements(s)
  {
    StatementsAreChain(s);
    ChainSplitsBack(Statements(s));
  }

  // ---------- What is dropped ----------

  /** Outside its comments `p` holds nothing but white space and semicolons. */
  predicate OnlyTrivia(s: string) {
    forall i :: 0 <= i < |s| ==> IsSpace(s[i]) || s[i] == ';'
  }

  lemma {:induction false} NoSolidIsTrivia(s: string)
    ensures !HasSolid(s) ==> OnlyTrivia(s)
  {
    if s != [] {
      NoSolidIsTrivia(s[1..]);
      assert forall i :: 1 <= i < |s| ==> s[i] == s[1..][i - 1];
    }
  }

  lemma {:induction false} TriviaBeforeTrimLeft(s: string)
    requires OnlyTrivia(Uncommented(Code, TrimLeft(s)))
    ensures OnlyTrivia(Uncommented(Code, s))
  {
    if s != [] && IsSpace(s[0]) {
      SpaceIsPlain(s);
      TriviaBeforeTrimLeft(s[1..]);
    }
  }

  lemma {:induction false} LastSpace(m: Mode, s: string)
    requires s != [] && IsSpace(s[|s| - 1])
    ensures var t := s[..|s| - 1];
            Uncommented(m, s) == Uncommented(m, t) || Uncommented(m, s) == Uncommented(m, t) + [s[|s| - 1]]
    decreases |s|
  {
    if |s| == 1 {
      assert s[1..] == [];
    } else {
      LastSpaceStep(m, s);
      LastSpace(Next(m, s), s[Width(m, s)..]);
      OneStep(m, s);
      OneStep(m, s[..|s| - 1]);
      hide *;
      var w, t := Width(m, s), s[..|s| - 1];
      assert s[w..][|s| - w - 1] == s[|s| - 1];
      LastStaysLast(Emit(m, s), Uncommented(Next(m, s), s[w..]), Uncommented(Next(m, s), t[w..]), s[|s| - 1]);
    }
  }

  lemma LastStaysLast(e: string, b: string, a: string, c: char)
    requires b == a || b == a + [c]
    ensures e + b == e + a || e + b == e + a + [c]
  {
  }

  lemma OneStep(m: Mode, s: string)
    requires s != []
    ensures Uncommented(m, s) == Emit(m, s) + Uncommented(Next(m, s), s[Width(m, s)..])
  {
  }

  lemma {:induction false} TriviaBeforeTrimRight(s: string)
    requires OnlyTrivia(Uncommented(Code, TrimRight(s)))
    ensures OnlyTrivia(Uncommented(Code, s))
  {
    if s != [] && IsSpace(s[|s| - 1]) {
      TriviaBeforeTrimRight(s[..|s| - 1]);
      LastSpace(Code, s);
    }
  }

  /** A dropped piece holds only comments, white space and semicolons. */
  lemma DroppedIsTrivia(p: string)
    requires Kept(p) == []
    ensures OnlyTrivia(Uncommented(Code, p))
  {
    NoSolidIsTrivia(Uncommented(Code, Trim(p)));
    TriviaBeforeTrimRight(TrimLeft(p));
    TriviaBeforeTrimLeft(p);
  }

  lemma NothingLeft(m: Mode)
    ensures Uncommented(m, []) == []
  {
  }

  lemma LoneTab(p: string, u: string)
    requires p == ['-', '-', '\n', '\U{0b}', '-', '-'] && u == ['\n', '\n', '\U{0b}', '\n']
    ensures Uncommented(Code, p) == u
  {
    hide Uncommented;
    var p2, p3, p4 := p[2..], p[3..], p[4..];
    assert p2[1..] == p3 && p3[1..] == p4 && p4[2..] == [];
    OneStep(Code, p);
    OneStep(LineComment, p2);
    OneStep(Code, p3);
    OneStep(Code, p4);
    NothingLeft(LineComment);
  }

  lemma {:induction false} SolidAt(s: string, i: nat)
    requires i < |s| && !Blank(s[i])
    ensures HasSolid(s)
  {
    if i > 0 {
      SolidAt(s[1..], i - 1);
    }
  }

  predicate OnlyBlanks(s: string) {
    forall i :: 0 <= i < |s| ==> Blank(s[i])
  }

  lemma {:induction false} NotSolidIsBlank(s: string)
    ensures !HasSolid(s) <==> OnlyBlanks(s)
  {
    if s != [] {
      NotSolidIsBlank(s[1..]);
      assert forall i :: 1 <= i < |s| ==> s[i] == s[1..][i - 1];
    }
  }

  /** A piece is dropped exactly when every character of the trimmed piece outside its comments is a
      blank, tab, carriage return, line feed or semicolon. */
  lemma DroppedExactly(p: string)
    ensures Kept(p) == [] <==> OnlyBlanks(Uncommented(Code, Trim(p)))
  {
    NotSolidIsBlank(Uncommented(Code, Trim(p)));
  }

  /** Its white space is blank, tab, carriage return and line feed. */
  predicate PlainSpaces(p: string) {
    forall i :: 0 <= i < |p| && IsSpace(p[i]) ==> Blank(p[i])
  }

  lemma PlainSpacesOf(p: string, from: nat)
    requires PlainSpaces(p) && from <= |p|
    ensures PlainSpaces(p[from..]) && PlainSpaces(p[..from])
  {
  }

  lemma EmittedIsPlain(m: Mode, p: string)
    requires p != [] && PlainSpaces(p)
    ensures PlainSpaces(Emit(m, p))
  {
  }

  /** Comment removal adds no other white space. */
  lemma {:induction false} RemovalKeepsPlain(m: Mode, p: string)
    requires PlainSpaces(p)
    ensures PlainSpaces(Uncommented(m, p))
    decreases |p|
  {
    if p != [] {
      EmittedIsPlain(m, p);
      PlainSpacesOf(p, Width(m, p));
      RemovalKeepsPlain(Next(m, p), p[Width(m, p)..]);
    }
  }

  lemma {:induction false} TrimLeftKeepsPlain(p: string)
    requires PlainSpaces(p)
    ensures PlainSpaces(TrimLeft(p))
    ensures OnlyTrivia(Uncommented(Code, p)) ==> OnlyTrivia(Uncommented(Code, TrimLeft(p)))
  {
    if p != [] && IsSpace(p[0]) {
      PlainSpacesOf(p, 1);
      TrimLeftKeepsPlain(p[1..]);
      SpaceIsPlain(p);
      var u := Uncommented(Code, p);
      assert u == [p[0]] + Uncommented(Code, p[1..]);
      assert u[1..] == Uncommented(Code, p[1..]);
    }
  }

  lemma {:induction false} TrimRightKeepsPlain(p: string)
    requires PlainSpaces(p)
    ensures PlainSpaces(TrimRight(p))
    ensures OnlyTrivia(Uncommented(Code, p)) ==> OnlyTrivia(Uncommented(Code, TrimRight(p)))
  {
    if p != [] && IsSpace(p[|p| - 1]) {
      var init := p[..|p| - 1];
      PlainSpacesOf(p, |p| - 1);
      TrimRightKeepsPlain(init);
      LastSpace(Code, p);
      var u, v := Uncommented(Code, p), Uncommented(Code, init);
      assert u != v ==> u == v + [p[|p| - 1]] && v == u[..|v|];
    }
  }

  /** So for texts whose white space is plain, as it is in files without exotic characters, what is
      dropped is exactly what holds only comments, white space and semicolons. */
  lemma DroppedExactlyWhenTrivial(p: string)
    requires PlainSpaces(p)
    ensures Kept(p) == [] <==> OnlyTrivia(Uncommented(Code, p))
  {
    DroppedExactly(p);
    if Kept(p) == [] {
      DroppedIsTrivia(p);
    }
    TrimLeftKeepsPlain(p);
    TrimRightKeepsPlain(TrimLeft(p));
    RemovalKeepsPlain(Code, Trim(p));
    hide Uncommented, TrimLeft, TrimRight, Kept, IsSpace;
  }

  /** In general some dropped-looking pieces are kept: the emptiness test knows only five of the
      white-space characters, so any other one between comments makes a statement. */
  lemma TriviaMayBeKept()
    ensures exists p :: OnlyTrivia(Uncommented(Code, p)) && Kept(p) == [p]
  {
    var p, u := ['-', '-', '\n', '\U{0b}', '-', '-'], ['\n', '\n', '\U{0b}', '\n'];
    LoneTab(p, u);
    SolidAt(u, 2);
    assert Trim(p) == p;
    assert OnlyTrivia(u);
    hide Uncommented, HasSolid, OnlyTrivia, Trim;
    assert Kept(p) == [p];
  }

  // ---------- The read-only check ----------

  /** The verdict depends only on what is outside comments. */
  lemma VerdictIgnoresComments(s: string)
    ensures LooksLikeResultQuery(Uncommented(Code, s)) == LooksLikeResultQuery(s)
  {
    RemovalIsIdempotent(Code, s);
  }

  lemma {:induction false} LowerAppend(s: string, c: char)
    ensures Lower(s + [c]) == Lower(s) + Lower([c])
  {
    if s != [] {
      assert (s + [c])[1..] == s[1..] + [c];
      LowerAppend(s[1..], c);
    }
  }

  lemma {:induction false} TrimLeftAppend(s: string, c: char)
    requires IsSpace(c)
    ensures TrimLeft(s + [c]) == if TrimLeft(s) == [] then [] else TrimLeft(s) + [c]
  {
    if s == [] {
      assert [] + [c] == [c] && TrimLeft([c][1..]) == [];
    } else if IsSpace(s[0]) {
      assert (s + [c])[1..] == s[1..] + [c];
      TrimLeftAppend(s[1..], c);
    }
  }

  lemma KeywordBeforeSpace(s: string, c: char, k: string)
    requires IsSpace(c) && |k| > 0 && !IsSpace(k[|k| - 1])
    ensures k <= Lower(s + [c]) <==> k <= Lower(s)
  {
    LowerAppend(s, c);
    assert Lower([c]) == [c];
  }

  lemma VerdictIgnoresLastSpace(u: string, c: char)
    requires IsSpace(c)
    ensures StartsWithKeyword(Lower(TrimLeft(u + [c]))) == StartsWithKeyword(Lower(TrimLeft(u)))
  {
    TrimLeftAppend(u, c);
    hide TrimLeft, IsSpace;
    if TrimLeft(u) != [] {
      hide Lower;
      KeywordBeforeSpace(TrimLeft(u), c, "select");
      KeywordBeforeSpace(TrimLeft(u), c, "with");
      KeywordBeforeSpace(TrimLeft(u), c, "pragma");
      KeywordBeforeSpace(TrimLeft(u), c, "explain");
    }
  }

  lemma {:induction false} VerdictIgnoresTrimRight(s: string)
    ensures LooksLikeResultQuery(TrimRight(s)) == LooksLikeResultQuery(s)
  {
    if s != [] && IsSpace(s[|s| - 1]) {
      VerdictIgnoresTrimRight(s[..|s| - 1]);
      LastSpace(Code, s);
      VerdictIgnoresLastSpace(Uncommented(Code, s[..|s| - 1]), s[|s| - 1]);
    }
  }

  lemma {:induction false} VerdictIgnoresTrimLeft(s: string)
    ensures LooksLikeResultQuery(TrimLeft(s)) == LooksLikeResultQuery(s)
  {
    if s != [] && IsSpace(s[0]) {
      SpaceIsPlain(s);
      VerdictIgnoresTrimLeft(s[1..]);
      assert Uncommented(Code, s)[1..] == Uncommented(Code, s[1..]);
    }
  }

  /** A statement is judged like the piece of the file that it was trimmed from, with or without
      that piece's comments. */
  lemma VerdictOfPiece(p: string)
    ensures LooksLikeResultQuery(Trim(p)) == LooksLikeResultQuery(Uncommented(Code, p))
  {
    VerdictIgnoresTrimRight(TrimLeft(p));
    VerdictIgnoresTrimLeft(p);
    VerdictIgnoresComments(p);
  }
}
