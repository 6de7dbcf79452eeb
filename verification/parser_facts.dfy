/** Facts about the parser's error machinery, its sets, its code frames
    and the print statement of Parser.java as written. */
module ParserFacts {
  import opened Tokens
  import opened Parser

  /** The synchronisation sets as `parse` builds them: `syncStat` is
      `firstStat` without `ident` and with `rbrace` and `eof`; both sets
      hold `eof`, so skipping stops at the end of input at the latest; and
      the inline tests before an expression are membership in
      `firstExpr`. */
  lemma SyncSets()
    ensures SyncStat == {KwIf, KwWhile, KwRead, KwReturn, KwPrint, LBrace, Semicolon, RBrace, Eof}
    ensures Ident in FirstStat && Ident !in SyncStat
    ensures Eof in SyncStat && Eof in SyncDecl
    ensures forall k :: StartsExpr(k) <==> k in FirstExpr
    ensures FirstFactor == FirstExpr - {Minus}
  {
  }

  /** The `name` table spells every kind differently. */
  lemma NamesDistinct()
    ensures forall i, j :: 0 <= i < j < |NameTable| ==> NameTable[i] != NameTable[j]
  {
  }

  /** A "… expected" message is the `name` table entry of the expected
      kind followed by " expected", and it names that kind unambiguously:
      two such messages read the same only when they expect the same kind. */
  lemma {:induction false} MissingText(k1: Kind, k2: Kind)
    ensures Text(Missing(k1)) == NameTable[Code(k1)] + " expected"
    ensures Text(Missing(k1)) == Text(Missing(k2)) <==> k1 == k2
  {
    KindNameTable(k1);
    KindNameTable(k2);
    if Text(Missing(k1)) == Text(Missing(k2)) {
      var a, b := KindName(k1), KindName(k2);
      assert |a| == |b|;
      assert a == (a + " expected")[..|a|] == (b + " expected")[..|b|] == b;
      NamesDistinct();
      CodeRoundTrip(k1);
      CodeRoundTrip(k2);
    }
  }

  /** Cascade suppression: after an error, another error within the next
      two tokens is not counted and not reported. */
  lemma CascadeSuppressed(st: State, m1: Msg, m2: Msg)
    requires Sym(st) != Eof
    requires Sym(Scan(Error(st, m1))) != Eof
    ensures var e := Error(st, m1);
      && Error(e, m2).errors == e.errors
      && Error(Scan(e), m2).errors == e.errors
      && Error(Scan(Scan(e)), m2).errors == e.errors
  {
  }

  /** Once three tokens were recognised after an error, errors are counted
      and reported again, at the lookahead. */
  lemma ReportingResumes(st: State, m1: Msg, m2: Msg)
    requires Sym(st) != Eof
    requires Sym(Scan(Error(st, m1))) != Eof
    requires Sym(Scan(Scan(Error(st, m1)))) != Eof
    ensures var s := Scan(Scan(Scan(Error(st, m1))));
      && Error(s, m2).errors == s.errors + 1
      && Error(s, m2).diags == s.diags + [Diag(La(s).line, La(s).col, m2)]
  {
  }

  /** The first error is always reported: `parse` starts with `errDist`
      at 3 (and its first `scan` raises it to 4). */
  lemma FirstErrorReported(toks: seq<Token>, m: Msg)
    ensures var st := Start(toks);
      Error(st, m).errors == 1 && Error(st, m).diags == [Diag(La(st).line, La(st).col, m)]
  {
  }

  /** `MethodCode` and `DecodeFrame` are inverse: a frame tells the
      parameter count, the local count and the ending it was made from. */
  lemma FrameRoundTrip(nPars: nat, nLocals: nat, isVoid: bool)
    ensures DecodeFrame(MethodCode(nPars, nLocals, isVoid)) == (nPars, nLocals, isVoid)
  {
  }

  /** Every frame-aligned window of five words in a stream of whole
      frames is one method's frame. */
  lemma {:induction false} FrameAt(c: seq<Word>, i: nat)
    requires Frames(c) && 5 * i < |c|
    ensures 5 * i + 5 <= |c| && IsFrame(c[5 * i .. 5 * i + 5])
    decreases i
  {
    assert |c| >= 5 && IsFrame(c[..5]) && Frames(c[5..]);
    if i > 0 {
      FrameAt(c[5..], i - 1);
      assert c[5..][5 * (i - 1) .. 5 * (i - 1) + 5] == c[5 * i .. 5 * i + 5];
    }
  }

  // ---------------------------------------------------------------------
  // The print statement as written (Parser.java:329-333)
  // ---------------------------------------------------------------------

  /** `print(x)`, which the grammar allows: as written, the `)` after the
      expression is reported as "comma or number expected"; the grammar's
      version consumes nothing and leaves the `)` to `check(rpar)`. */
  lemma PrintWithoutWidth(st: State)
    requires Sym(st) == RPar && st.errDist >= 3
    ensures PrintArgsAsWritten(st).errors == st.errors + 1
    ensures PrintArgsAsWritten(st).diags == st.diags + [Diag(La(st).line, La(st).col, NoCommaOrNumber)]
    ensures PrintArgs(st) == st
  {
  }

  /** `print(x, 5)`: as written only the comma is consumed, so the width
      is left as the lookahead where `check(rpar)` expects `)`; the
      grammar's version consumes both without an error. */
  lemma PrintWithWidth(st: State)
    requires Sym(st) == Comma && st.pos + 1 < |st.toks| && st.toks[st.pos + 1].kind == Number
    ensures Sym(PrintArgsAsWritten(st)) == Number
    ensures PrintArgs(st).pos == st.pos + 2 && PrintArgs(st).errors == st.errors
  {
  }

  /** `print(x 5)`, which the grammar rejects: as written the number is
      consumed without an error; the grammar's version leaves it to
      `check(rpar)`, which reports it. */
  lemma PrintWidthWithoutComma(st: State)
    requires Sym(st) == Number
    ensures PrintArgsAsWritten(st).pos == st.pos + 1 && PrintArgsAsWritten(st).errors == st.errors
    ensures PrintArgs(st) == st
  {
  }
}
