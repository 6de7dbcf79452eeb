/** What `next` consumes and what it returns, stated over `Pending`: the
    characters the scanner still has to look at. */
module ScannerFacts {
  import opened Tokens
  import opened Scanner

  // ---------------------------------------------------------------------
  // The loops consume exactly what they claim
  // ---------------------------------------------------------------------

  /** `TakeWhile` on a sequence that starts with a character `f` accepts. */
  lemma TakeWhileCons(c: char, q: seq<char>, f: char -> bool)
    requires f(c)
    ensures TakeWhile([c] + q, f) == [c] + TakeWhile(q, f)
  {
    assert ([c] + q)[0] == c && ([c] + q)[1..] == q;
  }

  /** The blank-skipping loop consumes the maximal run of blanks. */
  lemma {:induction false} SkipBlanksPending(st: State)
    ensures Pending(st) == TakeWhile(Pending(st), IsBlank) + Pending(SkipBlanks(st))
    decreases Size(st)
  {
    if IsBlank(st.ch) {
      var s := NextCh(st);
      SkipBlanksPending(s);
      BlankStep(st);
      ConsAssoc(st.ch, TakeWhile(Pending(s), IsBlank), Pending(SkipBlanks(s)));
    } else {
      assert TakeWhile(Pending(st), IsBlank) == [];
    }
  }

  /** One round of the blank-skipping loop, seen from the pending input. */
  lemma BlankStep(st: State)
    requires IsBlank(st.ch)
    ensures var s := NextCh(st);
      && Pending(st) == [st.ch] + Pending(s)
      && TakeWhile(Pending(st), IsBlank) == [st.ch] + TakeWhile(Pending(s), IsBlank)
      && SkipBlanks(st) == SkipBlanks(s)
  {
    NextChPending(st);
    TakeWhileCons(st.ch, Pending(NextCh(st)), IsBlank);
  }

  lemma ConsAssoc(c: char, a: seq<char>, b: seq<char>)
    ensures [c] + (a + b) == ([c] + a) + b
  {
  }

  /** One round of a run loop. */
  lemma ReadRunStep(st: State, f: char -> bool)
    requires !f(EofCh) && f(st.ch)
    ensures ReadRun(st, f) == ([st.ch] + ReadRun(NextCh(st), f).0, ReadRun(NextCh(st), f).1)
  {
  }

  /** A run loop consumes exactly the maximal run of characters satisfying
      its test, and that run is its lexeme. */
  lemma {:induction false} ReadRunPending(st: State, f: char -> bool)
    requires !f(EofCh)
    ensures ReadRun(st, f).0 == TakeWhile(Pending(st), f)
    ensures Pending(st) == ReadRun(st, f).0 + Pending(ReadRun(st, f).1)
    decreases Size(st)
  {
    if f(st.ch) {
      var s := NextCh(st);
      ReadRunPending(s, f);
      ReadRunStep(st, f);
      NextChPending(st);
      TakeWhileCons(st.ch, Pending(s), f);
      var w := ReadRun(s, f).0;
      var r := ReadRun(s, f).1;
      ConsAssoc(st.ch, w, Pending(r));
    } else {
      assert TakeWhile(Pending(st), f) == [];
    }
  }

  /** A lexeme read on one line advances the column by its length. */
  lemma {:induction false} ReadRunColumns(st: State, f: char -> bool)
    requires !f(EofCh) && !f(Eol)
    ensures var r := ReadRun(st, f).1;
      r.ch != Eol ==> r.line == st.line && r.col == st.col + |ReadRun(st, f).0|
    decreases Size(st)
  {
    if f(st.ch) {
      ReadRunColumns(NextCh(st), f);
    }
  }

  /** The comment loop, started at the comment's second '/', consumes that
      '/' and then everything up to (not including) the next newline or the
      end of input. */
  lemma {:induction false} SkipCommentPending(st: State)
    requires st.ch != EofCh
    ensures var p := Pending(st);
      p == [st.ch] + TakeWhile(p[1..], NotLineEnd) + Pending(SkipComment(st))
    decreases Size(st)
  {
    var s := NextCh(st);
    SkipCommentStep(st);
    NextChPending(st);
    var q := Pending(s);
    if s.ch == Eol || s.ch == EofCh {
      assert TakeWhile(q, NotLineEnd) == [];
    } else {
      SkipCommentPending(s);
      CommentCons(st.ch, q, SkipComment(s));
    }
  }

  /** One more comment character in front of the rest of a line. */
  lemma CommentCons(c: char, q: seq<char>, r: State)
    requires q != [] && NotLineEnd(q[0])
    requires q == [q[0]] + TakeWhile(q[1..], NotLineEnd) + Pending(r)
    ensures [c] + q == [c] + TakeWhile(q, NotLineEnd) + Pending(r)
  {
    assert [q[0]] + q[1..] == q;
    TakeWhileCons(q[0], q[1..], NotLineEnd);
  }

  /** One round of the comment loop. */
  lemma SkipCommentStep(st: State)
    requires st.ch != EofCh
    ensures var s := NextCh(st);
      SkipComment(st) == if s.ch == Eol || s.ch == EofCh then s else SkipComment(s)
  {
  }

  /** Sticky end of input: at `eofCh`, `next` returns `eof` and consumes
      nothing, so every later call returns `eof` again. */
  lemma NextSticky(st: State)
    requires Next(st).0.kind == Eof
    ensures var r := Next(st).1;
      Next(r) == (Plain(Eof, r), r) && Next(Next(r).1) == Next(r)
  {
  }

  /** No token starts on a blank, and end of input (after blanks) is `eof`. */
  lemma NextAtEnd(st: State)
    requires SkipBlanks(st).ch == EofCh
    ensures Next(st) == (Plain(Eof, SkipBlanks(st)), SkipBlanks(st))
  {
  }

  /** A token that is not a comment is positioned at its first character,
      the first non-blank. */
  lemma NextPosition(st: State)
    requires var s := SkipBlanks(st); !(s.ch == '/' && NextCh(s).ch == '/')
    ensures Next(st).0.line == SkipBlanks(st).line && Next(st).0.col == SkipBlanks(st).col
  {
  }

  /** Each of `; . , + - * % ( ) [ ] { }` is a token of its own fixed kind
      and consumes exactly its one character. */
  lemma NextSingleChar(st: State)
    requires SkipBlanks(st).ch in SingleChars
    ensures var s := SkipBlanks(st); var r := Next(st);
      r.0.kind == SingleChars[s.ch] && Pending(s) == [s.ch] + Pending(r.1)
  {
    var s := SkipBlanks(st);
    assert !IsAlphanumerical(s.ch) && s.ch != EofCh;
    NextChPending(s);
  }

  /** The operators that may be followed by '=': the kind with the '=' and
      the kind without it. A '!' without '=' is an unknown character. */
  const WithEquals: map<char, (Kind, Kind)> := map[
    '=' := (Eql, Assign), '!' := (Neq, Unknown),
    '<' := (Leq, Lss), '>' := (Geq, Gtr)]

  /** `==`, `!=`, `<=`, `>=` consume two characters; `=`, `<`, `>` and a
      lone `!` consume one. Each operator is recognised on its own. */
  lemma NextOperator(st: State)
    requires SkipBlanks(st).ch in WithEquals
    ensures var s := SkipBlanks(st); var p := Pending(s); var r := Next(st);
      && |p| >= 2
      && (p[1] == '=' ==> r.0.kind == WithEquals[s.ch].0 && p == [s.ch, '='] + Pending(r.1))
      && (p[1] != '=' ==> r.0.kind == WithEquals[s.ch].1 && p == [s.ch] + Pending(r.1))
  {
    NextIsOperator(st);
    OperatorPending(SkipBlanks(st));
  }

  /** After the blanks, a character that may be followed by '=' is read by
      the operator case. */
  lemma NextIsOperator(st: State)
    requires SkipBlanks(st).ch in WithEquals
    ensures Next(st) == Operator(SkipBlanks(st))
  {
    var s := SkipBlanks(st);
    assert !IsLetter(s.ch) && !IsDigit(s.ch) && s.ch != EofCh && s.ch !in SingleChars;
    assert Next(st) == NextAt(s);
  }

  /** The characters an operator consumes, seen from the pending input. */
  lemma OperatorPending(s: State)
    requires s.ch in WithEquals
    ensures var p := Pending(s); var r := Operator(s);
      && |p| >= 2
      && (p[1] == '=' ==> r.0.kind == WithEquals[s.ch].0 && p == [s.ch, '='] + Pending(r.1))
      && (p[1] != '=' ==> r.0.kind == WithEquals[s.ch].1 && p == [s.ch] + Pending(r.1))
  {
    var s1 := NextCh(s);
    OperatorKinds(s);
    NextChPending(s);
    assert Pending(s)[1] == s1.ch;
    if s1.ch == '=' {
      TwoCharPending(s);
    }
  }

  /** Two characters read in a row, the second an '='. */
  lemma TwoCharPending(s: State)
    requires s.ch != EofCh && NextCh(s).ch == '='
    ensures Pending(s) == [s.ch, '='] + Pending(NextCh(NextCh(s)))
  {
    var s1 := NextCh(s);
    NextChPending(s);
    NextChPending(s1);
    var rest := Pending(NextCh(s1));
    assert [s.ch] + ([s1.ch] + rest) == [s.ch, '='] + rest;
  }

  /** The kinds `Operator` gives the characters that may be followed by
      '='. */
  lemma OperatorKinds(s: State)
    requires s.ch in WithEquals
    ensures var s1 := NextCh(s);
      Operator(s) == if s1.ch == '=' then (Plain(WithEquals[s.ch].0, s), NextCh(s1))
                     else (Plain(WithEquals[s.ch].1, s), s1)
  {
  }

  /** A '/' not followed by '/' is the division operator. */
  lemma NextSlash(st: State)
    requires SkipBlanks(st).ch == '/' && NextCh(SkipBlanks(st)).ch != '/'
    ensures var s := SkipBlanks(st);
      Next(st).0 == Plain(Slash, s) && Pending(s) == ['/'] + Pending(Next(st).1)
  {
    var s := SkipBlanks(st);
    assert !IsLetter(s.ch) && !IsDigit(s.ch) && s.ch != EofCh && s.ch !in SingleChars;
    assert Next(st) == NextAt(s);
    assert NextAt(s) == (Plain(Slash, s), NextCh(s));
    NextChPending(s);
  }

  /** `//` starts a comment: it and the rest of its line are discarded and
      `next` returns the token after them. */
  lemma NextComment(st: State)
    requires SkipBlanks(st).ch == '/' && NextCh(SkipBlanks(st)).ch == '/'
    ensures var s := SkipBlanks(st); var after := SkipComment(NextCh(s)); var p := Pending(s);
      && p == ['/', '/'] + TakeWhile(p[2..], NotLineEnd) + Pending(after)
      && (after.ch == Eol || after.ch == EofCh)
      && Next(st) == Next(after)
  {
    var s := SkipBlanks(st);
    var s1 := NextCh(s);
    assert !IsLetter(s.ch) && !IsDigit(s.ch) && s.ch != EofCh && s.ch !in SingleChars;
    assert Next(st) == NextAt(s);
    assert NextAt(s) == Next(SkipComment(s1));
    CommentPending(s);
  }

  /** The characters a comment discards: both slashes and the rest of the
      line. */
  lemma CommentPending(s: State)
    requires s.ch == '/' && NextCh(s).ch == '/'
    ensures var p := Pending(s);
      p == ['/', '/'] + TakeWhile(p[2..], NotLineEnd) + Pending(SkipComment(NextCh(s)))
  {
    var s1 := NextCh(s);
    NextChPending(s);
    SkipCommentPending(s1);
    var p := Pending(s);
    assert p[1..] == Pending(s1);
    assert p[2..] == Pending(s1)[1..];
  }

  /** Fail-soft: any other character is a token of kind `none` (`Unknown`)
      that consumes exactly that character. */
  lemma NextUnknown(st: State)
    requires var c := SkipBlanks(st).ch;
      !IsAlphanumerical(c) && c != EofCh && c !in SingleChars && c !in WithEquals && c != '/'
    ensures var s := SkipBlanks(st);
      Next(st).0 == Plain(Unknown, s) && Pending(s) == [s.ch] + Pending(Next(st).1)
  {
    NextChPending(SkipBlanks(st));
  }

  /** A name is the maximal run of letters and digits; it is a keyword
      exactly when the keyword table lists it. */
  lemma NextName(st: State)
    requires IsLetter(SkipBlanks(st).ch)
    ensures var s := SkipBlanks(st); var r := Next(st);
      && r.0.val == TakeWhile(Pending(s), IsAlphanumerical)
      && r.0.kind == KeywordKind(r.0.val)
      && (r.0.kind == Ident <==> r.0.val !in Key)
      && Pending(s) == r.0.val + Pending(r.1)
  {
    ReadRunPending(SkipBlanks(st), IsAlphanumerical);
  }

  /** A number is the maximal run of digits with its decimal value. A value
      above `Integer.MAX_VALUE` makes the scanner report end of input from
      then on. */
  lemma NextNumber(st: State)
    requires IsDigit(SkipBlanks(st).ch)
    ensures var s := SkipBlanks(st); var r := Next(st);
      && r.0.kind == Number
      && r.0.val == TakeWhile(Pending(s), IsDigit)
      && (DecimalValue(r.0.val) <= MaxInt ==>
            r.0.numVal == DecimalValue(r.0.val) && Pending(s) == r.0.val + Pending(r.1))
      && (DecimalValue(r.0.val) > MaxInt ==> r.0.numVal == 0 && Next(r.1).0.kind == Eof)
  {
    var s := SkipBlanks(st);
    NextIsNumber(st);
    NumberPending(s);
    var r := ReadNumber(s).1;
    if r.ch == EofCh {
      assert SkipBlanks(r) == r;
      NextAtEnd(r);
    }
  }

  /** After the blanks, a digit is read by `readNumber`. */
  lemma NextIsNumber(st: State)
    requires IsDigit(SkipBlanks(st).ch)
    ensures Next(st) == ReadNumber(SkipBlanks(st))
  {
    var s := SkipBlanks(st);
    assert !IsLetter(s.ch);
    assert Next(st) == NextAt(s);
  }

  /** The characters `readNumber` consumes, seen from the pending input. */
  lemma NumberPending(s: State)
    requires IsDigit(s.ch)
    ensures var r := ReadNumber(s);
      && r.0.kind == Number
      && r.0.val == TakeWhile(Pending(s), IsDigit)
      && (DecimalValue(r.0.val) <= MaxInt ==>
            r.0.numVal == DecimalValue(r.0.val) && Pending(s) == r.0.val + Pending(r.1))
      && (DecimalValue(r.0.val) > MaxInt ==> r.0.numVal == 0 && r.1.ch == EofCh)
  {
    ReadRunPending(s, IsDigit);
  }

  // ---------------------------------------------------------------------
  // Whole inputs
  // ---------------------------------------------------------------------

  /** The character the scanner sees for a character the reader delivers. */
  function Seen(c: char): char
  {
    if c == ReaderEnd then EofCh else c
  }

  function SeenAll(cs: seq<char>): (r: seq<char>)
    ensures |r| == |cs|
    ensures forall i :: 0 <= i < |cs| ==> r[i] == Seen(cs[i])
  {
    seq(|cs|, i requires 0 <= i < |cs| => Seen(cs[i]))
  }

  /** The prefix of `cs` up to and including its first `eofCh`. */
  function UpToEof(cs: seq<char>): seq<char>
  {
    if cs == [] then []
    else if cs[0] == EofCh then [EofCh]
    else [cs[0]] + UpToEof(cs[1..])
  }

  /** What the scanner sees is its lookahead, then the reader's characters
      with U+FFFF read as `eofCh`, then `eofCh` for the exhausted reader,
      cut after the first `eofCh`. */
  lemma {:induction false} PendingIsInput(st: State)
    ensures Pending(st) == UpToEof([st.ch] + SeenAll(st.rest) + [EofCh])
    decreases Size(st)
  {
    if st.ch != EofCh {
      PendingIsInput(NextCh(st));
      SeenStep(st);
    }
  }

  /** One character read, seen from the reader's side. */
  lemma SeenStep(st: State)
    requires st.ch != EofCh
    ensures var n := NextCh(st);
      UpToEof([st.ch] + SeenAll(st.rest) + [EofCh]) == [st.ch] + UpToEof([n.ch] + SeenAll(n.rest) + [EofCh])
  {
    var cs := [st.ch] + SeenAll(st.rest) + [EofCh];
    var n := NextCh(st);
    assert cs[1..] == SeenAll(st.rest) + [EofCh];
    if st.rest != [] {
      assert SeenAll(st.rest) + [EofCh] == [n.ch] + SeenAll(n.rest) + [EofCh];
    }
  }

  /** A source text free of the two end markers is seen in full, then
      `eofCh`. */
  lemma InitPending(src: seq<char>)
    requires EofCh !in src && ReaderEnd !in src
    ensures Pending(Init(src)) == src + [EofCh]
  {
    var st := State(src, '\0', 1, 0);
    PendingIsInput(st);
    assert SeenAll(src) == src;
    assert [st.ch] + SeenAll(src) + [EofCh] == [st.ch] + (src + [EofCh]);
    UpToEofStops(src);
  }

  lemma {:induction false} UpToEofStops(src: seq<char>)
    requires EofCh !in src
    ensures UpToEof(src + [EofCh]) == src + [EofCh]
  {
    if src != [] {
      assert (src + [EofCh])[1..] == src[1..] + [EofCh];
      UpToEofStops(src[1..]);
    }
  }

  /** After the last character, the scanner sees only end of input. */
  lemma ScanAllAtEnd(st: State)
    requires Pending(st) == [EofCh]
    ensures ScanAll(st) == [Plain(Eof, st)]
  {
    assert st.ch == EofCh;
    assert SkipBlanks(st) == st;
    assert Next(st) == (Plain(Eof, st), st);
  }


  /** A run of characters passing `f` that is the whole input is read in one
      go and leaves only end of input. */
  lemma WholeRun(w: seq<char>, f: char -> bool)
    requires w != [] && !f(EofCh)
    requires forall i :: 0 <= i < |w| ==> f(w[i])
    requires EofCh !in w && ReaderEnd !in w
    ensures var r := ReadRun(Init(w), f); r.0 == w && Pending(r.1) == [EofCh]
  {
    var st := Init(w);
    InitPending(w);
    ReadRunPending(st, f);
    TakeWhileAll(w, f);
    var r := ReadRun(st, f);
    assert Pending(st) == w + Pending(r.1);
  }


  /** A number within `int` range, written in decimal, scans back to itself
      and is followed by end of input. */
  lemma NumberRoundTrip(n: nat)
    requires n <= MaxInt
    ensures var ts := Tokenize(Decimal(n));
      |ts| == 2 && ts[0].kind == Number && ts[0].val == Decimal(n) && ts[0].numVal == n
      && ts[1].kind == Eof
  {
    var st := Init(Decimal(n));
    var r := ReadRun(st, IsDigit).1;
    NumberScan(n);
    ScanAllAtEnd(r);
    assert ScanAll(st) == [Next(st).0] + ScanAll(r);
  }

  /** The first token of a decimal spelling is the whole number, and only
      end of input is left after it. */
  lemma NumberScan(n: nat)
    requires n <= MaxInt
    ensures var st := Init(Decimal(n)); var r := ReadRun(st, IsDigit).1;
      Next(st) == (Token(Number, st.line, st.col, Decimal(n), n), r) && Pending(r) == [EofCh]
  {
    var ds := Decimal(n);
    assert EofCh !in ds && ReaderEnd !in ds by {
      forall i | 0 <= i < |ds| ensures ds[i] != EofCh && ds[i] != ReaderEnd {
        assert IsDigit(ds[i]);
      }
    }
    WholeRun(ds, IsDigit);
    var st := Init(ds);
    InitPending(ds);
    assert st.ch == ds[0];
    assert SkipBlanks(st) == st;
    DecimalRoundTrip(n);
    var r := ReadRun(st, IsDigit).1;
    assert Next(st) == ReadNumber(st);
    assert ReadNumber(st) == (Token(Number, st.line, st.col, ds, n), r);
  }

  /** A non-empty word of lower-case ASCII letters. */
  predicate LowerWord(w: string)
  {
    w != [] && forall i :: 0 <= i < |w| ==> 'a' <= w[i] <= 'z'
  }

  /** Every keyword is spelled in lower-case letters. */
  lemma KeywordSpelling(k: Kind)
    requires IsKeyword(k)
    ensures LowerWord(KindName(k))
  {
    match k
    case KwClass => assert KindName(k) == "class"; assert LowerWord("class");
    case KwElse => assert KindName(k) == "else"; assert LowerWord("else");
    case KwFinal => assert KindName(k) == "final"; assert LowerWord("final");
    case KwIf => assert KindName(k) == "if"; assert LowerWord("if");
    case KwNew => assert KindName(k) == "new"; assert LowerWord("new");
    case KwPrint => assert KindName(k) == "print"; assert LowerWord("print");
    case KwProgram => assert KindName(k) == "program"; assert LowerWord("program");
    case KwRead => assert KindName(k) == "read"; assert LowerWord("read");
    case KwReturn => assert KindName(k) == "return"; assert LowerWord("return");
    case KwVoid => assert KindName(k) == "void"; assert LowerWord("void");
    case KwWhile => assert KindName(k) == "while"; assert LowerWord("while");
  }


  /** A single word of lower-case letters scans as one name token, looked
      up in the keyword table, followed by end of input. */
  lemma WordScans(w: string)
    requires LowerWord(w)
    ensures var ts := Tokenize(w);
      |ts| == 2 && ts[0].kind == KeywordKind(w) && ts[0].val == w && ts[1].kind == Eof
  {
    assert EofCh !in w && ReaderEnd !in w by {
      forall i | 0 <= i < |w| ensures w[i] != EofCh && w[i] != ReaderEnd {
        assert 'a' <= w[i] <= 'z';
      }
    }
    assert forall i :: 0 <= i < |w| ==> IsAlphanumerical(w[i]);
    WholeRun(w, IsAlphanumerical);
    var st := Init(w);
    InitPending(w);
    assert st.ch == w[0];
    assert SkipBlanks(st) == st;
    var run := ReadRun(st, IsAlphanumerical);
    var t, r := run.0, run.1;
    assert Next(st) == ReadName(st);
    assert ReadName(st) == (Token(KeywordKind(w), st.line, st.col, w, 0), r);
    ScanAllAtEnd(r);
    assert ScanAll(st) == [Next(st).0] + ScanAll(r);
  }


  /** Each keyword, written alone, scans as that keyword. */
  lemma KeywordScansAsItself(k: Kind)
    requires IsKeyword(k)
    ensures var ts := Tokenize(KindName(k));
      |ts| == 2 && ts[0].kind == k && ts[1].kind == Eof
  {
    KeywordSpelling(k);
    WordScans(KindName(k));
    KeywordRoundTrip(k);
  }

  /** When every character of `w` passes the test and the sentinel does
      not, the run over `w` then `eofCh` is all of `w`. */
  lemma {:induction false} TakeWhileAll(w: seq<char>, f: char -> bool)
    requires forall i :: 0 <= i < |w| ==> f(w[i])
    requires !f(EofCh)
    ensures TakeWhile(w + [EofCh], f) == w
  {
    if w != [] {
      assert (w + [EofCh])[1..] == w[1..] + [EofCh];
      TakeWhileAll(w[1..], f);
    }
  }

}
