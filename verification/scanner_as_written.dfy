/** The parts of Scanner.java whose code does not do what its tables and
    branch bodies say, modelled as the code is written. The Scanner module
    models the intended behaviour; each lemma here exhibits an input on
    which the two disagree. */
module ScannerAsWritten {
  import opened Tokens
  import opened Scanner
  import opened ScannerFacts

  datatype Option<T> = None | Some(value: T)

  // ---------------------------------------------------------------------
  // The keyword switch (Scanner.java:102-115)
  // ---------------------------------------------------------------------

  /** One `case` of a `switch` on strings: its spelling, the kind its body
      assigns, and whether the body ends in `break`. */
  datatype Case = Case(spelling: string, kind: Kind, breaks: bool)

  /** The keyword cases in table order, of which the first `breaking` end in
      `break`. After its cases the switch has `default: t.kind = ident`. */
  function KeywordCases(breaking: nat): (cs: seq<Case>)
    ensures |cs| == |Key|
    ensures forall i :: 0 <= i < |cs| ==>
      cs[i].spelling == Key[i] && cs[i].kind == KeyVal[i] && (cs[i].breaks <==> i < breaking)
  {
    seq(|Key|, i requires 0 <= i < |Key| => Case(Key[i], KeyVal[i], i < breaking))
  }

  /** As written, the cases from "program" (the seventh) on lack `break`. */
  const SwitchCases: seq<Case> := KeywordCases(6)

  /** The index of the first case labelled `spelling`, or `|cs|` for none. */
  function FindCase(cs: seq<Case>, spelling: string, i: nat): (j: nat)
    requires i <= |cs|
    ensures i <= j <= |cs|
    ensures j < |cs| ==> cs[j].spelling == spelling
    ensures forall m :: i <= m < j ==> cs[m].spelling != spelling
    decreases |cs| - i
  {
    if i == |cs| then |cs|
    else if cs[i].spelling == spelling then i
    else FindCase(cs, spelling, i + 1)
  }

  /** Runs the case bodies from index `j` on until one ends in `break`;
      running off the end runs `default`, which assigns `ident`. */
  function FallFrom(cs: seq<Case>, j: nat): Kind
    decreases |cs| - j
  {
    if j >= |cs| then Ident
    else if cs[j].breaks then cs[j].kind
    else FallFrom(cs, j + 1)
  }

  /** A `switch (keyword)` over the cases `cs`. */
  function Switch(cs: seq<Case>, keyword: string): Kind
  {
    FallFrom(cs, FindCase(cs, keyword, 0))
  }

  /** A string found in the tables at index `i` selects case `i`. */
  lemma {:induction false} FindKey(breaking: nat, i: int)
    requires 0 <= i < |Key|
    ensures FindCase(KeywordCases(breaking), Key[i], 0) == i
  {
    var cs := KeywordCases(breaking);
    var j := FindCase(cs, Key[i], 0);
    if j < i {
      KeysDistinct(j, i);
    }
  }

  /** With a `break` after every case, the switch is the lookup by value of
      `KeywordKind`. */
  lemma SwitchWithBreaks(keyword: string)
    ensures Switch(KeywordCases(|Key|), keyword) == KeywordKind(keyword)
  {
    var cs := KeywordCases(|Key|);
    var j := FindCase(cs, keyword, 0);
    if j < |cs| {
      FindKey(|Key|, j);
      var k := KeywordKind(keyword);
      assert k != Ident;
      var i :| 0 <= i < |Key| && Key[i] == keyword && KeyVal[i] == k;
      FindKey(|Key|, i);
    }
  }

  /** As written, the first six keywords select their own kind. */
  lemma SwitchBeforeProgram(i: int)
    requires 0 <= i < 6
    ensures Switch(SwitchCases, Key[i]) == KeyVal[i]
  {
    FindKey(6, i);
  }

  /** As written, "program", "read", "return", "void" and "while" fall
      through to `default` and come out as `ident`. */
  lemma {:induction false} SwitchFallsThrough(i: int)
    requires 6 <= i < |Key|
    ensures Switch(SwitchCases, Key[i]) == Ident
  {
    FindKey(6, i);
    FallsToDefault(i);
  }

  lemma {:induction false} FallsToDefault(j: int)
    requires 6 <= j <= |Key|
    ensures FallFrom(SwitchCases, j) == Ident
    decreases |Key| - j
  {
    if j < |Key| {
      FallsToDefault(j + 1);
    }
  }

  /** "program" is scanned as an identifier even once it is looked up. */
  lemma ProgramIsNoKeyword()
    ensures Switch(SwitchCases, "program") == Ident
    ensures KeywordKind("program") == KwProgram
  {
    SwitchFallsThrough(6);
    KeywordRoundTrip(KwProgram);
  }

  // ---------------------------------------------------------------------
  // readName (Scanner.java:87-116)
  // ---------------------------------------------------------------------

  /** `readName` as written. The lexeme gets the first character once
      before the loop and again in the loop's first round. The search
      `t.val == s` compares references: `t.val` is built by concatenation
      at run time and is never the object of a string literal of `key`, so
      `keyword` stays "" and the switch takes `default`. */
  function ReadNameAsWritten(st: State): (r: (Token, State))
    requires IsLetter(st.ch)
    ensures r.0.kind == Ident
    ensures r.0.val == [st.ch] + ReadName(st).0.val && r.1 == ReadName(st).1
  {
    var run := ReadRun(st, IsAlphanumerical);
    var lex, s := run.0, run.1;
    var keyword := SearchByReference(lex);
    NoCaseFor(keyword);
    (Token(Switch(SwitchCases, keyword), st.line, st.col, [st.ch] + lex, 0), s)
  }

  /** The search `for (String s : key) if (t.val == s) keyword = s;`.
      On strings `==` compares references, and `t.val` is built by
      concatenation at run time, so it is never one of the literal objects
      of `key`: the test never holds and `keyword` keeps its initial "". */
  function SearchByReference(lex: string): (keyword: string)
    ensures keyword !in Key
  {
    ""
  }

  /** A string that labels no case makes the switch take `default`. */
  lemma NoCaseFor(keyword: string)
    requires keyword !in Key
    ensures Switch(SwitchCases, keyword) == Ident
  {
    var j := FindCase(SwitchCases, keyword, 0);
    assert j == |SwitchCases|;
  }

  // ---------------------------------------------------------------------
  // readNumber (Scanner.java:118-135)
  // ---------------------------------------------------------------------

  /** `Integer.parseInt` on a string of decimal digits: the value, or
      `None` (the `NumberFormatException`) for an empty string, a non-digit
      or a value above `Integer.MAX_VALUE`. Only ASCII digits are
      modelled, and no sign: no lexeme the scanner builds starts with one. */
  function ParseInt(s: string): (r: Option<int>)
    ensures s == [] ==> r == None
    ensures r.Some? ==> 0 <= r.value <= MaxInt
    ensures (exists i :: 0 <= i < |s| && !IsDigit(s[i])) ==> r == None
  {
    if s != [] && AllDigits(s) && DecimalValue(s) <= MaxInt then Some(DecimalValue(s)) else None
  }

  /** Every value up to `Integer.MAX_VALUE` parses back from its decimal
      spelling. */
  lemma {:induction false} ParseIntDecimal(n: nat)
    requires n <= MaxInt
    ensures ParseInt(Decimal(n)) == Some(n)
  {
    DecimalRoundTrip(n);
  }

  /** `readNumber` as written. The loop test `ch >= 0 && ch <= 9` compares
      the character's code with 0..9; a digit has code 48..57, so the loop
      stops at once and never calls `nextCh`. `parseInt("")` throws, the
      handler sets `ch` to `eofCh`, and the token's kind is never assigned,
      so it keeps the default 0, `none`. */
  function ReadNumberAsWritten(st: State): (r: (Token, State))
    requires IsDigit(st.ch)
    ensures r.0.kind == Unknown && r.0.val == "" && r.1.ch == EofCh && r.1.rest == st.rest
  {
    assert !(0 <= st.ch as int <= 9);
    var lex := "";
    match ParseInt(lex)
    case Some(v) => (Token(Unknown, st.line, st.col, lex, v), st)
    case None => (Token(Unknown, st.line, st.col, lex, 0), st.(ch := EofCh))
  }

  // ---------------------------------------------------------------------
  // next (Scanner.java:137-201)
  // ---------------------------------------------------------------------

  /** The name cases of the switch in `next`: every ASCII letter except
      'p', 'v', 'P' and 'V'. */
  predicate NameStartAsWritten(c: char)
  {
    IsLetter(c) && c !in {'p', 'v', 'P', 'V'}
  }

  /** What a run of cases without `break` ends in: a token, or the
      recursive call `t = next()` from a state. */
  datatype Outcome = Done(tok: Token, st: State) | Rescan(st: State)

  /** The cases '!' (stage 0), '<' (1), '>' (2) and '/' (3) of `next` as
      written: none of the first three ends in `break`, so control entering
      at one stage runs the bodies of all later stages. Each body reads one
      character and, in the first three, a second one on '='; the kinds they
      assign are overwritten by the '/' case, which ends the run. `at` is
      the state at the token's first character. */
  function FallThrough(stage: nat, at: State, s: State): (o: Outcome)
    requires stage <= 3
    ensures o.Done? ==> o.tok == Plain(Slash, at)
    ensures o.Rescan? || s.ch != EofCh ==> Size(o.st) < Size(s)
    ensures Size(o.st) <= Size(s)
    decreases 3 - stage
  {
    var s1 := NextCh(s);
    if stage < 3 then
      FallThrough(stage + 1, at, if s1.ch == '=' then NextCh(s1) else s1)
    else if s1.ch == '/' then Rescan(SkipComment(s1))
    else Done(Plain(Slash, at), s1)
  }

  /** The stage at which each falling-through case is entered. */
  const Stage: map<char, nat> := map['!' := 0, '<' := 1, '>' := 2, '/' := 3]

  /** `next` as written. */
  function NextAsWritten(st: State): (r: (Token, State))
    ensures r.0.kind == Eof ==> r.1.ch == EofCh
    ensures r.0.kind != Eof ==> Size(r.1) < Size(st)
    ensures Size(r.1) <= Size(st)
    decreases Size(st)
  {
    var s := SkipBlanks(st);
    var c := s.ch;
    if NameStartAsWritten(c) then ReadNameAsWritten(s)
    else if IsDigit(c) then ReadNumberAsWritten(s)
    else if c in SingleChars then (Plain(SingleChars[c], s), NextCh(s))
    else if c == EofCh then (Plain(Eof, s), s)
    else if c == '=' then
      var s1 := NextCh(s);
      if s1.ch == '=' then (Plain(Eql, s), NextCh(s1)) else (Plain(Assign, s), s1)
    else if c in Stage && Stage[c] <= 3 then
      match FallThrough(Stage[c], s, s)
      case Done(t, s2) => (t, s2)
      case Rescan(s2) => NextAsWritten(s2)
    else (Plain(Unknown, s), NextCh(s))
  }

  /** The token stream as written, up to the first `eof`. */
  function ScanAllAsWritten(st: State): (ts: seq<Token>)
    ensures |ts| > 0 && ts[|ts| - 1].kind == Eof
    ensures ts[0] == NextAsWritten(st).0
    decreases Size(st)
  {
    var run := NextAsWritten(st);
    var t, s := run.0, run.1;
    if t.kind == Eof then [t] else [t] + ScanAllAsWritten(s)
  }

  function TokenizeAsWritten(src: seq<char>): seq<Token>
  {
    ScanAllAsWritten(Init(src))
  }

  // ---------------------------------------------------------------------
  // Inputs on which the code as written and the intended scanner differ
  // ---------------------------------------------------------------------

  /** At end of input both scanners report `eof`. */
  lemma AtEndBoth(st: State)
    requires Pending(st) == [EofCh]
    ensures ScanAllAsWritten(st) == [Plain(Eof, st)]
    ensures ScanAll(st) == [Plain(Eof, st)]
  {
    ScanAllAtEnd(st);
    assert st.ch == EofCh;
    assert SkipBlanks(st) == st;
    assert !NameStartAsWritten(st.ch) && !IsDigit(st.ch) && st.ch !in SingleChars;
    assert NextAsWritten(st) == (Plain(Eof, st), st);
  }

  /** A word of lower-case letters that starts with a name case is read as
      one identifier with its first letter doubled, whatever the word. */
  lemma WordAsWritten(w: string)
    requires LowerWord(w) && NameStartAsWritten(w[0])
    ensures var ts := TokenizeAsWritten(w);
      |ts| == 2 && ts[0].kind == Ident && ts[0].val == [w[0]] + w && ts[1].kind == Eof
  {
    FirstWordAsWritten(w);
    var st := Init(w);
    var t := NextAsWritten(st);
    AtEndBoth(t.1);
    assert ScanAllAsWritten(st) == [t.0] + ScanAllAsWritten(t.1);
  }

  /** The first token of such a word as written, after which only end of
      input is left. */
  lemma FirstWordAsWritten(w: string)
    requires LowerWord(w) && NameStartAsWritten(w[0])
    ensures var t := NextAsWritten(Init(w));
      t.0.kind == Ident && t.0.val == [w[0]] + w && Pending(t.1) == [EofCh]
  {
    assert EofCh !in w && ReaderEnd !in w by {
      forall i | 0 <= i < |w| ensures w[i] != EofCh && w[i] != ReaderEnd {
        assert 'a' <= w[i] <= 'z';
      }
    }
    assert forall i :: 0 <= i < |w| ==> IsAlphanumerical(w[i]);
    WholeRun(w, IsAlphanumerical);
    var st := Init(w);
    assert st.ch == w[0];
    NextAsWrittenName(st);
  }

  /** `next` as written at a letter it lists reads a name. */
  lemma NextAsWrittenName(st: State)
    requires !IsBlank(st.ch) && NameStartAsWritten(st.ch)
    ensures NextAsWritten(st) == ReadNameAsWritten(st)
  {
    assert SkipBlanks(st) == st;
  }

  /** Every keyword that starts with a letter the name cases list (all
      but "print", "program" and "void") is read as an identifier with its
      first letter doubled: "class" gives the identifier "cclass". The
      intended scanner reads it as the keyword. */
  lemma KeywordAsWritten(k: Kind)
    requires IsKeyword(k) && KindName(k) != [] && NameStartAsWritten(KindName(k)[0])
    ensures var w := KindName(k); var ts := TokenizeAsWritten(w);
      |ts| == 2 && ts[0].kind == Ident && ts[0].val == [w[0]] + w
    ensures var ts := Tokenize(KindName(k)); |ts| == 2 && ts[0].kind == k
  {
    KeywordScansAsItself(k);
    KeywordSpelling(k);
    WordAsWritten(KindName(k));
  }

  /** A word starting with 'p', 'v', 'P' or 'V' starts with a `none` token:
      no name case lists its first letter. */
  lemma MissingLetterAsWritten(w: string)
    requires w != [] && w[0] in {'p', 'v', 'P', 'V'}
    ensures TokenizeAsWritten(w)[0] == Plain(Unknown, Init(w))
  {
    var st := Init(w);
    assert st.ch == w[0] && SkipBlanks(st) == st;
    assert NextAsWritten(st) == (Plain(Unknown, st), NextCh(st));
  }

  /** So the keyword `void` is never scanned: it gives a `none` token (and
      then the name "ooid"). */
  lemma VoidAsWritten(w: string)
    requires w == KindName(KwVoid)
    ensures TokenizeAsWritten(w)[0].kind == Unknown
    ensures var ts := Tokenize(w); |ts| == 2 && ts[0].kind == KwVoid
  {
    KeywordScansAsItself(KwVoid);
    MissingLetterAsWritten(w);
  }

  /** Every number is lost: it gives a `none` token without text, and the
      scanner reports end of input right after it. The intended scanner
      reads it back with its value. */
  lemma NumberAsWritten(n: nat)
    requires n <= MaxInt
    ensures var st := Init(Decimal(n));
      TokenizeAsWritten(Decimal(n)) == [Plain(Unknown, st), Plain(Eof, st.(ch := EofCh))]
    ensures var ts := Tokenize(Decimal(n)); |ts| == 2 && ts[0].kind == Number && ts[0].numVal == n
  {
    NumberRoundTrip(n);
    var ds := Decimal(n);
    var st := Init(ds);
    assert IsDigit(ds[0]);
    assert st.ch == ds[0];
    NextAsWrittenDigit(st);
    var s := st.(ch := EofCh);
    AtEndBoth(s);
    assert ScanAllAsWritten(st) == [Plain(Unknown, st)] + ScanAllAsWritten(s);
  }

  /** `next` as written at a digit: a `none` token, and end of input. */
  lemma NextAsWrittenDigit(st: State)
    requires IsDigit(st.ch)
    ensures NextAsWritten(st) == (Plain(Unknown, st), st.(ch := EofCh))
  {
    assert SkipBlanks(st) == st && !NameStartAsWritten(st.ch);
    assert NextAsWritten(st) == ReadNumberAsWritten(st);
    assert ParseInt("") == None;
  }

  /** As written, no token is ever `!=`, `<`, `<=`, `>` or `>=`: the cases
      that would produce them fall through into the '/' case. */
  lemma {:induction false} NoRelationalAsWritten(st: State)
    ensures NextAsWritten(st).0.kind !in {Neq, Lss, Leq, Gtr, Geq}
    decreases Size(st)
  {
    var s := SkipBlanks(st);
    var c := s.ch;
    if !NameStartAsWritten(c) && !IsDigit(c) && c !in SingleChars && c != EofCh && c != '=' && c in Stage {
      match FallThrough(Stage[c], s, s)
      case Done(_, _) =>
      case Rescan(s2) => NoRelationalAsWritten(s2);
    }
  }

  /** "<=" is read as `/`, not as `<=`. */
  lemma LessEqualAsWritten(w: string)
    requires w == "<="
    ensures TokenizeAsWritten(w)[0].kind == Slash
    ensures Tokenize(w)[0].kind == Leq
  {
    var st := Init(w);
    assert st.ch == '<' && SkipBlanks(st) == st;
    assert NextCh(st).ch == '=';
    assert !IsLetter(st.ch) && !IsDigit(st.ch) && st.ch !in SingleChars && st.ch != EofCh;
    assert Next(st) == NextAt(st) && NextAt(st) == Operator(st);
    OperatorKinds(st);
    assert ScanAll(st)[0] == Next(st).0;
    assert !NameStartAsWritten(st.ch) && st.ch != '=' && st.ch in Stage;
    var o := FallThrough(Stage[st.ch], st, st);
    assert o.Done?;
    assert NextAsWritten(st).0 == o.tok;
  }
}
