/** The MicroJava scanner (Scanner.java): a character-level state machine
    that turns the characters of a source text into tokens, tracking the
    line and column of each token.

    The source keeps its state in static fields (`ch`, `line`, `col` and a
    `Reader`); here that state is a value and every operation is a pure
    function from a state to a new state. */
module Scanner {
  import opened Tokens

  /** The end-of-input sentinel `eofCh`. */
  const EofCh: char := '\U{0080}'
  const Eol: char := '\n'
  /** What `(char) in.read()` gives once the reader is exhausted: `(char) -1`. */
  const ReaderEnd: char := '\U{FFFF}'
  /** `Integer.MAX_VALUE`, the largest value `Integer.parseInt` accepts. */
  const MaxInt: int := 0x7fff_ffff

  /** The scanner's globals: the characters the reader has not delivered yet,
      the lookahead character `ch`, and the line and column of `ch`. */
  datatype State = State(rest: seq<char>, ch: char, line: int, col: int)

  /** Decreased by every `NextCh` taken from a lookahead other than `eofCh`. */
  function Size(st: State): nat
  {
    |st.rest| + (if st.ch == EofCh then 0 else 1)
  }

  /** `nextCh`: read the next character into `ch`. A newline moves to the
      next line at column 0, any other character advances the column; the
      end of the reader (and a literal U+FFFF) become `eofCh`. */
  function NextCh(st: State): (r: State)
    ensures r.rest == if st.rest == [] then [] else st.rest[1..]
    ensures st.rest != [] && st.rest[0] == Eol ==> r.ch == Eol && r.line == st.line + 1 && r.col == 0
    ensures !(st.rest != [] && st.rest[0] == Eol) ==> r.line == st.line && r.col == st.col + 1
    ensures st.rest == [] || st.rest[0] == ReaderEnd ==> r.ch == EofCh
    ensures st.rest != [] && st.rest[0] != ReaderEnd ==> r.ch == st.rest[0]
    ensures st.ch != EofCh ==> Size(r) < Size(st)
    ensures Size(r) <= Size(st)
  {
    if st.rest == [] then
      st.(ch := EofCh, col := st.col + 1)
    else
      var c := st.rest[0];
      var s := st.(rest := st.rest[1..], col := st.col + 1);
      if c == Eol then s.(ch := c, line := st.line + 1, col := 0)
      else if c == ReaderEnd then s.(ch := EofCh)
      else s.(ch := c)
  }

  /** `init`: start at line 1, column 0 and read the first character. */
  function Init(src: seq<char>): (r: State)
    ensures r.line == if src != [] && src[0] == Eol then 2 else 1
    ensures r.col == if src != [] && src[0] == Eol then 0 else 1
  {
    NextCh(State(src, '\0', 1, 0))
  }

  // ---------------------------------------------------------------------
  // What the scanner still has to look at
  // ---------------------------------------------------------------------

  /** The characters the scanner will still look at: the lookahead `ch`,
      then each character `nextCh` reads, up to and including the first
      `eofCh`. */
  function Pending(st: State): (p: seq<char>)
    ensures |p| > 0 && p[0] == st.ch && p[|p| - 1] == EofCh
    ensures forall i :: 0 <= i < |p| - 1 ==> p[i] != EofCh
    decreases Size(st)
  {
    if st.ch == EofCh then [EofCh] else [st.ch] + Pending(NextCh(st))
  }

  /** Reading a character moves exactly that character out of `Pending`. */
  lemma NextChPending(st: State)
    requires st.ch != EofCh
    ensures Pending(st) == [st.ch] + Pending(NextCh(st))
    ensures Pending(st)[1..] == Pending(NextCh(st))
  {
  }

  /** The longest prefix of `s` whose characters all satisfy `f`. */
  function TakeWhile(s: seq<char>, f: char -> bool): (r: seq<char>)
    ensures r <= s
    ensures forall i :: 0 <= i < |r| ==> f(r[i])
    ensures |r| < |s| ==> !f(s[|r|])
  {
    if s != [] && f(s[0]) then [s[0]] + TakeWhile(s[1..], f) else []
  }

  /** What is left of `s` after its longest prefix satisfying `f`. */
  function DropWhile(s: seq<char>, f: char -> bool): seq<char>
  {
    s[|TakeWhile(s, f)|..]
  }

  // ---------------------------------------------------------------------
  // Character classes
  // ---------------------------------------------------------------------

  predicate IsBlank(c: char) { c <= ' ' }
  predicate IsLetter(c: char) { ('a' <= c <= 'z') || ('A' <= c <= 'Z') }
  predicate IsDigit(c: char) { '0' <= c <= '9' }

  /** `isAlphanumerical`: an ASCII letter or digit. Such a character is
      never blank, never `eofCh` and never an operator or separator, so a
      name or number run stops at all of them. */
  predicate IsAlphanumerical(c: char): (b: bool)
    ensures b ==> !IsBlank(c) && c != EofCh && c !in SingleChars && c !in {'=', '!', '<', '>', '/', '\''}
    ensures IsDigit(c) ==> b
  {
    IsLetter(c) || IsDigit(c)
  }

  // ---------------------------------------------------------------------
  // Keywords
  // ---------------------------------------------------------------------

  /** `key`: the reserved words, sorted. */
  const Key: seq<string> :=
    ["class", "else", "final", "if", "new", "print",
     "program", "read", "return", "void", "while"]

  /** `keyVal`: the kind of each entry of `Key`. */
  const KeyVal: seq<Kind> :=
    [KwClass, KwElse, KwFinal, KwIf, KwNew, KwPrint,
     KwProgram, KwRead, KwReturn, KwVoid, KwWhile]

  /** Lexicographic order on strings, as `String.compareTo` orders them. */
  predicate StrLess(a: string, b: string)
  {
    if a == [] then b != []
    else if b == [] then false
    else if a[0] != b[0] then a[0] < b[0]
    else StrLess(a[1..], b[1..])
  }

  /** Strict lexicographic order is transitive. */
  lemma {:induction false} StrLessTransitive(a: string, b: string, c: string)
    requires StrLess(a, b) && StrLess(b, c)
    ensures StrLess(a, c)
  {
    if a != [] && b != [] && c != [] && a[0] == b[0] && b[0] == c[0] {
      StrLessTransitive(a[1..], b[1..], c[1..]);
    }
  }

  /** Nothing is below itself. */
  lemma {:induction false} StrLessIrreflexive(a: string)
    ensures !StrLess(a, a)
  {
    if a != [] {
      StrLessIrreflexive(a[1..]);
    }
  }

  /** `key` is sorted ascending, each entry strictly below the next. */
  lemma KeysAscending()
    ensures |Key| == 11
    ensures forall i :: 0 <= i < |Key| - 1 ==> StrLess(Key[i], Key[i + 1])
  {
    assert StrLess(Key[0], Key[1]);
    assert StrLess(Key[1], Key[2]);
    assert StrLess(Key[2], Key[3]);
    assert StrLess(Key[3], Key[4]);
    assert StrLess(Key[4], Key[5]);
    assert StrLess(Key[5], Key[6]);
    assert StrLess(Key[6], Key[7]);
    assert StrLess(Key[7], Key[8]);
    assert StrLess(Key[8], Key[9]);
    assert StrLess(Key[9], Key[10]);
  }

  /** Because `key` is strictly ascending, no keyword occurs in it twice,
      so lookup by value is unambiguous. */
  lemma {:induction false} KeysDistinct(i: int, j: int)
    requires 0 <= i < j < |Key|
    ensures StrLess(Key[i], Key[j]) && Key[i] != Key[j]
    decreases j - i
  {
    KeysAscending();
    if i + 1 < j {
      KeysDistinct(i + 1, j);
      StrLessTransitive(Key[i], Key[i + 1], Key[j]);
    }
    StrLessIrreflexive(Key[i]);
  }

  /** `keyVal` pairs each keyword with the kind the parser's token-name
      table spells the same way. */
  lemma KeyValSpelling()
    ensures |KeyVal| == 11
    ensures forall i :: 0 <= i < |KeyVal| ==> IsKeyword(KeyVal[i]) && KindName(KeyVal[i]) == Key[i]
  {
    KeyValSpellingFrom(0, 6);
    KeyValSpellingFrom(6, 11);
  }

  /** `KeyValSpelling` for the entries from `lo` up to `hi`. */
  lemma KeyValSpellingFrom(lo: nat, hi: nat)
    requires lo <= hi <= |KeyVal| == 11
    ensures forall i :: lo <= i < hi ==> IsKeyword(KeyVal[i]) && KindName(KeyVal[i]) == Key[i]
  {
  }

  /** Keyword lookup by value: the kind paired with `lex` in the tables, or
      `Ident` when `lex` is no keyword. */
  function KeywordKind(lex: string): (k: Kind)
    ensures k == Ident <==> lex !in Key
    ensures k != Ident ==> exists i :: 0 <= i < |Key| && Key[i] == lex && KeyVal[i] == k
    ensures k == Ident || k in KeyVal
    ensures k != Eof
  {
    LookupFrom(lex, 0)
  }

  function LookupFrom(lex: string, i: nat): (k: Kind)
    requires i <= |Key|
    ensures k == Ident <==> lex !in Key[i..]
    ensures k != Ident ==> exists j :: i <= j < |Key| && Key[j] == lex && KeyVal[j] == k
    ensures k == Ident || k in KeyVal
    ensures k != Eof
    decreases |Key| - i
  {
    if i == |Key| then Ident
    else if Key[i] == lex then KeyVal[i]
    else LookupFrom(lex, i + 1)
  }

  /** Every keyword is recognised from its own spelling. */
  lemma KeywordRoundTrip(k: Kind)
    requires IsKeyword(k)
    ensures KeywordKind(KindName(k)) == k
  {
    KeyValSpelling();
    var j := KeywordIndex(k);
    var lex := KindName(k);
    assert Key[j] == lex;
    var i :| 0 <= i < |Key| && Key[i] == lex && KeyVal[i] == KeywordKind(lex);
    if i < j { KeysDistinct(i, j); }
    if j < i { KeysDistinct(j, i); }
  }

  /** The position of a keyword kind in `keyVal`. */
  function KeywordIndex(k: Kind): (j: nat)
    requires IsKeyword(k)
    ensures j < |KeyVal| && KeyVal[j] == k
  {
    if k == KwClass then 0 else if k == KwElse then 1 else if k == KwFinal then 2
    else if k == KwIf then 3 else if k == KwNew then 4 else if k == KwPrint then 5
    else if k == KwProgram then 6 else if k == KwRead then 7 else if k == KwReturn then 8
    else if k == KwVoid then 9 else 10
  }

  // ---------------------------------------------------------------------
  // Numbers
  // ---------------------------------------------------------------------

  predicate AllDigits(s: string)
  {
    forall i :: 0 <= i < |s| ==> IsDigit(s[i])
  }

  /** The value of a string of decimal digits. */
  function DecimalValue(ds: string): nat
    requires AllDigits(ds)
  {
    if ds == [] then 0
    else DecimalValue(ds[..|ds| - 1]) * 10 + (ds[|ds| - 1] as int - '0' as int)
  }

  /** The shortest decimal spelling of `n`. */
  function Decimal(n: nat): (ds: string)
    ensures |ds| > 0 && AllDigits(ds)
  {
    if n < 10 then [('0' as int + n) as char]
    else Decimal(n / 10) + [('0' as int + n % 10) as char]
  }

  /** Parsing a decimal spelling gives the number back. */
  lemma {:induction false} DecimalRoundTrip(n: nat)
    ensures DecimalValue(Decimal(n)) == n
  {
    var ds := Decimal(n);
    if n >= 10 {
      DecimalRoundTrip(n / 10);
      assert ds[..|ds| - 1] == Decimal(n / 10);
    }
  }

  // ---------------------------------------------------------------------
  // The scanning loops
  // ---------------------------------------------------------------------

  /** The loop `while (ch <= ' ') nextCh();` of `next`. It stops because
      `eofCh` is above ' '. */
  function SkipBlanks(st: State): (r: State)
    ensures !IsBlank(r.ch)
    ensures Size(r) <= Size(st)
    decreases Size(st)
  {
    if IsBlank(st.ch) then SkipBlanks(NextCh(st)) else st
  }

  /** Reads the maximal run of characters satisfying `f`, starting at `ch`
      (the loops of `readName` and `readNumber`). */
  function ReadRun(st: State, f: char -> bool): (r: (string, State))
    requires !f(EofCh)
    ensures !f(r.1.ch)
    ensures forall i :: 0 <= i < |r.0| ==> f(r.0[i])
    ensures |r.0| > 0 <==> f(st.ch)
    ensures f(st.ch) ==> Size(r.1) < Size(st)
    ensures Size(r.1) <= Size(st)
    decreases Size(st)
  {
    if f(st.ch) then
      var run := ReadRun(NextCh(st), f);
      var w, s := run.0, run.1;
      ([st.ch] + w, s)
    else ([], st)
  }

  /** The loop `do nextCh(); while (ch != '\n' && ch != eofCh);` that
      discards a line comment; `st.ch` is the comment's second '/'. */
  function SkipComment(st: State): (r: State)
    requires st.ch != EofCh
    ensures r.ch == Eol || r.ch == EofCh
    ensures Size(r) < Size(st)
    decreases Size(st)
  {
    var s := NextCh(st);
    if s.ch == Eol || s.ch == EofCh then s else SkipComment(s)
  }

  predicate NotLineEnd(c: char) { c != Eol && c != EofCh }

  // ---------------------------------------------------------------------
  // Tokens
  // ---------------------------------------------------------------------

  /** A token without text or value, positioned at `at`'s lookahead. */
  function Plain(k: Kind, at: State): Token
  {
    Token(k, at.line, at.col, "", 0)
  }

  /** The characters that form a token on their own, and its kind. */
  const SingleChars: map<char, Kind> := map[
    ';' := Semicolon, '.' := Period, ',' := Comma,
    '+' := Plus, '-' := Minus, '*' := Times, '%' := Rem,
    '(' := LPar, ')' := RPar, '[' := LBrack, ']' := RBrack,
    '{' := LBrace, '}' := RBrace]

  /** `readName`, as the tables and branch bodies intend it: the lexeme is
      the maximal run of letters and digits, looked up by value in
      `Key`/`KeyVal`. Scanner.java:88-89 adds the first character twice,
      Scanner.java:98 compares strings by reference and Scanner.java:109-113
      fall through to `ident`; see the ScannerAsWritten module. */
  function ReadName(st: State): (r: (Token, State))
    requires IsLetter(st.ch)
    ensures r.0.kind == KeywordKind(r.0.val) && r.0.kind != Eof
    ensures |r.0.val| > 0 && !IsAlphanumerical(r.1.ch)
    ensures Size(r.1) < Size(st)
  {
    var run := ReadRun(st, IsAlphanumerical);
    var lex, s := run.0, run.1;
    (Token(KeywordKind(lex), st.line, st.col, lex, 0), s)
  }

  /** `readNumber`, as intended: the maximal run of digits, parsed as a
      decimal number. A value `Integer.parseInt` rejects (above `MaxInt`)
      sets `ch` to `eofCh`, so the scanner reports end of input from then
      on. Scanner.java:123 compares `ch` with the integers 0..9 and never
      advances, and `readNumber` never sets the token's kind; see the
      ScannerAsWritten module. */
  function ReadNumber(st: State): (r: (Token, State))
    requires IsDigit(st.ch)
    ensures r.0.kind == Number && |r.0.val| > 0 && AllDigits(r.0.val)
    ensures DecimalValue(r.0.val) <= MaxInt ==> r.0.numVal == DecimalValue(r.0.val) && !IsDigit(r.1.ch)
    ensures DecimalValue(r.0.val) > MaxInt ==> r.0.numVal == 0 && r.1.ch == EofCh
    ensures Size(r.1) < Size(st)
  {
    var run := ReadRun(st, IsDigit);
    var lex, s := run.0, run.1;
    var v := DecimalValue(lex);
    if v <= MaxInt then (Token(Number, st.line, st.col, lex, v), s)
    else (Token(Number, st.line, st.col, lex, 0), s.(ch := EofCh))
  }

  /** `next`: skip blanks, then recognise one token. */
  function Next(st: State): (r: (Token, State))
    ensures r.0.kind == Eof ==> r.1.ch == EofCh
    ensures r.0.kind != Eof ==> Size(r.1) < Size(st)
    ensures Size(r.1) <= Size(st)
    decreases Size(st), 1
  {
    NextAt(SkipBlanks(st))
  }

  /** The body of `next` after the blank-skipping loop: the token that
      starts at the lookahead `s.ch`. */
  function NextAt(s: State): (r: (Token, State))
    requires !IsBlank(s.ch)
    ensures r.0.kind == Eof ==> r.1.ch == EofCh
    ensures r.0.kind != Eof ==> Size(r.1) < Size(s)
    ensures Size(r.1) <= Size(s)
    decreases Size(s), 0
  {
    var c := s.ch;
    // Scanner.java:143-146 leave 'p', 'v', 'P' and 'V' out of the name
    // cases; here every letter starts a name.
    if IsLetter(c) then ReadName(s)
    else if IsDigit(c) then ReadNumber(s)
    else if c == EofCh then (Plain(Eof, s), s)
    else if c in SingleChars then (Plain(SingleChars[c], s), NextCh(s))
    else if c == '/' then
      var s1 := NextCh(s);
      if s1.ch == '/' then Next(SkipComment(s1)) else (Plain(Slash, s), s1)
    else Operator(s)
  }

  /** The relational and assignment operators, which may be followed by
      '=', and every character no other case takes, which is a token of
      kind `none`. Scanner.java:178-187 let '!', '<' and '>' fall through
      into the next case; here each operator is recognised on its own and
      '!' alone is an unknown character. */
  function Operator(s: State): (r: (Token, State))
    requires s.ch != EofCh
    ensures r.0.kind != Eof && Size(r.1) < Size(s)
  {
    var s1 := NextCh(s);
    var withEq := s1.ch == '=';
    match s.ch
    case '=' => if withEq then (Plain(Eql, s), NextCh(s1)) else (Plain(Assign, s), s1)
    case '!' => if withEq then (Plain(Neq, s), NextCh(s1)) else (Plain(Unknown, s), s1)
    case '<' => if withEq then (Plain(Leq, s), NextCh(s1)) else (Plain(Lss, s), s1)
    case '>' => if withEq then (Plain(Geq, s), NextCh(s1)) else (Plain(Gtr, s), s1)
    case _ => (Plain(Unknown, s), s1)
  }

  /** Calls `next` until it reports end of input: the token stream the
      parser reads, ending in exactly one `eof` token. */
  function ScanAll(st: State): (ts: seq<Token>)
    ensures |ts| > 0 && ts[|ts| - 1].kind == Eof
    ensures forall i :: 0 <= i < |ts| - 1 ==> ts[i].kind != Eof
    decreases Size(st)
  {
    var run := Next(st);
    var t, s := run.0, run.1;
    if t.kind == Eof then [t]
    else
      var ts := ScanAll(s);
      assert forall i :: 1 <= i < |ts| + 1 ==> ([t] + ts)[i] == ts[i - 1];
      [t] + ts
  }

  /** The tokens of a whole source text. */
  function Tokenize(src: seq<char>): seq<Token>
  {
    ScanAll(Init(src))
  }
}
