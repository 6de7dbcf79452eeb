/** The MicroJava parser (Parser.java): a recursive-descent recogniser with
    one token of lookahead, cascade suppression of error messages and
    panic-mode recovery at declarations and statements.

    The source keeps its state in static fields (`la`, `sym`, `errors`,
    `errDist`) and reads tokens from the scanner on demand. Here the tokens
    are a sequence read at index `pos`, and every parsing method takes the
    state before it and returns the state after it. */
module Parser {
  import opened Tokens
  import Grammar

  /** A reported syntax error: the line and column of the lookahead token
      and the message (the line `error` prints). */
  datatype Diag = Diag(line: int, col: int, msg: Msg)

  /** The messages the parser reports. `Missing(k)` is `check`'s
      "<name of k> expected"; `Text` gives the printed wording of each. */
  datatype Msg =
    | Missing(k: Kind)
    | BadDeclStart | BadStatStart | NoMulop | NoAddop | NoRelop | NoFactor
    | NoStatement | NoAssignOrCall | NoConstValue | NoMethodType
    | NoCommaOrNumber | TrailingInput

  function Text(m: Msg): string
  {
    match m
    case Missing(k) => KindName(k) + " expected"
    case BadDeclStart => "invalid start of declaration"
    case BadStatStart => "invalid start of statement"
    case NoMulop => "Times, slash or rem expected"
    case NoAddop => "plus or minus expected"
    case NoRelop => "==, !=, >, >=, <, <= expected"
    case NoFactor => "Designator, number, charcon, new, or lpar expected"
    case NoStatement => "[long list here] 1 expected"
    case NoAssignOrCall => "assign or lpar expected"
    case NoConstValue => "number or char constant expected"
    case NoMethodType => "void or function type expected"
    case NoCommaOrNumber => "comma or number expected"
    case TrailingInput => "end of file found before end of program"
  }

  /** The instructions `MethodDecl` emits, and the words of the code
      stream: an opcode or an operand. */
  datatype Opcode = Enter | Exit | Return | Trap
  datatype Word = Op(op: Opcode) | Arg(n: int)

  /** The parser's globals. `toks[pos]` is the lookahead `la` (so `sym` is
      its kind); `errors` counts reported errors, `errDist` the tokens
      recognised since the last error; `diags` are the reported errors in
      order and `code` the words emitted so far. */
  datatype PState = PState(toks: seq<Token>, pos: nat, errors: nat, errDist: nat,
                           diags: seq<Diag>, code: seq<Word>)

  // ---------------------------------------------------------------------
  // Lookahead, scan, check, error
  // ---------------------------------------------------------------------

  /** The lookahead `la`. Past the last token the scanner keeps returning
      end of input (its `eof` is sticky), which `EofToken` stands for. */
  function La(st: PState): Token
  {
    if st.pos < |st.toks| then st.toks[st.pos] else EofToken
  }

  const EofToken: Token := Token(Eof, 0, 0, "", 0)

  /** The kind of token `i`, end of input past the last token. */
  function KindAt(toks: seq<Token>, i: nat): Kind
  {
    if i < |toks| then toks[i].kind else Eof
  }

  /** `sym`, which always holds `la.kind`. */
  function Sym(st: PState): (k: Kind)
    ensures k == La(st).kind
  {
    KindAt(st.toks, st.pos)
  }

  /** `errDist` counted only up to 3, the distance at which errors are
      reported again. */
  function Cap(d: nat): nat
  {
    if d < 3 then d else 3
  }

  /** A potential: a reported error costs 3 and needs `errDist` to have
      grown to 3 since the last error, which needs 3 scanned tokens. */
  function Pot(st: PState): int
  {
    3 * st.errors + Cap(st.errDist) - st.pos
  }

  /** What holds of every state the parser reaches: the lookahead is at
      most one past the tokens, there is one diagnostic per counted error,
      no error has been counted only while the next one would be (so the
      first error is always reported), and the potential has not grown
      above its initial 3, which bounds the errors by the tokens. */
  predicate Valid(st: PState)
  {
    && st.pos <= |st.toks|
    && |st.diags| == st.errors
    && (st.errors > 0 || st.errDist >= 3)
    && Pot(st) <= 3
  }

  type State = st: PState | Valid(st) witness PState([], 0, 0, 3, [], [])

  /** In every reachable state there is one diagnostic per counted error,
      and at most one error per three tokens, plus one, has been counted. */
  lemma {:induction false} ValidBound(st: State)
    ensures |st.diags| == st.errors
    ensures 3 * st.errors <= |st.toks| + 3
  {
  }

  /** What every parsing step keeps or only moves forward: the tokens, the
      position, the count of errors, the diagnostics reported so far, and
      the code emitted. */
  predicate Step(st: State, r: State)
  {
    && r.toks == st.toks
    && st.pos <= r.pos
    && st.errors <= r.errors
    && st.diags <= r.diags
    && st.code <= r.code
  }

  /** A step that emits no code. */
  predicate Parsed(st: State, r: State)
  {
    Step(st, r) && r.code == st.code
  }

  lemma {:induction false} ParsedTrans(a: State, b: State, c: State)
    requires Parsed(a, b) && Parsed(b, c)
    ensures Parsed(a, c)
  {
  }

  lemma {:induction false} StepTrans(a: State, b: State, c: State)
    requires Step(a, b) && Step(b, c)
    ensures Step(a, c)
  {
  }

  /** A diagnostic once reported stays the first one. */
  lemma {:induction false} FirstDiag(a: State, b: State)
    requires Step(a, b)
    ensures |a.diags| > 0 ==> b.diags[0] == a.diags[0]
  {
  }

  /** `r` is `st` with `n` more tokens recognised and no error in
      between: the lookahead has moved `n` tokens on, `errDist` has grown
      by `n`, and nothing was reported. */
  predicate Advanced(st: PState, r: PState, n: int)
  {
    && r.toks == st.toks
    && r.pos == st.pos + n
    && r.errDist == st.errDist + n
    && r.errors == st.errors
    && r.diags == st.diags
  }

  /** `r` is `st` after `error(msg)`: nothing consumed, `errDist` back at
      0, and the error counted and reported at the lookahead exactly when
      `errDist` had reached 3, and otherwise suppressed. */
  predicate Reported(st: PState, r: PState, msg: Msg)
  {
    && r.toks == st.toks && r.pos == st.pos && r.errDist == 0 && r.code == st.code
    && (if st.errDist >= 3
        then r.errors == st.errors + 1 && r.diags == st.diags + [Diag(La(st).line, La(st).col, msg)]
        else r.errors == st.errors && r.diags == st.diags)
  }

  /** `scan`: the lookahead becomes the recognised token, the next token
      becomes the lookahead, and one more token counts towards `errDist`.
      The parser never scans at end of input. */
  function Scan(st: State): (r: State)
    requires Sym(st) != Eof
    ensures r.pos == st.pos + 1 && r.errDist == st.errDist + 1
    ensures r.toks == st.toks && r.errors == st.errors && r.diags == st.diags && r.code == st.code
  {
    st.(pos := st.pos + 1, errDist := st.errDist + 1)
  }

  /** `error`: reported (counted, with the lookahead's position) only when
      at least three tokens were recognised since the last error; either
      way the distance starts again from 0. */
  function Error(st: State, msg: Msg): (r: State)
    ensures r.errDist == 0 && r.pos == st.pos
    ensures st.errDist >= 3 ==>
      r.errors == st.errors + 1 && r.diags == st.diags + [Diag(La(st).line, La(st).col, msg)]
    ensures st.errDist < 3 ==> r.errors == st.errors && r.diags == st.diags
    ensures Parsed(st, r)
  {
    if st.errDist >= 3 then
      st.(errors := st.errors + 1, diags := st.diags + [Diag(La(st).line, La(st).col, msg)], errDist := 0)
    else st.(errDist := 0)
  }

  /** `check(k)`: consume the lookahead if it is `k`, else report that `k`
      was expected and consume nothing. */
  method Check(st: State, k: Kind) returns (r: State)
    requires k != Eof
    ensures Sym(st) == k ==> Advanced(st, r, 1)
    ensures Sym(st) != k ==> Reported(st, r, Missing(k))
    ensures Parsed(st, r)
  {
    if Sym(st) == k {
      r := Scan(st);
    } else {
      r := Error(st, Missing(k));
    }
  }

  // ---------------------------------------------------------------------
  // First and synchronisation sets (built in `parse`)
  // ---------------------------------------------------------------------

  /** The tokens an expression can start with. */
  const FirstExpr: set<Kind> := {Ident, Number, CharCon, KwNew, LPar, Minus}

  /** The tokens a statement can start with. */
  const FirstStat: set<Kind> := {Ident, KwIf, KwWhile, KwRead, KwReturn, KwPrint, LBrace, Semicolon}

  /** Where statement recovery stops: a copy of `firstStat` with `rbrace`
      and `eof` added and `ident` cleared. */
  const SyncStat: set<Kind> := (FirstStat + {RBrace, Eof}) - {Ident}

  /** Where declaration recovery stops. */
  const SyncDecl: set<Kind> := {KwFinal, KwClass, LBrace, KwVoid, Semicolon, Eof}

  /** The inline test `sym == minus | sym == ident | sym == number |
      sym == charCon | sym == new_ | sym == lpar` that `ActPars` and the
      `return` and `print` statements use before parsing an expression. */
  predicate StartsExpr(k: Kind)
  {
    k == Minus || k == Ident || k == Number || k == CharCon || k == KwNew || k == LPar
  }

  /** The tokens `Factor` accepts. */
  const FirstFactor: set<Kind> := {Ident, Number, CharCon, KwNew, LPar}

  const MulOps: set<Kind> := {Times, Slash, Rem}
  const AddOps: set<Kind> := {Plus, Minus}
  const RelOps: set<Kind> := {Eql, Neq, Gtr, Geq, Lss, Leq}

  // ---------------------------------------------------------------------
  // The input against the grammar
  //
  // A production accepts a tree when the tokens from the lookahead on
  // are the tree's yield and the token after them cannot continue the
  // production: the parser's loops and optional parts run exactly as
  // long as the next token can continue them. The continuation sets are
  // the tokens that do, and none of them can follow the production
  // anywhere in the grammar (after an expression come `]`, `)`, `,`, `;`
  // and the relational operators; after a statement another statement,
  // `}` or `else`).
  // ---------------------------------------------------------------------

  /** The tokens from `i` on start with the kinds `y`. */
  predicate Matches(toks: seq<Token>, i: nat, y: seq<Kind>)
    decreases |y|
  {
    if |y| == 0 then i <= |toks|
    else i < |toks| && toks[i].kind == y[0] && Matches(toks, i + 1, y[1..])
  }

  /** The tokens from `i` on are `y`, and the token after them is not in
      `cont`. */
  predicate AheadAt(toks: seq<Token>, i: nat, y: seq<Kind>, cont: set<Kind>)
  {
    Matches(toks, i, y) && KindAt(toks, i + |y|) !in cont
  }

  /** The same from the lookahead on. */
  predicate Ahead(st: PState, y: seq<Kind>, cont: set<Kind>)
  {
    AheadAt(st.toks, st.pos, y, cont)
  }

  const TypeCont: set<Kind> := {LBrack}
  const DesignatorCont: set<Kind> := {Period, LBrack}
  const FactorCont: set<Kind> := {Period, LBrack, LPar}
  const TermCont: set<Kind> := {Period, LBrack, LPar, Times, Slash, Rem}
  const ExprCont: set<Kind> := {Period, LBrack, LPar, Times, Slash, Rem, Plus, Minus}

  /** Only an `else` continues a statement, and only one that ends in an
      `if` without `else`. */
  function StatementCont(s: Grammar.Statement): set<Kind>
  {
    if Grammar.Open(s) then {KwElse} else {}
  }

  /** Matching a concatenation is matching its parts one after the other. */
  lemma {:induction false} MatchesAppend(toks: seq<Token>, i: nat, a: seq<Kind>, b: seq<Kind>)
    ensures Matches(toks, i, a + b) <==> Matches(toks, i, a) && Matches(toks, i + |a|, b)
    decreases |a|
  {
    if |a| == 0 {
      assert a + b == b;
      if Matches(toks, i, b) {
        MatchesWithin(toks, i, b);
      }
    } else {
      assert (a + b)[1..] == a[1..] + b;
      MatchesAppend(toks, i + 1, a[1..], b);
    }
  }

  /** A match lies within the tokens. */
  lemma {:induction false} MatchesWithin(toks: seq<Token>, i: nat, y: seq<Kind>)
    requires Matches(toks, i, y)
    ensures i + |y| <= |toks|
    decreases |y|
  {
    if |y| > 0 {
      MatchesWithin(toks, i + 1, y[1..]);
    }
  }

  /** Each position of a match holds its kind. */
  lemma {:induction false} KindOf(toks: seq<Token>, i: nat, y: seq<Kind>, j: nat)
    requires Matches(toks, i, y) && j < |y|
    ensures KindAt(toks, i + j) == y[j]
    decreases j
  {
    if j > 0 {
      KindOf(toks, i + 1, y[1..], j - 1);
    }
  }

  /** Reading `a + b` is reading `a`, which the first token of `b` (or,
      when `b` is empty, what follows) cannot continue, and then `b`. */
  lemma {:induction false} Split(toks: seq<Token>, i: nat, a: seq<Kind>, b: seq<Kind>, cont: set<Kind>, contA: set<Kind>)
    requires AheadAt(toks, i, a + b, cont)
    requires if |b| > 0 then b[0] !in contA else contA <= cont
    ensures AheadAt(toks, i, a, contA) && AheadAt(toks, i + |a|, b, cont)
  {
    MatchesAppend(toks, i, a, b);
    if |b| > 0 {
      KindOf(toks, i + |a|, b, 0);
    }
  }

  /** Reading `[k] + b` is reading `k` and then `b`. */
  lemma {:induction false} Take(toks: seq<Token>, i: nat, k: Kind, b: seq<Kind>, cont: set<Kind>)
    requires AheadAt(toks, i, [k] + b, cont)
    ensures KindAt(toks, i) == k && AheadAt(toks, i + 1, b, cont)
  {
    Split(toks, i, [k], b, cont, {});
    KindOf(toks, i, [k], 0);
  }

  /** The first token read is the first of `y`, or, when `y` is empty, one
      outside `cont`. */
  lemma {:induction false} Head(toks: seq<Token>, i: nat, y: seq<Kind>, cont: set<Kind>)
    requires AheadAt(toks, i, y, cont)
    ensures if |y| > 0 then KindAt(toks, i) == y[0] else KindAt(toks, i) !in cont
  {
  }

  // ---------------------------------------------------------------------
  // Panic mode
  // ---------------------------------------------------------------------

  /** Scans until the lookahead is in `sync`. Both synchronisation sets
      hold `eof`, at which the scanner stays, so the skipping ends. */
  method SkipUntil(st: State, sync: set<Kind>) returns (r: State)
    requires Eof in sync
    ensures Sym(r) in sync
    ensures forall i :: st.pos <= i < r.pos ==> i < |st.toks| && st.toks[i].kind !in sync
    ensures Parsed(st, r) && r.errors == st.errors
  {
    r := st;
    while Sym(r) !in sync
      invariant Parsed(st, r) && r.errors == st.errors
      invariant forall i :: st.pos <= i < r.pos ==> i < |st.toks| && st.toks[i].kind !in sync
      decreases |r.toks| - r.pos
    {
      r := Scan(r);
    }
  }

  /** Recovery at a statement (Parser.java:272-276): report, skip to a
      token of `syncStat`, and start counting again from 0. The error is
      counted at most once, and always when no error was counted before,
      so afterwards at least one error has been counted. */
  method RecoverStat(st: State) returns (r: State)
    ensures Sym(r) in SyncStat && r.errDist == 0
    ensures r.errors == st.errors + (if st.errDist >= 3 then 1 else 0)
    ensures r.errors > 0
    ensures forall i :: st.pos <= i < r.pos ==> i < |st.toks| && st.toks[i].kind !in SyncStat
    ensures Parsed(st, r)
  {
    r := SkipUntil(Error(st, BadStatStart), SyncStat);
    r := r.(errDist := 0);
  }

  /** Recovery at a declaration (Parser.java:107-113): report, skip the
      offending token and then up to a token of `syncDecl`, and start
      counting again from 0. */
  method RecoverDecl(st: State) returns (r: State)
    requires Sym(st) != Eof
    ensures Sym(r) in SyncDecl && r.errDist == 0 && r.pos > st.pos
    ensures r.errors == st.errors + (if st.errDist >= 3 then 1 else 0)
    ensures r.errors > 0
    ensures forall i :: st.pos < i < r.pos ==> i < |st.toks| && st.toks[i].kind !in SyncDecl
    ensures Parsed(st, r)
  {
    r := SkipUntil(Scan(Error(st, BadDeclStart)), SyncDecl);
    r := r.(errDist := 0);
  }

  // ---------------------------------------------------------------------
  // Single-token productions
  // ---------------------------------------------------------------------

  /** Mulop = "*" | "/" | "%". */
  method Mulop(st: State) returns (r: State)
    ensures Sym(st) in MulOps ==> Advanced(st, r, 1)
    ensures Sym(st) !in MulOps ==> Reported(st, r, NoMulop)
    ensures Parsed(st, r)
  {
    if Sym(st) in MulOps {
      r := Scan(st);
    } else {
      r := Error(st, NoMulop);
    }
  }

  /** Addop = "+" | "-". */
  method Addop(st: State) returns (r: State)
    ensures Sym(st) in AddOps ==> Advanced(st, r, 1)
    ensures Sym(st) !in AddOps ==> Reported(st, r, NoAddop)
    ensures Parsed(st, r)
  {
    if Sym(st) in AddOps {
      r := Scan(st);
    } else {
      r := Error(st, NoAddop);
    }
  }

  /** Relop = "==" | "!=" | ">" | ">=" | "<" | "<=". */
  method Relop(st: State) returns (r: State)
    ensures Sym(st) in RelOps ==> Advanced(st, r, 1)
    ensures Sym(st) !in RelOps ==> Reported(st, r, NoRelop)
    ensures Parsed(st, r)
  {
    if Sym(st) in RelOps {
      r := Scan(st);
    } else {
      r := Error(st, NoRelop);
    }
  }

  /** Type = ident ["[" "]"]. */
  method Type(st: State, ghost t: Grammar.Type) returns (r: State)
    ensures Parsed(st, r)
    ensures Sym(st) == Ident ==> r.pos > st.pos
    ensures Ahead(st, Grammar.TypeYield(t), TypeCont) ==> Advanced(st, r, |Grammar.TypeYield(t)|)
  {
    ghost var acc := Ahead(st, Grammar.TypeYield(t), TypeCont);
    if acc {
      KindOf(st.toks, st.pos, Grammar.TypeYield(t), 0);
      if t.Array? {
        KindOf(st.toks, st.pos, Grammar.TypeYield(t), 1);
        KindOf(st.toks, st.pos, Grammar.TypeYield(t), 2);
      }
    }
    r := Check(st, Ident);
    if Sym(r) == LBrack {
      r := Check(Scan(r), RBrack);
    }
  }

  // ---------------------------------------------------------------------
  // Expressions and designators (mutually recursive)
  //
  // Each method decreases the tokens left, then a rank that orders the
  // calls made without consuming a token: Designator (2) below the
  // alternatives of Factor (3) below Factor (4) below Term (5) below
  // Expr (6) below Condition (7).
  // ---------------------------------------------------------------------

  /** One selector of a designator, "." ident | "[" Expr "]": the body of
      the selector loop of `Designator`. */
  method Selector(st: State, ghost sel: Grammar.Selector) returns (r: State)
    requires Sym(st) == Period || Sym(st) == LBrack
    ensures Parsed(st, r) && r.pos > st.pos
    ensures Ahead(st, Grammar.SelectorYield(sel), {}) ==> Advanced(st, r, |Grammar.SelectorYield(sel)|)
    decreases |st.toks| - st.pos, 1
  {
    var s1 := Scan(st);
    if Sym(st) == Period {
      r := Check(s1, Ident);
      FieldAccepts(st, s1, r, sel);
    } else {
      ghost var e := if sel.Index? then sel.index else Grammar.Zero;
      var r1 := Expr(s1, e);
      r := Check(r1, RBrack);
      IndexAccepts(st, s1, r1, r, sel, e);
    }
  }

  /** Designator = ident {"." ident | "[" Expr "]"}. */
  method Designator(st: State, ghost d: Grammar.Designator) returns (r: State)
    ensures Parsed(st, r)
    ensures Sym(st) == Ident ==> r.pos > st.pos
    ensures Sym(r) != Period && Sym(r) != LBrack
    ensures Ahead(st, Grammar.DesignatorYield(d), DesignatorCont) ==>
      Advanced(st, r, |Grammar.DesignatorYield(d)|)
    decreases |st.toks| - st.pos, 2
  {
    ghost var acc := Ahead(st, Grammar.DesignatorYield(d), DesignatorCont);
    ghost var n := |Grammar.DesignatorYield(d)|;
    ghost var rest := d.sels;
    r := Check(st, Ident);
    DesignatorStart(st, r, d);
    while Sym(r) == Period || Sym(r) == LBrack
      invariant Parsed(st, r)
      invariant Sym(st) == Ident ==> r.pos > st.pos
      invariant acc ==> SelectorsLeft(st, r, rest, n)
      decreases |r.toks| - r.pos
    {
      ghost var sel := if |rest| > 0 then rest[0] else Grammar.Field;
      var r1 := Selector(r, sel);
      if acc {
        DesignatorStep(st, r, r1, rest, sel, n);
      }
      r := r1;
      rest := if |rest| > 0 then rest[1..] else rest;
    }
    if acc {
      DesignatorEnd(st, r, rest, n);
    }
  }

  /** The alternative Designator [ActPars] of `Factor`. */
  method DesignatorFactor(st: State, ghost f: Grammar.Factor) returns (r: State)
    requires Sym(st) == Ident
    ensures Parsed(st, r) && r.pos > st.pos
    ensures Ahead(st, Grammar.FactorYield(f), FactorCont) ==> Advanced(st, r, |Grammar.FactorYield(f)|)
    decreases |st.toks| - st.pos, 3
  {
    ghost var d := if f.Access? || f.Call? then f.d else Grammar.Designator([]);
    ghost var args := if f.Call? then f.args else [];
    var r1 := Designator(st, d);
    if Sym(r1) == LPar {
      r := ActPars(r1, args);
      CallAccepts(st, r1, r, f, d, args);
    } else {
      r := r1;
      AccessAccepts(st, r1, f, d);
    }
  }

  /** The alternative "new" ident ["[" Expr "]"] of `Factor`. */
  method NewFactor(st: State, ghost f: Grammar.Factor) returns (r: State)
    requires Sym(st) == KwNew
    ensures Parsed(st, r) && r.pos > st.pos
    ensures Ahead(st, Grammar.FactorYield(f), FactorCont) ==> Advanced(st, r, |Grammar.FactorYield(f)|)
    decreases |st.toks| - st.pos, 3
  {
    var s1 := Scan(st);
    var r1 := Check(s1, Ident);
    if Sym(r1) == LBrack {
      ghost var e := if f.NewArray? then f.len else Grammar.Zero;
      var s2 := Scan(r1);
      NewArrayOpen(st, s1, r1, s2, f);
      var r2 := Expr(s2, e);
      r := Check(r2, RBrack);
      ParsedTrans(st, r1, r2);
      ParsedTrans(st, r2, r);
      NewArrayAccepts(st, s2, r2, r, f, e);
    } else {
      r := r1;
      NewObjectAccepts(st, s1, r1, f);
    }
  }

  /** The alternative "(" Expr ")" of `Factor`. */
  method ParenFactor(st: State, ghost f: Grammar.Factor) returns (r: State)
    requires Sym(st) == LPar
    ensures Parsed(st, r) && r.pos > st.pos
    ensures Ahead(st, Grammar.FactorYield(f), FactorCont) ==> Advanced(st, r, |Grammar.FactorYield(f)|)
    decreases |st.toks| - st.pos, 3
  {
    ghost var e := if f.Paren? then f.e else Grammar.Zero;
    var s1 := Scan(st);
    var r1 := Expr(s1, e);
    r := Check(r1, RPar);
    ParenAccepts(st, s1, r1, r, f, e);
  }

  /** Factor = Designator [ActPars] | number | charConst
             | "new" ident ["[" Expr "]"] | "(" Expr ")". */
  method Factor(st: State, ghost f: Grammar.Factor) returns (r: State)
    ensures Parsed(st, r)
    ensures Sym(st) in FirstFactor <==> r.pos > st.pos
    ensures Ahead(st, Grammar.FactorYield(f), FactorCont) ==> Advanced(st, r, |Grammar.FactorYield(f)|)
    decreases |st.toks| - st.pos, 4
  {
    var s := Sym(st);
    if s == Ident {
      r := DesignatorFactor(st, f);
    } else if s == Number || s == CharCon {
      r := Scan(st);
      ConstAccepts(st, r, f);
    } else if s == KwNew {
      r := NewFactor(st, f);
    } else if s == LPar {
      r := ParenFactor(st, f);
    } else {
      r := Error(st, NoFactor);
      NoFactorAhead(st, f);
    }
  }

  /** Term = Factor {Mulop Factor}. */
  method Term(st: State, ghost t: Grammar.Term) returns (r: State)
    ensures Parsed(st, r)
    ensures Sym(st) in FirstFactor ==> r.pos > st.pos
    ensures Sym(r) !in MulOps
    ensures Ahead(st, Grammar.TermYield(t), TermCont) ==> Advanced(st, r, |Grammar.TermYield(t)|)
    decreases |st.toks| - st.pos, 5
  {
    ghost var acc := Ahead(st, Grammar.TermYield(t), TermCont);
    ghost var n := |Grammar.TermYield(t)|;
    ghost var rest := t.rest;
    r := Factor(st, t.first);
    TermStart(st, r, t);
    while Sym(r) in MulOps
      invariant Parsed(st, r)
      invariant Sym(st) in FirstFactor ==> r.pos > st.pos
      invariant acc ==> FactorsLeft(st, r, rest, n)
      decreases |r.toks| - r.pos
    {
      ghost var m := if |rest| > 0 then rest[0] else Grammar.MulFactor(Grammar.Mul, Grammar.NumberConst);
      var r1 := Mulop(r);
      var r2 := Factor(r1, m.f);
      if acc {
        TermStep(st, r, r1, r2, rest, m, n);
      }
      r := r2;
      rest := if |rest| > 0 then rest[1..] else rest;
    }
    if acc {
      TermEnd(st, r, rest, n);
    }
  }

  /** Expr = ["-"] Term {Addop Term}. */
  method Expr(st: State, ghost e: Grammar.Expr) returns (r: State)
    ensures Parsed(st, r)
    ensures Sym(st) in FirstExpr ==> r.pos > st.pos
    ensures Sym(r) !in AddOps
    ensures Ahead(st, Grammar.ExprYield(e), ExprCont) ==> Advanced(st, r, |Grammar.ExprYield(e)|)
    decreases |st.toks| - st.pos, 6
  {
    ghost var acc := Ahead(st, Grammar.ExprYield(e), ExprCont);
    ghost var n := |Grammar.ExprYield(e)|;
    ghost var rest := e.rest;
    var r0 := if Sym(st) == Minus then Scan(st) else st;
    r := Term(r0, e.first);
    if Sym(st) == Minus {
      NegExprStart(st, r0, r, e);
    } else {
      ExprStart(st, r, e);
    }
    while Sym(r) in AddOps
      invariant Parsed(st, r)
      invariant Sym(st) in FirstExpr ==> r.pos > st.pos
      invariant acc ==> TermsLeft(st, r, rest, n)
      decreases |r.toks| - r.pos
    {
      ghost var a := if |rest| > 0 then rest[0] else Grammar.AddTerm(Grammar.Add, e.first);
      var r1 := Addop(r);
      var r2 := Term(r1, a.t);
      if acc {
        ExprStep(st, r, r1, r2, rest, a, n);
      }
      r := r2;
      rest := if |rest| > 0 then rest[1..] else rest;
    }
    if acc {
      ExprEnd(st, r, rest, n);
    }
  }

  /** Condition = Expr Relop Expr. A condition is followed by `)`, which
      cannot continue its second expression. */
  method Condition(st: State, ghost c: Grammar.Condition) returns (r: State)
    ensures Parsed(st, r)
    ensures Ahead(st, Grammar.ConditionYield(c), ExprCont) ==> Advanced(st, r, |Grammar.ConditionYield(c)|)
    decreases |st.toks| - st.pos, 7
  {
    var r1 := Expr(st, c.left);
    var r2 := Relop(r1);
    r := Expr(r2, c.right);
    ConditionAccepts(st, r1, r2, r, c);
  }

  /** ActPars = "(" [Expr {"," Expr}] ")". */
  method ActPars(st: State, ghost args: seq<Grammar.Expr>) returns (r: State)
    ensures Parsed(st, r)
    ensures Sym(st) == LPar ==> r.pos > st.pos
    ensures Ahead(st, Grammar.ActParsYield(args), {}) ==> Advanced(st, r, |Grammar.ActParsYield(args)|)
    decreases |st.toks| - st.pos, if Sym(st) == LPar then 0 else 8
  {
    ghost var acc := Ahead(st, Grammar.ActParsYield(args), {});
    ghost var n := |Grammar.ActParsYield(args)|;
    var r1 := Check(st, LPar);
    r := r1;
    if StartsExpr(Sym(r1)) {
      r := Args(r1, args);
      ParsedTrans(st, r1, r);
      SomeArgs(st, r1, r, args);
    } else {
      NoArgs(st, r1, args);
    }
    var r3 := Check(r, RPar);
    ParsedTrans(st, r, r3);
    if acc {
      AdvancedTrans(st, r, r3, n - 1, 1);
    }
    r := r3;
  }

  /** The arguments between `(` and `)`: Expr {"," Expr}. */
  method Args(st: State, ghost args: seq<Grammar.Expr>) returns (r: State)
    requires StartsExpr(Sym(st))
    ensures Parsed(st, r) && r.pos > st.pos
    ensures Ahead(st, Grammar.ArgsYield(args) + [RPar], {}) ==>
      Sym(r) == RPar && Advanced(st, r, |Grammar.ArgsYield(args)|)
    decreases |st.toks| - st.pos, 7
  {
    ghost var acc := Ahead(st, Grammar.ArgsYield(args) + [RPar], {});
    ghost var n := |Grammar.ArgsYield(args)| + 1;
    ghost var first := if |args| > 0 then args[0] else Grammar.Zero;
    ghost var rest := if |args| > 0 then args[1..] else [];
    r := Expr(st, first);
    FirstArg(st, r, args, first, rest);
    while Sym(r) == Comma
      invariant Parsed(st, r) && r.pos > st.pos
      invariant acc ==> ArgsLeft(st, r, rest, n)
      decreases |r.toks| - r.pos
    {
      ghost var arg := if |rest| > 0 then rest[0] else Grammar.Zero;
      var s1 := Scan(r);
      var r2 := Expr(s1, arg);
      ParsedTrans(st, s1, r2);
      if acc {
        ArgStep(st, r, s1, r2, rest, arg, n);
      }
      r := r2;
      rest := if |rest| > 0 then rest[1..] else rest;
    }
    if acc {
      ArgsEnd(st, r, rest, n);
    }
  }


  // ---------------------------------------------------------------------
  // Statements
  // ---------------------------------------------------------------------

  /** The corrected reading of `print`'s optional width: a `,` and then a
      number, which is checked for (Parser.java:331-332 reads differently;
      see `PrintArgsAsWritten`). */
  function PrintArgs(st: State): (r: State)
    ensures Parsed(st, r)
    ensures Sym(st) != Comma ==> r == st
    ensures Sym(st) == Comma ==> r.pos > st.pos
    ensures Sym(st) == Comma && KindAt(st.toks, st.pos + 1) == Number ==> Advanced(st, r, 2)
    ensures Sym(st) == Comma && KindAt(st.toks, st.pos + 1) != Number ==>
      r.pos == st.pos + 1 && Reported(Scan(st), r, Missing(Number))
  {
    if Sym(st) != Comma then st
    else
      var s := Scan(st);
      if Sym(s) == Number then Scan(s) else Error(s, Missing(Number))
  }

  /** Parser.java:331-332 as written: after the expression one comma or one
      number is consumed, and anything else, the `)` of `print(x)`
      included, is reported. */
  function PrintArgsAsWritten(st: State): (r: State)
    ensures Parsed(st, r)
    ensures Sym(st) == Comma || Sym(st) == Number ==> Advanced(st, r, 1)
    ensures Sym(st) != Comma && Sym(st) != Number ==> Reported(st, r, NoCommaOrNumber)
  {
    if Sym(st) == Comma || Sym(st) == Number then Scan(st) else Error(st, NoCommaOrNumber)
  }

  /** Statement = Designator ("=" Expr | ActPars) ";"
               | "if" "(" Condition ")" Statement ["else" Statement]
               | "while" "(" Condition ")" Statement
               | "return" [Expr] ";" | "read" "(" Designator ")" ";"
               | "print" "(" Expr ["," number] ")" ";" | Block | ";".
      A statement that starts outside `firstStat` is recovered from first;
      recovery can stop at `}` or end of input, which the `default` case
      reports (and, right after recovery, suppresses). */
  method Statement(st: State, ghost s: Grammar.Statement) returns (r: State)
    ensures Parsed(st, r)
    ensures Sym(st) != RBrace && Sym(st) != Eof ==> r.pos > st.pos
    ensures Sym(st) !in FirstStat ==> r.errors > 0 && r.errors >= st.errors + (if st.errDist >= 3 then 1 else 0)
    ensures StatAhead(st, s) ==> Advanced(st, r, |Grammar.StatementYield(s)|)
    decreases |st.toks| - st.pos, 9
  {
    if StatAhead(st, s) {
      StatStart(st, s);
    }
    var s0 := st;
    if Sym(st) !in FirstStat {
      s0 := RecoverStat(st);
    }
    r := StatementCases(s0, s);
    ParsedTrans(st, s0, r);
  }

  /** The `switch` on the token a statement starts with, after any
      recovery: one alternative per token of `firstStat`, and otherwise
      `noStatement` is reported. */
  method StatementCases(st: State, ghost s: Grammar.Statement) returns (r: State)
    ensures Parsed(st, r)
    ensures Sym(st) in FirstStat ==> r.pos > st.pos
    ensures Sym(st) !in FirstStat ==> Reported(st, r, NoStatement)
    ensures StatAhead(st, s) ==> Advanced(st, r, |Grammar.StatementYield(s)|)
    decreases |st.toks| - st.pos, 8
  {
    ghost var d := if s.Assignment? || s.ProcCall? || s.Read? then s.d else Grammar.Designator([]);
    ghost var e := if s.Assignment? || s.ReturnValue? || s.Print? then s.e else Grammar.Zero;
    ghost var c := if s.IfThen? || s.IfElse? || s.While? then s.c
                   else Grammar.Condition(Grammar.Zero, Grammar.Eq, Grammar.Zero);
    ghost var sub := if s.IfThen? || s.IfElse? then s.thn else if s.While? then s.body else Grammar.Empty;
    var k := Sym(st);
    if k == Ident {
      r := AssignOrCall(st, d, e, if s.ProcCall? then s.args else []);
      AssignCase(st, r, s);
    } else if k == KwIf {
      r := IfStat(st, c, sub, s.IfElse?, if s.IfElse? then s.els else Grammar.Empty);
      IfCase(st, r, s);
    } else if k == KwWhile {
      r := WhileStat(st, c, sub);
      WhileCase(st, r, s);
    } else if k == KwReturn {
      r := ReturnStat(st, s.ReturnValue?, e);
      ReturnCase(st, r, s);
    } else if k == KwRead {
      r := ReadStat(st, d);
      ReadCase(st, r, s);
    } else if k == KwPrint {
      r := PrintStat(st, e, s.Print? && s.width);
      PrintCase(st, r, s);
    } else if k == LBrace {
      ghost var stats := if s.Nested? then s.stats else [];
      r := Block(st, stats);
      NestedAccepts(st, r, s, stats);
    } else if k == Semicolon {
      r := Scan(st);
      EmptyAccepts(st, r, s);
    } else {
      r := Error(st, NoStatement);
    }
  }

  /** Designator ("=" Expr | ActPars) ";": an assignment or a call. */
  method AssignOrCall(st: State, ghost d: Grammar.Designator, ghost e: Grammar.Expr, ghost args: seq<Grammar.Expr>)
    returns (r: State)
    requires Sym(st) == Ident
    ensures Parsed(st, r) && r.pos > st.pos
    ensures Ahead(st, Grammar.AssignYield(d, e), {}) ==> Advanced(st, r, |Grammar.AssignYield(d, e)|)
    ensures Ahead(st, Grammar.CallYield(d, args), {}) ==> Advanced(st, r, |Grammar.CallYield(d, args)|)
    decreases |st.toks| - st.pos, 7
  {
    var r1 := Designator(st, d);
    var s2 := r1;
    var r2;
    if Sym(r1) == Assign {
      s2 := Scan(r1);
      r2 := Expr(s2, e);
    } else if Sym(r1) == LPar {
      r2 := ActPars(r1, args);
    } else {
      r2 := Error(r1, NoAssignOrCall);
    }
    ParsedTrans(st, r1, r2);
    r := Check(r2, Semicolon);
    AssignAccepts(st, r1, s2, r2, r, d, e);
    CallStatAccepts(st, r1, r2, r, d, args);
  }

  /** The head `if (Condition)` or `while (Condition)` shared by the two
      statements: the keyword, then the parenthesised condition. */
  method ParenCondition(st: State, ghost c: Grammar.Condition, ghost y: seq<Kind>, ghost cont: set<Kind>)
    returns (r: State)
    requires Sym(st) == KwIf || Sym(st) == KwWhile
    ensures Parsed(st, r) && r.pos > st.pos
    ensures Ahead(st, [Sym(st)] + ([LPar] + (Grammar.ConditionYield(c) + ([RPar] + y))), cont) ==>
      Ahead(r, y, cont) && Advanced(st, r, |Grammar.ConditionYield(c)| + 3)
  {
    var s1 := Scan(st);
    var r1 := Check(s1, LPar);
    var r2 := Condition(r1, c);
    r := Check(r2, RPar);
    ParsedTrans(s1, r1, r2);
    ParsedTrans(s1, r2, r);
    CondHeadAccepts(st, s1, r1, r2, r, c, y, cont);
  }

  /** "if" "(" Condition ")" Statement ["else" Statement]: an `else` after
      the first statement always belongs to this `if`. */
  method IfStat(st: State, ghost c: Grammar.Condition, ghost thn: Grammar.Statement, ghost hasElse: bool,
                ghost els: Grammar.Statement) returns (r: State)
    requires Sym(st) == KwIf
    ensures Parsed(st, r) && r.pos > st.pos
    ensures var elsePart := if hasElse then [KwElse] + Grammar.StatementYield(els) else [];
      IfAhead(st, c, thn, hasElse, els) ==> Advanced(st, r, |Grammar.IfYield(c, thn, elsePart)|)
    decreases |st.toks| - st.pos, 7
  {
    ghost var acc := IfAhead(st, c, thn, hasElse, els);
    ghost var cont := if hasElse then StatementCont(els) else {KwElse};
    ghost var tail := if hasElse then [KwElse] + Grammar.StatementYield(els) else [];
    ghost var n := |Grammar.IfYield(c, thn, tail)|;
    var r3 := ParenCondition(st, c, Grammar.StatementYield(thn) + tail, cont);
    var r4 := Statement(r3, thn);
    ParsedTrans(st, r3, r4);
    if acc {
      PartStep(st, r3, r4, Grammar.StatementYield(thn), tail, cont, StatementCont(thn), n);
    }
    r := OptElse(r4, hasElse, els, cont);
    ParsedTrans(st, r4, r);
    if acc {
      LastStep(st, r4, r, tail, cont, n);
    }
  }

  /** ["else" Statement] after the `then` branch: an `else` is read
      exactly when the next token is one, so it always belongs to the
      innermost `if`. */
  method OptElse(st: State, ghost hasElse: bool, ghost els: Grammar.Statement, ghost cont: set<Kind>)
    returns (r: State)
    ensures Parsed(st, r)
    ensures Sym(st) != KwElse ==> r == st
    ensures Sym(st) == KwElse ==> r.pos > st.pos
    ensures ((if hasElse then Grammar.WellFormed(els) && StatementCont(els) == cont else cont == {KwElse}) &&
             Ahead(st, if hasElse then [KwElse] + Grammar.StatementYield(els) else [], cont)) ==>
      Advanced(st, r, if hasElse then 1 + |Grammar.StatementYield(els)| else 0)
    decreases |st.toks| - st.pos, 6
  {
    ghost var tail := if hasElse then [KwElse] + Grammar.StatementYield(els) else [];
    ghost var acc := (if hasElse then Grammar.WellFormed(els) && StatementCont(els) == cont else cont == {KwElse}) &&
      Ahead(st, tail, cont);
    if acc {
      LeftStart(st, tail, cont);
    }
    if Sym(st) == KwElse {
      var s1 := Scan(st);
      r := Statement(s1, els);
      if acc {
        ElseAccepts(st, st, s1, r, hasElse, els, cont, |tail|);
      }
    } else {
      r := st;
      if acc {
        NoElse(st, st, hasElse, els, cont, |tail|);
      }
    }
  }

  /** "while" "(" Condition ")" Statement. */
  method WhileStat(st: State, ghost c: Grammar.Condition, ghost body: Grammar.Statement) returns (r: State)
    requires Sym(st) == KwWhile
    ensures Parsed(st, r) && r.pos > st.pos
    ensures Grammar.WellFormed(body) && Ahead(st, Grammar.WhileYield(c, body), StatementCont(body)) ==>
      Advanced(st, r, |Grammar.WhileYield(c, body)|)
    decreases |st.toks| - st.pos, 7
  {
    ghost var acc := Grammar.WellFormed(body) && Ahead(st, Grammar.WhileYield(c, body), StatementCont(body));
    ghost var n := |Grammar.WhileYield(c, body)|;
    ghost var cont := StatementCont(body);
    ghost var y3 := Grammar.StatementYield(body);
    var r3 := ParenCondition(st, c, y3, cont);
    r := Statement(r3, body);
    ParsedTrans(st, r3, r);
    if acc {
      LastStep(st, r3, r, y3, cont, n);
    }
  }

  /** "return" [Expr] ";": the expression is there when the token after
      `return` can start one. */
  method ReturnStat(st: State, ghost value: bool, ghost e: Grammar.Expr) returns (r: State)
    requires Sym(st) == KwReturn
    ensures Parsed(st, r) && r.pos > st.pos
    ensures Ahead(st, ReturnYield(value, e), {}) ==> Advanced(st, r, |ReturnYield(value, e)|)
    decreases |st.toks| - st.pos, 7
  {
    ghost var acc := Ahead(st, ReturnYield(value, e), {});
    ghost var n := |ReturnYield(value, e)|;
    var s1 := Scan(st);
    if acc {
      ReturnStart(st, s1, e, value);
    }
    var r1 := s1;
    if StartsExpr(Sym(s1)) {
      r1 := Expr(s1, e);
      if acc {
        PartStep(st, s1, r1, Grammar.ExprYield(e), [Semicolon], {}, ExprCont, n);
      }
    }
    r := Check(r1, Semicolon);
    if acc {
      LastTok(st, r1, r, Semicolon, {}, n);
    }
  }

  /** "read" "(" Designator ")" ";". */
  method ReadStat(st: State, ghost d: Grammar.Designator) returns (r: State)
    requires Sym(st) == KwRead
    ensures Parsed(st, r) && r.pos > st.pos
    ensures Ahead(st, Grammar.ReadYield(d), {}) ==> Advanced(st, r, |Grammar.ReadYield(d)|)
    decreases |st.toks| - st.pos, 7
  {
    var s1 := Scan(st);
    var r1 := Check(s1, LPar);
    var r2 := Designator(r1, d);
    var r3 := Check(r2, RPar);
    r := Check(r3, Semicolon);
    ParsedTrans(s1, r1, r2);
    ParsedTrans(s1, r2, r3);
    ParsedTrans(s1, r3, r);
    ReadAccepts(st, s1, r1, r2, r3, r, d);
  }

  /** "print" "(" Expr ["," number] ")" ";". */
  method PrintStat(st: State, ghost e: Grammar.Expr, ghost width: bool) returns (r: State)
    requires Sym(st) == KwPrint
    ensures Parsed(st, r) && r.pos > st.pos
    ensures Ahead(st, Grammar.PrintYield(e, width), {}) ==> Advanced(st, r, |Grammar.PrintYield(e, width)|)
    decreases |st.toks| - st.pos, 7
  {
    ghost var acc := Ahead(st, Grammar.PrintYield(e, width), {});
    ghost var n := |Grammar.PrintYield(e, width)|;
    var s1 := Scan(st);
    var r1 := Check(s1, LPar);
    if acc {
      PrintStart(st, s1, r1, e, width);
    }
    var r3 := r1;
    if StartsExpr(Sym(r1)) {
      var r2 := Expr(r1, e);
      ParsedTrans(st, r1, r2);
      r3 := PrintArgs(r2);
      if acc {
        PrintMiddle(st, r1, r2, r3, e, width, n);
      }
      ParsedTrans(st, r2, r3);
    }
    var r4 := Check(r3, RPar);
    r := Check(r4, Semicolon);
    ParsedTrans(st, r3, r4);
    ParsedTrans(st, r4, r);
    if acc {
      CloseStat(st, r3, r4, r, n);
    }
  }

  /** Block = "{" {Statement} "}": statements are read up to `}` or the
      end of input. */
  method Block(st: State, ghost stats: seq<Grammar.Statement>) returns (r: State)
    ensures Parsed(st, r)
    ensures Sym(r) == Eof || (r.pos > st.pos && KindAt(r.toks, r.pos - 1) == RBrace)
    ensures Grammar.BlockWellFormed(stats) && Ahead(st, Grammar.BlockYield(stats), {}) ==>
      Advanced(st, r, |Grammar.BlockYield(stats)|)
    decreases |st.toks| - st.pos, if Sym(st) == LBrace then 0 else 11
  {
    var r1 := Check(st, LBrace);
    var r2 := StatementList(r1, stats);
    r := Check(r2, RBrace);
    ParsedTrans(st, r1, r2);
    ClosingBrace(st, r2, r);
    ParsedTrans(st, r2, r);
    BlockAccepts(st, r1, r2, r, stats);
  }

  /** The statement loop of `Block`: it stops only at `}` or end of
      input. */
  method StatementList(st: State, ghost stats: seq<Grammar.Statement>) returns (r: State)
    ensures Parsed(st, r)
    ensures Sym(r) == RBrace || Sym(r) == Eof
    ensures Grammar.BlockWellFormed(stats) && Ahead(st, Grammar.StatementsYield(stats) + [RBrace], {}) ==>
      Advanced(st, r, |Grammar.StatementsYield(stats)|)
    decreases |st.toks| - st.pos, 10
  {
    ghost var acc := Grammar.BlockWellFormed(stats) && Ahead(st, Grammar.StatementsYield(stats) + [RBrace], {});
    ghost var n := |Grammar.StatementsYield(stats) + [RBrace]|;
    if acc {
      LeftStart(st, Grammar.StatementsYield(stats) + [RBrace], {});
    }
    r := st;
    ghost var rest := stats;
    while Sym(r) != RBrace && Sym(r) != Eof
      invariant Parsed(st, r)
      invariant acc ==> Left(st, r, Grammar.StatementsYield(rest) + [RBrace], {}, n) && Grammar.BlockWellFormed(rest)
      decreases |r.toks| - r.pos
    {
      ghost var s := if |rest| > 0 then rest[0] else Grammar.Empty;
      var r1 := Statement(r, s);
      if acc {
        NextStat(st, r, r1, rest, s, n);
        rest := rest[1..];
      }
      ParsedTrans(st, r, r1);
      r := r1;
    }
    if acc {
      StatementsEnd(st, r, rest, n);
    }
  }


  // ---------------------------------------------------------------------
  // Declarations
  // ---------------------------------------------------------------------

  /** VarDecl = Type ident {"," ident} ";". `n` is how many names it
      declares (one `Tab.insert` per name). */
  method VarDecl(st: State, ghost v: Grammar.VarDecl) returns (r: State, n: nat)
    ensures Parsed(st, r) && n >= 1
    ensures Sym(st) == Ident ==> r.pos > st.pos
    ensures Ahead(st, Grammar.VarDeclYield(v), {}) ==>
      Advanced(st, r, |Grammar.VarDeclYield(v)|) && n == 1 + v.extra
  {
    var r0 := Type(st, v.t);
    var r1 := Check(r0, Ident);
    var r2, more := MoreNames(r1, v.extra);
    r := Check(r2, Semicolon);
    n := 1 + more;
    ParsedTrans(st, r0, r1);
    ParsedTrans(st, r1, r2);
    ParsedTrans(st, r2, r);
    VarDeclAccepts(st, r0, r1, r2, r, v);
  }

  /** The {"," ident} loop of VarDecl, each round a call; `n` is how many
      names it reads. */
  method MoreNames(st: State, ghost m: nat) returns (r: State, n: nat)
    ensures Parsed(st, r) && Sym(r) != Comma
    ensures Ahead(st, Grammar.MoreNamesYield(m), {Comma}) ==>
      Advanced(st, r, |Grammar.MoreNamesYield(m)|) && n == m
    decreases |st.toks| - st.pos
  {
    if Sym(st) != Comma {
      r := st;
      n := 0;
      if Ahead(st, Grammar.MoreNamesYield(m), {Comma}) {
        Head(st.toks, st.pos, Grammar.MoreNamesYield(m), {Comma});
      }
    } else {
      var s1 := Scan(st);
      var r1 := Check(s1, Ident);
      var more;
      r, more := MoreNames(r1, if m > 0 then m - 1 else 0);
      n := more + 1;
      ParsedTrans(st, r1, r);
      NameAccepts(st, s1, r1, r, m);
    }
  }

  /** FormPars = Type ident {"," Type ident}; `n` is the number of
      parameters. */
  method FormPars(st: State, ghost ps: seq<Grammar.Type>) returns (r: State, n: nat)
    ensures Parsed(st, r) && n >= 1 && Sym(r) != Comma
    ensures |ps| > 0 && Ahead(st, Grammar.FormParsYield(ps), {Comma}) ==>
      Advanced(st, r, |Grammar.FormParsYield(ps)|) && n == |ps|
  {
    ghost var acc := |ps| > 0 && Ahead(st, Grammar.FormParsYield(ps), {Comma});
    ghost var len := |Grammar.FormParsYield(ps)|;
    var r0 := Type(st, if |ps| > 0 then ps[0] else Grammar.Scalar);
    var r1 := Check(r0, Ident);
    ParsedTrans(st, r0, r1);
    if acc {
      FormParsHead(st, r0, r1, ps);
    }
    ghost var rest := if |ps| > 0 then ps[1..] else [];
    r := r1;
    n := 1;
    while Sym(r) == Comma
      invariant Parsed(st, r) && n >= 1
      invariant acc ==> Left(st, r, Grammar.MoreParamsYield(rest), {Comma}, len) && n + |rest| == |ps|
      decreases |r.toks| - r.pos
    {
      ghost var t := if |rest| > 0 then rest[0] else Grammar.Scalar;
      var s1 := Scan(r);
      var r2 := Type(s1, t);
      var r3 := Check(r2, Ident);
      ParsedTrans(s1, r2, r3);
      ParsedTrans(r, s1, r3);
      ParsedTrans(st, r, r3);
      if acc {
        NextParam(st, r, s1, r2, r3, rest, t, len);
        rest := rest[1..];
      }
      r := r3;
      n := n + 1;
    }
    if acc {
      ParamsEnd(st, r, rest, len);
    }
  }

  /** ConstDecl = "final" Type ident "=" (number | charConst) ";". */
  method ConstDecl(st: State, ghost c: Grammar.ConstDecl) returns (r: State)
    ensures Parsed(st, r)
    ensures Sym(st) == KwFinal ==> r.pos > st.pos
    ensures Ahead(st, Grammar.ConstDeclYield(c), {}) ==> Advanced(st, r, |Grammar.ConstDeclYield(c)|)
  {
    var r1 := Check(st, KwFinal);
    var r2 := Type(r1, c.t);
    var r3 := Check(r2, Ident);
    var r4 := Check(r3, Assign);
    var r5;
    if Sym(r4) == Number || Sym(r4) == CharCon {
      r5 := Scan(r4);
    } else {
      r5 := Error(r4, NoConstValue);
    }
    r := Check(r5, Semicolon);
    ParsedTrans(st, r1, r2);
    ParsedTrans(st, r2, r3);
    ParsedTrans(st, r3, r4);
    ParsedTrans(st, r4, r5);
    ParsedTrans(st, r5, r);
    ConstDeclAccepts(st, r1, r2, r3, r4, r5, r, c);
  }

  /** The `{VarDecl}` loop of `ClassDecl` and `MethodDecl`, with the
      number of names the declarations declare. */
  method VarDecls(st: State, ghost vs: seq<Grammar.VarDecl>) returns (r: State, names: nat)
    ensures Parsed(st, r) && Sym(r) != Ident
    ensures Sym(st) == Ident ==> names > 0 && r.pos > st.pos
    ensures Ahead(st, Grammar.VarDeclsYield(vs), {Ident}) ==>
      Advanced(st, r, |Grammar.VarDeclsYield(vs)|) && names == Grammar.NameCount(vs)
  {
    ghost var acc := Ahead(st, Grammar.VarDeclsYield(vs), {Ident});
    ghost var len := |Grammar.VarDeclsYield(vs)|;
    if acc {
      LeftStart(st, Grammar.VarDeclsYield(vs), {Ident});
    }
    ghost var rest := vs;
    r := st;
    names := 0;
    while Sym(r) == Ident
      invariant Parsed(st, r)
      invariant Sym(st) == Ident && r != st ==> names > 0 && r.pos > st.pos
      invariant acc ==> Left(st, r, Grammar.VarDeclsYield(rest), {Ident}, len)
      invariant acc ==> names + Grammar.NameCount(rest) == Grammar.NameCount(vs)
      decreases |r.toks| - r.pos
    {
      ghost var v := if |rest| > 0 then rest[0] else Grammar.VarDecl(Grammar.Scalar, 0);
      var r1, n := VarDecl(r, v);
      if acc {
        NextVarDecl(st, r, r1, rest, v, len);
        rest := rest[1..];
      }
      ParsedTrans(st, r, r1);
      r := r1;
      names := names + n;
    }
    if acc {
      VarDeclsEnd(st, r, rest, len);
    }
  }

  /** ClassDecl = "class" ident "{" {VarDecl} "}". */
  method ClassDecl(st: State, ghost k: Grammar.ClassDecl) returns (r: State)
    ensures Parsed(st, r)
    ensures Sym(st) == KwClass ==> r.pos > st.pos
    ensures Ahead(st, Grammar.ClassDeclYield(k), {}) ==> Advanced(st, r, |Grammar.ClassDeclYield(k)|)
  {
    var r1 := Check(st, KwClass);
    var r2 := Check(r1, Ident);
    var r3 := Check(r2, LBrace);
    var r4, names := VarDecls(r3, k.fields);
    r := Check(r4, RBrace);
    ParsedTrans(st, r1, r2);
    ParsedTrans(st, r2, r3);
    ParsedTrans(st, r3, r4);
    ParsedTrans(st, r4, r);
    ClassDeclAccepts(st, r1, r2, r3, r4, r, k);
  }

  // ---------------------------------------------------------------------
  // Method frames
  // ---------------------------------------------------------------------

  /** The words `MethodDecl` emits for one method: `enter nPars nVars`
      before the body, where the method's scope holds `nPars` parameters
      and then `nLocals` locals, and after it `exit return` for a `void`
      method or `trap 1` for a function, which has fallen off its end
      without a `return`. */
  function MethodCode(nPars: nat, nLocals: nat, isVoid: bool): (c: seq<Word>)
    ensures IsFrame(c) && Frames(c)
  {
    [Op(Enter), Arg(nPars), Arg(nPars + nLocals)]
      + (if isVoid then [Op(Exit), Op(Return)] else [Op(Trap), Arg(1)])
  }

  /** Five words that one method emits: `enter` with a parameter count
      no larger than its variable count, then either ending. */
  predicate IsFrame(c: seq<Word>)
  {
    && |c| == 5 && c[0] == Op(Enter) && c[1].Arg? && c[2].Arg?
    && 0 <= c[1].n <= c[2].n
    && (c[3..] == [Op(Exit), Op(Return)] || c[3..] == [Op(Trap), Arg(1)])
  }

  /** A code stream made of whole method frames. */
  predicate Frames(c: seq<Word>)
    decreases |c|
  {
    |c| == 0 || (|c| >= 5 && IsFrame(c[..5]) && Frames(c[5..]))
  }

  /** The parameter count, local count and ending of a frame. */
  function DecodeFrame(c: seq<Word>): (r: (nat, nat, bool))
    requires IsFrame(c)
    ensures MethodCode(r.0, r.1, r.2) == c
  {
    (c[1].n, c[2].n - c[1].n, c[3] == Op(Exit))
  }

  /** Joining two streams of whole frames gives a stream of whole frames. */
  lemma {:induction false} FramesAppend(a: seq<Word>, b: seq<Word>)
    requires Frames(a) && Frames(b)
    ensures Frames(a + b)
    decreases |a|
  {
    if |a| > 0 {
      assert (a + b)[..5] == a[..5];
      assert (a + b)[5..] == a[5..] + b;
      FramesAppend(a[5..], b);
    } else {
      assert a + b == b;
    }
  }

  lemma SliceAppend<T>(s: seq<T>, t: seq<T>, k: nat)
    requires k <= |s|
    ensures (s + t)[k..] == s[k..] + t
  {
  }

  /** The code after `a` is the code between `a` and `b`, then the code
      after `b`. */
  lemma CodeSplit(a: seq<Word>, b: seq<Word>, c: seq<Word>)
    requires a <= b && b <= c
    ensures c[|a|..] == b[|a|..] + c[|b|..]
  {
  }

  /** The frame of a method of the grammar: its parameters, the names its
      local declarations declare, and whether it is `void`. */
  function MethodFrame(m: Grammar.MethodDecl): seq<Word>
  {
    MethodCode(|m.params|, Grammar.NameCount(m.locals), m.result.Void?)
  }

  /** The frames of the methods, one after the other. */
  function MethodsCode(ms: seq<Grammar.MethodDecl>): seq<Word>
  {
    if |ms| == 0 then [] else MethodFrame(ms[0]) + MethodsCode(ms[1..])
  }

  // ---------------------------------------------------------------------
  // Methods and the program
  // ---------------------------------------------------------------------

  /** The result type of `MethodDecl`: "void", a type, or neither, which
      is reported. The method is `void` unless a type was parsed: after a
      missing type the source leaves the type `noType`. */
  method ResultType(st: State, ghost rt: Grammar.ResultType) returns (r: State, isVoid: bool)
    ensures Parsed(st, r)
    ensures isVoid <==> Sym(st) != Ident
    ensures Sym(st) == KwVoid || Sym(st) == Ident ==> r.pos > st.pos
    ensures Sym(st) != KwVoid && Sym(st) != Ident ==> Reported(st, r, NoMethodType)
    ensures Ahead(st, Grammar.ResultYield(rt), TypeCont) ==>
      Advanced(st, r, |Grammar.ResultYield(rt)|) && (isVoid <==> rt.Void?)
  {
    if Ahead(st, Grammar.ResultYield(rt), TypeCont) {
      ResultFirst(st, rt);
    }
    isVoid := Sym(st) != Ident;
    if Sym(st) == KwVoid {
      r := Scan(st);
    } else if Sym(st) == Ident {
      r := Type(st, if rt.Returns? then rt.t else Grammar.Scalar);
    } else {
      r := Error(st, NoMethodType);
    }
  }

  /** The name and parameter list of `MethodDecl`, ident "(" [FormPars] ")",
      with the number of parameters. */
  method Signature(st: State, ghost ps: seq<Grammar.Type>) returns (r: State, nPars: nat)
    ensures Parsed(st, r)
    ensures Ahead(st, Grammar.SignatureYield(ps), {}) ==>
      Advanced(st, r, |Grammar.SignatureYield(ps)|) && nPars == |ps|
  {
    var r1 := Check(st, Ident);
    var r2 := Check(r1, LPar);
    var r3 := r2;
    nPars := 0;
    if Sym(r2) == Ident {
      r3, nPars := FormPars(r2, ps);
    }
    r := Check(r3, RPar);
    ParsedTrans(st, r1, r2);
    ParsedTrans(st, r2, r3);
    ParsedTrans(st, r3, r);
    SignatureAccepts(st, r1, r2, r3, r, ps);
  }

  /** MethodDecl = (Type | "void") ident "(" [FormPars] ")" {VarDecl} Block.
      Emits the method's frame around its body, whose statements emit no
      code here. */
  method MethodDecl(st: State, ghost m: Grammar.MethodDecl) returns (r: State, nPars: nat, nLocals: nat, isVoid: bool)
    ensures Step(st, r)
    ensures r.code == st.code + MethodCode(nPars, nLocals, isVoid)
    ensures isVoid <==> Sym(st) != Ident
    ensures Sym(st) == KwVoid || Sym(st) == Ident ==> r.pos > st.pos
    ensures MethodAhead(st, m) ==>
      && Advanced(st, r, |Grammar.MethodDeclYield(m)|)
      && nPars == |m.params| && nLocals == Grammar.NameCount(m.locals) && (isVoid <==> m.result.Void?)
  {
    var r1, r2, r3;
    r1, isVoid := ResultType(st, m.result);
    r2, nPars := Signature(r1, m.params);
    r3, nLocals := VarDecls(r2, m.locals);
    ParsedTrans(st, r1, r2);
    ParsedTrans(st, r2, r3);
    var frame := MethodCode(nPars, nLocals, isVoid);
    var body := r3.(code := st.code + frame[..3]);
    var r4 := Block(body, m.body);
    MethodDeclAccepts(st, r1, r2, body, r4, m);
    assert st.code + frame[..3] + frame[3..] == st.code + frame;
    r := r4.(code := r4.code + frame[3..]);
  }

  /** The declaration loop of `Program`: it leaves only at `{` or end of
      input, recovering at any token that starts no declaration. */
  method Declarations(st: State, ghost ds: seq<Grammar.Decl>) returns (r: State)
    ensures Parsed(st, r)
    ensures Sym(r) == LBrace || Sym(r) == Eof
    ensures Ahead(st, Grammar.DeclsYield(ds) + [LBrace], {}) ==> Advanced(st, r, |Grammar.DeclsYield(ds)|)
  {
    ghost var acc := Ahead(st, Grammar.DeclsYield(ds) + [LBrace], {});
    ghost var len := |Grammar.DeclsYield(ds) + [LBrace]|;
    if acc {
      LeftStart(st, Grammar.DeclsYield(ds) + [LBrace], {});
    }
    ghost var rest := ds;
    r := st;
    while Sym(r) != LBrace && Sym(r) != Eof
      invariant Parsed(st, r)
      invariant acc ==> Left(st, r, Grammar.DeclsYield(rest) + [LBrace], {}, len)
      decreases |r.toks| - r.pos
    {
      if acc {
        DeclsFirst(st, r, rest, len);
      }
      ghost var d := if |rest| > 0 then rest[0] else Grammar.VarD(Grammar.VarDecl(Grammar.Scalar, 0));
      var k := Sym(r);
      var r1;
      if k == KwFinal {
        r1 := ConstDecl(r, if d.ConstD? then d.c else Grammar.ConstDecl(Grammar.Scalar, false));
        if acc {
          NextDecl(st, r, r1, rest, len);
        }
      } else if k == KwClass {
        r1 := ClassDecl(r, if d.ClassD? then d.k else Grammar.ClassDecl([]));
        if acc {
          NextDecl(st, r, r1, rest, len);
        }
      } else if k == Ident {
        var names;
        r1, names := VarDecl(r, if d.VarD? then d.v else Grammar.VarDecl(Grammar.Scalar, 0));
        if acc {
          NextDecl(st, r, r1, rest, len);
        }
      } else {
        r1 := RecoverDecl(r);
      }
      if acc {
        rest := rest[1..];
      }
      ParsedTrans(st, r, r1);
      r := r1;
    }
    if acc {
      DeclsEnd(st, r, rest, len);
    }
  }

  /** The method loop of `Program`, each round a call: the code it emits
      is one frame per method. */
  method Methods(st: State, ghost ms: seq<Grammar.MethodDecl>) returns (r: State)
    ensures Step(st, r)
    ensures Frames(r.code[|st.code|..])
    ensures Sym(r) != KwVoid && Sym(r) != Ident
    ensures Grammar.MethodsWellFormed(ms) && Ahead(st, Grammar.MethodsYield(ms), MethodCont) ==>
      Advanced(st, r, |Grammar.MethodsYield(ms)|) && r.code == st.code + MethodsCode(ms)
    decreases |st.toks| - st.pos
  {
    if Sym(st) != KwVoid && Sym(st) != Ident {
      r := st;
      assert r.code[|st.code|..] == [];
      if Ahead(st, Grammar.MethodsYield(ms), MethodCont) {
        MethodsFirst(ms);
        Head(st.toks, st.pos, Grammar.MethodsYield(ms), MethodCont);
      }
    } else {
      ghost var m := if |ms| > 0 then ms[0] else Grammar.MethodDecl(Grammar.Void, [], [], []);
      var r1, p, l, v := MethodDecl(st, m);
      r := Methods(r1, if |ms| > 0 then ms[1..] else []);
      StepTrans(st, r1, r);
      CodeSplit(st.code, r1.code, r.code);
      FramesAppend(MethodCode(p, l, v), r.code[|r1.code|..]);
      MethodsAccepts(st, r1, r, ms, m);
      if Grammar.MethodsWellFormed(ms) && Ahead(st, Grammar.MethodsYield(ms), MethodCont) {
        Assoc(st.code, MethodFrame(m), MethodsCode(ms[1..]));
      }
    }
  }

  /** "program" ident {ConstDecl | ClassDecl | VarDecl} "{", the part of
      `Program` before the methods; a program that does not start with
      `program` has that as its first error. */
  method ProgramStart(st: State, ghost p: Grammar.Program) returns (r: State)
    ensures Parsed(st, r)
    ensures st.errors == 0 && Sym(st) != KwProgram ==>
      r.errors > 0 && r.diags[0] == Diag(La(st).line, La(st).col, Missing(KwProgram))
    ensures Ahead(st, Grammar.ProgramYield(p), {}) ==>
      Left(st, r, Grammar.MethodsYield(p.methods) + [RBrace], {}, |Grammar.ProgramYield(p)|)
  {
    var r1 := Check(st, KwProgram);
    var r2 := Check(r1, Ident);
    var r3 := Declarations(r2, p.decls);
    r := Check(r3, LBrace);
    ParsedTrans(st, r1, r2);
    ParsedTrans(st, r2, r3);
    ParsedTrans(st, r3, r);
    ParsedTrans(r1, r2, r3);
    ParsedTrans(r1, r3, r);
    MissingProgram(st, r1, r);
    ProgramStartAccepts(st, r1, r2, r3, r, p);
  }

  /** The first error of a program that does not start with `program`. */
  lemma {:induction false} MissingProgram(st: State, r1: State, r: State)
    requires Sym(st) != KwProgram ==> Reported(st, r1, Missing(KwProgram))
    requires Parsed(r1, r)
    ensures st.errors == 0 && Sym(st) != KwProgram ==>
      r.errors > 0 && r.diags[0] == Diag(La(st).line, La(st).col, Missing(KwProgram))
  {
  }

  /** Program = "program" ident {ConstDecl | ClassDecl | VarDecl} "{" {MethodDecl} "}".
      The code emitted is one frame per method, and in a program that does
      not start with `program` that is the first error reported. */
  method Program(st: State, ghost p: Grammar.Program) returns (r: State)
    ensures Step(st, r)
    ensures Frames(r.code[|st.code|..])
    ensures st.errors == 0 && Sym(st) != KwProgram ==>
      r.errors > 0 && r.diags[0] == Diag(La(st).line, La(st).col, Missing(KwProgram))
    ensures Grammar.ProgramWellFormed(p) && Ahead(st, Grammar.ProgramYield(p), {}) ==>
      Advanced(st, r, |Grammar.ProgramYield(p)|) && r.code == st.code + MethodsCode(p.methods)
  {
    var r4 := ProgramStart(st, p);
    var r5 := Methods(r4, p.methods);
    r := Check(r5, RBrace);
    StepTrans(st, r4, r5);
    StepTrans(st, r5, r);
    FirstDiag(r4, r);
    ProgramAccepts(st, r4, r5, r, p);
  }

  /** The state after `parse` has set `errors = 0`, `errDist = 3` and
      called `scan` once to load the first token into `la`. */
  function Start(toks: seq<Token>): (st: State)
    ensures st.toks == toks && st.pos == 0 && st.errors == 0 && st.diags == [] && st.code == []
    ensures st.errDist >= 3
  {
    PState(toks, 0, 0, 4, [], [])
  }

  /** A program that is exactly the tokens is read without an error and
      up to end of input, so no trailing input is reported. */
  lemma {:induction false} ParseAccepts(st: State, r1: State, r: State, p: Grammar.Program)
    requires st.pos == 0 && st.errors == 0 && st.diags == [] && st.code == []
    requires Grammar.ProgramWellFormed(p) && Ahead(st, Grammar.ProgramYield(p), {}) ==>
      Advanced(st, r1, |Grammar.ProgramYield(p)|) && r1.code == st.code + MethodsCode(p.methods)
    requires Sym(r1) == Eof ==> r == r1
    ensures Grammar.ProgramWellFormed(p) && Matches(st.toks, 0, Grammar.ProgramYield(p))
            && KindAt(st.toks, |Grammar.ProgramYield(p)|) == Eof ==>
      r.errors == 0 && r.diags == [] && r.code == MethodsCode(p.methods)
  {
    var y := Grammar.ProgramYield(p);
    if Grammar.ProgramWellFormed(p) && Matches(st.toks, 0, y) && KindAt(st.toks, |y|) == Eof {
      assert Ahead(st, y, {});
      assert Sym(r1) == Eof;
    }
  }

  /** `parse`: a program, then end of input. Every reported error has a
      diagnostic, at most one error is reported per three tokens, a
      program without errors was read up to end of input, the code is
      one frame per method, and a program that does not start with
      `program` has that as its first error. Tokens that are exactly a
      program `p` of the grammar are read without any error, and the code
      is `p`'s frames. */
  method Parse(toks: seq<Token>, ghost p: Grammar.Program) returns (r: State)
    ensures Step(Start(toks), r)
    ensures |r.diags| == r.errors
    ensures 3 * r.errors <= |toks| + 3
    ensures r.errors == 0 ==> Sym(r) == Eof
    ensures Frames(r.code)
    ensures Sym(Start(toks)) != KwProgram ==>
      r.errors > 0 && r.diags[0] == Diag(La(Start(toks)).line, La(Start(toks)).col, Missing(KwProgram))
    ensures Grammar.ProgramWellFormed(p) && Matches(toks, 0, Grammar.ProgramYield(p))
            && KindAt(toks, |Grammar.ProgramYield(p)|) == Eof ==>
      r.errors == 0 && r.diags == [] && r.code == MethodsCode(p.methods)
  {
    var st := Start(toks);
    var r1 := Program(st, p);
    r := r1;
    if Sym(r1) != Eof {
      r := Error(r1, TrailingInput);
    }
    StepTrans(st, r1, r);
    FirstDiag(r1, r);
    ValidBound(r);
    assert r1.code[|st.code|..] == r1.code;
    ParseAccepts(st, r1, r, p);
  }

  // ---------------------------------------------------------------------
  // The proofs behind the acceptance contracts of the parsing methods
  // above: how `Ahead` and `Advanced` compose
  // ---------------------------------------------------------------------

  lemma AdvancedTrans(a: PState, b: PState, c: PState, m: int, n: int)
    requires Advanced(a, b, m) && Advanced(b, c, n)
    ensures Advanced(a, c, m + n)
  {
  }

  /** Reading `[o] + x + [c]`: `o`, then `x`, which `c` cannot continue,
      then `c`. */
  lemma {:induction false} Bracket(toks: seq<Token>, i: nat, o: Kind, x: seq<Kind>, c: Kind, cont: set<Kind>, contX: set<Kind>)
    requires AheadAt(toks, i, [o] + x + [c], cont) && c !in contX
    ensures KindAt(toks, i) == o && AheadAt(toks, i + 1, x, contX) && KindAt(toks, i + 1 + |x|) == c
  {
    assert [o] + x + [c] == [o] + (x + [c]);
    Take(toks, i, o, x + [c], cont);
    Split(toks, i + 1, x, [c], cont, contX);
    KindOf(toks, i + 1 + |x|, [c], 0);
  }

  // ---------------------------------------------------------------------
  // Reading the yields of the expressions, one production at a time
  // ---------------------------------------------------------------------

  lemma {:induction false} SelectorParts(toks: seq<Token>, i: nat, sel: Grammar.Selector)
    requires AheadAt(toks, i, Grammar.SelectorYield(sel), {})
    ensures sel.Field? <==> KindAt(toks, i) == Period
    ensures sel.Field? ==> KindAt(toks, i + 1) == Ident && |Grammar.SelectorYield(sel)| == 2
    ensures sel.Index? ==>
      && KindAt(toks, i) == LBrack
      && AheadAt(toks, i + 1, Grammar.ExprYield(sel.index), ExprCont)
      && KindAt(toks, i + 1 + |Grammar.ExprYield(sel.index)|) == RBrack
      && |Grammar.SelectorYield(sel)| == |Grammar.ExprYield(sel.index)| + 2
  {
    if sel.Field? {
      KindOf(toks, i, Grammar.SelectorYield(sel), 0);
      KindOf(toks, i, Grammar.SelectorYield(sel), 1);
    } else {
      Bracket(toks, i, LBrack, Grammar.ExprYield(sel.index), RBrack, {}, ExprCont);
    }
  }

  /** A designator's selectors each start with `.` or `[`. */
  lemma {:induction false} SelectorsFirst(ss: seq<Grammar.Selector>)
    ensures |ss| > 0 ==> |Grammar.SelectorsYield(ss)| > 0 && Grammar.SelectorsYield(ss)[0] in DesignatorCont
  {
  }

  lemma {:induction false} NextSelector(toks: seq<Token>, i: nat, ss: seq<Grammar.Selector>)
    requires AheadAt(toks, i, Grammar.SelectorsYield(ss), DesignatorCont) && KindAt(toks, i) in DesignatorCont
    ensures |ss| > 0
    ensures AheadAt(toks, i, Grammar.SelectorYield(ss[0]), {})
    ensures AheadAt(toks, i + |Grammar.SelectorYield(ss[0])|, Grammar.SelectorsYield(ss[1..]), DesignatorCont)
  {
    Head(toks, i, Grammar.SelectorsYield(ss), DesignatorCont);
    Split(toks, i, Grammar.SelectorYield(ss[0]), Grammar.SelectorsYield(ss[1..]), DesignatorCont, {});
  }

  /** The first token of a factor tells its alternative. */
  lemma {:induction false} FactorStart(toks: seq<Token>, i: nat, f: Grammar.Factor)
    requires AheadAt(toks, i, Grammar.FactorYield(f), FactorCont)
    ensures KindAt(toks, i) in FirstFactor
    ensures (f.Access? || f.Call?) <==> KindAt(toks, i) == Ident
    ensures (f.NewObject? || f.NewArray?) <==> KindAt(toks, i) == KwNew
    ensures f.Paren? <==> KindAt(toks, i) == LPar
    ensures (f.NumberConst? <==> KindAt(toks, i) == Number) && (f.CharConst? <==> KindAt(toks, i) == CharCon)
    ensures f.NumberConst? || f.CharConst? ==> |Grammar.FactorYield(f)| == 1
  {
    Grammar.FactorFirst(f);
    KindOf(toks, i, Grammar.FactorYield(f), 0);
  }

  /** A factor that starts with an identifier is a designator, followed
      by arguments exactly when it is a call. */
  lemma {:induction false} DesignatorParts(toks: seq<Token>, i: nat, f: Grammar.Factor)
    requires KindAt(toks, i) == Ident && AheadAt(toks, i, Grammar.FactorYield(f), FactorCont)
    ensures f.Access? || f.Call?
    ensures AheadAt(toks, i, Grammar.DesignatorYield(f.d), DesignatorCont)
    ensures KindAt(toks, i + |Grammar.DesignatorYield(f.d)|) == LPar <==> f.Call?
    ensures f.Access? ==> |Grammar.FactorYield(f)| == |Grammar.DesignatorYield(f.d)|
    ensures f.Call? ==>
      && AheadAt(toks, i + |Grammar.DesignatorYield(f.d)|, Grammar.ActParsYield(f.args), {})
      && |Grammar.FactorYield(f)| == |Grammar.DesignatorYield(f.d)| + |Grammar.ActParsYield(f.args)|
  {
    FactorStart(toks, i, f);
    if f.Call? {
      Split(toks, i, Grammar.DesignatorYield(f.d), Grammar.ActParsYield(f.args), FactorCont, DesignatorCont);
      Head(toks, i + |Grammar.DesignatorYield(f.d)|, Grammar.ActParsYield(f.args), FactorCont);
    }
  }

  /** A factor that starts with `new` is "new" ident, followed by a
      bracketed length exactly when it is an array. */
  lemma {:induction false} NewParts(toks: seq<Token>, i: nat, f: Grammar.Factor)
    requires KindAt(toks, i) == KwNew && AheadAt(toks, i, Grammar.FactorYield(f), FactorCont)
    ensures f.NewObject? || f.NewArray?
    ensures KindAt(toks, i + 1) == Ident
    ensures KindAt(toks, i + 2) == LBrack <==> f.NewArray?
    ensures f.NewObject? ==> |Grammar.FactorYield(f)| == 2
  {
    FactorStart(toks, i, f);
    KindOf(toks, i, Grammar.FactorYield(f), 1);
    if f.NewArray? {
      KindOf(toks, i, Grammar.FactorYield(f), 2);
    }
  }

  /** The length of an array creation, then "]". */
  lemma {:induction false} NewArrayParts(toks: seq<Token>, i: nat, f: Grammar.Factor)
    requires f.NewArray? && AheadAt(toks, i, Grammar.FactorYield(f), FactorCont)
    ensures AheadAt(toks, i + 3, Grammar.ExprYield(f.len), ExprCont)
    ensures KindAt(toks, i + 3 + |Grammar.ExprYield(f.len)|) == RBrack
    ensures |Grammar.FactorYield(f)| == |Grammar.ExprYield(f.len)| + 4
  {
    var tail := [LBrack] + Grammar.ExprYield(f.len) + [RBrack];
    assert Grammar.FactorYield(f) == [KwNew, Ident] + tail;
    Split(toks, i, [KwNew, Ident], tail, FactorCont, {});
    Bracket(toks, i + 2, LBrack, Grammar.ExprYield(f.len), RBrack, FactorCont, ExprCont);
  }

  /** A factor that starts with `(` is a parenthesised expression. */
  lemma {:induction false} ParenParts(toks: seq<Token>, i: nat, f: Grammar.Factor)
    requires KindAt(toks, i) == LPar && AheadAt(toks, i, Grammar.FactorYield(f), FactorCont)
    ensures f.Paren?
    ensures AheadAt(toks, i + 1, Grammar.ExprYield(f.e), ExprCont)
    ensures KindAt(toks, i + 1 + |Grammar.ExprYield(f.e)|) == RPar
    ensures |Grammar.FactorYield(f)| == |Grammar.ExprYield(f.e)| + 2
  {
    FactorStart(toks, i, f);
    Bracket(toks, i, LPar, Grammar.ExprYield(f.e), RPar, FactorCont, ExprCont);
  }

  lemma {:induction false} TermParts(toks: seq<Token>, i: nat, t: Grammar.Term)
    requires AheadAt(toks, i, Grammar.TermYield(t), TermCont)
    ensures AheadAt(toks, i, Grammar.FactorYield(t.first), FactorCont)
    ensures AheadAt(toks, i + |Grammar.FactorYield(t.first)|, Grammar.MulFactorsYield(t.rest), TermCont)
  {
    MulFactorsFirst(t.rest);
    Split(toks, i, Grammar.FactorYield(t.first), Grammar.MulFactorsYield(t.rest), TermCont, FactorCont);
  }

  /** A further factor of a term starts with a multiplication operator. */
  lemma {:induction false} MulFactorsFirst(ms: seq<Grammar.MulFactor>)
    ensures |ms| > 0 ==> |Grammar.MulFactorsYield(ms)| > 0 && Grammar.MulFactorsYield(ms)[0] in MulOps
  {
  }

  lemma {:induction false} NextMulFactor(toks: seq<Token>, i: nat, ms: seq<Grammar.MulFactor>)
    requires AheadAt(toks, i, Grammar.MulFactorsYield(ms), TermCont) && KindAt(toks, i) in MulOps
    ensures |ms| > 0
    ensures AheadAt(toks, i + 1, Grammar.FactorYield(ms[0].f), FactorCont)
    ensures AheadAt(toks, i + 1 + |Grammar.FactorYield(ms[0].f)|, Grammar.MulFactorsYield(ms[1..]), TermCont)
    ensures |Grammar.MulFactorsYield(ms)| == 1 + |Grammar.FactorYield(ms[0].f)| + |Grammar.MulFactorsYield(ms[1..])|
  {
    Head(toks, i, Grammar.MulFactorsYield(ms), TermCont);
    var m := ms[0];
    MulFactorsFirst(ms[1..]);
    assert Grammar.MulFactorsYield(ms)
      == [Grammar.MulOpKind(m.op)] + (Grammar.FactorYield(m.f) + Grammar.MulFactorsYield(ms[1..]));
    Take(toks, i, Grammar.MulOpKind(m.op), Grammar.FactorYield(m.f) + Grammar.MulFactorsYield(ms[1..]), TermCont);
    Split(toks, i + 1, Grammar.FactorYield(m.f), Grammar.MulFactorsYield(ms[1..]), TermCont, FactorCont);
  }

  /** A further term of an expression starts with an adding operator. */
  lemma {:induction false} AddTermsFirst(ts: seq<Grammar.AddTerm>)
    ensures |ts| > 0 ==> |Grammar.AddTermsYield(ts)| > 0 && Grammar.AddTermsYield(ts)[0] in AddOps
  {
  }

  /** An expression without a leading minus: its first term, then the
      further terms. */
  lemma {:induction false} ExprParts(toks: seq<Token>, i: nat, e: Grammar.Expr)
    requires KindAt(toks, i) != Minus && AheadAt(toks, i, Grammar.ExprYield(e), ExprCont)
    ensures !e.neg
    ensures AheadAt(toks, i, Grammar.TermYield(e.first), TermCont)
    ensures AheadAt(toks, i + |Grammar.TermYield(e.first)|, Grammar.AddTermsYield(e.rest), ExprCont)
    ensures |Grammar.ExprYield(e)| == |Grammar.TermYield(e.first)| + |Grammar.AddTermsYield(e.rest)|
  {
    Grammar.ExprFirst(e);
    Head(toks, i, Grammar.ExprYield(e), ExprCont);
    AddTermsFirst(e.rest);
    assert Grammar.ExprYield(e) == Grammar.TermYield(e.first) + Grammar.AddTermsYield(e.rest);
    assert TermCont <= ExprCont;
    Split(toks, i, Grammar.TermYield(e.first), Grammar.AddTermsYield(e.rest), ExprCont, TermCont);
  }

  /** An expression with a leading minus: `-`, its first term, then the
      further terms. */
  lemma {:induction false} NegExprParts(toks: seq<Token>, i: nat, e: Grammar.Expr)
    requires KindAt(toks, i) == Minus && AheadAt(toks, i, Grammar.ExprYield(e), ExprCont)
    ensures e.neg
    ensures AheadAt(toks, i + 1, Grammar.TermYield(e.first), TermCont)
    ensures AheadAt(toks, i + 1 + |Grammar.TermYield(e.first)|, Grammar.AddTermsYield(e.rest), ExprCont)
    ensures |Grammar.ExprYield(e)| == 1 + |Grammar.TermYield(e.first)| + |Grammar.AddTermsYield(e.rest)|
  {
    Grammar.ExprFirst(e);
    KindOf(toks, i, Grammar.ExprYield(e), 0);
    var body := Grammar.TermYield(e.first) + Grammar.AddTermsYield(e.rest);
    assert Grammar.ExprYield(e) == [Minus] + body;
    Take(toks, i, Minus, body, ExprCont);
    AddTermsFirst(e.rest);
    Split(toks, i + 1, Grammar.TermYield(e.first), Grammar.AddTermsYield(e.rest), ExprCont, TermCont);
  }

  lemma {:induction false} NextAddTerm(toks: seq<Token>, i: nat, ts: seq<Grammar.AddTerm>)
    requires AheadAt(toks, i, Grammar.AddTermsYield(ts), ExprCont) && KindAt(toks, i) in AddOps
    ensures |ts| > 0
    ensures AheadAt(toks, i + 1, Grammar.TermYield(ts[0].t), TermCont)
    ensures AheadAt(toks, i + 1 + |Grammar.TermYield(ts[0].t)|, Grammar.AddTermsYield(ts[1..]), ExprCont)
    ensures |Grammar.AddTermsYield(ts)| == 1 + |Grammar.TermYield(ts[0].t)| + |Grammar.AddTermsYield(ts[1..])|
  {
    Head(toks, i, Grammar.AddTermsYield(ts), ExprCont);
    var a := ts[0];
    AddTermsFirst(ts[1..]);
    assert Grammar.AddTermsYield(ts)
      == [Grammar.AddOpKind(a.op)] + (Grammar.TermYield(a.t) + Grammar.AddTermsYield(ts[1..]));
    Take(toks, i, Grammar.AddOpKind(a.op), Grammar.TermYield(a.t) + Grammar.AddTermsYield(ts[1..]), ExprCont);
    Split(toks, i + 1, Grammar.TermYield(a.t), Grammar.AddTermsYield(ts[1..]), ExprCont, TermCont);
  }

  lemma {:induction false} ConditionParts(toks: seq<Token>, i: nat, c: Grammar.Condition)
    requires AheadAt(toks, i, Grammar.ConditionYield(c), ExprCont)
    ensures AheadAt(toks, i, Grammar.ExprYield(c.left), ExprCont)
    ensures KindAt(toks, i + |Grammar.ExprYield(c.left)|) in RelOps
    ensures AheadAt(toks, i + |Grammar.ExprYield(c.left)| + 1, Grammar.ExprYield(c.right), ExprCont)
  {
    var left := Grammar.ExprYield(c.left);
    var right := Grammar.ExprYield(c.right);
    assert Grammar.ConditionYield(c) == left + ([Grammar.RelOpKind(c.op)] + right);
    Split(toks, i, left, [Grammar.RelOpKind(c.op)] + right, ExprCont, ExprCont);
    Take(toks, i + |left|, Grammar.RelOpKind(c.op), right, ExprCont);
  }

  /** The arguments of a call are bracketed by `(` and `)`. */
  lemma {:induction false} ArgsOpen(toks: seq<Token>, i: nat, args: seq<Grammar.Expr>)
    requires AheadAt(toks, i, Grammar.ActParsYield(args), {})
    ensures KindAt(toks, i) == LPar
    ensures AheadAt(toks, i + 1, Grammar.ArgsYield(args) + [RPar], {})
    ensures |Grammar.ActParsYield(args)| == |Grammar.ArgsYield(args)| + 2
  {
    assert Grammar.ActParsYield(args) == [LPar] + (Grammar.ArgsYield(args) + [RPar]);
    Take(toks, i, LPar, Grammar.ArgsYield(args) + [RPar], {});
  }

  /** What follows `(` starts an expression exactly when there are
      arguments, and is `)` otherwise. */
  lemma {:induction false} ArgsFirst(args: seq<Grammar.Expr>)
    ensures var y := Grammar.ArgsYield(args) + [RPar];
      && (|args| > 0 <==> StartsExpr(y[0]))
      && (|args| == 0 ==> y[0] == RPar)
  {
    if |args| > 0 {
      Grammar.ExprFirst(args[0]);
      assert (Grammar.ArgsYield(args) + [RPar])[0] == Grammar.ExprYield(args[0])[0];
    } else {
      assert Grammar.ArgsYield(args) + [RPar] == [RPar];
    }
  }

  /** With no argument, `)` follows `(` at once. */
  lemma {:induction false} NoArgsParts(toks: seq<Token>, i: nat, args: seq<Grammar.Expr>)
    requires !StartsExpr(KindAt(toks, i + 1)) && AheadAt(toks, i, Grammar.ActParsYield(args), {})
    ensures |args| == 0 && KindAt(toks, i) == LPar && KindAt(toks, i + 1) == RPar
    ensures |Grammar.ActParsYield(args)| == 2
  {
    ArgsOpen(toks, i, args);
    ArgsFirst(args);
    KindOf(toks, i + 1, Grammar.ArgsYield(args) + [RPar], 0);
  }

  /** Arguments that start with an expression: the first one, then the
      others each after `,`, then `)`. */
  lemma {:induction false} FirstArgParts(toks: seq<Token>, i: nat, args: seq<Grammar.Expr>)
    requires StartsExpr(KindAt(toks, i)) && AheadAt(toks, i, Grammar.ArgsYield(args) + [RPar], {})
    ensures |args| > 0
    ensures AheadAt(toks, i, Grammar.ExprYield(args[0]), ExprCont)
    ensures AheadAt(toks, i + |Grammar.ExprYield(args[0])|, Grammar.MoreArgsYield(args[1..]) + [RPar], {})
    ensures |Grammar.ArgsYield(args)| == |Grammar.ExprYield(args[0])| + |Grammar.MoreArgsYield(args[1..])|
  {
    ArgsFirst(args);
    KindOf(toks, i, Grammar.ArgsYield(args) + [RPar], 0);
    var e := Grammar.ExprYield(args[0]);
    var more := Grammar.MoreArgsYield(args[1..]);
    assert Grammar.ArgsYield(args) + [RPar] == e + (more + [RPar]);
    MoreArgsFirst(args[1..]);
    Split(toks, i, e, more + [RPar], {}, ExprCont);
  }

  /** A further argument starts with `,`; what follows the arguments
      starts with `,` or is the closing `)`, and cannot continue an
      expression. */
  lemma {:induction false} MoreArgsFirst(args: seq<Grammar.Expr>)
    ensures |args| > 0 ==> |Grammar.MoreArgsYield(args)| > 0 && Grammar.MoreArgsYield(args)[0] == Comma
    ensures var y := Grammar.MoreArgsYield(args) + [RPar];
      && (y[0] == Comma <==> |args| > 0)
      && (|args| == 0 ==> y[0] == RPar)
      && y[0] !in ExprCont
  {
    var y := Grammar.MoreArgsYield(args) + [RPar];
    if |args| > 0 {
      assert y[0] == Comma;
    } else {
      assert y == [RPar];
    }
  }

  lemma {:induction false} NextArg(toks: seq<Token>, i: nat, args: seq<Grammar.Expr>)
    requires AheadAt(toks, i, Grammar.MoreArgsYield(args) + [RPar], {})
    ensures KindAt(toks, i) == Comma <==> |args| > 0
    ensures |args| == 0 ==> KindAt(toks, i) == RPar
    ensures |args| > 0 ==>
      && AheadAt(toks, i + 1, Grammar.ExprYield(args[0]), ExprCont)
      && AheadAt(toks, i + 1 + |Grammar.ExprYield(args[0])|, Grammar.MoreArgsYield(args[1..]) + [RPar], {})
      && |Grammar.MoreArgsYield(args)| == 1 + |Grammar.ExprYield(args[0])| + |Grammar.MoreArgsYield(args[1..])|
  {
    MoreArgsFirst(args);
    KindOf(toks, i, Grammar.MoreArgsYield(args) + [RPar], 0);
    if |args| > 0 {
      var e := Grammar.ExprYield(args[0]);
      var more := Grammar.MoreArgsYield(args[1..]);
      assert Grammar.MoreArgsYield(args) + [RPar] == [Comma] + (e + (more + [RPar]));
      Take(toks, i, Comma, e + (more + [RPar]), {});
      MoreArgsFirst(args[1..]);
      Split(toks, i + 1, e, more + [RPar], {}, ExprCont);
    }
  }

  // ---------------------------------------------------------------------
  // Acceptance, one step of a production at a time
  //
  // Each lemma takes the states a parsing method passes through, and
  // the contracts of the calls that lead from one to the next, and
  // concludes that method's acceptance clause (or its loop invariant).
  // ---------------------------------------------------------------------

  /** The selector "." ident. */
  lemma {:induction false} FieldAccepts(st: PState, s1: PState, r: PState, sel: Grammar.Selector)
    requires Sym(st) == Period && Advanced(st, s1, 1)
    requires Sym(s1) == Ident ==> Advanced(s1, r, 1)
    ensures Ahead(st, Grammar.SelectorYield(sel), {}) ==> Advanced(st, r, |Grammar.SelectorYield(sel)|)
  {
    if Ahead(st, Grammar.SelectorYield(sel), {}) {
      SelectorParts(st.toks, st.pos, sel);
    }
  }

  /** The selector "[" Expr "]". */
  lemma {:induction false} IndexAccepts(st: PState, s1: PState, r1: PState, r: PState,
                                        sel: Grammar.Selector, e: Grammar.Expr)
    requires Sym(st) == LBrack && Advanced(st, s1, 1)
    requires e == (if sel.Index? then sel.index else Grammar.Zero)
    requires Ahead(s1, Grammar.ExprYield(e), ExprCont) ==> Advanced(s1, r1, |Grammar.ExprYield(e)|)
    requires Sym(r1) == RBrack ==> Advanced(r1, r, 1)
    ensures Ahead(st, Grammar.SelectorYield(sel), {}) ==> Advanced(st, r, |Grammar.SelectorYield(sel)|)
  {
    if Ahead(st, Grammar.SelectorYield(sel), {}) {
      SelectorParts(st.toks, st.pos, sel);
    }
  }

  /** What the selector loop of `Designator` keeps: the selectors `rest`
      are still ahead, and everything before them has been recognised. */
  predicate SelectorsLeft(st: PState, r: PState, rest: seq<Grammar.Selector>, n: int)
  {
    Ahead(r, Grammar.SelectorsYield(rest), DesignatorCont) && Advanced(st, r, n - |Grammar.SelectorsYield(rest)|)
  }

  lemma {:induction false} DesignatorStart(st: PState, r: PState, d: Grammar.Designator)
    requires Sym(st) == Ident ==> Advanced(st, r, 1)
    ensures Ahead(st, Grammar.DesignatorYield(d), DesignatorCont) ==>
      SelectorsLeft(st, r, d.sels, |Grammar.DesignatorYield(d)|)
  {
    if Ahead(st, Grammar.DesignatorYield(d), DesignatorCont) {
      Take(st.toks, st.pos, Ident, Grammar.SelectorsYield(d.sels), DesignatorCont);
    }
  }

  lemma {:induction false} DesignatorStep(st: PState, r0: PState, r: PState, rest: seq<Grammar.Selector>,
                                          sel: Grammar.Selector, n: int)
    requires Sym(r0) == Period || Sym(r0) == LBrack
    requires SelectorsLeft(st, r0, rest, n)
    requires sel == (if |rest| > 0 then rest[0] else Grammar.Field)
    requires Ahead(r0, Grammar.SelectorYield(sel), {}) ==> Advanced(r0, r, |Grammar.SelectorYield(sel)|)
    ensures |rest| > 0 && SelectorsLeft(st, r, rest[1..], n)
  {
    NextSelector(r0.toks, r0.pos, rest);
  }

  lemma {:induction false} DesignatorEnd(st: PState, r: PState, rest: seq<Grammar.Selector>, n: int)
    requires Sym(r) != Period && Sym(r) != LBrack
    requires SelectorsLeft(st, r, rest, n)
    ensures Advanced(st, r, n)
  {
    SelectorsFirst(rest);
    Head(r.toks, r.pos, Grammar.SelectorsYield(rest), DesignatorCont);
  }

  /** The factor alternative that is a designator without arguments. */
  lemma {:induction false} AccessAccepts(st: PState, r1: PState, f: Grammar.Factor, d: Grammar.Designator)
    requires Sym(st) == Ident && Sym(r1) != LPar
    requires d == (if f.Access? || f.Call? then f.d else Grammar.Designator([]))
    requires Ahead(st, Grammar.DesignatorYield(d), DesignatorCont) ==> Advanced(st, r1, |Grammar.DesignatorYield(d)|)
    ensures Ahead(st, Grammar.FactorYield(f), FactorCont) ==> Advanced(st, r1, |Grammar.FactorYield(f)|)
  {
    if Ahead(st, Grammar.FactorYield(f), FactorCont) {
      DesignatorParts(st.toks, st.pos, f);
    }
  }

  /** The factor alternative that is a call, a designator with arguments. */
  lemma {:induction false} CallAccepts(st: PState, r1: PState, r: PState, f: Grammar.Factor,
                                       d: Grammar.Designator, args: seq<Grammar.Expr>)
    requires Sym(st) == Ident && Sym(r1) == LPar
    requires d == (if f.Access? || f.Call? then f.d else Grammar.Designator([]))
    requires args == (if f.Call? then f.args else [])
    requires Ahead(st, Grammar.DesignatorYield(d), DesignatorCont) ==> Advanced(st, r1, |Grammar.DesignatorYield(d)|)
    requires Ahead(r1, Grammar.ActParsYield(args), {}) ==> Advanced(r1, r, |Grammar.ActParsYield(args)|)
    ensures Ahead(st, Grammar.FactorYield(f), FactorCont) ==> Advanced(st, r, |Grammar.FactorYield(f)|)
  {
    if Ahead(st, Grammar.FactorYield(f), FactorCont) {
      DesignatorParts(st.toks, st.pos, f);
    }
  }

  /** The factor alternatives number and character constant. */
  lemma {:induction false} ConstAccepts(st: PState, r: PState, f: Grammar.Factor)
    requires (Sym(st) == Number || Sym(st) == CharCon) && Advanced(st, r, 1)
    ensures Ahead(st, Grammar.FactorYield(f), FactorCont) ==> Advanced(st, r, |Grammar.FactorYield(f)|)
  {
    if Ahead(st, Grammar.FactorYield(f), FactorCont) {
      FactorStart(st.toks, st.pos, f);
    }
  }

  /** No factor starts with a token outside `FirstFactor`. */
  lemma {:induction false} NoFactorAhead(st: PState, f: Grammar.Factor)
    requires Sym(st) !in FirstFactor
    ensures !Ahead(st, Grammar.FactorYield(f), FactorCont)
  {
    if Ahead(st, Grammar.FactorYield(f), FactorCont) {
      FactorStart(st.toks, st.pos, f);
    }
  }

  /** The factor alternative "new" ident. */
  lemma {:induction false} NewObjectAccepts(st: PState, s1: PState, r1: PState, f: Grammar.Factor)
    requires Sym(st) == KwNew && Advanced(st, s1, 1)
    requires Sym(s1) == Ident ==> Advanced(s1, r1, 1)
    requires Sym(r1) != LBrack
    ensures Ahead(st, Grammar.FactorYield(f), FactorCont) ==> Advanced(st, r1, |Grammar.FactorYield(f)|)
  {
    if Ahead(st, Grammar.FactorYield(f), FactorCont) {
      NewParts(st.toks, st.pos, f);
    }
  }

  /** What is left of "new" ident "[" Expr "]" once "[" is recognised:
      the length expression, then "]". */
  predicate NewArrayLeft(st: PState, s2: PState, f: Grammar.Factor)
  {
    && f.NewArray?
    && Advanced(st, s2, 3)
    && Ahead(s2, Grammar.ExprYield(f.len), ExprCont)
    && KindAt(s2.toks, s2.pos + |Grammar.ExprYield(f.len)|) == RBrack
    && |Grammar.FactorYield(f)| == |Grammar.ExprYield(f.len)| + 4
  }

  /** The factor alternative "new" ident "[" Expr "]", up to "[". */
  lemma {:induction false} NewArrayOpen(st: PState, s1: PState, r1: PState, s2: PState, f: Grammar.Factor)
    requires Sym(st) == KwNew && Advanced(st, s1, 1)
    requires Sym(s1) == Ident ==> Advanced(s1, r1, 1)
    requires Sym(r1) == LBrack && Advanced(r1, s2, 1)
    ensures Ahead(st, Grammar.FactorYield(f), FactorCont) ==> NewArrayLeft(st, s2, f)
  {
    if Ahead(st, Grammar.FactorYield(f), FactorCont) {
      NewParts(st.toks, st.pos, f);
      NewArrayParts(st.toks, st.pos, f);
      AdvancedTrans(st, s1, r1, 1, 1);
      AdvancedTrans(st, r1, s2, 2, 1);
    }
  }

  /** The factor alternative "new" ident "[" Expr "]", from the length on. */
  lemma {:induction false} NewArrayAccepts(st: PState, s2: PState, r2: PState, r: PState,
                                           f: Grammar.Factor, e: Grammar.Expr)
    requires Ahead(st, Grammar.FactorYield(f), FactorCont) ==> NewArrayLeft(st, s2, f)
    requires e == (if f.NewArray? then f.len else Grammar.Zero)
    requires Ahead(s2, Grammar.ExprYield(e), ExprCont) ==> Advanced(s2, r2, |Grammar.ExprYield(e)|)
    requires Sym(r2) == RBrack ==> Advanced(r2, r, 1)
    ensures Ahead(st, Grammar.FactorYield(f), FactorCont) ==> Advanced(st, r, |Grammar.FactorYield(f)|)
  {
  }

  /** The factor alternative "(" Expr ")". */
  lemma {:induction false} ParenAccepts(st: PState, s1: PState, r1: PState, r: PState,
                                        f: Grammar.Factor, e: Grammar.Expr)
    requires Sym(st) == LPar && Advanced(st, s1, 1)
    requires e == (if f.Paren? then f.e else Grammar.Zero)
    requires Ahead(s1, Grammar.ExprYield(e), ExprCont) ==> Advanced(s1, r1, |Grammar.ExprYield(e)|)
    requires Sym(r1) == RPar ==> Advanced(r1, r, 1)
    ensures Ahead(st, Grammar.FactorYield(f), FactorCont) ==> Advanced(st, r, |Grammar.FactorYield(f)|)
  {
    if Ahead(st, Grammar.FactorYield(f), FactorCont) {
      ParenParts(st.toks, st.pos, f);
    }
  }

  /** What the factor loop of `Term` keeps. */
  predicate FactorsLeft(st: PState, r: PState, rest: seq<Grammar.MulFactor>, n: int)
  {
    Ahead(r, Grammar.MulFactorsYield(rest), TermCont) && Advanced(st, r, n - |Grammar.MulFactorsYield(rest)|)
  }

  lemma {:induction false} TermStart(st: PState, r: PState, t: Grammar.Term)
    requires Ahead(st, Grammar.FactorYield(t.first), FactorCont) ==> Advanced(st, r, |Grammar.FactorYield(t.first)|)
    ensures Ahead(st, Grammar.TermYield(t), TermCont) ==> FactorsLeft(st, r, t.rest, |Grammar.TermYield(t)|)
  {
    if Ahead(st, Grammar.TermYield(t), TermCont) {
      TermParts(st.toks, st.pos, t);
    }
  }

  lemma {:induction false} TermStep(st: PState, r0: PState, r1: PState, r: PState,
                                    rest: seq<Grammar.MulFactor>, m: Grammar.MulFactor, n: int)
    requires Sym(r0) in MulOps && Advanced(r0, r1, 1)
    requires FactorsLeft(st, r0, rest, n)
    requires m == (if |rest| > 0 then rest[0] else Grammar.MulFactor(Grammar.Mul, Grammar.NumberConst))
    requires Ahead(r1, Grammar.FactorYield(m.f), FactorCont) ==> Advanced(r1, r, |Grammar.FactorYield(m.f)|)
    ensures |rest| > 0 && FactorsLeft(st, r, rest[1..], n)
  {
    NextMulFactor(r0.toks, r0.pos, rest);
  }

  lemma {:induction false} TermEnd(st: PState, r: PState, rest: seq<Grammar.MulFactor>, n: int)
    requires Sym(r) !in MulOps
    requires FactorsLeft(st, r, rest, n)
    ensures Advanced(st, r, n)
  {
    MulFactorsFirst(rest);
    Head(r.toks, r.pos, Grammar.MulFactorsYield(rest), TermCont);
  }

  /** What the term loop of `Expr` keeps. */
  predicate TermsLeft(st: PState, r: PState, rest: seq<Grammar.AddTerm>, n: int)
  {
    Ahead(r, Grammar.AddTermsYield(rest), ExprCont) && Advanced(st, r, n - |Grammar.AddTermsYield(rest)|)
  }

  lemma {:induction false} ExprStart(st: PState, r: PState, e: Grammar.Expr)
    requires Sym(st) != Minus
    requires Ahead(st, Grammar.TermYield(e.first), TermCont) ==> Advanced(st, r, |Grammar.TermYield(e.first)|)
    ensures Ahead(st, Grammar.ExprYield(e), ExprCont) ==> TermsLeft(st, r, e.rest, |Grammar.ExprYield(e)|)
  {
    if Ahead(st, Grammar.ExprYield(e), ExprCont) {
      ExprParts(st.toks, st.pos, e);
    }
  }

  lemma {:induction false} NegExprStart(st: PState, r0: PState, r: PState, e: Grammar.Expr)
    requires Sym(st) == Minus && Advanced(st, r0, 1)
    requires Ahead(r0, Grammar.TermYield(e.first), TermCont) ==> Advanced(r0, r, |Grammar.TermYield(e.first)|)
    ensures Ahead(st, Grammar.ExprYield(e), ExprCont) ==> TermsLeft(st, r, e.rest, |Grammar.ExprYield(e)|)
  {
    if Ahead(st, Grammar.ExprYield(e), ExprCont) {
      NegExprParts(st.toks, st.pos, e);
    }
  }

  lemma {:induction false} ExprStep(st: PState, r0: PState, r1: PState, r: PState,
                                    rest: seq<Grammar.AddTerm>, a: Grammar.AddTerm, n: int)
    requires Sym(r0) in AddOps && Advanced(r0, r1, 1)
    requires TermsLeft(st, r0, rest, n)
    requires |rest| > 0 ==> a == rest[0]
    requires Ahead(r1, Grammar.TermYield(a.t), TermCont) ==> Advanced(r1, r, |Grammar.TermYield(a.t)|)
    ensures |rest| > 0 && TermsLeft(st, r, rest[1..], n)
  {
    NextAddTerm(r0.toks, r0.pos, rest);
  }

  lemma {:induction false} ExprEnd(st: PState, r: PState, rest: seq<Grammar.AddTerm>, n: int)
    requires Sym(r) !in AddOps
    requires TermsLeft(st, r, rest, n)
    ensures Advanced(st, r, n)
  {
    AddTermsFirst(rest);
    Head(r.toks, r.pos, Grammar.AddTermsYield(rest), ExprCont);
  }

  lemma {:induction false} ConditionAccepts(st: PState, r1: PState, r2: PState, r: PState, c: Grammar.Condition)
    requires Ahead(st, Grammar.ExprYield(c.left), ExprCont) ==> Advanced(st, r1, |Grammar.ExprYield(c.left)|)
    requires Sym(r1) in RelOps ==> Advanced(r1, r2, 1)
    requires Ahead(r2, Grammar.ExprYield(c.right), ExprCont) ==> Advanced(r2, r, |Grammar.ExprYield(c.right)|)
    ensures Ahead(st, Grammar.ConditionYield(c), ExprCont) ==> Advanced(st, r, |Grammar.ConditionYield(c)|)
  {
    if Ahead(st, Grammar.ConditionYield(c), ExprCont) {
      ConditionParts(st.toks, st.pos, c);
      assert |Grammar.ConditionYield(c)| == |Grammar.ExprYield(c.left)| + 1 + |Grammar.ExprYield(c.right)|;
    }
  }

  /** What the argument loop of `ActPars` keeps: the arguments `rest`
      and the closing `)` are still ahead. */
  predicate ArgsLeft(st: PState, r: PState, rest: seq<Grammar.Expr>, n: int)
  {
    Ahead(r, Grammar.MoreArgsYield(rest) + [RPar], {}) && Advanced(st, r, n - |Grammar.MoreArgsYield(rest)| - 1)
  }

  lemma {:induction false} NoArgs(st: PState, r1: PState, args: seq<Grammar.Expr>)
    requires Sym(st) == LPar ==> Advanced(st, r1, 1)
    requires !StartsExpr(Sym(r1))
    ensures Ahead(st, Grammar.ActParsYield(args), {}) ==>
      Sym(r1) == RPar && Advanced(st, r1, |Grammar.ActParsYield(args)| - 1)
  {
    if Ahead(st, Grammar.ActParsYield(args), {}) {
      NoArgsParts(st.toks, st.pos, args);
    }
  }

  /** The first argument. `st` is the lookahead after `(`. */
  lemma {:induction false} FirstArg(st: PState, r: PState, args: seq<Grammar.Expr>,
                                    first: Grammar.Expr, rest: seq<Grammar.Expr>)
    requires StartsExpr(Sym(st))
    requires first == (if |args| > 0 then args[0] else Grammar.Zero)
    requires rest == (if |args| > 0 then args[1..] else [])
    requires Ahead(st, Grammar.ExprYield(first), ExprCont) ==> Advanced(st, r, |Grammar.ExprYield(first)|)
    ensures Ahead(st, Grammar.ArgsYield(args) + [RPar], {}) ==>
      ArgsLeft(st, r, rest, |Grammar.ArgsYield(args)| + 1)
  {
    if Ahead(st, Grammar.ArgsYield(args) + [RPar], {}) {
      FirstArgParts(st.toks, st.pos, args);
    }
  }

  /** A call with arguments: `(`, then the arguments up to `)`. */
  lemma {:induction false} SomeArgs(st: PState, r1: PState, r: PState, args: seq<Grammar.Expr>)
    requires Sym(st) == LPar ==> Advanced(st, r1, 1)
    requires Ahead(r1, Grammar.ArgsYield(args) + [RPar], {}) ==>
      Sym(r) == RPar && Advanced(r1, r, |Grammar.ArgsYield(args)|)
    ensures Ahead(st, Grammar.ActParsYield(args), {}) ==>
      Sym(r) == RPar && Advanced(st, r, |Grammar.ActParsYield(args)| - 1)
  {
    if Ahead(st, Grammar.ActParsYield(args), {}) {
      ArgsOpen(st.toks, st.pos, args);
      AdvancedTrans(st, r1, r, 1, |Grammar.ArgsYield(args)|);
    }
  }

  lemma {:induction false} ArgStep(st: PState, r0: PState, r1: PState, r: PState,
                                   rest: seq<Grammar.Expr>, arg: Grammar.Expr, n: int)
    requires Sym(r0) == Comma && Advanced(r0, r1, 1)
    requires ArgsLeft(st, r0, rest, n)
    requires arg == (if |rest| > 0 then rest[0] else Grammar.Zero)
    requires Ahead(r1, Grammar.ExprYield(arg), ExprCont) ==> Advanced(r1, r, |Grammar.ExprYield(arg)|)
    ensures |rest| > 0 && ArgsLeft(st, r, rest[1..], n)
  {
    NextArg(r0.toks, r0.pos, rest);
  }

  lemma {:induction false} ArgsEnd(st: PState, r: PState, rest: seq<Grammar.Expr>, n: int)
    requires Sym(r) != Comma
    requires ArgsLeft(st, r, rest, n)
    ensures Sym(r) == RPar && Advanced(st, r, n - 1)
  {
    NextArg(r.toks, r.pos, rest);
  }


  // ---------------------------------------------------------------------
  // Reading a statement or declaration part by part
  // ---------------------------------------------------------------------

  /** Part way through a production that accepts `n` tokens in all: `y`
      is still to be read before a token outside `cont`, and everything
      before it was recognised without error. */
  predicate Left(st: PState, r: PState, y: seq<Kind>, cont: set<Kind>, n: int)
  {
    Ahead(r, y, cont) && Advanced(st, r, n - |y|)
  }

  /** Reading the token `k` a production expects next. */
  lemma {:induction false} TokStep(st: PState, r: PState, r1: PState, k: Kind, y: seq<Kind>, cont: set<Kind>, n: int)
    requires Left(st, r, [k] + y, cont, n)
    requires Sym(r) == k ==> Advanced(r, r1, 1)
    ensures Sym(r) == k && Left(st, r1, y, cont, n)
  {
    Take(r.toks, r.pos, k, y, cont);
    AdvancedTrans(st, r, r1, n - |y| - 1, 1);
  }

  /** Reading the part `x` a production expects next with a method that
      accepts `x` when no token of `contX` follows it. */
  lemma {:induction false} PartStep(st: PState, r: PState, r1: PState, x: seq<Kind>, y: seq<Kind>,
                                    cont: set<Kind>, contX: set<Kind>, n: int)
    requires Left(st, r, x + y, cont, n)
    requires if |y| > 0 then y[0] !in contX else contX <= cont
    requires Ahead(r, x, contX) ==> Advanced(r, r1, |x|)
    ensures Left(st, r1, y, cont, n)
  {
    Split(r.toks, r.pos, x, y, cont, contX);
    AdvancedTrans(st, r, r1, n - |x| - |y|, |x|);
  }

  /** Reading the last part. */
  lemma {:induction false} LastStep(st: PState, r: PState, r1: PState, x: seq<Kind>, cont: set<Kind>, n: int)
    requires Left(st, r, x, cont, n)
    requires Ahead(r, x, cont) ==> Advanced(r, r1, |x|)
    ensures Advanced(st, r1, n)
  {
    AdvancedTrans(st, r, r1, n - |x|, |x|);
  }

  /** Reading the last token. */
  lemma {:induction false} LastTok(st: PState, r: PState, r1: PState, k: Kind, cont: set<Kind>, n: int)
    requires Left(st, r, [k], cont, n)
    requires Sym(r) == k ==> Advanced(r, r1, 1)
    ensures Advanced(st, r1, n)
  {
    KindOf(r.toks, r.pos, [k], 0);
    AdvancedTrans(st, r, r1, n - 1, 1);
  }

  // ---------------------------------------------------------------------
  // The statements' yields, one alternative at a time: the lookahead
  // picks the alternative, and the yield is read left to right
  // ---------------------------------------------------------------------

  /** The well-formed statement the input holds at `st`. */
  predicate StatAhead(st: PState, s: Grammar.Statement)
  {
    Grammar.WellFormed(s) && Ahead(st, Grammar.StatementYield(s), StatementCont(s))
  }

  /** The statement's first token is the lookahead. */
  lemma {:induction false} StatStart(st: PState, s: Grammar.Statement)
    requires StatAhead(st, s)
    ensures |Grammar.StatementYield(s)| > 0 && Sym(st) == Grammar.StatementYield(s)[0] && Sym(st) in FirstStat
  {
    Grammar.StatementFirst(s);
    KindOf(st.toks, st.pos, Grammar.StatementYield(s), 0);
  }

  /** A production about to be read. */
  lemma {:induction false} LeftStart(st: PState, y: seq<Kind>, cont: set<Kind>)
    requires Ahead(st, y, cont)
    ensures Left(st, st, y, cont, |y|)
  {
  }

  /** The input holds `if (c) thn`, followed by `else els` exactly when
      `hasElse`: the `then` branch does not end in an `if` without `else`
      when an `else` follows it, and without one nothing can continue the
      statement but an `else`. */
  predicate IfAhead(st: PState, c: Grammar.Condition, thn: Grammar.Statement, hasElse: bool, els: Grammar.Statement)
  {
    && Grammar.WellFormed(thn)
    && (hasElse ==> !Grammar.Open(thn) && Grammar.WellFormed(els))
    && Ahead(st, Grammar.IfYield(c, thn, if hasElse then [KwElse] + Grammar.StatementYield(els) else []),
             if hasElse then StatementCont(els) else {KwElse})
  }

  /** After the `then` branch: an `else` is read exactly when the input
      holds one. */
  lemma {:induction false} ElseAccepts(st: PState, r: PState, s1: PState, r1: PState, hasElse: bool,
                                       els: Grammar.Statement, cont: set<Kind>, n: int)
    requires Sym(r) == KwElse && Advanced(r, s1, 1)
    requires Left(st, r, if hasElse then [KwElse] + Grammar.StatementYield(els) else [], cont, n)
    requires !hasElse ==> cont == {KwElse}
    requires hasElse ==> Grammar.WellFormed(els) && StatementCont(els) == cont
    requires StatAhead(s1, els) ==> Advanced(s1, r1, |Grammar.StatementYield(els)|)
    ensures Advanced(st, r1, n)
  {
    if hasElse {
      TokStep(st, r, s1, KwElse, Grammar.StatementYield(els), cont, n);
      LastStep(st, s1, r1, Grammar.StatementYield(els), cont, n);
    }
  }

  lemma {:induction false} NoElse(st: PState, r: PState, hasElse: bool, els: Grammar.Statement,
                                  cont: set<Kind>, n: int)
    requires Sym(r) != KwElse
    requires Left(st, r, if hasElse then [KwElse] + Grammar.StatementYield(els) else [], cont, n)
    ensures Advanced(st, r, n)
  {
    if hasElse {
      Take(r.toks, r.pos, KwElse, Grammar.StatementYield(els), cont);
    }
  }

  /** The keyword, `(`, the condition and `)` of `if` and `while`, read
      part by part. */
  lemma {:induction false} CondHeadAccepts(st: PState, s1: PState, r1: PState, r2: PState, r: PState,
                                        c: Grammar.Condition, y: seq<Kind>, cont: set<Kind>)
    requires Advanced(st, s1, 1)
    requires Sym(s1) == LPar ==> Advanced(s1, r1, 1)
    requires Ahead(r1, Grammar.ConditionYield(c), ExprCont) ==> Advanced(r1, r2, |Grammar.ConditionYield(c)|)
    requires Sym(r2) == RPar ==> Advanced(r2, r, 1)
    ensures Ahead(st, [Sym(st)] + ([LPar] + (Grammar.ConditionYield(c) + ([RPar] + y))), cont) ==>
      Ahead(r, y, cont) && Advanced(st, r, |Grammar.ConditionYield(c)| + 3)
  {
    var y2 := [RPar] + y;
    var y1 := Grammar.ConditionYield(c) + y2;
    var n := |[Sym(st)] + ([LPar] + y1)|;
    if Ahead(st, [Sym(st)] + ([LPar] + y1), cont) {
      LeftStart(st, [Sym(st)] + ([LPar] + y1), cont);
      TokStep(st, st, s1, Sym(st), [LPar] + y1, cont, n);
      TokStep(st, s1, r1, LPar, y1, cont, n);
      PartStep(st, r1, r2, Grammar.ConditionYield(c), y2, cont, ExprCont, n);
      TokStep(st, r2, r, RPar, y, cont, n);
    }
  }

  /** The yield of `return` with or without a value. */
  function ReturnYield(value: bool, e: Grammar.Expr): seq<Kind>
  {
    [KwReturn] + (if value then Grammar.ExprYield(e) + [Semicolon] else [Semicolon])
  }

  /** Designator "=" Expr ";" read part by part. */
  lemma {:induction false} AssignAccepts(st: PState, r1: PState, s2: PState, r2: PState, r: PState,
                                         d: Grammar.Designator, e: Grammar.Expr)
    requires Ahead(st, Grammar.DesignatorYield(d), DesignatorCont) ==> Advanced(st, r1, |Grammar.DesignatorYield(d)|)
    requires Sym(r1) == Assign ==> Advanced(r1, s2, 1)
    requires Sym(r1) == Assign ==>
      Ahead(s2, Grammar.ExprYield(e), ExprCont) ==> Advanced(s2, r2, |Grammar.ExprYield(e)|)
    requires Sym(r2) == Semicolon ==> Advanced(r2, r, 1)
    ensures Ahead(st, Grammar.AssignYield(d, e), {}) ==> Advanced(st, r, |Grammar.AssignYield(d, e)|)
  {
    if Ahead(st, Grammar.AssignYield(d, e), {}) {
      var n := |Grammar.AssignYield(d, e)|;
      AssignHead(st, r1, d, e);
      TokStep(st, r1, s2, Assign, Grammar.ExprYield(e) + [Semicolon], {}, n);
      PartStep(st, s2, r2, Grammar.ExprYield(e), [Semicolon], {}, ExprCont, n);
      LastTok(st, r2, r, Semicolon, {}, n);
    }
  }

  /** Designator ActPars ";" read part by part. */
  lemma {:induction false} CallStatAccepts(st: PState, r1: PState, r2: PState, r: PState,
                                           d: Grammar.Designator, args: seq<Grammar.Expr>)
    requires Ahead(st, Grammar.DesignatorYield(d), DesignatorCont) ==> Advanced(st, r1, |Grammar.DesignatorYield(d)|)
    requires Sym(r1) == LPar ==>
      Ahead(r1, Grammar.ActParsYield(args), {}) ==> Advanced(r1, r2, |Grammar.ActParsYield(args)|)
    requires Sym(r2) == Semicolon ==> Advanced(r2, r, 1)
    ensures Ahead(st, Grammar.CallYield(d, args), {}) ==> Advanced(st, r, |Grammar.CallYield(d, args)|)
  {
    if Ahead(st, Grammar.CallYield(d, args), {}) {
      var n := |Grammar.CallYield(d, args)|;
      CallHead(st, r1, d, args);
      PartStep(st, r1, r2, Grammar.ActParsYield(args), [Semicolon], {}, {}, n);
      LastTok(st, r2, r, Semicolon, {}, n);
    }
  }

  /** After the designator of an assignment. */
  lemma {:induction false} AssignHead(st: PState, r1: PState, d: Grammar.Designator, e: Grammar.Expr)
    requires Ahead(st, Grammar.AssignYield(d, e), {})
    requires Ahead(st, Grammar.DesignatorYield(d), DesignatorCont) ==> Advanced(st, r1, |Grammar.DesignatorYield(d)|)
    ensures Sym(r1) == Assign
    ensures Left(st, r1, [Assign] + (Grammar.ExprYield(e) + [Semicolon]), {}, |Grammar.AssignYield(d, e)|)
  {
    var tail := [Assign] + (Grammar.ExprYield(e) + [Semicolon]);
    LeftStart(st, Grammar.AssignYield(d, e), {});
    PartStep(st, st, r1, Grammar.DesignatorYield(d), tail, {}, DesignatorCont, |Grammar.AssignYield(d, e)|);
    Head(r1.toks, r1.pos, tail, {});
  }

  /** After the designator of a call. */
  lemma {:induction false} CallHead(st: PState, r1: PState, d: Grammar.Designator, args: seq<Grammar.Expr>)
    requires Ahead(st, Grammar.CallYield(d, args), {})
    requires Ahead(st, Grammar.DesignatorYield(d), DesignatorCont) ==> Advanced(st, r1, |Grammar.DesignatorYield(d)|)
    ensures Sym(r1) == LPar
    ensures Left(st, r1, Grammar.ActParsYield(args) + [Semicolon], {}, |Grammar.CallYield(d, args)|)
  {
    var tail := Grammar.ActParsYield(args) + [Semicolon];
    assert tail[0] == LPar;
    LeftStart(st, Grammar.CallYield(d, args), {});
    PartStep(st, st, r1, Grammar.DesignatorYield(d), tail, {}, DesignatorCont, |Grammar.CallYield(d, args)|);
    Head(r1.toks, r1.pos, tail, {});
  }

  /** The value of a `return` is there exactly when an expression follows. */
  lemma {:induction false} ReturnStart(st: PState, s1: PState, e: Grammar.Expr, value: bool)
    requires Ahead(st, ReturnYield(value, e), {})
    requires Advanced(st, s1, 1)
    ensures Left(st, s1, if value then Grammar.ExprYield(e) + [Semicolon] else [Semicolon], {}, |ReturnYield(value, e)|)
    ensures value <==> StartsExpr(Sym(s1))
  {
    var y1 := if value then Grammar.ExprYield(e) + [Semicolon] else [Semicolon];
    Take(st.toks, st.pos, KwReturn, y1, {});
    if value {
      Grammar.ExprFirst(e);
    }
    Head(s1.toks, s1.pos, y1, {});
  }

  /** `print (` is followed by an expression. */
  lemma {:induction false} PrintStart(st: PState, s1: PState, r1: PState, e: Grammar.Expr, width: bool)
    requires Ahead(st, Grammar.PrintYield(e, width), {})
    requires Advanced(st, s1, 1) && (Sym(s1) == LPar ==> Advanced(s1, r1, 1))
    ensures StartsExpr(Sym(r1))
    ensures Left(st, r1, Grammar.ExprYield(e) + (Grammar.Width(width) + ([RPar] + [Semicolon])), {}, |Grammar.PrintYield(e, width)|)
  {
    var y1 := Grammar.ExprYield(e) + (Grammar.Width(width) + ([RPar] + [Semicolon]));
    var n := |Grammar.PrintYield(e, width)|;
    TokStep(st, st, s1, KwPrint, [LPar] + y1, {}, n);
    TokStep(st, s1, r1, LPar, y1, {}, n);
    Grammar.ExprFirst(e);
    Head(r1.toks, r1.pos, y1, {});
  }

  /** The expression and the optional width of `print`. */
  lemma {:induction false} PrintMiddle(st: PState, r1: PState, r2: PState, r3: PState, e: Grammar.Expr,
                                       width: bool, n: int)
    requires Left(st, r1, Grammar.ExprYield(e) + (Grammar.Width(width) + ([RPar] + [Semicolon])), {}, n)
    requires Ahead(r1, Grammar.ExprYield(e), ExprCont) ==> Advanced(r1, r2, |Grammar.ExprYield(e)|)
    requires Sym(r2) == Comma && KindAt(r2.toks, r2.pos + 1) == Number ==> Advanced(r2, r3, 2)
    requires Sym(r2) != Comma ==> r3 == r2
    ensures Left(st, r3, [RPar] + [Semicolon], {}, n)
  {
    var w := Grammar.Width(width);
    assert (w + ([RPar] + [Semicolon]))[0] !in ExprCont;
    PartStep(st, r1, r2, Grammar.ExprYield(e), w + ([RPar] + [Semicolon]), {}, ExprCont, n);
    if width && Ahead(r2, w, {Comma}) {
      KindOf(r2.toks, r2.pos, w, 0);
      KindOf(r2.toks, r2.pos, w, 1);
    }
    PartStep(st, r2, r3, w, [RPar] + [Semicolon], {}, {Comma}, n);
  }

  /** The closing `)` and `;` of a statement. */
  lemma {:induction false} CloseStat(st: PState, r: PState, r1: PState, r2: PState, n: int)
    requires Left(st, r, [RPar] + [Semicolon], {}, n)
    requires Sym(r) == RPar ==> Advanced(r, r1, 1)
    requires Sym(r1) == Semicolon ==> Advanced(r1, r2, 1)
    ensures Advanced(st, r2, n)
  {
    TokStep(st, r, r1, RPar, [Semicolon], {}, n);
    LastTok(st, r1, r2, Semicolon, {}, n);
  }

  /** "read" "(" Designator ")" ";" read part by part. */
  lemma {:induction false} ReadAccepts(st: PState, s1: PState, r1: PState, r2: PState, r3: PState, r: PState,
                                       d: Grammar.Designator)
    requires Sym(st) == KwRead && Advanced(st, s1, 1)
    requires Sym(s1) == LPar ==> Advanced(s1, r1, 1)
    requires Ahead(r1, Grammar.DesignatorYield(d), DesignatorCont) ==> Advanced(r1, r2, |Grammar.DesignatorYield(d)|)
    requires Sym(r2) == RPar ==> Advanced(r2, r3, 1)
    requires Sym(r3) == Semicolon ==> Advanced(r3, r, 1)
    ensures Ahead(st, Grammar.ReadYield(d), {}) ==> Advanced(st, r, |Grammar.ReadYield(d)|)
  {
    if Ahead(st, Grammar.ReadYield(d), {}) {
      var n := |Grammar.ReadYield(d)|;
      var y1 := Grammar.DesignatorYield(d) + ([RPar] + [Semicolon]);
      LeftStart(st, Grammar.ReadYield(d), {});
      TokStep(st, st, s1, KwRead, [LPar] + y1, {}, n);
      TokStep(st, s1, r1, LPar, y1, {}, n);
      PartStep(st, r1, r2, Grammar.DesignatorYield(d), [RPar] + [Semicolon], {}, DesignatorCont, n);
      CloseStat(st, r2, r3, r, n);
    }
  }

  // The statement the lookahead picks is the statement the input holds.

  lemma {:induction false} AssignCase(st: PState, r: PState, s: Grammar.Statement)
    requires Sym(st) == Ident
    requires s.Assignment? ==>
      Ahead(st, Grammar.AssignYield(s.d, s.e), {}) ==> Advanced(st, r, |Grammar.AssignYield(s.d, s.e)|)
    requires s.ProcCall? ==>
      Ahead(st, Grammar.CallYield(s.d, s.args), {}) ==> Advanced(st, r, |Grammar.CallYield(s.d, s.args)|)
    ensures StatAhead(st, s) ==> Advanced(st, r, |Grammar.StatementYield(s)|)
  {
    if StatAhead(st, s) {
      StatStart(st, s);
      Grammar.StatementFirst(s);
    }
  }

  lemma {:induction false} IfCase(st: PState, r: PState, s: Grammar.Statement)
    requires Sym(st) == KwIf
    requires s.IfThen? || s.IfElse? ==>
      var elsePart := if s.IfElse? then [KwElse] + Grammar.StatementYield(s.els) else [];
      IfAhead(st, s.c, s.thn, s.IfElse?, if s.IfElse? then s.els else Grammar.Empty) ==> Advanced(st, r, |Grammar.IfYield(s.c, s.thn, elsePart)|)
    ensures StatAhead(st, s) ==> Advanced(st, r, |Grammar.StatementYield(s)|)
  {
    if StatAhead(st, s) {
      StatStart(st, s);
      Grammar.StatementFirst(s);
    }
  }

  lemma {:induction false} WhileCase(st: PState, r: PState, s: Grammar.Statement)
    requires Sym(st) == KwWhile
    requires s.While? ==> Grammar.WellFormed(s.body) && Ahead(st, Grammar.WhileYield(s.c, s.body), StatementCont(s.body)) ==>
      Advanced(st, r, |Grammar.WhileYield(s.c, s.body)|)
    ensures StatAhead(st, s) ==> Advanced(st, r, |Grammar.StatementYield(s)|)
  {
    if StatAhead(st, s) {
      StatStart(st, s);
      Grammar.StatementFirst(s);
    }
  }

  lemma {:induction false} ReturnCase(st: PState, r: PState, s: Grammar.Statement)
    requires Sym(st) == KwReturn
    requires s.ReturnVoid? || s.ReturnValue? ==>
      var e := if s.ReturnValue? then s.e else Grammar.Zero;
      Ahead(st, ReturnYield(s.ReturnValue?, e), {}) ==> Advanced(st, r, |ReturnYield(s.ReturnValue?, e)|)
    ensures StatAhead(st, s) ==> Advanced(st, r, |Grammar.StatementYield(s)|)
  {
    if StatAhead(st, s) {
      StatStart(st, s);
      Grammar.StatementFirst(s);
    }
  }

  lemma {:induction false} ReadCase(st: PState, r: PState, s: Grammar.Statement)
    requires Sym(st) == KwRead
    requires s.Read? ==> Ahead(st, Grammar.ReadYield(s.d), {}) ==> Advanced(st, r, |Grammar.ReadYield(s.d)|)
    ensures StatAhead(st, s) ==> Advanced(st, r, |Grammar.StatementYield(s)|)
  {
    if StatAhead(st, s) {
      StatStart(st, s);
      Grammar.StatementFirst(s);
    }
  }

  lemma {:induction false} PrintCase(st: PState, r: PState, s: Grammar.Statement)
    requires Sym(st) == KwPrint
    requires s.Print? ==>
      Ahead(st, Grammar.PrintYield(s.e, s.width), {}) ==> Advanced(st, r, |Grammar.PrintYield(s.e, s.width)|)
    ensures StatAhead(st, s) ==> Advanced(st, r, |Grammar.StatementYield(s)|)
  {
    if StatAhead(st, s) {
      StatStart(st, s);
      Grammar.StatementFirst(s);
    }
  }

  /** `;` is the empty statement. */
  lemma {:induction false} EmptyAccepts(st: PState, r: PState, s: Grammar.Statement)
    requires Sym(st) == Semicolon && Advanced(st, r, 1)
    ensures StatAhead(st, s) ==> Advanced(st, r, |Grammar.StatementYield(s)|)
  {
    if StatAhead(st, s) {
      StatStart(st, s);
    Grammar.StatementFirst(s);
    }
  }

  /** A block as a statement is a block. */
  lemma {:induction false} NestedAccepts(st: PState, r: PState, s: Grammar.Statement, stats: seq<Grammar.Statement>)
    requires Sym(st) == LBrace
    requires stats == if s.Nested? then s.stats else []
    requires Grammar.BlockWellFormed(stats) && Ahead(st, Grammar.BlockYield(stats), {}) ==>
      Advanced(st, r, |Grammar.BlockYield(stats)|)
    ensures StatAhead(st, s) ==> Advanced(st, r, |Grammar.StatementYield(s)|)
  {
    if StatAhead(st, s) {
      StatStart(st, s);
    Grammar.StatementFirst(s);
    }
  }

  /** What a block still holds: statements, and then `}` (no statement
      starts with `}`, `else` or the end of input). */
  lemma {:induction false} StatementsFollow(stats: seq<Grammar.Statement>)
    ensures var y := Grammar.StatementsYield(stats) + [RBrace];
      && y[0] != KwElse && y[0] != Eof
      && (y[0] == RBrace <==> |stats| == 0)
  {
    if |stats| > 0 {
      Grammar.StatementFirst(stats[0]);
      var sy := Grammar.StatementYield(stats[0]);
      assert (Grammar.StatementsYield(stats) + [RBrace])[0] == sy[0];
    }
  }

  /** One more statement of a block. */
  lemma {:induction false} NextStat(st: PState, r: PState, r1: PState, rest: seq<Grammar.Statement>,
                                    s: Grammar.Statement, n: int)
    requires Sym(r) != RBrace
    requires Left(st, r, Grammar.StatementsYield(rest) + [RBrace], {}, n) && Grammar.BlockWellFormed(rest)
    requires s == if |rest| > 0 then rest[0] else Grammar.Empty
    requires StatAhead(r, s) ==> Advanced(r, r1, |Grammar.StatementYield(s)|)
    ensures |rest| > 0
    ensures Left(st, r1, Grammar.StatementsYield(rest[1..]) + [RBrace], {}, n) && Grammar.BlockWellFormed(rest[1..])
  {
    StatementsFollow(rest);
    Head(r.toks, r.pos, Grammar.StatementsYield(rest) + [RBrace], {});
    var y := Grammar.StatementsYield(rest[1..]) + [RBrace];
    assert Grammar.StatementsYield(rest) + [RBrace] == Grammar.StatementYield(s) + y;
    StatementsFollow(rest[1..]);
    assert Grammar.WellFormed(rest[0]);
    PartStep(st, r, r1, Grammar.StatementYield(s), y, {}, StatementCont(s), n);
    assert forall i :: 0 <= i < |rest[1..]| ==> rest[1..][i] == rest[i + 1];
  }

  /** "{" {Statement} "}" read part by part. */
  lemma {:induction false} BlockAccepts(st: PState, r1: PState, r2: PState, r: PState, stats: seq<Grammar.Statement>)
    requires Sym(st) == LBrace ==> Advanced(st, r1, 1)
    requires Grammar.BlockWellFormed(stats) && Ahead(r1, Grammar.StatementsYield(stats) + [RBrace], {}) ==>
      Advanced(r1, r2, |Grammar.StatementsYield(stats)|)
    requires Sym(r2) == RBrace ==> Advanced(r2, r, 1)
    ensures Grammar.BlockWellFormed(stats) && Ahead(st, Grammar.BlockYield(stats), {}) ==>
      Advanced(st, r, |Grammar.BlockYield(stats)|)
  {
    if Grammar.BlockWellFormed(stats) && Ahead(st, Grammar.BlockYield(stats), {}) {
      var n := |Grammar.BlockYield(stats)|;
      var y := Grammar.StatementsYield(stats);
      LeftStart(st, Grammar.BlockYield(stats), {});
      TokStep(st, st, r1, LBrace, y + [RBrace], {}, n);
      Split(r1.toks, r1.pos, y, [RBrace], {}, {});
      LastTok(st, r2, r, RBrace, {}, n);
    }
  }

  /** After `check(rbrace)` at the end of a block's statements, either
      the `}` was the last token read, or the input has ended. */
  lemma {:induction false} ClosingBrace(st: PState, r: PState, r1: PState)
    requires st.pos <= r.pos
    requires Sym(r) == RBrace || Sym(r) == Eof
    requires Sym(r) == RBrace ==> Advanced(r, r1, 1)
    requires Sym(r) != RBrace ==> Reported(r, r1, Missing(RBrace))
    ensures Sym(r1) == Eof || (r1.pos > st.pos && KindAt(r1.toks, r1.pos - 1) == RBrace)
  {
  }

  /** At `}` or end of input no statement is left. */
  lemma {:induction false} StatementsEnd(st: PState, r: PState, rest: seq<Grammar.Statement>, n: int)
    requires Sym(r) == RBrace || Sym(r) == Eof
    requires Left(st, r, Grammar.StatementsYield(rest) + [RBrace], {}, n)
    ensures |rest| == 0 && Advanced(st, r, n - 1)
  {
    StatementsFollow(rest);
    Head(r.toks, r.pos, Grammar.StatementsYield(rest) + [RBrace], {});
    assert |rest| == 0;
    assert Grammar.StatementsYield(rest) + [RBrace] == [RBrace];
  }



  // ---------------------------------------------------------------------
  // The declarations' yields, read part by part
  // ---------------------------------------------------------------------

  lemma Assoc<T>(a: seq<T>, b: seq<T>, c: seq<T>)
    ensures (a + b) + c == a + (b + c)
  {
  }

  /** `"," ident`: one more name, which the input holds when a comma is
      next. */
  lemma {:induction false} NextName(st: PState, r: PState, s1: PState, r1: PState, m: nat, n: int)
    requires Sym(r) == Comma && Advanced(r, s1, 1)
    requires Sym(s1) == Ident ==> Advanced(s1, r1, 1)
    requires Left(st, r, Grammar.MoreNamesYield(m), {Comma}, n)
    ensures m > 0 && Left(st, r1, Grammar.MoreNamesYield(m - 1), {Comma}, n)
  {
    Head(r.toks, r.pos, Grammar.MoreNamesYield(m), {Comma});
    var y := Grammar.MoreNamesYield(m - 1);
    TokStep(st, r, s1, Comma, [Ident] + y, {Comma}, n);
    TokStep(st, s1, r1, Ident, y, {Comma}, n);
  }

  /** `"," ident` and the names after it. */
  lemma {:induction false} NameAccepts(st: PState, s1: PState, r1: PState, r: PState, m: nat)
    requires Sym(st) == Comma && Advanced(st, s1, 1)
    requires Sym(s1) == Ident ==> Advanced(s1, r1, 1)
    requires Ahead(r1, Grammar.MoreNamesYield(if m > 0 then m - 1 else 0), {Comma}) ==>
      Advanced(r1, r, |Grammar.MoreNamesYield(if m > 0 then m - 1 else 0)|)
    ensures Ahead(st, Grammar.MoreNamesYield(m), {Comma}) ==>
      m > 0 && Ahead(r1, Grammar.MoreNamesYield(m - 1), {Comma}) && Advanced(st, r, |Grammar.MoreNamesYield(m)|)
  {
    if Ahead(st, Grammar.MoreNamesYield(m), {Comma}) {
      var n := |Grammar.MoreNamesYield(m)|;
      LeftStart(st, Grammar.MoreNamesYield(m), {Comma});
      NextName(st, st, s1, r1, m, n);
      LastStep(st, r1, r, Grammar.MoreNamesYield(m - 1), {Comma}, n);
    }
  }

  /** Type ident {"," ident} ";" read part by part. */
  lemma {:induction false} VarDeclAccepts(st: PState, r0: PState, r1: PState, r2: PState, r: PState,
                                          v: Grammar.VarDecl)
    requires Ahead(st, Grammar.TypeYield(v.t), TypeCont) ==> Advanced(st, r0, |Grammar.TypeYield(v.t)|)
    requires Sym(r0) == Ident ==> Advanced(r0, r1, 1)
    requires Ahead(r1, Grammar.MoreNamesYield(v.extra), {Comma}) ==>
      Advanced(r1, r2, |Grammar.MoreNamesYield(v.extra)|)
    requires Sym(r2) == Semicolon ==> Advanced(r2, r, 1)
    ensures Ahead(st, Grammar.VarDeclYield(v), {}) ==>
      Ahead(r1, Grammar.MoreNamesYield(v.extra), {Comma}) && Advanced(st, r, |Grammar.VarDeclYield(v)|)
  {
    if Ahead(st, Grammar.VarDeclYield(v), {}) {
      var n := |Grammar.VarDeclYield(v)|;
      var names := Grammar.MoreNamesYield(v.extra);
      LeftStart(st, Grammar.VarDeclYield(v), {});
      PartStep(st, st, r0, Grammar.TypeYield(v.t), [Ident] + (names + [Semicolon]), {}, TypeCont, n);
      TokStep(st, r0, r1, Ident, names + [Semicolon], {}, n);
      Split(r1.toks, r1.pos, names, [Semicolon], {}, {Comma});
      PartStep(st, r1, r2, names, [Semicolon], {}, {Comma}, n);
      LastTok(st, r2, r, Semicolon, {}, n);
    }
  }

  /** `Type ident` of the first parameter. */
  lemma {:induction false} FormParsHead(st: PState, r0: PState, r1: PState, ps: seq<Grammar.Type>)
    requires |ps| > 0
    requires Ahead(st, Grammar.TypeYield(ps[0]), TypeCont) ==> Advanced(st, r0, |Grammar.TypeYield(ps[0])|)
    requires Sym(r0) == Ident ==> Advanced(r0, r1, 1)
    ensures Ahead(st, Grammar.FormParsYield(ps), {Comma}) ==>
      Left(st, r1, Grammar.MoreParamsYield(ps[1..]), {Comma}, |Grammar.FormParsYield(ps)|)
  {
    if Ahead(st, Grammar.FormParsYield(ps), {Comma}) {
      var n := |Grammar.FormParsYield(ps)|;
      var y := Grammar.MoreParamsYield(ps[1..]);
      LeftStart(st, Grammar.FormParsYield(ps), {Comma});
      PartStep(st, st, r0, Grammar.TypeYield(ps[0]), [Ident] + y, {Comma}, TypeCont, n);
      TokStep(st, r0, r1, Ident, y, {Comma}, n);
    }
  }

  /** `"," Type ident`: one more parameter, which the input holds when a
      comma is next. */
  lemma {:induction false} NextParam(st: PState, r: PState, s1: PState, r2: PState, r3: PState,
                                     rest: seq<Grammar.Type>, t: Grammar.Type, n: int)
    requires Sym(r) == Comma && Advanced(r, s1, 1)
    requires Left(st, r, Grammar.MoreParamsYield(rest), {Comma}, n)
    requires t == if |rest| > 0 then rest[0] else Grammar.Scalar
    requires Ahead(s1, Grammar.TypeYield(t), TypeCont) ==> Advanced(s1, r2, |Grammar.TypeYield(t)|)
    requires Sym(r2) == Ident ==> Advanced(r2, r3, 1)
    ensures |rest| > 0 && Left(st, r3, Grammar.MoreParamsYield(rest[1..]), {Comma}, n)
  {
    Head(r.toks, r.pos, Grammar.MoreParamsYield(rest), {Comma});
    var y := Grammar.MoreParamsYield(rest[1..]);
    TokStep(st, r, s1, Comma, Grammar.TypeYield(t) + ([Ident] + y), {Comma}, n);
    PartStep(st, s1, r2, Grammar.TypeYield(t), [Ident] + y, {Comma}, TypeCont, n);
    TokStep(st, r2, r3, Ident, y, {Comma}, n);
  }

  /** No comma follows the last parameter. */
  lemma {:induction false} ParamsEnd(st: PState, r: PState, rest: seq<Grammar.Type>, n: int)
    requires Sym(r) != Comma
    requires Left(st, r, Grammar.MoreParamsYield(rest), {Comma}, n)
    ensures |rest| == 0 && Advanced(st, r, n)
  {
    Head(r.toks, r.pos, Grammar.MoreParamsYield(rest), {Comma});
  }

  /** A list of variable declarations starts with an identifier, the
      first token of a type, unless it is empty. */
  lemma {:induction false} VarDeclsFirst(vs: seq<Grammar.VarDecl>)
    ensures |vs| > 0 ==> |Grammar.VarDeclsYield(vs)| > 0 && Grammar.VarDeclsYield(vs)[0] == Ident
  {
    if |vs| > 0 {
      assert Grammar.VarDeclsYield(vs) == Grammar.VarDeclYield(vs[0]) + Grammar.VarDeclsYield(vs[1..]);
    }
  }

  /** One more VarDecl, which the input holds when an identifier is
      next. */
  lemma {:induction false} NextVarDecl(st: PState, r: PState, r1: PState, rest: seq<Grammar.VarDecl>,
                                       v: Grammar.VarDecl, n: int)
    requires Sym(r) == Ident
    requires Left(st, r, Grammar.VarDeclsYield(rest), {Ident}, n)
    requires v == if |rest| > 0 then rest[0] else Grammar.VarDecl(Grammar.Scalar, 0)
    requires Ahead(r, Grammar.VarDeclYield(v), {}) ==> Advanced(r, r1, |Grammar.VarDeclYield(v)|)
    ensures |rest| > 0 && Ahead(r, Grammar.VarDeclYield(v), {})
    ensures Left(st, r1, Grammar.VarDeclsYield(rest[1..]), {Ident}, n)
  {
    Head(r.toks, r.pos, Grammar.VarDeclsYield(rest), {Ident});
    Split(r.toks, r.pos, Grammar.VarDeclYield(v), Grammar.VarDeclsYield(rest[1..]), {Ident}, {});
    PartStep(st, r, r1, Grammar.VarDeclYield(v), Grammar.VarDeclsYield(rest[1..]), {Ident}, {}, n);
  }

  /** No identifier follows the last VarDecl. */
  lemma {:induction false} VarDeclsEnd(st: PState, r: PState, rest: seq<Grammar.VarDecl>, n: int)
    requires Sym(r) != Ident
    requires Left(st, r, Grammar.VarDeclsYield(rest), {Ident}, n)
    ensures |rest| == 0 && Advanced(st, r, n)
  {
    VarDeclsFirst(rest);
    Head(r.toks, r.pos, Grammar.VarDeclsYield(rest), {Ident});
  }

  /** "final" Type ident "=" (number | charConst) ";" read part by part. */
  lemma {:induction false} ConstDeclAccepts(st: PState, r1: PState, r2: PState, r3: PState, r4: PState,
                                            r5: PState, r: PState, c: Grammar.ConstDecl)
    requires Sym(st) == KwFinal ==> Advanced(st, r1, 1)
    requires Ahead(r1, Grammar.TypeYield(c.t), TypeCont) ==> Advanced(r1, r2, |Grammar.TypeYield(c.t)|)
    requires Sym(r2) == Ident ==> Advanced(r2, r3, 1)
    requires Sym(r3) == Assign ==> Advanced(r3, r4, 1)
    requires Sym(r4) == Number || Sym(r4) == CharCon ==> Advanced(r4, r5, 1)
    requires Sym(r5) == Semicolon ==> Advanced(r5, r, 1)
    ensures Ahead(st, Grammar.ConstDeclYield(c), {}) ==> Advanced(st, r, |Grammar.ConstDeclYield(c)|)
  {
    if Ahead(st, Grammar.ConstDeclYield(c), {}) {
      var n := |Grammar.ConstDeclYield(c)|;
      var y := [Grammar.ConstKind(c.isChar)] + [Semicolon];
      LeftStart(st, Grammar.ConstDeclYield(c), {});
      TokStep(st, st, r1, KwFinal, Grammar.TypeYield(c.t) + ([Ident] + ([Assign] + y)), {}, n);
      PartStep(st, r1, r2, Grammar.TypeYield(c.t), [Ident] + ([Assign] + y), {}, TypeCont, n);
      ConstDeclTail(st, r2, r3, r4, r5, r, c.isChar, n);
    }
  }

  /** ident "=" (number | charConst) ";". */
  lemma {:induction false} ConstDeclTail(st: PState, r2: PState, r3: PState, r4: PState, r5: PState, r: PState,
                                         isChar: bool, n: int)
    requires Left(st, r2, [Ident] + ([Assign] + ([Grammar.ConstKind(isChar)] + [Semicolon])), {}, n)
    requires Sym(r2) == Ident ==> Advanced(r2, r3, 1)
    requires Sym(r3) == Assign ==> Advanced(r3, r4, 1)
    requires Sym(r4) == Number || Sym(r4) == CharCon ==> Advanced(r4, r5, 1)
    requires Sym(r5) == Semicolon ==> Advanced(r5, r, 1)
    ensures Advanced(st, r, n)
  {
    var k := Grammar.ConstKind(isChar);
    TokStep(st, r2, r3, Ident, [Assign] + ([k] + [Semicolon]), {}, n);
    TokStep(st, r3, r4, Assign, [k] + [Semicolon], {}, n);
    TokStep(st, r4, r5, k, [Semicolon], {}, n);
    LastTok(st, r5, r, Semicolon, {}, n);
  }

  /** "class" ident "{" {VarDecl} "}" read part by part. */
  lemma {:induction false} ClassDeclAccepts(st: PState, r1: PState, r2: PState, r3: PState, r4: PState, r: PState,
                                            k: Grammar.ClassDecl)
    requires Sym(st) == KwClass ==> Advanced(st, r1, 1)
    requires Sym(r1) == Ident ==> Advanced(r1, r2, 1)
    requires Sym(r2) == LBrace ==> Advanced(r2, r3, 1)
    requires Ahead(r3, Grammar.VarDeclsYield(k.fields), {Ident}) ==>
      Advanced(r3, r4, |Grammar.VarDeclsYield(k.fields)|)
    requires Sym(r4) == RBrace ==> Advanced(r4, r, 1)
    ensures Ahead(st, Grammar.ClassDeclYield(k), {}) ==> Advanced(st, r, |Grammar.ClassDeclYield(k)|)
  {
    if Ahead(st, Grammar.ClassDeclYield(k), {}) {
      var n := |Grammar.ClassDeclYield(k)|;
      var y := Grammar.VarDeclsYield(k.fields) + [RBrace];
      LeftStart(st, Grammar.ClassDeclYield(k), {});
      TokStep(st, st, r1, KwClass, [Ident] + ([LBrace] + y), {}, n);
      TokStep(st, r1, r2, Ident, [LBrace] + y, {}, n);
      TokStep(st, r2, r3, LBrace, y, {}, n);
      PartStep(st, r3, r4, Grammar.VarDeclsYield(k.fields), [RBrace], {}, {Ident}, n);
      LastTok(st, r4, r, RBrace, {}, n);
    }
  }

  /** The lookahead tells `void` from a result type. */
  lemma {:induction false} ResultFirst(st: PState, rt: Grammar.ResultType)
    requires Ahead(st, Grammar.ResultYield(rt), TypeCont)
    ensures Sym(st) == KwVoid <==> rt.Void?
    ensures Sym(st) == Ident <==> rt.Returns?
  {
    KindOf(st.toks, st.pos, Grammar.ResultYield(rt), 0);
  }

  /** ident "(" [FormPars] ")" read part by part: the parameters are
      there exactly when an identifier follows `(`. */
  lemma {:induction false} SignatureAccepts(st: PState, r1: PState, r2: PState, r3: PState, r: PState,
                                            ps: seq<Grammar.Type>)
    requires Sym(st) == Ident ==> Advanced(st, r1, 1)
    requires Sym(r1) == LPar ==> Advanced(r1, r2, 1)
    requires Sym(r2) != Ident ==> r3 == r2
    requires Sym(r2) == Ident && |ps| > 0 && Ahead(r2, Grammar.FormParsYield(ps), {Comma}) ==>
      Advanced(r2, r3, |Grammar.FormParsYield(ps)|)
    requires Sym(r3) == RPar ==> Advanced(r3, r, 1)
    ensures Ahead(st, Grammar.SignatureYield(ps), {}) ==>
      && Advanced(st, r, |Grammar.SignatureYield(ps)|)
      && (Sym(r2) == Ident <==> |ps| > 0)
      && Ahead(r2, Grammar.FormParsYield(ps), {Comma})
  {
    if Ahead(st, Grammar.SignatureYield(ps), {}) {
      var n := |Grammar.SignatureYield(ps)|;
      var y := Grammar.FormParsYield(ps) + [RPar];
      LeftStart(st, Grammar.SignatureYield(ps), {});
      TokStep(st, st, r1, Ident, [LPar] + y, {}, n);
      TokStep(st, r1, r2, LPar, y, {}, n);
      Head(r2.toks, r2.pos, y, {});
      Split(r2.toks, r2.pos, Grammar.FormParsYield(ps), [RPar], {}, {Comma});
      PartStep(st, r2, r3, Grammar.FormParsYield(ps), [RPar], {}, {Comma}, n);
      LastTok(st, r3, r, RPar, {}, n);
    }
  }

  /** The method the input holds at `st`. */
  predicate MethodAhead(st: PState, m: Grammar.MethodDecl)
  {
    Grammar.BlockWellFormed(m.body) && Ahead(st, Grammar.MethodDeclYield(m), {})
  }

  /** (Type | "void") ident "(" [FormPars] ")" {VarDecl} Block read part
      by part, with the parts each method accepts. The code of `r3` is not
      part of what is read. */
  lemma {:induction false} MethodDeclAccepts(st: PState, r1: PState, r2: PState, r3: PState, r4: PState,
                                             m: Grammar.MethodDecl)
    requires Ahead(st, Grammar.ResultYield(m.result), TypeCont) ==>
      Advanced(st, r1, |Grammar.ResultYield(m.result)|)
    requires Ahead(r1, Grammar.SignatureYield(m.params), {}) ==>
      Advanced(r1, r2, |Grammar.SignatureYield(m.params)|)
    requires Ahead(r2, Grammar.VarDeclsYield(m.locals), {Ident}) ==>
      Advanced(r2, r3, |Grammar.VarDeclsYield(m.locals)|)
    requires Grammar.BlockWellFormed(m.body) && Ahead(r3, Grammar.BlockYield(m.body), {}) ==>
      Advanced(r3, r4, |Grammar.BlockYield(m.body)|)
    ensures MethodAhead(st, m) ==>
      && Ahead(st, Grammar.ResultYield(m.result), TypeCont)
      && Ahead(r1, Grammar.SignatureYield(m.params), {})
      && Ahead(r2, Grammar.VarDeclsYield(m.locals), {Ident})
      && Advanced(st, r4, |Grammar.MethodDeclYield(m)|)
  {
    if MethodAhead(st, m) {
      var n := |Grammar.MethodDeclYield(m)|;
      var y3 := Grammar.BlockYield(m.body);
      var y2 := Grammar.VarDeclsYield(m.locals) + y3;
      var y1 := Grammar.SignatureYield(m.params) + y2;
      LeftStart(st, Grammar.MethodDeclYield(m), {});
      Split(st.toks, st.pos, Grammar.ResultYield(m.result), y1, {}, TypeCont);
      PartStep(st, st, r1, Grammar.ResultYield(m.result), y1, {}, TypeCont, n);
      Split(r1.toks, r1.pos, Grammar.SignatureYield(m.params), y2, {}, {});
      PartStep(st, r1, r2, Grammar.SignatureYield(m.params), y2, {}, {}, n);
      Split(r2.toks, r2.pos, Grammar.VarDeclsYield(m.locals), y3, {}, {Ident});
      PartStep(st, r2, r3, Grammar.VarDeclsYield(m.locals), y3, {}, {Ident}, n);
      LastStep(st, r3, r4, y3, {}, n);
    }
  }

  /** Where the declarations stand: which one the lookahead starts, or
      the `{` after the last. */
  lemma {:induction false} DeclsFirst(st: PState, r: PState, rest: seq<Grammar.Decl>, n: int)
    requires Left(st, r, Grammar.DeclsYield(rest) + [LBrace], {}, n)
    ensures |rest| == 0 <==> Sym(r) == LBrace
    ensures |rest| > 0 ==>
      && (Sym(r) == KwFinal <==> rest[0].ConstD?)
      && (Sym(r) == KwClass <==> rest[0].ClassD?)
      && (Sym(r) == Ident <==> rest[0].VarD?)
  {
    Head(r.toks, r.pos, Grammar.DeclsYield(rest) + [LBrace], {});
    if |rest| > 0 {
      Grammar.DeclFirst(rest[0]);
      assert Grammar.DeclsYield(rest) == Grammar.DeclYield(rest[0]) + Grammar.DeclsYield(rest[1..]);
    }
  }

  /** One declaration read. */
  lemma {:induction false} NextDecl(st: PState, r: PState, r1: PState, rest: seq<Grammar.Decl>, n: int)
    requires |rest| > 0
    requires Left(st, r, Grammar.DeclsYield(rest) + [LBrace], {}, n)
    requires Ahead(r, Grammar.DeclYield(rest[0]), {}) ==> Advanced(r, r1, |Grammar.DeclYield(rest[0])|)
    ensures Left(st, r1, Grammar.DeclsYield(rest[1..]) + [LBrace], {}, n)
  {
    Assoc(Grammar.DeclYield(rest[0]), Grammar.DeclsYield(rest[1..]), [LBrace]);
    PartStep(st, r, r1, Grammar.DeclYield(rest[0]), Grammar.DeclsYield(rest[1..]) + [LBrace], {}, {}, n);
  }

  /** The declarations, which end at `{`, read as one part. */
  lemma {:induction false} DeclsStep(st: PState, r: PState, r1: PState, ds: seq<Grammar.Decl>, y: seq<Kind>, n: int)
    requires Left(st, r, Grammar.DeclsYield(ds) + ([LBrace] + y), {}, n)
    requires Ahead(r, Grammar.DeclsYield(ds) + [LBrace], {}) ==> Advanced(r, r1, |Grammar.DeclsYield(ds)|)
    ensures Left(st, r1, [LBrace] + y, {}, n)
  {
    Assoc(Grammar.DeclsYield(ds), [LBrace], y);
    Split(r.toks, r.pos, Grammar.DeclsYield(ds) + [LBrace], y, {}, {});
    Split(r.toks, r.pos, Grammar.DeclsYield(ds), [LBrace] + y, {}, {});
    AdvancedTrans(st, r, r1, n - |Grammar.DeclsYield(ds) + ([LBrace] + y)|, |Grammar.DeclsYield(ds)|);
  }

  /** The tokens that continue the method list: the first tokens of a
      method. */
  const MethodCont: set<Kind> := {KwVoid, Ident}

  /** One method, then the methods after it. */
  lemma {:induction false} MethodsAccepts(st: PState, r1: PState, r: PState, ms: seq<Grammar.MethodDecl>,
                                          m: Grammar.MethodDecl)
    requires Sym(st) in MethodCont
    requires m == if |ms| > 0 then ms[0] else Grammar.MethodDecl(Grammar.Void, [], [], [])
    requires MethodAhead(st, m) ==> Advanced(st, r1, |Grammar.MethodDeclYield(m)|)
    requires var tail := if |ms| > 0 then ms[1..] else [];
      Grammar.MethodsWellFormed(tail) && Ahead(r1, Grammar.MethodsYield(tail), MethodCont) ==>
      Advanced(r1, r, |Grammar.MethodsYield(tail)|)
    ensures Grammar.MethodsWellFormed(ms) && Ahead(st, Grammar.MethodsYield(ms), MethodCont) ==>
      && |ms| > 0 && MethodAhead(st, m)
      && Grammar.MethodsWellFormed(ms[1..]) && Ahead(r1, Grammar.MethodsYield(ms[1..]), MethodCont)
      && Advanced(st, r, |Grammar.MethodsYield(ms)|)
  {
    if Grammar.MethodsWellFormed(ms) && Ahead(st, Grammar.MethodsYield(ms), MethodCont) {
      var n := |Grammar.MethodsYield(ms)|;
      Head(st.toks, st.pos, Grammar.MethodsYield(ms), MethodCont);
      assert Grammar.BlockWellFormed(ms[0].body);
      Split(st.toks, st.pos, Grammar.MethodDeclYield(m), Grammar.MethodsYield(ms[1..]), MethodCont, {});
      assert forall i :: 0 <= i < |ms[1..]| ==> ms[1..][i] == ms[i + 1];
      LeftStart(st, Grammar.MethodsYield(ms), MethodCont);
      PartStep(st, st, r1, Grammar.MethodDeclYield(m), Grammar.MethodsYield(ms[1..]), MethodCont, {}, n);
      LastStep(st, r1, r, Grammar.MethodsYield(ms[1..]), MethodCont, n);
    }
  }

  /** A list of methods starts with `void` or an identifier, unless it is
      empty. */
  lemma {:induction false} MethodsFirst(ms: seq<Grammar.MethodDecl>)
    ensures |ms| > 0 ==> |Grammar.MethodsYield(ms)| > 0 && Grammar.MethodsYield(ms)[0] in MethodCont
  {
    if |ms| > 0 {
      Grammar.MethodFirst(ms[0]);
      assert Grammar.MethodsYield(ms) == Grammar.MethodDeclYield(ms[0]) + Grammar.MethodsYield(ms[1..]);
    }
  }

  /** "program" ident {Decl} "{" read part by part. */
  lemma {:induction false} ProgramStartAccepts(st: PState, r1: PState, r2: PState, r3: PState, r4: PState,
                                       p: Grammar.Program)
    requires Sym(st) == KwProgram ==> Advanced(st, r1, 1)
    requires Sym(r1) == Ident ==> Advanced(r1, r2, 1)
    requires Ahead(r2, Grammar.DeclsYield(p.decls) + [LBrace], {}) ==>
      Advanced(r2, r3, |Grammar.DeclsYield(p.decls)|)
    requires Sym(r3) == LBrace ==> Advanced(r3, r4, 1)
    ensures Ahead(st, Grammar.ProgramYield(p), {}) ==>
      Left(st, r4, Grammar.MethodsYield(p.methods) + [RBrace], {}, |Grammar.ProgramYield(p)|)
  {
    if Ahead(st, Grammar.ProgramYield(p), {}) {
      var n := |Grammar.ProgramYield(p)|;
      var y := Grammar.MethodsYield(p.methods) + [RBrace];
      var ds := Grammar.DeclsYield(p.decls);
      LeftStart(st, Grammar.ProgramYield(p), {});
      TokStep(st, st, r1, KwProgram, [Ident] + (ds + ([LBrace] + y)), {}, n);
      TokStep(st, r1, r2, Ident, ds + ([LBrace] + y), {}, n);
      DeclsStep(st, r2, r3, p.decls, y, n);
      TokStep(st, r3, r4, LBrace, y, {}, n);
    }
  }

  /** The methods and the closing "}" read after the start of the
      program. */
  lemma {:induction false} ProgramAccepts(st: PState, r4: PState, r5: PState, r: PState, p: Grammar.Program)
    requires Ahead(st, Grammar.ProgramYield(p), {}) ==>
      Left(st, r4, Grammar.MethodsYield(p.methods) + [RBrace], {}, |Grammar.ProgramYield(p)|)
    requires Grammar.MethodsWellFormed(p.methods) && Ahead(r4, Grammar.MethodsYield(p.methods), MethodCont) ==>
      Advanced(r4, r5, |Grammar.MethodsYield(p.methods)|)
    requires Sym(r5) == RBrace ==> Advanced(r5, r, 1)
    ensures Grammar.ProgramWellFormed(p) && Ahead(st, Grammar.ProgramYield(p), {}) ==>
      Ahead(r4, Grammar.MethodsYield(p.methods), MethodCont) && Advanced(st, r, |Grammar.ProgramYield(p)|)
  {
    if Grammar.ProgramWellFormed(p) && Ahead(st, Grammar.ProgramYield(p), {}) {
      var n := |Grammar.ProgramYield(p)|;
      Split(r4.toks, r4.pos, Grammar.MethodsYield(p.methods), [RBrace], {}, MethodCont);
      PartStep(st, r4, r5, Grammar.MethodsYield(p.methods), [RBrace], {}, MethodCont, n);
      LastTok(st, r5, r, RBrace, {}, n);
    }
  }

  /** At `{` or end of input no declaration is left. */
  lemma {:induction false} DeclsEnd(st: PState, r: PState, rest: seq<Grammar.Decl>, n: int)
    requires Sym(r) == LBrace || Sym(r) == Eof
    requires Left(st, r, Grammar.DeclsYield(rest) + [LBrace], {}, n)
    ensures |rest| == 0 && Advanced(st, r, n - 1)
  {
    DeclsFirst(st, r, rest, n);
    if |rest| > 0 {
      Grammar.DeclFirst(rest[0]);
    }
  }
}
