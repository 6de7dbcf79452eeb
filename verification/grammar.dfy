/** The MicroJava grammar that the comments of Parser.java state, as
    derivation trees: one datatype per nonterminal, and for each a yield,
    the token kinds the tree derives. The parser's behaviour on the tokens
    of a tree is stated against these yields.

    Identifier spellings and literal values do not steer the parser, so
    the trees keep only the shape of a derivation. Repetitions `{…}` are
    sequences, and their yields are built from the front, the order in
    which the parser's loops read them. */
module Grammar {
  import opened Tokens

  // ---------------------------------------------------------------------
  // Expressions
  // ---------------------------------------------------------------------

  /** Type = ident ["[" "]"]. */
  datatype Type = Scalar | Array

  /** Designator = ident {"." ident | "[" Expr "]"}. */
  datatype Designator = Designator(sels: seq<Selector>)
  datatype Selector = Field | Index(index: Expr)

  /** Factor = Designator [ActPars] | number | charConst
               | "new" ident ["[" Expr "]"] | "(" Expr ")",
      where ActPars = "(" [Expr {"," Expr}] ")" is the argument list. */
  datatype Factor =
    | Access(d: Designator)
    | Call(d: Designator, args: seq<Expr>)
    | NumberConst
    | CharConst
    | NewObject
    | NewArray(len: Expr)
    | Paren(e: Expr)

  /** Mulop = "*" | "/" | "%".  Addop = "+" | "-".
      Relop = "==" | "!=" | ">" | ">=" | "<" | "<=". */
  datatype MulOp = Mul | Div | Mod
  datatype AddOp = Add | Sub
  datatype RelOp = Eq | Ne | Gt | Ge | Lt | Le

  /** Term = Factor {Mulop Factor}. */
  datatype Term = Term(first: Factor, rest: seq<MulFactor>)
  datatype MulFactor = MulFactor(op: MulOp, f: Factor)

  /** Expr = ["-"] Term {Addop Term}. */
  datatype Expr = Expr(neg: bool, first: Term, rest: seq<AddTerm>)
  datatype AddTerm = AddTerm(op: AddOp, t: Term)

  /** Condition = Expr Relop Expr. */
  datatype Condition = Condition(left: Expr, op: RelOp, right: Expr)

  /** The expression `0`. The parsing methods follow a tree only while the
      tokens are its yield; where they are not, they are given this one. */
  const Zero: Expr := Expr(false, Term(NumberConst, []), [])

  function MulOpKind(op: MulOp): Kind
  {
    match op
    case Mul => Times
    case Div => Slash
    case Mod => Rem
  }

  function AddOpKind(op: AddOp): Kind
  {
    match op
    case Add => Plus
    case Sub => Minus
  }

  function RelOpKind(op: RelOp): Kind
  {
    match op
    case Eq => Eql
    case Ne => Neq
    case Gt => Gtr
    case Ge => Geq
    case Lt => Lss
    case Le => Leq
  }

  function TypeYield(t: Type): seq<Kind>
  {
    if t.Array? then [Ident, LBrack, RBrack] else [Ident]
  }

  function DesignatorYield(d: Designator): seq<Kind>
  {
    [Ident] + SelectorsYield(d.sels)
  }

  function SelectorsYield(ss: seq<Selector>): seq<Kind>
  {
    if |ss| == 0 then [] else SelectorYield(ss[0]) + SelectorsYield(ss[1..])
  }

  function SelectorYield(s: Selector): seq<Kind>
  {
    match s
    case Field => [Period, Ident]
    case Index(e) => [LBrack] + ExprYield(e) + [RBrack]
  }

  function FactorYield(f: Factor): seq<Kind>
  {
    match f
    case Access(d) => DesignatorYield(d)
    case Call(d, args) => DesignatorYield(d) + ([LPar] + ArgsYield(args) + [RPar])
    case NumberConst => [Number]
    case CharConst => [CharCon]
    case NewObject => [KwNew, Ident]
    case NewArray(e) => [KwNew, Ident, LBrack] + ExprYield(e) + [RBrack]
    case Paren(e) => [LPar] + ExprYield(e) + [RPar]
  }

  /** ActPars = "(" [Expr {"," Expr}] ")". */
  function ActParsYield(args: seq<Expr>): seq<Kind>
  {
    [LPar] + ArgsYield(args) + [RPar]
  }

  function ArgsYield(args: seq<Expr>): seq<Kind>
  {
    if |args| == 0 then [] else ExprYield(args[0]) + MoreArgsYield(args[1..])
  }

  function MoreArgsYield(args: seq<Expr>): seq<Kind>
  {
    if |args| == 0 then [] else [Comma] + ExprYield(args[0]) + MoreArgsYield(args[1..])
  }

  function TermYield(t: Term): seq<Kind>
  {
    FactorYield(t.first) + MulFactorsYield(t.rest)
  }

  function MulFactorsYield(ms: seq<MulFactor>): seq<Kind>
  {
    if |ms| == 0 then [] else MulFactorYield(ms[0]) + MulFactorsYield(ms[1..])
  }

  function MulFactorYield(m: MulFactor): seq<Kind>
  {
    [MulOpKind(m.op)] + FactorYield(m.f)
  }

  function ExprYield(e: Expr): seq<Kind>
  {
    (if e.neg then [Minus] else []) + TermYield(e.first) + AddTermsYield(e.rest)
  }

  function AddTermsYield(ts: seq<AddTerm>): seq<Kind>
  {
    if |ts| == 0 then [] else AddTermYield(ts[0]) + AddTermsYield(ts[1..])
  }

  function AddTermYield(a: AddTerm): seq<Kind>
  {
    [AddOpKind(a.op)] + TermYield(a.t)
  }

  function ConditionYield(c: Condition): seq<Kind>
  {
    ExprYield(c.left) + [RelOpKind(c.op)] + ExprYield(c.right)
  }

  // ---------------------------------------------------------------------
  // Statements
  // ---------------------------------------------------------------------

  /** Statement = Designator ("=" Expr | ActPars) ";"
               | "if" "(" Condition ")" Statement ["else" Statement]
               | "while" "(" Condition ")" Statement
               | "return" [Expr] ";" | "read" "(" Designator ")" ";"
               | "print" "(" Expr ["," number] ")" ";" | Block | ";",
      where Block = "{" {Statement} "}". */
  datatype Statement =
    | Assignment(d: Designator, e: Expr)
    | ProcCall(d: Designator, args: seq<Expr>)
    | IfThen(c: Condition, thn: Statement)
    | IfElse(c: Condition, thn: Statement, els: Statement)
    | While(c: Condition, body: Statement)
    | ReturnVoid
    | ReturnValue(e: Expr)
    | Read(d: Designator)
    | Print(e: Expr, width: bool)
    | Nested(stats: seq<Statement>)
    | Empty

  function StatementYield(s: Statement): seq<Kind>
    decreases s, 0
  {
    match s
    case Assignment(d, e) => AssignYield(d, e)
    case ProcCall(d, args) => CallYield(d, args)
    case IfThen(c, thn) => IfYield(c, thn, [])
    case IfElse(c, thn, els) => IfYield(c, thn, [KwElse] + StatementYield(els))
    case While(c, body) => WhileYield(c, body)
    case ReturnVoid => [KwReturn] + [Semicolon]
    case ReturnValue(e) => [KwReturn] + (ExprYield(e) + [Semicolon])
    case Read(d) => ReadYield(d)
    case Print(e, width) => PrintYield(e, width)
    case Nested(stats) => BlockYield(stats)
    case Empty => [Semicolon]
  }

  // Each alternative's yield is written as the parser reads it: one
  // token or part, then the rest.

  function AssignYield(d: Designator, e: Expr): seq<Kind>
  {
    DesignatorYield(d) + ([Assign] + (ExprYield(e) + [Semicolon]))
  }

  function CallYield(d: Designator, args: seq<Expr>): seq<Kind>
  {
    DesignatorYield(d) + (ActParsYield(args) + [Semicolon])
  }

  /** An `if` whose optional `else` part has the yield `elsePart`. */
  function IfYield(c: Condition, thn: Statement, elsePart: seq<Kind>): seq<Kind>
    decreases thn, 1
  {
    [KwIf] + ([LPar] + (ConditionYield(c) + ([RPar] + (StatementYield(thn) + elsePart))))
  }

  function WhileYield(c: Condition, body: Statement): seq<Kind>
    decreases body, 1
  {
    [KwWhile] + ([LPar] + (ConditionYield(c) + ([RPar] + StatementYield(body))))
  }

  function ReadYield(d: Designator): seq<Kind>
  {
    [KwRead] + ([LPar] + (DesignatorYield(d) + ([RPar] + [Semicolon])))
  }

  function PrintYield(e: Expr, width: bool): seq<Kind>
  {
    [KwPrint] + ([LPar] + (ExprYield(e) + (Width(width) + ([RPar] + [Semicolon]))))
  }

  /** The optional field width of `print`. */
  function Width(width: bool): seq<Kind>
  {
    if width then [Comma, Number] else []
  }

  function BlockYield(stats: seq<Statement>): seq<Kind>
    decreases stats, 1
  {
    [LBrace] + (StatementsYield(stats) + [RBrace])
  }

  function StatementsYield(stats: seq<Statement>): seq<Kind>
    decreases stats, 0
  {
    if |stats| == 0 then [] else StatementYield(stats[0]) + StatementsYield(stats[1..])
  }

  /** A statement that ends in an `if` without `else`, which a following
      `else` would extend. */
  predicate Open(s: Statement)
  {
    match s
    case IfThen(_, _) => true
    case IfElse(_, _, els) => Open(els)
    case While(_, body) => Open(body)
    case _ => false
  }

  /** The grammar is ambiguous about `if (c) if (d) S else T`; a tree is
      well formed when every `else` belongs to the nearest `if`, so that no
      `if` without `else` stands before an `else`. */
  predicate WellFormed(s: Statement)
  {
    match s
    case IfThen(_, thn) => WellFormed(thn)
    case IfElse(_, thn, els) => !Open(thn) && WellFormed(thn) && WellFormed(els)
    case While(_, body) => WellFormed(body)
    case Nested(stats) => forall i :: 0 <= i < |stats| ==> WellFormed(stats[i])
    case _ => true
  }

  predicate BlockWellFormed(stats: seq<Statement>)
  {
    forall i :: 0 <= i < |stats| ==> WellFormed(stats[i])
  }

  // ---------------------------------------------------------------------
  // Declarations and the program
  // ---------------------------------------------------------------------

  /** VarDecl = Type ident {"," ident} ";", declaring `1 + extra` names. */
  datatype VarDecl = VarDecl(t: Type, extra: nat)

  /** ConstDecl = "final" Type ident "=" (number | charConst) ";". */
  datatype ConstDecl = ConstDecl(t: Type, isChar: bool)

  /** ClassDecl = "class" ident "{" {VarDecl} "}". */
  datatype ClassDecl = ClassDecl(fields: seq<VarDecl>)

  /** The declarations before the methods: {ConstDecl | ClassDecl | VarDecl}. */
  datatype Decl = ConstD(c: ConstDecl) | ClassD(k: ClassDecl) | VarD(v: VarDecl)

  /** The result of a method: "void" or a Type. */
  datatype ResultType = Void | Returns(t: Type)

  /** MethodDecl = (Type | "void") ident "(" [FormPars] ")" {VarDecl} Block,
      where FormPars = Type ident {"," Type ident} has one Type per
      parameter. */
  datatype MethodDecl = MethodDecl(result: ResultType, params: seq<Type>, locals: seq<VarDecl>,
                                   body: seq<Statement>)

  /** Program = "program" ident {ConstDecl | ClassDecl | VarDecl} "{" {MethodDecl} "}". */
  datatype Program = Program(decls: seq<Decl>, methods: seq<MethodDecl>)

  function VarDeclYield(v: VarDecl): seq<Kind>
  {
    TypeYield(v.t) + ([Ident] + (MoreNamesYield(v.extra) + [Semicolon]))
  }

  function MoreNamesYield(n: nat): seq<Kind>
  {
    if n == 0 then [] else [Comma] + ([Ident] + MoreNamesYield(n - 1))
  }

  function VarDeclsYield(vs: seq<VarDecl>): seq<Kind>
  {
    if |vs| == 0 then [] else VarDeclYield(vs[0]) + VarDeclsYield(vs[1..])
  }

  /** [FormPars]: nothing for no parameters. */
  function FormParsYield(ps: seq<Type>): seq<Kind>
  {
    if |ps| == 0 then [] else TypeYield(ps[0]) + ([Ident] + MoreParamsYield(ps[1..]))
  }

  function MoreParamsYield(ps: seq<Type>): seq<Kind>
  {
    if |ps| == 0 then [] else [Comma] + (TypeYield(ps[0]) + ([Ident] + MoreParamsYield(ps[1..])))
  }

  function ConstDeclYield(c: ConstDecl): seq<Kind>
  {
    [KwFinal] + (TypeYield(c.t) + ([Ident] + ([Assign] + ([ConstKind(c.isChar)] + [Semicolon]))))
  }

  /** The constant of a ConstDecl: a character constant or a number. */
  function ConstKind(isChar: bool): Kind
  {
    if isChar then CharCon else Number
  }

  function ClassDeclYield(c: ClassDecl): seq<Kind>
  {
    [KwClass] + ([Ident] + ([LBrace] + (VarDeclsYield(c.fields) + [RBrace])))
  }

  function DeclYield(d: Decl): seq<Kind>
  {
    match d
    case ConstD(c) => ConstDeclYield(c)
    case ClassD(k) => ClassDeclYield(k)
    case VarD(v) => VarDeclYield(v)
  }

  function DeclsYield(ds: seq<Decl>): seq<Kind>
  {
    if |ds| == 0 then [] else DeclYield(ds[0]) + DeclsYield(ds[1..])
  }

  function ResultYield(r: ResultType): seq<Kind>
  {
    match r
    case Void => [KwVoid]
    case Returns(t) => TypeYield(t)
  }

  function MethodDeclYield(m: MethodDecl): seq<Kind>
  {
    ResultYield(m.result) + (SignatureYield(m.params) + (VarDeclsYield(m.locals) + BlockYield(m.body)))
  }

  /** The method's name and parameter list: ident "(" [FormPars] ")". */
  function SignatureYield(ps: seq<Type>): seq<Kind>
  {
    [Ident] + ([LPar] + (FormParsYield(ps) + [RPar]))
  }

  function MethodsYield(ms: seq<MethodDecl>): seq<Kind>
  {
    if |ms| == 0 then [] else MethodDeclYield(ms[0]) + MethodsYield(ms[1..])
  }

  function ProgramYield(p: Program): seq<Kind>
  {
    [KwProgram] + ([Ident] + (DeclsYield(p.decls) + ([LBrace] + (MethodsYield(p.methods) + [RBrace]))))
  }

  /** Every `else` of the methods' bodies belongs to the nearest `if`. */
  predicate MethodsWellFormed(ms: seq<MethodDecl>)
  {
    forall i :: 0 <= i < |ms| ==> BlockWellFormed(ms[i].body)
  }

  predicate ProgramWellFormed(p: Program)
  {
    MethodsWellFormed(p.methods)
  }

  /** The names a list of variable declarations declares. */
  function NameCount(vs: seq<VarDecl>): nat
  {
    if |vs| == 0 then 0 else 1 + vs[0].extra + NameCount(vs[1..])
  }

  // ---------------------------------------------------------------------
  // First tokens: where the parser chooses an alternative by its
  // lookahead, the first token of the yield tells the alternative apart
  // ---------------------------------------------------------------------

  lemma FactorFirst(f: Factor)
    ensures |FactorYield(f)| > 0
    ensures var k := FactorYield(f)[0];
      && (k == Ident <==> f.Access? || f.Call?)
      && (k == Number <==> f.NumberConst?)
      && (k == CharCon <==> f.CharConst?)
      && (k == KwNew <==> f.NewObject? || f.NewArray?)
      && (k == LPar <==> f.Paren?)
  {
  }

  /** An expression starts with `-` exactly when it is negated, and
      otherwise with the first token of its first factor. */
  lemma ExprFirst(e: Expr)
    ensures |ExprYield(e)| > 0
    ensures ExprYield(e)[0] in {Minus, Ident, Number, CharCon, KwNew, LPar}
    ensures e.neg <==> ExprYield(e)[0] == Minus
  {
    FactorFirst(e.first.first);
  }

  lemma StatementFirst(s: Statement)
    ensures |StatementYield(s)| > 0
    ensures var k := StatementYield(s)[0];
      && (k == Ident <==> s.Assignment? || s.ProcCall?)
      && (k == KwIf <==> s.IfThen? || s.IfElse?)
      && (k == KwWhile <==> s.While?)
      && (k == KwReturn <==> s.ReturnVoid? || s.ReturnValue?)
      && (k == KwRead <==> s.Read?)
      && (k == KwPrint <==> s.Print?)
      && (k == LBrace <==> s.Nested?)
      && (k == Semicolon <==> s.Empty?)
  {
  }

  lemma DeclFirst(d: Decl)
    ensures |DeclYield(d)| > 0
    ensures var k := DeclYield(d)[0];
      && (k == KwFinal <==> d.ConstD?)
      && (k == KwClass <==> d.ClassD?)
      && (k == Ident <==> d.VarD?)
  {
  }

  lemma MethodFirst(m: MethodDecl)
    ensures |MethodDeclYield(m)| > 0
    ensures var k := MethodDeclYield(m)[0];
      && (k == KwVoid <==> m.result.Void?)
      && (k == Ident <==> m.result.Returns?)
  {
  }
}
