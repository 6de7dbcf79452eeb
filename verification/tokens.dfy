/** Token kinds and tokens shared by the MicroJava scanner and parser.

    Scanner.java and Parser.java each declare the same table of integer
    token codes (`none = 0` … `eof = 36`); here that table is one datatype,
    and `Code`/`FromCode` recover the integer numbering. */
module Tokens {

  /** The terminal classes, in the order of their integer codes. `Unknown`
      is the source's `none`: the kind of an unrecognised character. */
  datatype Kind =
    | Unknown | Ident | Number | CharCon
    | Plus | Minus | Times | Slash | Rem
    | Eql | Neq | Lss | Leq | Gtr | Geq
    | Assign | Semicolon | Comma | Period
    | LPar | RPar | LBrack | RBrack | LBrace | RBrace
    | KwClass | KwElse | KwFinal | KwIf | KwNew | KwPrint
    | KwProgram | KwRead | KwReturn | KwVoid | KwWhile
    | Eof

  /** A token: its kind, the line and column of its first character, the
      lexeme of a name or number (`val`) and the value of a number (`numVal`).
      Tokens that carry no text have `val == ""` and `numVal == 0`. */
  datatype Token = Token(kind: Kind, line: int, col: int, val: string, numVal: int)

  /** The largest token code. */
  const MaxCode: nat := 36

  /** The integer code the Java sources give a kind. */
  function Code(k: Kind): (n: nat)
    ensures n <= MaxCode
  {
    match k
    case Unknown => 0      case Ident => 1        case Number => 2
    case CharCon => 3      case Plus => 4         case Minus => 5
    case Times => 6        case Slash => 7        case Rem => 8
    case Eql => 9          case Neq => 10         case Lss => 11
    case Leq => 12         case Gtr => 13         case Geq => 14
    case Assign => 15      case Semicolon => 16   case Comma => 17
    case Period => 18      case LPar => 19        case RPar => 20
    case LBrack => 21      case RBrack => 22      case LBrace => 23
    case RBrace => 24      case KwClass => 25     case KwElse => 26
    case KwFinal => 27     case KwIf => 28        case KwNew => 29
    case KwPrint => 30     case KwProgram => 31   case KwRead => 32
    case KwReturn => 33    case KwVoid => 34      case KwWhile => 35
    case Eof => 36
  }

  /** The kind with a given code. */
  function FromCode(n: int): (k: Kind)
    requires 0 <= n <= MaxCode
    ensures Code(k) == n
  {
    if n < 12 then LowKind(n) else if n < 24 then MiddleKind(n) else HighKind(n)
  }

  /** The kinds with codes 0 to 11. */
  function LowKind(n: int): (k: Kind)
    requires 0 <= n < 12
    ensures Code(k) == n
  {
    match n
    case 0 => Unknown      case 1 => Ident        case 2 => Number
    case 3 => CharCon      case 4 => Plus         case 5 => Minus
    case 6 => Times        case 7 => Slash        case 8 => Rem
    case 9 => Eql          case 10 => Neq         case _ => Lss
  }

  /** The kinds with codes 12 to 23. */
  function MiddleKind(n: int): (k: Kind)
    requires 12 <= n < 24
    ensures Code(k) == n
  {
    match n
    case 12 => Leq         case 13 => Gtr         case 14 => Geq
    case 15 => Assign      case 16 => Semicolon   case 17 => Comma
    case 18 => Period      case 19 => LPar        case 20 => RPar
    case 21 => LBrack      case 22 => RBrack      case _ => LBrace
  }

  /** The kinds with codes 24 to 36; the last is code 36, `eof`. */
  function HighKind(n: int): (k: Kind)
    requires 24 <= n <= MaxCode
    ensures Code(k) == n
  {
    match n
    case 24 => RBrace      case 25 => KwClass     case 26 => KwElse
    case 27 => KwFinal     case 28 => KwIf        case 29 => KwNew
    case 30 => KwPrint     case 31 => KwProgram   case 32 => KwRead
    case 33 => KwReturn    case 34 => KwVoid      case 35 => KwWhile
    case _ => Eof
  }

  /** Codes identify kinds: decoding the code of a kind gives that kind back,
      so the numbering is one-to-one. */
  lemma CodeRoundTrip(k: Kind)
    ensures FromCode(Code(k)) == k
  {
    match k
    case Unknown =>    case Ident =>      case Number =>     case CharCon =>
    case Plus =>       case Minus =>      case Times =>      case Slash =>
    case Rem =>        case Eql =>        case Neq =>        case Lss =>
    case Leq =>        case Gtr =>        case Geq =>        case Assign =>
    case Semicolon =>  case Comma =>      case Period =>     case LPar =>
    case RPar =>       case LBrack =>     case RBrack =>     case LBrace =>
    case RBrace =>     case KwClass =>    case KwElse =>     case KwFinal =>
    case KwIf =>       case KwNew =>      case KwPrint =>    case KwProgram =>
    case KwRead =>     case KwReturn =>   case KwVoid =>     case KwWhile =>
    case Eof =>
  }

  /** The spelling used for a kind in the parser's "… expected" messages
      (the `name` table of Parser.java). */
  function KindName(k: Kind): string
  {
    match k
    case Unknown => "none"          case Ident => "identifier"
    case Number => "number"         case CharCon => "char constant"
    case Plus => "+"                case Minus => "-"
    case Times => "*"               case Slash => "/"
    case Rem => "%"                 case Eql => "=="
    case Neq => "!="                case Lss => "<"
    case Leq => "<="                case Gtr => ">"
    case Geq => ">="                case Assign => "="
    case Semicolon => ";"           case Comma => ","
    case Period => "."              case LPar => "("
    case RPar => ")"                case LBrack => "["
    case RBrack => "]"              case LBrace => "{"
    case RBrace => "}"              case KwClass => "class"
    case KwElse => "else"           case KwFinal => "final"
    case KwIf => "if"               case KwNew => "new"
    case KwPrint => "print"         case KwProgram => "program"
    case KwRead => "read"           case KwReturn => "return"
    case KwVoid => "void"           case KwWhile => "while"
    case Eof => "eof"
  }

  /** The `name` table of Parser.java, indexed by token code. */
  const NameTable: seq<string> := [
    "none", "identifier", "number", "char constant", "+", "-", "*", "/", "%",
    "==", "!=", "<", "<=", ">", ">=", "=", ";", ",", ".", "(", ")",
    "[", "]", "{", "}", "class", "else", "final", "if", "new", "print",
    "program", "read", "return", "void", "while", "eof"]

  /** Every kind is spelled by the table entry at its code, and the table
      has one entry per code. */
  lemma KindNameTable(k: Kind)
    ensures |NameTable| == MaxCode + 1
    ensures KindName(k) == NameTable[Code(k)]
  {
    if Code(k) < 12 {
      LowNames(k);
    } else if Code(k) < 24 {
      MiddleNames(k);
    } else {
      HighNames(k);
    }
  }

  lemma LowNames(k: Kind)
    requires Code(k) < 12
    ensures KindName(k) == NameTable[Code(k)]
  {
    match k
    case Unknown =>    case Ident =>      case Number =>     case CharCon =>
    case Plus =>       case Minus =>      case Times =>      case Slash =>
    case Rem =>        case Eql =>        case Neq =>        case Lss =>
    case _ =>
  }

  lemma MiddleNames(k: Kind)
    requires 12 <= Code(k) < 24
    ensures KindName(k) == NameTable[Code(k)]
  {
    match k
    case Leq =>        case Gtr =>        case Geq =>        case Assign =>
    case Semicolon =>  case Comma =>      case Period =>     case LPar =>
    case RPar =>       case LBrack =>     case RBrack =>     case LBrace =>
    case _ =>
  }

  lemma HighNames(k: Kind)
    requires 24 <= Code(k)
    ensures KindName(k) == NameTable[Code(k)]
  {
    match k
    case RBrace =>     case KwClass =>    case KwElse =>     case KwFinal =>
    case KwIf =>       case KwNew =>      case KwPrint =>    case KwProgram =>
    case KwRead =>     case KwReturn =>   case KwVoid =>     case KwWhile =>
    case Eof =>        case _ =>
  }

  /** The eleven reserved words. */
  predicate IsKeyword(k: Kind)
  {
    k in {KwClass, KwElse, KwFinal, KwIf, KwNew, KwPrint,
          KwProgram, KwRead, KwReturn, KwVoid, KwWhile}
  }
}
