/** The backend-neutral query IR and the token form of a ClickHouse statement. */
module QueryIr {
  import opened Strings
  import opened Options
  import opened BindValues
  import BindText

  datatype IrType = Int8 | Float8 | TextTy | BoolTy | Other(spelling: string)

  /** ClickHouse spelling of a cast type, if it has one. */
  function ChType(ty: IrType): Option<string> {
    match ty
    case Int8 => Some("Int64")
    case Float8 => Some("Float64")
    case TextTy => Some("String")
    case BoolTy => Some("Bool")
    case Other(_) => None
  }

  datatype CmpOp = Eq | Ne | Lt | Le | Gt | Ge

  datatype Expr =
    | Col(c: string)
    | BindE(name: string)
    | LitE(text: string)
    | Fn(fname: string, args: seq<Expr>)
    | Cast(e: Expr, ty: IrType)
    | Raw(raw: string)

  datatype Pred =
    | Compare(lhs: Expr, op: CmpOp, rhs: Expr)
    | InList(item: Expr, items: seq<Expr>, negated: bool)
    | And(a: Pred, b: Pred)
    | Or(a: Pred, b: Pred)
    | Not(p: Pred)
    | RawP(text: string)

  datatype TableRef = TableRef(schema: Option<string>, table: string, alias: Option<string>)

  datatype JoinKind = Inner | Left

  datatype Join = Join(kind: JoinKind, table: TableRef, on: string)

  datatype OrderItem = OrderItem(expr: string, asc: bool)

  datatype Limit = LimBind(name: string) | LimLit(n: int)

  datatype Query = Query(
    select: seq<string>, from: TableRef, joins: seq<Join>, where_: seq<Pred>,
    groupBy: seq<string>, orderBy: seq<OrderItem>, limit: Option<Limit>)

  function RenderTable(t: TableRef): string {
    (if t.schema.Some? then t.schema.value + "." + t.table else t.table)
    + (if t.alias.Some? then " " + t.alias.value else "")
  }

  // ---- Statements whose binds are slots -----------------------------------

  /** A parameter position: still a `?`, or already the value bound to it. */
  datatype Slot = Hole | Val(v: BindValue)

  /** Verbatim text with parameter positions. */
  datatype RPiece = RCh(c: char) | RSlot(s: Slot)

  datatype PExpr =
    | PCol(c: string)
    | PSlot(s: Slot)
    | PLit(text: string)
    | PFn(fname: string, args: seq<PExpr>)
    | PCast(e: PExpr, chType: string)
    | PRaw(raw: seq<RPiece>)

  datatype PPred =
    | PCompare(lhs: PExpr, op: CmpOp, rhs: PExpr)
    | PInList(item: PExpr, items: seq<PExpr>, negated: bool)
    | PAnd(a: PPred, b: PPred)
    | POr(a: PPred, b: PPred)
    | PNot(p: PPred)
    | PRawP(text: seq<RPiece>)

  datatype PJoin = PJoin(kind: JoinKind, table: string, on: seq<RPiece>)

  datatype PLimit = PLimSlot(s: Slot) | PLimLit(n: int)

  datatype PQuery = PQuery(
    select: seq<seq<RPiece>>, from: string, final: bool, joins: seq<PJoin>,
    prewhere: seq<PPred>, where_: seq<PPred>,
    groupBy: seq<string>, orderBy: seq<OrderItem>, limit: Option<PLimit>)

  // ---- Tokens ---------------------------------------------------------------

  datatype Keyword =
    | KSelect | KFrom | KFinal | KJoin(kind: JoinKind) | KOn | KPrewhere | KWhere
    | KGroup | KOrder | KAsc | KDesc | KLimit

  datatype Tk =
    | TKw(k: Keyword)
    | TText(s: string)
    | TCol(c: string)
    | TLit(lit: string)
    | TSlot(slot: Slot)
    | TRaw(ps: seq<RPiece>)
    | TFnOpen(fname: string)
    | TCastOpen
    | TAs(ty: string)
    | TCmp(op: CmpOp)
    | TIn(negated: bool)
    | TAnd | TOr | TNot | TL | TR | TComma

  // ---- The printer, as tokens -----------------------------------------------

  function ExprToks(e: PExpr): seq<Tk>
    decreases e, 1
  {
    match e
    case PCol(c) => [TCol(c)]
    case PSlot(s) => [TSlot(s)]
    case PLit(t) => [TLit(t)]
    case PFn(f, args) => [TFnOpen(f)] + (ListToks(args) + [TR])
    case PCast(x, ty) => [TCastOpen] + (ExprToks(x) + [TAs(ty), TR])
    case PRaw(ps) => [TRaw(ps)]
  }

  function ListToks(es: seq<PExpr>): seq<Tk>
    decreases es, 0
  {
    if es == [] then []
    else if |es| == 1 then ExprToks(es[0])
    else ExprToks(es[0]) + ([TComma] + ListToks(es[1..]))
  }

  function PredToks(p: PPred): seq<Tk> {
    match p
    case PCompare(l, op, r) => ExprToks(l) + ([TCmp(op)] + ExprToks(r))
    case PInList(e, items, neg) => ExprToks(e) + ([TIn(neg), TL] + (ListToks(items) + [TR]))
    case PAnd(a, b) => [TL] + (PredToks(a) + ([TAnd] + (PredToks(b) + [TR])))
    case POr(a, b) => [TL] + (PredToks(a) + ([TOr] + (PredToks(b) + [TR])))
    case PNot(q) => [TNot, TL] + (PredToks(q) + [TR])
    case PRawP(ps) => [TRaw(ps)]
  }

  function ConjToks(ps: seq<PPred>): seq<Tk> {
    if ps == [] then []
    else if |ps| == 1 then PredToks(ps[0])
    else PredToks(ps[0]) + ([TAnd] + ConjToks(ps[1..]))
  }
}
