/** The LogQL++ syntax tree (domains/query/ast.go). */
module Ast {
  import opened Text

  datatype Kind = Search | Select | Tail

  datatype Stmt = Stmt(
    kind: Kind,
    search: string,
    table: string,
    select: seq<SelectItem>,
    where: Option<Expr>,
    groupBy: seq<Field>,
    orderBy: Option<OrderItem>,
    limit: int)

  /** One element of a SELECT list; no field stands for the star. */
  datatype SelectItem = SelectItem(agg: string, field: Option<Field>, alias: string)

  /** A possibly dotted reference, one string per segment. */
  type Field = f: seq<string> | f != [] witness ["_"]

  datatype OrderItem = OrderItem(field: Field, desc: bool)

  datatype BoolOp = AND | OR

  datatype Expr =
    | Binary(op: BoolOp, left: Expr, right: Expr)
    | Paren(inner: Expr)
    | Comparison(field: Field, cmp: string, value: Value)

  datatype Value =
    | ValString(str: string)
    | ValNumber(num: string)
    | ValTime(seconds: int, sub: bool)

  const TWO63 := 0x8000_0000_0000_0000
  const TWO64 := 0x1_0000_0000_0000_0000

  /** Two's-complement wrap-around of a 64-bit product. */
  function WrapInt64(n: int): (r: int)
    ensures -TWO63 <= r < TWO63
    ensures -TWO63 <= n < TWO63 ==> r == n
  {
    (n + TWO63) % TWO64 - TWO63
  }
}
