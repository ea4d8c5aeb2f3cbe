/** sql/token.go and sql/ast.go: tokens and the SELECT statement. */
module Ast {
  import opened Types

  datatype TokenKind =
    | TokIdent | TokInt | TokFloat | TokString
    | TokSelect | TokFrom | TokWhere | TokGroup | TokBy | TokAs
    | TokCount | TokSum | TokMin | TokMax | TokAvg
    | TokOrder | TokAsc | TokDesc | TokLimit
    | TokStar | TokMinus | TokPlus
    | TokEq | TokNe | TokLt | TokLe | TokGt | TokGe
    | TokComma | TokLParen | TokRParen | TokSemi
    | TokEOF
  {
    predicate IsComparator() {
      TokEq? || TokNe? || TokLt? || TokLe? || TokGt? || TokGe?
    }

    predicate IsLiteral() {
      TokInt? || TokFloat? || TokString?
    }

    predicate IsAggKeyword() {
      TokCount? || TokSum? || TokMin? || TokMax? || TokAvg?
    }
  }

  datatype Token = Token(kind: TokenKind, value: Text, pos: nat)

  /** The canonical names COUNT, SUM, MIN, MAX and AVG. */
  datatype AggName = CountFn | SumFn | MinFn | MaxFn | AvgFn

  /** One entry of the SELECT list; a starred aggregate has the argument "*". */
  datatype SelectItem =
    | Star
    | Col(name: Text)
    | Agg(fn: AggName, arg: Text)

  const STAR: Text := "*"

  datatype Where = Where(column: Text, op: TokenKind, literal: Token)

  datatype OrderBy = OrderBy(column: Text, ascending: bool)

  /** limit is -1 when there is no LIMIT clause; groupBy is empty when there is no GROUP BY. */
  datatype SelectStmt = SelectStmt(
    items: seq<SelectItem>,
    fromTable: Text,
    filter: Option<Where>,
    groupBy: seq<Text>,
    orderBy: Option<OrderBy>,
    limit: int)
}
