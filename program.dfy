/**
 * The annotated program the generator reads (built by the front end, which
 * is not part of this model). A statement is identified by its location
 * label; a loop refers to its enclosing loops by their location labels,
 * outermost first.
 */
module Programs {

  /**
   * A program variable. `id` stands for the variable's identity (the address
   * of its single shared object in the front end); it is what `intersection`
   * orders by.
   */
  datatype Variable = Variable(id: nat, name: string, isConstant: bool, isArray: bool)

  datatype ArithOp = Add | Sub | Mul

  datatype IntExpr =
    | IntConstant(value: int)
    | IntVariableAccess(variable: Variable)
    | IntArrayApplication(arrayVariable: Variable, index: IntExpr)
    | IntArithmetic(op: ArithOp, left: IntExpr, right: IntExpr)
    | IntUnaryMinus(operand: IntExpr)

  datatype CmpOp = Less | LessEq | Greater | GreaterEq | Equal

  datatype BoolExpr =
    | BoolConstant(value: bool)
    | IntComparison(op: CmpOp, left: IntExpr, right: IntExpr)
    | BoolNegation(operand: BoolExpr)
    | BoolConjunction(first: BoolExpr, second: BoolExpr)
    | BoolDisjunction(first: BoolExpr, second: BoolExpr)

  datatype Statement =
    | IntAssignment(location: string, lhs: IntExpr, rhs: IntExpr)
    | IfElse(location: string, condition: BoolExpr, ifStatements: seq<Statement>, elseStatements: seq<Statement>)
    | WhileStatement(location: string, condition: BoolExpr, bodyStatements: seq<Statement>, enclosingLoops: seq<string>)
    | SkipStatement(location: string)

  datatype Function = Function(name: string, statements: seq<Statement>)

  datatype Program = Program(functions: seq<Function>)
}
