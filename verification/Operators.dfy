/** The closed set of binary operators and their binding strength. */
module Operators {

  datatype Operator =
    | Eq | NotEq | Lt | LtEq | Gt | GtEq | IsDistinctFrom | IsNotDistinctFrom
    | Plus | Minus | Multiply | Divide | Modulo
    | And | Or
    | LikeMatch | ILikeMatch | NotLikeMatch | NotILikeMatch
    | BitwiseAnd | BitwiseOr | BitwiseXor | BitwiseShiftRight | BitwiseShiftLeft
    | StringConcat | AtArrow | ArrowAt
    | RegexMatch | RegexIMatch | RegexNotMatch | RegexNotIMatch
  {
    predicate IsLogic() {
      And? || Or?
    }

    predicate IsComparison() {
      match this
      case Eq | NotEq | Lt | LtEq | Gt | GtEq | IsDistinctFrom | IsNotDistinctFrom => true
      case LikeMatch | ILikeMatch | NotLikeMatch | NotILikeMatch => true
      case RegexMatch | RegexIMatch | RegexNotMatch | RegexNotIMatch => true
      case _ => false
    }

    // Higher binds tighter.
    function Precedence(): nat {
      match this
      case Or => 5
      case And => 10
      case Eq | NotEq | Lt | LtEq | Gt | GtEq | IsDistinctFrom | IsNotDistinctFrom => 20
      case LikeMatch | ILikeMatch | NotLikeMatch | NotILikeMatch => 25
      case RegexMatch | RegexIMatch | RegexNotMatch | RegexNotIMatch => 25
      case Plus | Minus => 30
      case Multiply | Divide | Modulo => 40
      case BitwiseAnd | BitwiseOr | BitwiseXor => 18
      case BitwiseShiftLeft | BitwiseShiftRight => 19
      case StringConcat => 27
      case AtArrow | ArrowAt => 22
    }
  }
}
