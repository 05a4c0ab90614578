/** The expression parser: find the operators at depth 0, split at the rightmost one of lowest
    precedence, and recurse on both sides. */
module ExpressionParser {
  import opened Words
  import opened Ast
  import Ir

  /** `BINARY_OPERATOR_PRECEDENCE`. */
  function Precedence(op: Ir.BinaryOperator): nat {
    match op
    case Or => 0
    case And => 1
    case EqualTo => 2
    case NotEqualTo => 2
    case LessThan => 3
    case LessOrEqual => 3
    case GreaterOrEqual => 3
    case GreaterThan => 3
    case Plus => 4
    case Minus => 4
    case Times => 5
    case Over => 5
    case Modulus => 5
  }

  /** The layers of the grammar of expressions, the loosest first, by the operators of each. */
  function Layer(op: Ir.BinaryOperator): (k: nat)
    ensures k < 6
  {
    if op in {Ir.Or} then 0
    else if op in {Ir.And} then 1
    else if op in {Ir.EqualTo, Ir.NotEqualTo} then 2
    else if op in {Ir.LessThan, Ir.LessOrEqual, Ir.GreaterOrEqual, Ir.GreaterThan} then 3
    else if op in {Ir.Plus, Ir.Minus} then 4
    else 5 // Times, Over, Modulus
  }

  lemma PrecedenceIsLayer(op: Ir.BinaryOperator)
    ensures Precedence(op) == Layer(op)
  {
  }

  // ----- peeking -----

  /** `peek_token` at `position + i`; past the end there is nothing. */
  function Peek(ts: seq<Token>, p: nat): Token {
    if p < |ts| then ts[p] else NoToken
  }

  /** A minus is an operator unless it starts the window or follows an operator or a `!`. */
  predicate IsBinaryOperator(ts: seq<Token>, p: nat, i: nat) {
    && Peek(ts, p + i).Operator?
    && (Peek(ts, p + i) == Operator(Ir.Minus) ==>
         i != 0 && !Peek(ts, p + i - 1).Operator? && Peek(ts, p + i - 1) != Bang)
  }

  predicate IsTerminator(t: Token) {
    t == CloseParenthesis || t == CloseBracket || t == Semicolon || t == Comma
  }

  predicate IsTermination(ts: seq<Token>, p: nat, depth: nat, i: nat) {
    (depth == 0 && IsTerminator(Peek(ts, p + i))) || i >= |ts|
  }

  function DepthAfter(t: Token, depth: nat): nat {
    if t == OpenParenthesis || t == OpenBracket then depth + 1
    else if (t == CloseParenthesis || t == CloseBracket) && depth > 0 then depth - 1
    else depth
  }

  /** The scan stops at the window's end or at a terminator outside all brackets. */
  predicate Stops(ts: seq<Token>, p: nat, i: nat, depth: nat, length: Option<nat>) {
    (length.Some? && i >= length.value) || IsTermination(ts, p, depth, i)
  }

  /** `find_binary_operator_indices` from index `i` on; `None` is a window without a length. */
  function FindOperators(ts: seq<Token>, p: nat, i: nat, depth: nat, length: Option<nat>): (indices: seq<nat>)
    ensures forall k :: k in indices ==>
      i <= k && p + k < |ts| && (length.Some? ==> k < length.value) && ts[p + k].Operator?
    decreases |ts| - i
  {
    if Stops(ts, p, i, depth, length) then []
    else
      var d := DepthAfter(Peek(ts, p + i), depth);
      (if d == 0 && IsBinaryOperator(ts, p, i) then [i] else []) + FindOperators(ts, p, i + 1, d, length)
  }

  /** `get_lowest_precedence_index`: a later operator wins a tie. `None` is no operator yet. */
  function Lowest(ts: seq<Token>, p: nat, indices: seq<nat>, best: Option<nat>): (r: Option<nat>)
    requires forall k :: k in indices ==> p + k < |ts| && ts[p + k].Operator?
    requires best.Some? ==> p + best.value < |ts| && ts[p + best.value].Operator?
    ensures indices != [] || best.Some? ==> r.Some? && (r == best || r.value in indices)
    decreases |indices|
  {
    if indices == [] then best
    else
      var k := indices[0];
      assert k in indices && forall j :: j in indices[1..] ==> j in indices;
      var better := best.None? || Precedence(ts[p + k].op) <= Precedence(ts[p + best.value].op);
      Lowest(ts, p, indices[1..], if better then Some(k) else best)
  }

  predicate AreOperators(ts: seq<Token>, p: nat, indices: seq<nat>) {
    forall i :: 0 <= i < |indices| ==> p + indices[i] < |ts| && ts[p + indices[i]].Operator?
  }

  /** The `j`-th operator binds no tighter than any other, and looser than all to its right. */
  predicate RightmostLowest(ts: seq<Token>, p: nat, indices: seq<nat>, j: nat)
    requires AreOperators(ts, p, indices) && j < |indices|
  {
    forall i :: 0 <= i < |indices| ==>
      var here, there := Layer(ts[p + indices[j]].op), Layer(ts[p + indices[i]].op);
      here <= there && (j < i ==> here < there)
  }

  lemma LowestIsRightmost(ts: seq<Token>, p: nat, indices: seq<nat>) returns (j: nat)
    requires indices != [] && forall k :: k in indices ==> p + k < |ts| && ts[p + k].Operator?
    ensures AreOperators(ts, p, indices) && j < |indices|
    ensures Lowest(ts, p, indices, None) == Some(indices[j]) && RightmostLowest(ts, p, indices, j)
  {
    forall i | 0 <= i < |indices| ensures p + indices[i] < |ts| && ts[p + indices[i]].Operator? {
      assert indices[i] in indices;
    }
    j := LowestGoesOn(ts, p, indices, 1, 0);
  }

  lemma BestSoFar(ts: seq<Token>, p: nat, indices: seq<nat>, i: nat, best: nat)
    requires AreOperators(ts, p, indices) && best < i < |indices| && RightmostLowest(ts, p, indices[..i], best)
    ensures RightmostLowest(ts, p, indices[..i + 1],
      if Precedence(ts[p + indices[i]].op) <= Precedence(ts[p + indices[best]].op) then i else best)
  {
    PrecedenceIsLayer(ts[p + indices[i]].op);
    PrecedenceIsLayer(ts[p + indices[best]].op);
    hide Precedence, Layer;
    forall k | 0 <= k < i ensures indices[..i + 1][k] == indices[..i][k] { }
  }

  /** With the first `i` operators seen and the best of them at `best`. */
  lemma {:induction false} LowestGoesOn(ts: seq<Token>, p: nat, indices: seq<nat>, i: nat, best: nat)
    returns (j: nat)
    requires AreOperators(ts, p, indices) && best < i <= |indices| && RightmostLowest(ts, p, indices[..i], best)
    ensures j < |indices| && RightmostLowest(ts, p, indices, j)
    ensures forall k :: k in indices[i..] ==> p + k < |ts| && ts[p + k].Operator?
    ensures Lowest(ts, p, indices[i..], Some(indices[best])) == Some(indices[j])
    decreases |indices| - i
  {
    hide Precedence;
    if i == |indices| {
      assert indices[..i] == indices;
      j := best;
    } else {
      var rest := indices[i..];
      assert rest[1..] == indices[i + 1..] && rest[0] == indices[i];
      var better := Precedence(ts[p + indices[i]].op) <= Precedence(ts[p + indices[best]].op);
      BestSoFar(ts, p, indices, i, best);
      hide RightmostLowest;
      j := LowestGoesOn(ts, p, indices, i + 1, if better then i else best);
    }
  }

  // ----- parsing -----

  /** A tree and the position after it; `None` when there is none or it has an error. */
  type Parse = Option<(Node, nat)>

  predicate Advances(ts: seq<Token>, p: nat, r: Parse) {
    r.Some? ==> p < r.value.1 <= |ts|
  }

  function Window(ts: seq<Token>, p: nat, length: Option<nat>): nat
    requires p <= |ts|
  {
    if length.Some? && length.value < |ts| - p then length.value else |ts| - p
  }

  function ParseExpression(ts: seq<Token>, p: nat, length: Option<nat>): (r: Parse)
    requires p <= |ts|
    ensures Advances(ts, p, r)
    decreases |ts| - p, Window(ts, p, length), 2
  {
    var indices := FindOperators(ts, p, 0, 0, length);
    if indices == [] then ParseUnary(ts, p)
    else
      var k := Lowest(ts, p, indices, None).value;
      match ParseExpression(ts, p, Some(k))
      case None => None
      case Some((left, q)) =>
        if q != p + k then None
        else
          match ParseExpression(ts, q + 1, if length.Some? then Some(length.value - (k + 1)) else None)
          case None => None
          case Some((right, end)) =>
            Some((Inner(ExpressionNode, [Inner(BinaryNode, [left, Leaf(BinaryOperatorNode, ts[q]), right])]), end))
  }

  predicate IsNumber(t: Token) {
    t.Decimal? || t.Hexadecimal?
  }

  /** The token that starts a unary expression says which one it is. */
  function ParseUnary(ts: seq<Token>, p: nat): (r: Parse)
    requires p <= |ts|
    ensures Advances(ts, p, r)
    decreases |ts| - p, 0, 1
  {
    match Peek(ts, p)
    case Len => (
      match ParseLen(ts, p)
      case Some((n, q)) => Some((Inner(ExpressionNode, [n]), q))
      case None => None)
    case Bang => (
      match ParseUnary(ts, p + 1)
      case Some((n, q)) => Some((Inner(ExpressionNode, [Inner(NotNode, [n])]), q))
      case None => None)
    case Operator(op) =>
      if op != Ir.Minus then None
      else if IsNumber(Peek(ts, p + 1)) then
        Some((Inner(ExpressionNode,
          [Inner(LiteralNode, [Leaf(LiteralNegation, ts[p]), Leaf(IntLiteralNode, ts[p + 1])])]), p + 2))
      else (
        match ParseUnary(ts, p + 1)
        case Some((n, q)) => Some((Inner(ExpressionNode, [Inner(NegateNode, [n])]), q))
        case None => None)
    case OpenParenthesis => (
      match ParseExpression(ts, p + 1, None)
      case Some((n, q)) => if Peek(ts, q) == CloseParenthesis then Some((n, q + 1)) else None
      case None => None)
    case Identifier(_) => (
      match if Peek(ts, p + 1) == OpenParenthesis then ParseCall(ts, p) else ParseLocation(ts, p)
      case Some((n, q)) => Some((Inner(ExpressionNode, [n]), q))
      case None => None)
    case t =>
      if LiteralKindOf(t).Some? then
        Some((Inner(ExpressionNode, [Inner(LiteralNode, [Leaf(LiteralKindOf(t).value, t)])]), p + 1))
      else None
  }

  function LiteralKindOf(t: Token): Option<Kind> {
    if IsNumber(t) then Some(IntLiteralNode)
    else if t.Character? then Some(CharLiteralNode)
    else if t == True || t == False then Some(BoolLiteralNode)
    else None
  }

  function ParseLen(ts: seq<Token>, p: nat): (r: Parse)
    requires p < |ts|
    ensures Advances(ts, p, r)
  {
    if Peek(ts, p + 1) == OpenParenthesis && Peek(ts, p + 2).Identifier? && Peek(ts, p + 3) == CloseParenthesis then
      Some((Inner(LenNode, [Leaf(IdentifierNode, ts[p + 2])]), p + 4))
    else None
  }

  function ParseLocation(ts: seq<Token>, p: nat): (r: Parse)
    requires p < |ts| && ts[p].Identifier?
    ensures Advances(ts, p, r)
    decreases |ts| - p, 0, 0
  {
    var identifier := Leaf(IdentifierNode, ts[p]);
    if Peek(ts, p + 1) != OpenBracket then Some((Inner(LocationNode, [identifier]), p + 1))
    else
      match ParseExpression(ts, p + 2, None)
      case None => None
      case Some((index, q)) =>
        if Peek(ts, q) == CloseBracket then
          Some((Inner(LocationNode, [identifier, Inner(LocationIndex, [index])]), q + 1))
        else None
  }

  function ParseCall(ts: seq<Token>, p: nat): (r: Parse)
    requires p + 1 < |ts| && ts[p].Identifier?
    ensures Advances(ts, p, r)
    decreases |ts| - p, 0, 0
  {
    var identifier := Leaf(IdentifierNode, ts[p]);
    if Peek(ts, p + 2) == CloseParenthesis then Some((Inner(CallNode, [identifier, Inner(CallEnd, [])]), p + 3))
    else
      match ParseArguments(ts, p + 2)
      case None => None
      case Some((arguments, q)) => Some((Inner(CallNode, [identifier] + arguments + [Inner(CallEnd, [])]), q))
  }

  /** One or more arguments, up to and including the closing parenthesis. */
  function ParseArguments(ts: seq<Token>, p: nat): (r: Option<(seq<Node>, nat)>)
    requires p <= |ts|
    ensures r.Some? ==> p < r.value.1 <= |ts|
    decreases |ts| - p, |ts| + 1, 2
  {
    match ParseArgument(ts, p)
    case None => None
    case Some((argument, q)) =>
      if Peek(ts, q) == CloseParenthesis then Some(([argument], q + 1))
      else if Peek(ts, q) != Comma then None
      else
        match ParseArguments(ts, q + 1)
        case None => None
        case Some((rest, end)) => Some(([argument] + rest, end))
  }

  function ParseArgument(ts: seq<Token>, p: nat): (r: Parse)
    requires p <= |ts|
    ensures Advances(ts, p, r)
    decreases |ts| - p, |ts| + 1, 1
  {
    if Peek(ts, p).StringToken? then Some((Inner(CallArgumentNode, [Leaf(StringLiteralNode, ts[p])]), p + 1))
    else
      match ParseExpression(ts, p, None)
      case None => None
      case Some((n, q)) => Some((Inner(CallArgumentNode, [n]), q))
  }
}
