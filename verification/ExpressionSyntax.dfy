/** Parsing inverts printing: every way of writing an expression with enough parentheses is read back
    as its tree, up to its last token. */
module ExpressionSyntax {
  import opened Words
  import opened Ast
  import opened ExpressionParser
  import Ir

  /** Written expressions. Parentheses may be redundant, never missing. */
  datatype Syntax =
    | BinarySyntax(op: Ir.BinaryOperator, left: Syntax, right: Syntax)
    | NotSyntax(operand: Syntax)
    | NegateSyntax(operand: Syntax)
    | LenSyntax(identifier: string)
    | LiteralSyntax(negated: bool, literal: Token)
    | CallSyntax(callee: string, arguments: seq<ArgumentSyntax>)
    | LocationSyntax(array_: string, index: Option<Syntax>)
    | ParenthesisSyntax(inner: Syntax)

  datatype ArgumentSyntax = StringSyntax(text: string) | ValueSyntax(value: Syntax)

  // ----- the grammar -----

  predicate IsNumeral(t: Token) {
    t.Decimal? || t.Hexadecimal?
  }

  predicate IsLiteral(t: Token) {
    IsNumeral(t) || t.Character? || t == True || t == False
  }

  /** The kind of leaf that stands for a literal in the tree. */
  function LiteralLeaf(t: Token): Kind {
    match t
    case True => BoolLiteralNode
    case False => BoolLiteralNode
    case Character(_) => CharLiteralNode
    case _ => IntLiteralNode
  }

  lemma LiteralTokens(t: Token)
    ensures LiteralKindOf(t) == if IsLiteral(t) then Some(LiteralLeaf(t)) else None
    ensures IsNumber(t) <==> IsNumeral(t)
  {
  }

  /** The layer an expression belongs to; unary operators and primaries are tighter than every binary operator. */
  function Level(e: Syntax): nat {
    if e.BinarySyntax? then Layer(e.op) else 6
  }

  /** Enough parentheses: equal layers associate to the left, unary operators take unary operands,
      and a minus before a number belongs to the number. */
  predicate Enough(e: Syntax)
    decreases e
  {
    match e
    case BinarySyntax(op, l, r) => Enough(l) && Enough(r) && Level(l) >= Layer(op) && Level(r) > Layer(op)
    case NotSyntax(o) => Enough(o) && !o.BinarySyntax?
    case NegateSyntax(o) => Enough(o) && !o.BinarySyntax? && !(o.LiteralSyntax? && !o.negated && IsNumeral(o.literal))
    case LenSyntax(_) => true
    case LiteralSyntax(negated, t) => IsLiteral(t) && (negated ==> IsNumeral(t))
    case CallSyntax(_, arguments) => EnoughAll(arguments)
    case LocationSyntax(_, index) => index.Some? ==> Enough(index.value)
    case ParenthesisSyntax(inner) => Enough(inner)
  }

  predicate EnoughAll(arguments: seq<ArgumentSyntax>)
    decreases arguments
  {
    arguments == [] || (EnoughArgument(arguments[0]) && EnoughAll(arguments[1..]))
  }

  predicate EnoughArgument(a: ArgumentSyntax)
    decreases a
  {
    a.ValueSyntax? ==> Enough(a.value)
  }

  // ----- printing -----

  function Tokens(e: Syntax): (ts: seq<Token>)
    ensures |ts| > 0
    decreases e
  {
    match e
    case BinarySyntax(op, l, r) => Tokens(l) + [Operator(op)] + Tokens(r)
    case NotSyntax(o) => [Bang] + Tokens(o)
    case NegateSyntax(o) => [Operator(Ir.Minus)] + Tokens(o)
    case LenSyntax(id) => [Len, OpenParenthesis, Identifier(id), CloseParenthesis]
    case LiteralSyntax(negated, t) => if negated then [Operator(Ir.Minus), t] else [t]
    case CallSyntax(id, arguments) => [Identifier(id), OpenParenthesis] + ArgumentTokens(arguments) + [CloseParenthesis]
    case LocationSyntax(id, None) => [Identifier(id)]
    case LocationSyntax(id, Some(index)) => [Identifier(id), OpenBracket] + Tokens(index) + [CloseBracket]
    case ParenthesisSyntax(inner) => [OpenParenthesis] + Tokens(inner) + [CloseParenthesis]
  }

  /** With commas in between. */
  function ArgumentTokens(arguments: seq<ArgumentSyntax>): seq<Token>
    decreases arguments
  {
    if arguments == [] then []
    else if |arguments| == 1 then OneArgumentTokens(arguments[0])
    else OneArgumentTokens(arguments[0]) + [Comma] + ArgumentTokens(arguments[1..])
  }

  function OneArgumentTokens(a: ArgumentSyntax): (ts: seq<Token>)
    ensures |ts| > 0
    decreases a
  {
    match a
    case StringSyntax(text) => [StringToken(text)]
    case ValueSyntax(e) => Tokens(e)
  }

  // ----- the tree that is meant -----

  function Tree(e: Syntax): Node
    decreases e
  {
    match e
    case BinarySyntax(op, l, r) => Inner(ExpressionNode,
      [Inner(BinaryNode, [Tree(l), Leaf(BinaryOperatorNode, Operator(op)), Tree(r)])])
    case NotSyntax(o) => Inner(ExpressionNode, [Inner(NotNode, [Tree(o)])])
    case NegateSyntax(o) => Inner(ExpressionNode, [Inner(NegateNode, [Tree(o)])])
    case LenSyntax(id) => Inner(ExpressionNode, [Inner(LenNode, [Leaf(IdentifierNode, Identifier(id))])])
    case LiteralSyntax(negated, t) => Inner(ExpressionNode, [LiteralTree(negated, t)])
    case CallSyntax(id, arguments) =>
      Inner(ExpressionNode,
        [Inner(CallNode, [Leaf(IdentifierNode, Identifier(id))] + ArgumentTrees(arguments) + [Inner(CallEnd, [])])])
    case LocationSyntax(id, None) => Inner(ExpressionNode,
      [Inner(LocationNode, [Leaf(IdentifierNode, Identifier(id))])])
    case LocationSyntax(id, Some(index)) =>
      Inner(ExpressionNode,
        [Inner(LocationNode, [Leaf(IdentifierNode, Identifier(id)), Inner(LocationIndex, [Tree(index)])])])
    case ParenthesisSyntax(inner) => Tree(inner)
  }

  function LiteralTree(negated: bool, t: Token): Node {
    Inner(LiteralNode,
          (if negated then [Leaf(LiteralNegation, Operator(Ir.Minus))] else []) + [Leaf(LiteralLeaf(t), t)])
  }

  function ArgumentTrees(arguments: seq<ArgumentSyntax>): seq<Node>
    decreases arguments
  {
    if arguments == [] then [] else [ArgumentTree(arguments[0])] + ArgumentTrees(arguments[1..])
  }

  function ArgumentTree(a: ArgumentSyntax): Node
    decreases a
  {
    match a
    case StringSyntax(text) => Inner(CallArgumentNode, [Leaf(StringLiteralNode, StringToken(text))])
    case ValueSyntax(e) => Inner(CallArgumentNode, [Tree(e)])
  }

  // ----- scanning -----

  /** `piece` stands at `p`. */
  ghost predicate At(ts: seq<Token>, p: nat, piece: seq<Token>) {
    p + |piece| <= |ts| && ts[p..p + |piece|] == piece
  }

  lemma AtParts(ts: seq<Token>, p: nat, first: seq<Token>, second: seq<Token>)
    requires At(ts, p, first + second)
    ensures At(ts, p, first) && At(ts, p + |first|, second)
  {
    var piece := ts[p..p + |first + second|];
    assert piece[..|first|] == first && piece[|first|..] == second;
    assert ts[p..p + |first|] == piece[..|first|];
    assert ts[p + |first|..p + |first| + |second|] == piece[|first|..];
  }

  lemma AtHead(ts: seq<Token>, p: nat, piece: seq<Token>)
    requires At(ts, p, piece) && piece != []
    ensures p < |ts| && ts[p] == piece[0] && At(ts, p + 1, piece[1..])
  {
    assert piece == piece[..1] + piece[1..];
    AtParts(ts, p, piece[..1], piece[1..]);
    assert ts[p] == ts[p..p + 1][0];
  }

  lemma TokensOfBinary(e: Syntax)
    requires e.BinarySyntax?
    ensures Tokens(e) == Tokens(e.left) + [Operator(e.op)] + Tokens(e.right)
  {
  }

  /** Where the parts of a binary expression stand. */
  lemma BinaryParts(e: Syntax, ts: seq<Token>, p: nat)
    requires e.BinarySyntax? && Enough(e) && At(ts, p, Tokens(e))
    ensures var n := |Tokens(e.left)|;
      && Enough(e.left) && Enough(e.right)
      && Level(e) == Precedence(e.op) && Level(e.left) >= Precedence(e.op) && Level(e.right) > Precedence(e.op)
      && |Tokens(e)| == n + 1 + |Tokens(e.right)|
      && At(ts, p, Tokens(e.left)) && p + n < |ts| && ts[p + n] == Operator(e.op) && At(ts, p + n + 1, Tokens(e.right))
  {
    hide Tokens, At, Precedence, Layer;
    PrecedenceIsLayer(e.op);
    var l, r := Tokens(e.left), Tokens(e.right);
    TokensOfBinary(e);
    AtParts(ts, p, l + [Operator(e.op)], r);
    AtParts(ts, p, l, [Operator(e.op)]);
    AtHead(ts, p + |l|, [Operator(e.op)]);
  }

  predicate Inside(length: Option<nat>, i: nat) {
    length.Some? ==> i <= length.value
  }

  /** Inside brackets the scan passes over these tokens and ends at the same depth. */
  ghost predicate Balanced(piece: seq<Token>) {
    forall ts: seq<Token>, p: nat, i: nat, depth: nat, length: Option<nat> ::
      At(ts, p + i, piece) && depth > 0 && Inside(length, i + |piece|) ==>
      FindOperators(ts, p, i, depth, length) == FindOperators(ts, p, i + |piece|, depth, length)
  }

  lemma BalancedToken(t: Token)
    requires DepthAfter(t, 1) == 1
    ensures Balanced([t])
  {
    forall ts: seq<Token>, p: nat, i: nat, depth: nat, length: Option<nat> | At(ts, p + i, [t]) && depth > 0
      && Inside(length, i + 1)
      ensures FindOperators(ts, p, i, depth, length) == FindOperators(ts, p, i + 1, depth, length)
    {
      AtHead(ts, p + i, [t]);
    }
  }

  lemma BalancedConcat(a: seq<Token>, b: seq<Token>)
    requires Balanced(a) && Balanced(b)
    ensures Balanced(a + b)
  {
    hide FindOperators;
    forall ts: seq<Token>, p: nat, i: nat, depth: nat, length: Option<nat> | At(ts, p + i, a + b) && depth > 0
      && Inside(length, i + |a + b|)
      ensures FindOperators(ts, p, i, depth, length) == FindOperators(ts, p, i + |a + b|, depth, length)
    {
      AtParts(ts, p + i, a, b);
      assert FindOperators(ts, p, i, depth, length) == FindOperators(ts, p, i + |a|, depth, length);
      assert At(ts, p + (i + |a|), b);
      assert FindOperators(ts, p, i + |a|, depth, length) == FindOperators(ts, p, (i + |a|) + |b|, depth, length);
    }
  }

  lemma BalancedBrackets(open: Token, a: seq<Token>, close: Token)
    requires Balanced(a) && (open == OpenParenthesis || open == OpenBracket)
      && (close == CloseParenthesis || close == CloseBracket)
    ensures Balanced([open] + a + [close])
  {
    hide FindOperators;
    forall ts: seq<Token>, p: nat, i: nat, depth: nat, length: Option<nat> | At(ts, p + i, [open] + a + [close])
      && depth > 0 && Inside(length, i + |[open] + a + [close]|)
      ensures FindOperators(ts, p, i, depth, length) == FindOperators(ts, p, i + |[open] + a + [close]|, depth, length)
    {
      Bracketed(ts, p, i, open, a, close);
      OpenSkipped(ts, p, i, depth, length);
      assert At(ts, p + (i + 1), a);
      assert FindOperators(ts, p, i + 1, depth + 1, length) == FindOperators(ts, p, (i + 1) + |a|, depth + 1, length);
      CloseSkipped(ts, p, i + 1 + |a|, depth + 1, length);
    }
  }

  lemma Bracketed(ts: seq<Token>, p: nat, i: nat, open: Token, a: seq<Token>, close: Token)
    requires At(ts, p + i, [open] + a + [close])
    ensures p + i + 1 + |a| < |ts| && ts[p + i] == open && At(ts, p + i + 1, a) && ts[p + i + 1 + |a|] == close
  {
    AtParts(ts, p + i, [open] + a, [close]);
    AtParts(ts, p + i, [open], a);
    AtHead(ts, p + i, [open]);
    AtHead(ts, p + i + 1 + |a|, [close]);
  }

  lemma OpenSkipped(ts: seq<Token>, p: nat, i: nat, depth: nat, length: Option<nat>)
    requires p + i < |ts| && (ts[p + i] == OpenParenthesis || ts[p + i] == OpenBracket) && Inside(length, i + 1)
    ensures FindOperators(ts, p, i, depth, length) == FindOperators(ts, p, i + 1, depth + 1, length)
  {
  }

  lemma CloseSkipped(ts: seq<Token>, p: nat, i: nat, depth: nat, length: Option<nat>)
    requires p + i < |ts| && (ts[p + i] == CloseParenthesis || ts[p + i] == CloseBracket) && depth > 0
      && Inside(length, i + 1)
    ensures FindOperators(ts, p, i, depth, length) == FindOperators(ts, p, i + 1, depth - 1, length)
  {
  }

  lemma BalancedCall(head: Token, open: Token, a: seq<Token>, close: Token)
    requires Balanced(a) && DepthAfter(head, 1) == 1
    requires (open == OpenParenthesis || open == OpenBracket) && (close == CloseParenthesis || close == CloseBracket)
    ensures Balanced([head] + ([open] + a + [close]))
  {
    hide Balanced;
    BalancedToken(head);
    BalancedBrackets(open, a, close);
    BalancedConcat([head], [open] + a + [close]);
  }

  /** Every written expression has matching brackets. */
  lemma {:induction false} BracketedBalanced(e: Syntax)
    requires Enough(e) && (e.LenSyntax? || e.CallSyntax? || e.LocationSyntax? || e.ParenthesisSyntax?)
    ensures Balanced(Tokens(e))
    decreases e, 0
  {
    hide Balanced, ArgumentTokens, EnoughAll;
    match e
    case LenSyntax(id) =>
      BalancedToken(Identifier(id));
      assert Tokens(e) == [Len] + ([OpenParenthesis] + [Identifier(id)] + [CloseParenthesis]);
      BalancedCall(Len, OpenParenthesis, [Identifier(id)], CloseParenthesis);
    case CallSyntax(id, arguments) =>
      ArgumentsBalanced(arguments);
      assert Tokens(e) == [Identifier(id)] + ([OpenParenthesis] + ArgumentTokens(arguments) + [CloseParenthesis]);
      BalancedCall(Identifier(id), OpenParenthesis, ArgumentTokens(arguments), CloseParenthesis);
    case LocationSyntax(id, None) => BalancedToken(Identifier(id));
    case LocationSyntax(id, Some(index)) =>
      ExpressionBalanced(index);
      assert Tokens(e) == [Identifier(id)] + ([OpenBracket] + Tokens(index) + [CloseBracket]);
      BalancedCall(Identifier(id), OpenBracket, Tokens(index), CloseBracket);
    case ParenthesisSyntax(inner) =>
      ExpressionBalanced(inner);
      BalancedBrackets(OpenParenthesis, Tokens(inner), CloseParenthesis);
  }

  lemma {:induction false} ExpressionBalanced(e: Syntax)
    requires Enough(e)
    ensures Balanced(Tokens(e))
    decreases e, 1
  {
    hide Balanced;
    match e
    case BinarySyntax(op, l, r) =>
      ExpressionBalanced(l);
      ExpressionBalanced(r);
      BalancedToken(Operator(op));
      BalancedConcat(Tokens(l), [Operator(op)]);
      BalancedConcat(Tokens(l) + [Operator(op)], Tokens(r));
    case NotSyntax(o) =>
      ExpressionBalanced(o);
      BalancedToken(Bang);
      BalancedConcat([Bang], Tokens(o));
    case NegateSyntax(o) =>
      ExpressionBalanced(o);
      BalancedToken(Operator(Ir.Minus));
      BalancedConcat([Operator(Ir.Minus)], Tokens(o));
    case LiteralSyntax(negated, t) =>
      BalancedToken(t);
      BalancedToken(Operator(Ir.Minus));
      BalancedConcat([Operator(Ir.Minus)], [t]);
      assert [Operator(Ir.Minus)] + [t] == [Operator(Ir.Minus), t];
    case _ => BracketedBalanced(e);
  }

  lemma {:induction false} ArgumentsBalanced(arguments: seq<ArgumentSyntax>)
    requires EnoughAll(arguments)
    ensures Balanced(ArgumentTokens(arguments))
    decreases arguments
  {
    if arguments == [] {
      NothingBalanced();
    } else {
      hide Balanced;
      ArgumentBalanced(arguments[0]);
      if |arguments| > 1 {
        ArgumentsBalanced(arguments[1..]);
        BalancedToken(Comma);
        BalancedConcat(OneArgumentTokens(arguments[0]), [Comma]);
        BalancedConcat(OneArgumentTokens(arguments[0]) + [Comma], ArgumentTokens(arguments[1..]));
      }
    }
  }

  lemma NothingBalanced()
    ensures Balanced([])
  {
    hide FindOperators;
  }

  lemma {:induction false} ArgumentBalanced(a: ArgumentSyntax)
    requires EnoughArgument(a)
    ensures Balanced(OneArgumentTokens(a))
    decreases a
  {
    match a
    case StringSyntax(text) => BalancedToken(StringToken(text));
    case ValueSyntax(e) => ExpressionBalanced(e);
  }

  // ----- operators outside brackets -----

  /** The operators of a written expression that are outside all brackets, when it starts at `i`. */
  function TopOperators(e: Syntax, i: nat): seq<nat> {
    if e.BinarySyntax? then
      TopOperators(e.left, i) + [i + |Tokens(e.left)|] + TopOperators(e.right, i + |Tokens(e.left)| + 1)
    else []
  }

  /** A minus here would be unary. */
  predicate Fresh(ts: seq<Token>, p: nat, i: nat) {
    i == 0 || Peek(ts, p + i - 1).Operator? || Peek(ts, p + i - 1) == Bang
  }

  /** A token outside brackets that is neither an operator nor a terminator. */
  lemma PlainToken(ts: seq<Token>, p: nat, i: nat, length: Option<nat>)
    requires p + i < |ts| && Inside(length, i + 1)
    requires var t := ts[p + i]; !IsTerminator(t) && DepthAfter(t, 0) == 0 && !IsBinaryOperator(ts, p, i)
    ensures FindOperators(ts, p, i, 0, length) == FindOperators(ts, p, i + 1, 0, length)
  {
  }

  /** An operator outside brackets. */
  lemma OperatorToken(ts: seq<Token>, p: nat, i: nat, length: Option<nat>)
    requires p + i < |ts| && Inside(length, i + 1) && IsBinaryOperator(ts, p, i)
    ensures FindOperators(ts, p, i, 0, length) == [i] + FindOperators(ts, p, i + 1, 0, length)
  {
  }

  /** A bracketed group outside brackets. */
  lemma Group(ts: seq<Token>, p: nat, i: nat, length: Option<nat>, open: Token, a: seq<Token>, close: Token)
    requires Balanced(a) && (open == OpenParenthesis || open == OpenBracket)
      && (close == CloseParenthesis || close == CloseBracket)
    requires At(ts, p + i, [open] + a + [close]) && Inside(length, i + |a| + 2)
    ensures FindOperators(ts, p, i, 0, length) == FindOperators(ts, p, i + |a| + 2, 0, length)
  {
    hide FindOperators;
    Bracketed(ts, p, i, open, a, close);
    OpenSkipped(ts, p, i, 0, length);
    assert At(ts, p + (i + 1), a);
    assert FindOperators(ts, p, i + 1, 1, length) == FindOperators(ts, p, (i + 1) + |a|, 1, length);
    CloseSkipped(ts, p, i + 1 + |a|, 1, length);
  }

  /** No written expression ends in an operator or a `!`, so a minus after it is binary. */
  lemma {:induction false} LastToken(e: Syntax)
    requires Enough(e)
    ensures var last := Tokens(e)[|Tokens(e)| - 1]; !last.Operator? && last != Bang
    decreases e
  {
    match e
    case BinarySyntax(_, _, r) => LastToken(r);
    case NotSyntax(o) => LastToken(o);
    case NegateSyntax(o) => LastToken(o);
    case LiteralSyntax(_, _) =>
    case _ =>
  }

  /** Scanning an expression collects its operators outside brackets, in order. */
  lemma {:induction false} ScanTop(e: Syntax, ts: seq<Token>, p: nat, i: nat, length: Option<nat>)
    requires Enough(e) && At(ts, p + i, Tokens(e)) && Inside(length, i + |Tokens(e)|) && Fresh(ts, p, i)
    ensures FindOperators(ts, p, i, 0, length) == TopOperators(e, i) + FindOperators(ts, p, i + |Tokens(e)|, 0, length)
    decreases e, 1
  {
    hide FindOperators, Balanced, At, Fresh, Inside;
    match e
    case BinarySyntax(op, l, r) => ScanBinary(e, ts, p, i, length);
    case NotSyntax(o) => ScanPrefixed(Bang, o, ts, p, i, length);
    case NegateSyntax(o) => ScanPrefixed(Operator(Ir.Minus), o, ts, p, i, length);
    case LiteralSyntax(negated, t) => ScanLiteral(e, ts, p, i, length);
    case _ => ScanBracketed(e, ts, p, i, length);
  }

  lemma {:induction false} ScanPrefixed(sign: Token, o: Syntax, ts: seq<Token>, p: nat, i: nat, length: Option<nat>)
    requires (sign == Bang || sign == Operator(Ir.Minus)) && Enough(o) && !o.BinarySyntax?
    requires At(ts, p + i, [sign] + Tokens(o)) && Inside(length, i + 1 + |Tokens(o)|) && Fresh(ts, p, i)
    ensures FindOperators(ts, p, i, 0, length) == FindOperators(ts, p, i + 1 + |Tokens(o)|, 0, length)
    decreases o, 2
  {
    hide FindOperators, At, Enough;
    AtParts(ts, p + i, [sign], Tokens(o));
    AtHead(ts, p + i, [sign]);
    PlainToken(ts, p, i, length);
    assert p + i + 1 == p + (i + 1);
    ScanTop(o, ts, p, i + 1, length);
  }

  lemma {:induction false} ScanBinary(e: Syntax, ts: seq<Token>, p: nat, i: nat, length: Option<nat>)
    requires e.BinarySyntax? && Enough(e) && At(ts, p + i, Tokens(e)) && Inside(length, i + |Tokens(e)|)
      && Fresh(ts, p, i)
    ensures FindOperators(ts, p, i, 0, length) == TopOperators(e, i) + FindOperators(ts, p, i + |Tokens(e)|, 0, length)
    decreases e, 0
  {
    hide FindOperators, At, Tokens, Enough, TopOperators, Fresh;
    var l, r, n := e.left, e.right, |Tokens(e.left)|;
    BinaryParts(e, ts, p + i);
    AtLast(ts, p + i, Tokens(l));
    LastToken(l);
    MinusIsBinary(ts, p, i + n);
    assert p + i + n + 1 == p + (i + n + 1);
    AfterOperator(ts, p, i + n + 1);
    ScanTop(l, ts, p, i, length);
    OperatorToken(ts, p, i + n, length);
    ScanTop(r, ts, p, i + n + 1, length);
    var rest := FindOperators(ts, p, i + |Tokens(e)|, 0, length);
    TopOfBinary(e, i);
    Regroup(TopOperators(l, i), i + n, TopOperators(r, i + n + 1), rest);
  }

  lemma MinusIsBinary(ts: seq<Token>, p: nat, k: nat)
    requires k > 0 && p + k < |ts| && ts[p + k].Operator? && !ts[p + k - 1].Operator? && ts[p + k - 1] != Bang
    ensures IsBinaryOperator(ts, p, k)
  {
  }

  lemma AfterOperator(ts: seq<Token>, p: nat, k: nat)
    requires 0 < k && p + k <= |ts| && ts[p + k - 1].Operator?
    ensures Fresh(ts, p, k)
  {
  }

  lemma TopOfBinary(e: Syntax, i: nat)
    requires e.BinarySyntax?
    ensures var n := |Tokens(e.left)|;
      TopOperators(e, i) == TopOperators(e.left, i) + [i + n] + TopOperators(e.right, i + n + 1)
  {
    hide Tokens;
  }

  lemma Regroup(a: seq<nat>, k: nat, b: seq<nat>, rest: seq<nat>)
    ensures a + ([k] + (b + rest)) == (a + [k] + b) + rest
  {
  }

  lemma AtLast(ts: seq<Token>, p: nat, piece: seq<Token>)
    requires At(ts, p, piece) && piece != []
    ensures p + |piece| <= |ts| && ts[p + |piece| - 1] == piece[|piece| - 1]
  {
    assert ts[p..p + |piece|][|piece| - 1] == ts[p + |piece| - 1];
  }

  lemma LiteralPrinted(e: Syntax)
    requires e.LiteralSyntax? && Enough(e)
    ensures Tokens(e) == if e.negated then [Operator(Ir.Minus), e.literal] else [e.literal]
    ensures !IsTerminator(e.literal) && DepthAfter(e.literal, 0) == 0 && !e.literal.Operator?
    ensures !IsTerminator(Operator(Ir.Minus)) && DepthAfter(Operator(Ir.Minus), 0) == 0
  {
  }

  lemma ScanLiteral(e: Syntax, ts: seq<Token>, p: nat, i: nat, length: Option<nat>)
    requires e.LiteralSyntax? && Enough(e) && At(ts, p + i, Tokens(e)) && Inside(length, i + |Tokens(e)|)
      && Fresh(ts, p, i)
    ensures FindOperators(ts, p, i, 0, length) == FindOperators(ts, p, i + |Tokens(e)|, 0, length)
  {
    hide FindOperators, At, Tokens, Enough, IsTerminator, LiteralKindOf, DepthAfter;
    LiteralPrinted(e);
    var piece := Tokens(e);
    AtHead(ts, p + i, piece);
    PlainToken(ts, p, i, length);
    if e.negated {
      AtHead(ts, p + i + 1, piece[1..]);
      PlainToken(ts, p, i + 1, length);
    }
  }

  lemma {:induction false} ScanBracketed(e: Syntax, ts: seq<Token>, p: nat, i: nat, length: Option<nat>)
    requires e.LenSyntax? || e.CallSyntax? || e.LocationSyntax? || e.ParenthesisSyntax?
    requires Enough(e) && At(ts, p + i, Tokens(e)) && Inside(length, i + |Tokens(e)|)
    ensures FindOperators(ts, p, i, 0, length) == FindOperators(ts, p, i + |Tokens(e)|, 0, length)
  {
    hide FindOperators, At, Balanced;
    match e
    case LenSyntax(id) =>
      BalancedToken(Identifier(id));
      assert Tokens(e) == [Len] + ([OpenParenthesis] + [Identifier(id)] + [CloseParenthesis]);
      HeadAndGroup(ts, p, i, length, Len, OpenParenthesis, [Identifier(id)], CloseParenthesis);
    case CallSyntax(id, arguments) =>
      ArgumentsBalanced(arguments);
      assert Tokens(e) == [Identifier(id)] + ([OpenParenthesis] + ArgumentTokens(arguments) + [CloseParenthesis]);
      HeadAndGroup(ts, p, i, length, Identifier(id), OpenParenthesis, ArgumentTokens(arguments), CloseParenthesis);
    case LocationSyntax(id, None) =>
      AtHead(ts, p + i, Tokens(e));
      PlainToken(ts, p, i, length);
    case LocationSyntax(id, Some(index)) =>
      ExpressionBalanced(index);
      assert Tokens(e) == [Identifier(id)] + ([OpenBracket] + Tokens(index) + [CloseBracket]);
      HeadAndGroup(ts, p, i, length, Identifier(id), OpenBracket, Tokens(index), CloseBracket);
    case ParenthesisSyntax(inner) =>
      ExpressionBalanced(inner);
      Group(ts, p, i, length, OpenParenthesis, Tokens(inner), CloseParenthesis);
  }

  lemma HeadAndGroup(ts: seq<Token>, p: nat, i: nat, length: Option<nat>, head: Token, open: Token, a: seq<Token>,
                     close: Token)
    requires head.Identifier? || head == Len
    requires Balanced(a) && (open == OpenParenthesis || open == OpenBracket)
      && (close == CloseParenthesis || close == CloseBracket)
    requires At(ts, p + i, [head] + ([open] + a + [close])) && Inside(length, i + |a| + 3)
    ensures FindOperators(ts, p, i, 0, length) == FindOperators(ts, p, i + |a| + 3, 0, length)
  {
    hide FindOperators, At, Balanced;
    AtParts(ts, p + i, [head], [open] + a + [close]);
    AtHead(ts, p + i, [head]);
    PlainToken(ts, p, i, length);
    assert At(ts, p + (i + 1), [open] + a + [close]);
    Group(ts, p, i + 1, length, open, a, close);
  }

  // ----- choosing the operator -----

  predicate OperatorAt(ts: seq<Token>, p: nat, k: nat) {
    p + k < |ts| && ts[p + k].Operator?
  }

  predicate AllBind(ts: seq<Token>, p: nat, indices: seq<nat>, level: nat) {
    forall j :: 0 <= j < |indices| ==> OperatorAt(ts, p, indices[j]) && Precedence(ts[p + indices[j]].op) >= level
  }

  lemma BindConcat(ts: seq<Token>, p: nat, a: seq<nat>, b: seq<nat>, level: nat)
    requires AllBind(ts, p, a, level) && AllBind(ts, p, b, level)
    ensures AllBind(ts, p, a + b, level)
  {
  }

  lemma BindLess(ts: seq<Token>, p: nat, indices: seq<nat>, level: nat, less: nat)
    requires AllBind(ts, p, indices, level) && less <= level
    ensures AllBind(ts, p, indices, less)
  {
  }

  lemma BindTail(ts: seq<Token>, p: nat, indices: seq<nat>, level: nat)
    requires AllBind(ts, p, indices, level) && indices != []
    ensures AllBind(ts, p, indices[1..], level)
    ensures OperatorAt(ts, p, indices[0]) && Precedence(ts[p + indices[0]].op) >= level
  {
    forall j | 0 <= j < |indices[1..]|
      ensures OperatorAt(ts, p, indices[1..][j]) && Precedence(ts[p + indices[1..][j]].op) >= level
    {
      assert indices[1..][j] == indices[j + 1];
    }
  }

  /** Every operator of an expression outside brackets binds at least at its level. */
  lemma {:induction false} TopBinds(e: Syntax, ts: seq<Token>, p: nat, i: nat)
    requires Enough(e) && At(ts, p + i, Tokens(e))
    ensures AllBind(ts, p, TopOperators(e, i), Level(e))
  {
    if e.BinarySyntax? {
      hide At, AllBind, Tokens, Enough, TopOperators;
      var n, level := |Tokens(e.left)|, Level(e);
      BinaryParts(e, ts, p + i);
      TopOfBinary(e, i);
      assert p + i + n + 1 == p + (i + n + 1);
      TopBinds(e.left, ts, p, i);
      TopBinds(e.right, ts, p, i + n + 1);
      BindLess(ts, p, TopOperators(e.left, i), Level(e.left), level);
      BindLess(ts, p, TopOperators(e.right, i + n + 1), Level(e.right), level);
      BindOne(ts, p, i + n, level);
      BindConcat(ts, p, TopOperators(e.left, i), [i + n], level);
      BindConcat(ts, p, TopOperators(e.left, i) + [i + n], TopOperators(e.right, i + n + 1), level);
    } else {
      hide At, AllBind, Tokens;
      BindNone(ts, p, Level(e));
    }
  }

  lemma BindOne(ts: seq<Token>, p: nat, k: nat, level: nat)
    requires OperatorAt(ts, p, k) && Precedence(ts[p + k].op) >= level
    ensures AllBind(ts, p, [k], level)
  {
  }

  lemma BindNone(ts: seq<Token>, p: nat, level: nat)
    ensures AllBind(ts, p, [], level)
  {
  }

  /** Operators that bind tighter than the best so far, or as tightly but earlier, do not replace it. */
  lemma {:induction false} LowestStays(ts: seq<Token>, p: nat, indices: seq<nat>, best: nat)
    requires OperatorAt(ts, p, best) && AllBind(ts, p, indices, Precedence(ts[p + best].op) + 1)
    requires forall k :: k in indices ==> p + k < |ts| && ts[p + k].Operator?
    ensures Lowest(ts, p, indices, Some(best)) == Some(best)
    decreases |indices|
  {
    if indices != [] {
      BindTail(ts, p, indices, Precedence(ts[p + best].op) + 1);
      LowestStep(ts, p, indices, Some(best));
      hide AllBind, Lowest;
      LowestStays(ts, p, indices[1..], best);
    }
  }

  lemma LowestStep(ts: seq<Token>, p: nat, indices: seq<nat>, best: Option<nat>)
    requires indices != [] && forall k :: k in indices ==> p + k < |ts| && ts[p + k].Operator?
    requires best.Some? ==> OperatorAt(ts, p, best.value)
    ensures forall k :: k in indices[1..] ==> p + k < |ts| && ts[p + k].Operator?
    ensures indices[0] in indices
    ensures var k := indices[0];
      var better := best.None? || Precedence(ts[p + k].op) <= Precedence(ts[p + best.value].op);
      Lowest(ts, p, indices, best) == Lowest(ts, p, indices[1..], if better then Some(k) else best)
  {
    forall k | k in indices[1..] ensures p + k < |ts| && ts[p + k].Operator? { assert k in indices; }
  }

  /** The rightmost operator of lowest precedence is chosen. */
  lemma {:induction false} LowestIs(ts: seq<Token>, p: nat, before: seq<nat>, k: nat, after: seq<nat>,
                                    best: Option<nat>)
    requires OperatorAt(ts, p, k)
    requires AllBind(ts, p, before, Precedence(ts[p + k].op)) && AllBind(ts, p, after, Precedence(ts[p + k].op) + 1)
    requires best.Some? ==>
      OperatorAt(ts, p, best.value) && Precedence(ts[p + best.value].op) >= Precedence(ts[p + k].op)
    requires forall j :: j in before + [k] + after ==> p + j < |ts| && ts[p + j].Operator?
    ensures Lowest(ts, p, before + [k] + after, best) == Some(k)
    decreases |before|
  {
    hide AllBind, Precedence, Lowest;
    var all := before + [k] + after;
    LowestStep(ts, p, all, best);
    if before == [] {
      assert all[0] == k && all[1..] == after;
      assert forall j :: j in after ==> j in all;
      LowestStays(ts, p, after, k);
    } else {
      assert all[0] == before[0] && all[1..] == before[1..] + [k] + after;
      BindTail(ts, p, before, Precedence(ts[p + k].op));
      assert forall j :: j in all[1..] ==> j in all;
      var better := best.None? || Precedence(ts[p + before[0]].op) <= Precedence(ts[p + best.value].op);
      LowestIs(ts, p, before[1..], k, after, if better then Some(before[0]) else best);
    }
  }

  // ----- reading back -----

  /** What may follow an expression: nothing, a terminator, or an operator. */
  predicate Followed(ts: seq<Token>, p: nat) {
    p >= |ts| || IsTerminator(ts[p]) || ts[p].Operator?
  }

  /** A window that ends where the expression ends: by its length, or at a terminator. */
  predicate EndsThere(ts: seq<Token>, p: nat, n: nat, length: Option<nat>) {
    if length.Some? then length.value == n else p + n >= |ts| || IsTerminator(ts[p + n])
  }

  lemma ScanEnds(ts: seq<Token>, p: nat, n: nat, length: Option<nat>)
    requires EndsThere(ts, p, n, length)
    ensures FindOperators(ts, p, n, 0, length) == []
  {
    if length.None? && p + n >= |ts| { PastTheEnd(ts, p, n); }
  }

  lemma {:induction false} PastTheEnd(ts: seq<Token>, p: nat, i: nat)
    requires p + i >= |ts|
    ensures FindOperators(ts, p, i, 0, None) == []
    decreases |ts| - i
  {
    if i < |ts| { PastTheEnd(ts, p, i + 1); }
  }

  /** The operators of the window are those of the expression. */
  lemma WindowOperators(e: Syntax, ts: seq<Token>, p: nat, length: Option<nat>)
    requires Enough(e) && At(ts, p, Tokens(e)) && EndsThere(ts, p, |Tokens(e)|, length)
    ensures FindOperators(ts, p, 0, 0, length) == TopOperators(e, 0)
  {
    hide FindOperators, At;
    assert p + 0 == p;
    ScanTop(e, ts, p, 0, length);
    ScanEnds(ts, p, |Tokens(e)|, length);
  }

  /** A binary expression splits at its own operator. */
  lemma SplitsAtRoot(e: Syntax, ts: seq<Token>, p: nat, length: Option<nat>)
    requires e.BinarySyntax? && Enough(e) && At(ts, p, Tokens(e)) && EndsThere(ts, p, |Tokens(e)|, length)
    ensures var indices := FindOperators(ts, p, 0, 0, length);
      indices != [] && Lowest(ts, p, indices, None) == Some(|Tokens(e.left)|)
  {
    hide At, FindOperators, AllBind, Tokens, Enough, TopOperators, Lowest;
    WindowOperators(e, ts, p, length);
    var l, r, n := e.left, e.right, |Tokens(e.left)|;
    BinaryParts(e, ts, p);
    TopOfBinary(e, 0);
    assert p + 0 == p && p + (n + 1) == p + n + 1;
    TopBinds(l, ts, p, 0);
    TopBinds(r, ts, p, n + 1);
    BindLess(ts, p, TopOperators(l, 0), Level(l), Precedence(e.op));
    BindLess(ts, p, TopOperators(r, n + 1), Level(r), Precedence(e.op) + 1);
    var indices := FindOperators(ts, p, 0, 0, length);
    assert indices == TopOperators(l, 0) + [n] + TopOperators(r, n + 1);
    LowestIs(ts, p, TopOperators(l, 0), n, TopOperators(r, n + 1), None);
  }

  /** `parse_expression_with_length` rebuilds the tree and consumes exactly its tokens. */
  lemma {:induction false} ExpressionReadBack(e: Syntax, ts: seq<Token>, p: nat, length: Option<nat>)
    requires Enough(e) && At(ts, p, Tokens(e)) && EndsThere(ts, p, |Tokens(e)|, length) && Followed(ts, p + |Tokens(e)|)
    ensures p <= |ts| && ParseExpression(ts, p, length) == Some((Tree(e), p + |Tokens(e)|))
    decreases e, 1
  {
    if e.BinarySyntax? {
      BinaryReadBack(e, ts, p, length);
    } else {
      hide FindOperators, At, ParseUnary, Tokens, Enough;
      WindowOperators(e, ts, p, length);
      UnaryReadBack(e, ts, p);
    }
  }

  lemma {:induction false} BinaryReadBack(e: Syntax, ts: seq<Token>, p: nat, length: Option<nat>)
    requires e.BinarySyntax?
    requires Enough(e) && At(ts, p, Tokens(e)) && EndsThere(ts, p, |Tokens(e)|, length) && Followed(ts, p + |Tokens(e)|)
    ensures p <= |ts| && ParseExpression(ts, p, length) == Some((Tree(e), p + |Tokens(e)|))
    decreases e, 0
  {
    hide FindOperators, At, ParseUnary, Lowest, Tokens, Enough;
    var l, r, n := e.left, e.right, |Tokens(e.left)|;
    SplitsAtRoot(e, ts, p, length);
    BinaryParts(e, ts, p);
    ExpressionReadBack(l, ts, p, Some(n));
    var rest := if length.Some? then Some(length.value - (n + 1)) else None;
    ExpressionReadBack(r, ts, p + n + 1, rest);
  }

  lemma {:induction false} UnaryReadBack(e: Syntax, ts: seq<Token>, p: nat)
    requires Enough(e) && !e.BinarySyntax? && At(ts, p, Tokens(e)) && Followed(ts, p + |Tokens(e)|)
    ensures p <= |ts| && ParseUnary(ts, p) == Some((Tree(e), p + |Tokens(e)|))
    decreases e, 0
  {
    hide At, ParseExpression, ParseCall, ParseLocation, ParseUnary, ParseLen, Followed;
    match e
    case NotSyntax(o) => PrefixReadBack(Bang, o, ts, p);
    case NegateSyntax(o) => PrefixReadBack(Operator(Ir.Minus), o, ts, p);
    case LenSyntax(id) => LenReadBack(id, ts, p);
    case LiteralSyntax(negated, t) => LiteralReadBack(negated, t, ts, p);
    case CallSyntax(id, arguments) => CallReadBack(e, ts, p);
    case LocationSyntax(id, index) => LocationReadBack(e, ts, p);
    case ParenthesisSyntax(inner) => ParenthesisReadBack(inner, ts, p);
  }

  lemma {:induction false} PrefixReadBack(sign: Token, o: Syntax, ts: seq<Token>, p: nat)
    requires Enough(o) && !o.BinarySyntax? && At(ts, p, [sign] + Tokens(o)) && Followed(ts, p + 1 + |Tokens(o)|)
    requires sign == Bang || (sign == Operator(Ir.Minus) && !(o.LiteralSyntax? && !o.negated && IsNumeral(o.literal)))
    ensures p <= |ts| && ParseUnary(ts, p)
      == Some((Inner(ExpressionNode, [Inner(if sign == Bang then NotNode else NegateNode, [Tree(o)])]),
        p + 1 + |Tokens(o)|))
    decreases o, 1
  {
    hide At, Tokens, Enough, Followed, ParseExpression, ParseCall, ParseLocation, ParseLen;
    AtParts(ts, p, [sign], Tokens(o));
    AtHead(ts, p, [sign]);
    LiteralTokens(Peek(ts, p + 1));
    if sign != Bang { FirstToken(o, ts, p + 1); }
    UnaryReadBack(o, ts, p + 1);
  }

  lemma {:induction false} ParenthesisReadBack(inner: Syntax, ts: seq<Token>, p: nat)
    requires Enough(inner) && At(ts, p, [OpenParenthesis] + Tokens(inner) + [CloseParenthesis])
    ensures p <= |ts| && ParseUnary(ts, p) == Some((Tree(inner), p + |Tokens(inner)| + 2))
    decreases inner, 2
  {
    hide At, Tokens, Enough, ParseExpression, ParseCall, ParseLocation, ParseLen;
    Bracketed(ts, p, 0, OpenParenthesis, Tokens(inner), CloseParenthesis);
    ExpressionReadBack(inner, ts, p + 1, None);
  }

  lemma LiteralReadBack(negated: bool, t: Token, ts: seq<Token>, p: nat)
    requires IsLiteral(t) && (negated ==> IsNumeral(t))
    requires At(ts, p, if negated then [Operator(Ir.Minus), t] else [t])
    ensures p <= |ts| && ParseUnary(ts, p)
      == Some((Inner(ExpressionNode, [LiteralTree(negated, t)]), p + if negated then 2 else 1))
  {
    LiteralTokens(t);
    LiteralTokens(Peek(ts, p + 1));
    hide At, ParseExpression, ParseCall, ParseLocation, ParseLen, LiteralTree;
    var piece := if negated then [Operator(Ir.Minus), t] else [t];
    AtHead(ts, p, piece);
    if negated { AtHead(ts, p + 1, piece[1..]); }
    LiteralTreeIs(negated, t);
  }

  lemma LiteralTreeIs(negated: bool, t: Token)
    requires IsLiteral(t) && (negated ==> IsNumeral(t))
    ensures LiteralTree(negated, t) == Inner(LiteralNode,
      if negated then [Leaf(LiteralNegation, Operator(Ir.Minus)), Leaf(IntLiteralNode, t)]
        else [Leaf(LiteralLeaf(t), t)])
  {
    assert [] + [Leaf(LiteralLeaf(t), t)] == [Leaf(LiteralLeaf(t), t)];
  }

  /** Only a plain number starts with a number. */
  lemma FirstToken(e: Syntax, ts: seq<Token>, p: nat)
    requires Enough(e) && !e.BinarySyntax? && At(ts, p, Tokens(e))
    requires !(e.LiteralSyntax? && !e.negated && IsNumeral(e.literal))
    ensures p < |ts| && !IsNumeral(ts[p])
  {
    AtHead(ts, p, Tokens(e));
  }

  lemma LenReadBack(id: string, ts: seq<Token>, p: nat)
    requires At(ts, p, [Len, OpenParenthesis, Identifier(id), CloseParenthesis])
    ensures p < |ts| && ParseUnary(ts, p)
      == Some((Inner(ExpressionNode, [Inner(LenNode, [Leaf(IdentifierNode, Identifier(id))])]), p + 4))
  {
    hide At, ParseExpression, ParseCall, ParseLocation;
    var piece := [Len, OpenParenthesis, Identifier(id), CloseParenthesis];
    AtHead(ts, p, piece);
    AtHead(ts, p + 1, piece[1..]);
    AtHead(ts, p + 2, piece[1..][1..]);
    AtHead(ts, p + 3, piece[1..][1..][1..]);
  }

  lemma {:induction false} LocationReadBack(e: Syntax, ts: seq<Token>, p: nat)
    requires e.LocationSyntax? && Enough(e) && At(ts, p, Tokens(e)) && Followed(ts, p + |Tokens(e)|)
    ensures p < |ts| && ParseUnary(ts, p) == Some((Tree(e), p + |Tokens(e)|))
    decreases e, 0, 0
  {
    if e.index.Some? {
      IndexedReadBack(e.array_, e.index.value, ts, p);
    } else {
      hide ParseExpression, ParseCall, ParseLen, At;
      AtHead(ts, p, Tokens(e));
    }
  }

  lemma {:induction false} IndexedReadBack(name: string, index: Syntax, ts: seq<Token>, p: nat)
    requires Enough(index) && At(ts, p, [Identifier(name), OpenBracket] + Tokens(index) + [CloseBracket])
    ensures p < |ts| && ParseUnary(ts, p)
      == Some((Inner(ExpressionNode,
        [Inner(LocationNode, [Leaf(IdentifierNode, Identifier(name)), Inner(LocationIndex, [Tree(index)])])]),
               p + |Tokens(index)| + 3))
    decreases index, 2
  {
    hide At, ParseExpression, ParseCall, ParseLen, Enough, Tokens, Tree;
    assert [Identifier(name), OpenBracket] + Tokens(index) + [CloseBracket]
      == [Identifier(name)] + ([OpenBracket] + Tokens(index) + [CloseBracket]);
    AtParts(ts, p, [Identifier(name)], [OpenBracket] + Tokens(index) + [CloseBracket]);
    AtHead(ts, p, [Identifier(name)]);
    Bracketed(ts, p, 1, OpenBracket, Tokens(index), CloseBracket);
    ExpressionReadBack(index, ts, p + 2, None);
  }

  lemma {:induction false} CallReadBack(e: Syntax, ts: seq<Token>, p: nat)
    requires e.CallSyntax? && Enough(e) && At(ts, p, Tokens(e))
    ensures p < |ts| && ParseUnary(ts, p) == Some((Tree(e), p + |Tokens(e)|))
    decreases e, 0, 0
  {
    hide At, ParseArguments, ParseLocation, ParseLen, ParseExpression, ArgumentTokens, ArgumentTrees, EnoughAll;
    var inner := ArgumentTokens(e.arguments);
    assert Tokens(e) == [Identifier(e.callee)] + ([OpenParenthesis] + inner + [CloseParenthesis]);
    AtParts(ts, p, [Identifier(e.callee)], [OpenParenthesis] + inner + [CloseParenthesis]);
    AtHead(ts, p, [Identifier(e.callee)]);
    Bracketed(ts, p, 1, OpenParenthesis, inner, CloseParenthesis);
    if e.arguments != [] {
      ArgumentsReadBack(e.arguments, ts, p + 2);
      FirstOfArguments(e.arguments, ts, p + 2);
    } else {
      var identifier := Leaf(IdentifierNode, Identifier(e.callee));
      NoArguments();
      assert [identifier] + ArgumentTrees([]) + [Inner(CallEnd, [])] == [identifier, Inner(CallEnd, [])];
    }
  }

  lemma NoArguments()
    ensures ArgumentTokens([]) == [] && ArgumentTrees([]) == []
  {
  }

  /** An argument does not start with a closing parenthesis. */
  lemma {:induction false} FirstOfArguments(arguments: seq<ArgumentSyntax>, ts: seq<Token>, p: nat)
    requires arguments != [] && EnoughAll(arguments) && At(ts, p, ArgumentTokens(arguments))
    ensures p < |ts| && ts[p] != CloseParenthesis
  {
    var first := OneArgumentTokens(arguments[0]);
    assert ArgumentTokens(arguments)[0] == first[0];
    AtHead(ts, p, ArgumentTokens(arguments));
    if arguments[0].ValueSyntax? { StartsOpen(arguments[0].value); }
  }

  lemma {:induction false} StartsOpen(e: Syntax)
    requires Enough(e)
    ensures Tokens(e)[0] != CloseParenthesis && !Tokens(e)[0].StringToken?
    decreases e
  {
    if e.BinarySyntax? { StartsOpen(e.left); }
  }

  lemma {:induction false} ArgumentsReadBack(arguments: seq<ArgumentSyntax>, ts: seq<Token>, p: nat)
    requires arguments != [] && EnoughAll(arguments) && At(ts, p, ArgumentTokens(arguments))
    requires p + |ArgumentTokens(arguments)| < |ts| && ts[p + |ArgumentTokens(arguments)|] == CloseParenthesis
    ensures ParseArguments(ts, p) == Some((ArgumentTrees(arguments), p + |ArgumentTokens(arguments)| + 1))
    decreases arguments
  {
    hide At, ParseArgument, OneArgumentTokens, ArgumentTree, EnoughArgument;
    var first := OneArgumentTokens(arguments[0]);
    if |arguments| == 1 {
      assert ArgumentTrees(arguments) == [ArgumentTree(arguments[0])] by { assert arguments[1..] == []; }
      ArgumentReadBack(arguments[0], ts, p);
    } else {
      var rest := ArgumentTokens(arguments[1..]);
      AtParts(ts, p, first + [Comma], rest);
      AtParts(ts, p, first, [Comma]);
      AtHead(ts, p + |first|, [Comma]);
      ArgumentReadBack(arguments[0], ts, p);
      ArgumentsReadBack(arguments[1..], ts, p + |first| + 1);
    }
  }

  lemma {:induction false} ArgumentReadBack(a: ArgumentSyntax, ts: seq<Token>, p: nat)
    requires EnoughArgument(a) && At(ts, p, OneArgumentTokens(a))
    requires p + |OneArgumentTokens(a)| < |ts| && IsTerminator(ts[p + |OneArgumentTokens(a)|])
    ensures ParseArgument(ts, p) == Some((ArgumentTree(a), p + |OneArgumentTokens(a)|))
    decreases a
  {
    hide At, ParseExpression;
    AtHead(ts, p, OneArgumentTokens(a));
    match a
    case StringSyntax(_) =>
    case ValueSyntax(e) =>
      StartsOpen(e);
      ExpressionReadBack(e, ts, p, None);
  }

  lemma Surrounded(before: seq<Token>, piece: seq<Token>, after: seq<Token>)
    ensures var ts := before + piece + after;
      && At(ts, |before|, piece) && |ts| == |before| + |piece| + |after|
      && (after != [] ==> ts[|before| + |piece|] == after[0])
  {
    var ts := before + piece + after;
    assert ts[|before|..|before| + |piece|] == piece;
  }

  /** Parsing inverts printing: an expression written with enough parentheses and followed by a
      terminator is read back as its tree, and exactly its tokens are consumed. */
  lemma ParsingInvertsPrinting(e: Syntax, before: seq<Token>, after: seq<Token>)
    requires Enough(e) && (after == [] || after[0] in {CloseParenthesis, CloseBracket, Semicolon, Comma})
    ensures ParseExpression(before + Tokens(e) + after, |before|, None) == Some((Tree(e), |before| + |Tokens(e)|))
  {
    hide Tokens, Enough, ParseExpression, At;
    Surrounded(before, Tokens(e), after);
    ExpressionReadBack(e, before + Tokens(e) + after, |before|, None);
  }

  predicate ReadAs(before: seq<Token>, piece: seq<Token>, after: seq<Token>, e: Syntax) {
    ParseExpression(before + piece + after, |before|, None) == Some((Tree(e), |before| + |piece|))
  }

  /** Two operators without parentheses: the one of the tighter layer takes its operands first, on either side, and
      within one layer the left one does. */
  lemma TwoOperators(o: Ir.BinaryOperator, o': Ir.BinaryOperator, a: Syntax, b: Syntax, c: Syntax, before: seq<Token>,
                     after: seq<Token>)
    requires Enough(a) && Enough(b) && Enough(c) && !a.BinarySyntax? && !b.BinarySyntax? && !c.BinarySyntax?
    requires after == [] || after[0] in {CloseParenthesis, CloseBracket, Semicolon, Comma}
    ensures var first := Tokens(a) + [Operator(o)] + Tokens(b) + [Operator(o')] + Tokens(c);
      var second := Tokens(a) + [Operator(o')] + Tokens(b) + [Operator(o)] + Tokens(c);
      && (Layer(o) < Layer(o') ==>
            && ReadAs(before, first, after, BinarySyntax(o, a, BinarySyntax(o', b, c)))
            && ReadAs(before, second, after, BinarySyntax(o, BinarySyntax(o', a, b), c)))
      && (Layer(o) == Layer(o') ==> ReadAs(before, first, after, BinarySyntax(o', BinarySyntax(o, a, b), c)))
  {
    hide ParseExpression, Tree, Layer, Tokens, Enough;
    EnoughNested(o, o', a, b, c);
    EnoughNested(o', o, a, b, c);
    if Layer(o) < Layer(o') {
      ParsingInvertsPrinting(BinarySyntax(o, a, BinarySyntax(o', b, c)), before, after);
      ParsingInvertsPrinting(BinarySyntax(o, BinarySyntax(o', a, b), c), before, after);
    }
    if Layer(o) == Layer(o') {
      ParsingInvertsPrinting(BinarySyntax(o', BinarySyntax(o, a, b), c), before, after);
    }
  }

  lemma EnoughNested(o: Ir.BinaryOperator, o': Ir.BinaryOperator, a: Syntax, b: Syntax, c: Syntax)
    requires Enough(a) && Enough(b) && Enough(c) && !a.BinarySyntax? && !b.BinarySyntax? && !c.BinarySyntax?
    ensures var left, right := BinarySyntax(o', BinarySyntax(o, a, b), c), BinarySyntax(o, a, BinarySyntax(o', b, c));
      && Tokens(left) == Tokens(a) + [Operator(o)] + Tokens(b) + [Operator(o')] + Tokens(c)
      && Tokens(right) == Tokens(a) + [Operator(o)] + Tokens(b) + [Operator(o')] + Tokens(c)
      && (Enough(left) <==> Layer(o) >= Layer(o')) && (Enough(right) <==> Layer(o) < Layer(o'))
  {
    hide Layer;
    NestedTokens(Tokens(a), Operator(o), Tokens(b), Operator(o'), Tokens(c));
  }

  lemma NestedTokens(a: seq<Token>, o: Token, b: seq<Token>, o': Token, c: seq<Token>)
    ensures a + [o] + (b + [o'] + c) == a + [o] + b + [o'] + c
  {
  }

  // ----- every tree can be written -----

  /** Parentheses around what binds less tightly than it must. */
  function Wrapped(e: Syntax, level: nat): Syntax {
    if Level(e) >= level then e else ParenthesisSyntax(e)
  }

  /** The expression with parentheses put where they are needed. */
  function Parenthesized(e: Syntax): Syntax
    decreases e
  {
    match e
    case BinarySyntax(op, l, r) =>
      BinarySyntax(op, Wrapped(Parenthesized(l), Layer(op)), Wrapped(Parenthesized(r), Layer(op) + 1))
    case NotSyntax(o) => NotSyntax(Wrapped(Parenthesized(o), 6))
    case NegateSyntax(o) =>
      var p := Parenthesized(o);
      NegateSyntax(if p.LiteralSyntax? && !p.negated && IsNumeral(p.literal) then ParenthesisSyntax(p)
        else Wrapped(p, 6))
    case CallSyntax(id, arguments) => CallSyntax(id, ParenthesizedAll(arguments))
    case LocationSyntax(id, Some(index)) => LocationSyntax(id, Some(Parenthesized(index)))
    case ParenthesisSyntax(inner) => ParenthesisSyntax(Parenthesized(inner))
    case _ => e
  }

  function ParenthesizedAll(arguments: seq<ArgumentSyntax>): seq<ArgumentSyntax>
    decreases arguments
  {
    if arguments == [] then [] else [ParenthesizedArgument(arguments[0])] + ParenthesizedAll(arguments[1..])
  }

  function ParenthesizedArgument(a: ArgumentSyntax): ArgumentSyntax
    decreases a
  {
    match a
    case StringSyntax(_) => a
    case ValueSyntax(e) => ValueSyntax(Parenthesized(e))
  }

  /** Every literal is one, and only numbers carry a sign of their own. */
  predicate Literals(e: Syntax)
    decreases e
  {
    match e
    case BinarySyntax(_, l, r) => Literals(l) && Literals(r)
    case NotSyntax(o) => Literals(o)
    case NegateSyntax(o) => Literals(o)
    case LenSyntax(_) => true
    case LiteralSyntax(negated, t) => IsLiteral(t) && (negated ==> IsNumeral(t))
    case CallSyntax(_, arguments) => AllLiterals(arguments)
    case LocationSyntax(_, index) => index.Some? ==> Literals(index.value)
    case ParenthesisSyntax(inner) => Literals(inner)
  }

  predicate AllLiterals(arguments: seq<ArgumentSyntax>)
    decreases arguments
  {
    arguments == [] || (ArgumentLiterals(arguments[0]) && AllLiterals(arguments[1..]))
  }

  predicate ArgumentLiterals(a: ArgumentSyntax)
    decreases a
  {
    a.ValueSyntax? ==> Literals(a.value)
  }

  /** Any tree can be written with enough parentheses. */
  lemma {:induction false} EveryTreeIsWritten(e: Syntax)
    requires Literals(e)
    ensures Enough(Parenthesized(e)) && Tree(Parenthesized(e)) == Tree(e)
    decreases e
  {
    match e
    case BinarySyntax(op, l, r) =>
      EveryTreeIsWritten(l);
      EveryTreeIsWritten(r);
    case NotSyntax(o) => EveryTreeIsWritten(o);
    case NegateSyntax(o) => EveryTreeIsWritten(o);
    case CallSyntax(_, arguments) => EveryArgumentIsWritten(arguments);
    case LocationSyntax(_, Some(index)) => EveryTreeIsWritten(index);
    case ParenthesisSyntax(inner) => EveryTreeIsWritten(inner);
    case _ =>
  }

  lemma {:induction false} EveryArgumentIsWritten(arguments: seq<ArgumentSyntax>)
    requires AllLiterals(arguments)
    ensures EnoughAll(ParenthesizedAll(arguments)) && ArgumentTrees(ParenthesizedAll(arguments))
      == ArgumentTrees(arguments)
    decreases arguments
  {
    if arguments != [] {
      OneArgumentIsWritten(arguments[0]);
      EveryArgumentIsWritten(arguments[1..]);
      assert ParenthesizedAll(arguments)[1..] == ParenthesizedAll(arguments[1..]);
    }
  }

  lemma {:induction false} OneArgumentIsWritten(a: ArgumentSyntax)
    requires ArgumentLiterals(a)
    ensures EnoughArgument(ParenthesizedArgument(a)) && ArgumentTree(ParenthesizedArgument(a)) == ArgumentTree(a)
    decreases a
  {
    if a.ValueSyntax? { EveryTreeIsWritten(a.value); }
  }
}
