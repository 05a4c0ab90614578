/** The parser reads nothing but written expressions: whatever it makes a tree of was written with enough
    parentheses, and the tree is the one that is meant. */
module ParserSoundness {
  import opened Words
  import opened Ast
  import opened ExpressionParser
  import opened ExpressionSyntax

  /** `e` is written from `p` up to `q`, and `n` is its tree. */
  ghost predicate Writes(e: Syntax, ts: seq<Token>, p: nat, n: Node, q: nat) {
    Enough(e) && At(ts, p, Tokens(e)) && q == p + |Tokens(e)| && n == Tree(e)
  }

  lemma AtJoin(ts: seq<Token>, p: nat, first: seq<Token>, second: seq<Token>)
    requires At(ts, p, first) && At(ts, p + |first|, second)
    ensures At(ts, p, first + second)
  {
    assert ts[p..p + |first + second|] == ts[p..p + |first|] + ts[p + |first|..p + |first| + |second|];
  }

  lemma AtOne(ts: seq<Token>, p: nat)
    requires p < |ts|
    ensures At(ts, p, [ts[p]])
  {
  }

  /** Brackets around what stands between them. */
  lemma AtBracketed(ts: seq<Token>, p: nat, piece: seq<Token>)
    requires p + 1 + |piece| < |ts| && At(ts, p + 1, piece)
    ensures At(ts, p, [ts[p]] + piece + [ts[p + 1 + |piece|]])
  {
    AtOne(ts, p);
    AtJoin(ts, p, [ts[p]], piece);
    AtOne(ts, p + 1 + |piece|);
    AtJoin(ts, p, [ts[p]] + piece, [ts[p + 1 + |piece|]]);
  }

  // ----- binary expressions -----

  /** The outermost operator is among the operators outside brackets. */
  lemma RootOperator(e: Syntax, ts: seq<Token>, p: nat, i: nat)
    requires e.BinarySyntax? && Enough(e) && At(ts, p + i, Tokens(e))
    ensures var k := i + |Tokens(e.left)|;
      k in TopOperators(e, i) && p + k < |ts| && ts[p + k] == Operator(e.op)
  {
    hide At, Enough, Tokens;
    BinaryParts(e, ts, p + i);
    TopOfBinary(e, i);
  }

  /** The operators of the window are those of the left side, the one between, and those of the right side. */
  lemma WindowSplit(l: Syntax, r: Syntax, ts: seq<Token>, p: nat, k: nat, length: Option<nat>) returns (tail: seq<nat>)
    requires Enough(l) && At(ts, p, Tokens(l)) && |Tokens(l)| == k && p + k < |ts| && ts[p + k].Operator?
    requires Enough(r) && At(ts, p + k + 1, Tokens(r)) && Inside(length, k + 1 + |Tokens(r)|)
    ensures FindOperators(ts, p, 0, 0, length) == TopOperators(l, 0) + [k] + (TopOperators(r, k + 1) + tail)
    ensures var after := TopOperators(r, k + 1) + tail;
      forall i :: 0 <= i < |after| ==> after[i] > k
  {
    hide At, Enough, Tokens, TopOperators, FindOperators;
    assert p + 0 == p && p + (k + 1) == p + k + 1;
    ScanTop(l, ts, p, 0, length);
    AtLast(ts, p, Tokens(l));
    LastToken(l);
    MinusIsBinary(ts, p, k);
    OperatorToken(ts, p, k, length);
    AfterOperator(ts, p, k + 1);
    ScanTop(r, ts, p, k + 1, length);
    tail := FindOperators(ts, p, k + 1 + |Tokens(r)|, 0, length);
    var after := FindOperators(ts, p, k + 1, 0, length);
    forall i | 0 <= i < |after| ensures after[i] > k { assert after[i] in after; }
  }

  /** An operator outside the brackets of an expression stands in the window. */
  lemma SideBinds(e: Syntax, ts: seq<Token>, p: nat, i: nat, indices: seq<nat>, at: nat, j: nat)
    requires Enough(e) && At(ts, p + i, Tokens(e))
    requires AreOperators(ts, p, indices) && j < |indices| && RightmostLowest(ts, p, indices, j)
    requires at + |TopOperators(e, i)| <= |indices| && indices[at..at + |TopOperators(e, i)|] == TopOperators(e, i)
    ensures e.BinarySyntax? ==> Layer(e.op) >= Layer(ts[p + indices[j]].op)
    ensures e.BinarySyntax? && j < at ==> Layer(e.op) > Layer(ts[p + indices[j]].op)
  {
    hide At, Enough, Tokens, TopOperators, FindOperators, Layer, Precedence;
    if e.BinarySyntax? {
      RootOperator(e, ts, p, i);
      PrecedenceIsLayer(e.op);
      PrecedenceIsLayer(ts[p + indices[j]].op);
      var top := TopOperators(e, i);
      var n :| 0 <= n < |top| && top[n] == i + |Tokens(e.left)|;
      assert indices[at..at + |top|][n] == indices[at + n];
    }
  }

  /** Both sides bind tightly enough, because the parser split at the rightmost operator of the loosest layer. */
  lemma SidesBind(l: Syntax, r: Syntax, ts: seq<Token>, p: nat, k: nat, indices: seq<nat>, tail: seq<nat>, j: nat)
    requires Enough(l) && At(ts, p + 0, Tokens(l)) && Enough(r) && At(ts, p + (k + 1), Tokens(r))
    requires indices == TopOperators(l, 0) + [k] + (TopOperators(r, k + 1) + tail)
    requires var after := TopOperators(r, k + 1) + tail; forall i :: 0 <= i < |after| ==> after[i] > k
    requires AreOperators(ts, p, indices) && j < |indices| && indices[j] == k && RightmostLowest(ts, p, indices, j)
    ensures Level(l) >= Layer(ts[p + k].op) && Level(r) > Layer(ts[p + k].op)
  {
    hide At, Enough, Tokens, TopOperators, Layer, AreOperators, RightmostLowest;
    SplitAt(TopOperators(l, 0), k, TopOperators(r, k + 1), tail, j);
    RightmostIsHere(ts, p, indices, |TopOperators(l, 0)|, j);
    SideBinds(l, ts, p, 0, indices, 0, j);
    SideBinds(r, ts, p, k + 1, indices, |TopOperators(l, 0)| + 1, j);
  }

  lemma SplitAt(left: seq<nat>, k: nat, right: seq<nat>, tail: seq<nat>, j: nat)
    requires var after := right + tail; forall i :: 0 <= i < |after| ==> after[i] > k
    requires var all := left + [k] + (right + tail); j < |all| && all[j] == k
    ensures var all := left + [k] + (right + tail);
      && all[0..0 + |left|] == left && all[|left|] == k && j <= |left|
      && all[|left| + 1..|left| + 1 + |right|] == right
  {
  }

  /** Of two places that hold the same operator, the rightmost lowest is not the first. */
  lemma RightmostIsHere(ts: seq<Token>, p: nat, indices: seq<nat>, a: nat, j: nat)
    requires AreOperators(ts, p, indices) && j <= a < |indices| && indices[a] == indices[j]
    requires RightmostLowest(ts, p, indices, j)
    ensures j == a
  {
    hide Precedence;
  }

  /** What `parse_expression_with_length` makes a tree of, if it stops where its window does. */
  lemma {:induction false} ExpressionIsWritten(ts: seq<Token>, p: nat, length: Option<nat>) returns (e: Syntax)
    requires p <= |ts| && ParseExpression(ts, p, length).Some?
    requires length.Some? ==> ParseExpression(ts, p, length).value.1 == p + length.value
    ensures Writes(e, ts, p, ParseExpression(ts, p, length).value.0, ParseExpression(ts, p, length).value.1)
    decreases |ts| - p, Window(ts, p, length), 2
  {
    hide Writes, FindOperators, Lowest, RightmostLowest, Precedence, ParseUnary;
    var indices := FindOperators(ts, p, 0, 0, length);
    if indices == [] {
      e := UnaryIsWritten(ts, p);
    } else {
      var j := LowestIsRightmost(ts, p, indices);
      var k := indices[j];
      assert k in indices;
      var l := ExpressionIsWritten(ts, p, Some(k));
      var rest := if length.Some? then Some(length.value - (k + 1)) else None;
      var r := ExpressionIsWritten(ts, p + k + 1, rest);
      var left, right := ParseExpression(ts, p, Some(k)).value.0, ParseExpression(ts, p + k + 1, rest).value;
      e := BinaryIsWritten(l, r, ts, p, length, indices, j, left, right.0, right.1);
    }
  }

  /** The two sides of the operator chosen, put together. */
  lemma BinaryIsWritten(l: Syntax, r: Syntax, ts: seq<Token>, p: nat, length: Option<nat>, indices: seq<nat>, j: nat,
                        left: Node, right: Node, end: nat) returns (e: Syntax)
    requires indices == FindOperators(ts, p, 0, 0, length) && AreOperators(ts, p, indices) && j < |indices|
    requires RightmostLowest(ts, p, indices, j)
    requires var k := indices[j]; Writes(l, ts, p, left, p + k) && Writes(r, ts, p + k + 1, right, end)
    requires length.Some? ==> end <= p + length.value
    ensures Writes(e, ts, p, Inner(ExpressionNode, [Inner(BinaryNode,
      [left, Leaf(BinaryOperatorNode, ts[p + indices[j]]), right])]), end)
  {
    hide At, Enough, Tokens, FindOperators, RightmostLowest, Layer, TopOperators, Level;
    var k := indices[j];
    var tail := WindowSplit(l, r, ts, p, k, length);
    assert p + 0 == p && p + (k + 1) == p + k + 1;
    SidesBind(l, r, ts, p, k, indices, tail, j);
    e := BinarySyntax(ts[p + k].op, l, r);
    BinaryWritten(e, ts, p);
  }

  lemma BinaryEnough(e: Syntax)
    requires e.BinarySyntax? && Enough(e.left) && Enough(e.right)
    requires Level(e.left) >= Layer(e.op) && Level(e.right) > Layer(e.op)
    ensures Enough(e) && Tokens(e) == Tokens(e.left) + [Operator(e.op)] + Tokens(e.right)
  {
  }

  lemma BinaryWritten(e: Syntax, ts: seq<Token>, p: nat)
    requires e.BinarySyntax? && Enough(e.left) && Enough(e.right)
    requires Level(e.left) >= Layer(e.op) && Level(e.right) > Layer(e.op)
    requires var n := |Tokens(e.left)|;
      At(ts, p, Tokens(e.left)) && p + n < |ts| && ts[p + n] == Operator(e.op) && At(ts, p + n + 1, Tokens(e.right))
    ensures Enough(e) && At(ts, p, Tokens(e)) && |Tokens(e)| == |Tokens(e.left)| + 1 + |Tokens(e.right)|
  {
    hide At, Layer, Tokens, Enough, Level;
    var l, r := Tokens(e.left), Tokens(e.right);
    BinaryEnough(e);
    AtOne(ts, p + |l|);
    AtJoin(ts, p, l, [Operator(e.op)]);
    AtJoin(ts, p, l + [Operator(e.op)], r);
  }

  // ----- unary expressions -----

  lemma {:induction false} UnaryIsWritten(ts: seq<Token>, p: nat) returns (e: Syntax)
    requires p <= |ts| && ParseUnary(ts, p).Some?
    ensures Writes(e, ts, p, ParseUnary(ts, p).value.0, ParseUnary(ts, p).value.1) && !e.BinarySyntax?
    decreases |ts| - p, 0, 1
  {
    hide Writes, ParseExpression, ParseCall, ParseLocation, ParseLen;
    match Peek(ts, p)
    case Len => e := LenIsWritten(ts, p);
    case Bang => e := PrefixIsWritten(ts, p);
    case Operator(_) =>
      if IsNumber(Peek(ts, p + 1)) { e := LiteralIsWritten(ts, p); } else { e := PrefixIsWritten(ts, p); }
    case OpenParenthesis => e := ParenthesisIsWritten(ts, p);
    case Identifier(_) =>
      if Peek(ts, p + 1) == OpenParenthesis { e := CallIsWritten(ts, p); } else { e := LocationIsWritten(ts, p); }
    case _ => e := LiteralIsWritten(ts, p);
  }

  lemma LenIsWritten(ts: seq<Token>, p: nat) returns (e: Syntax)
    requires p < |ts| && ts[p] == Len && ParseUnary(ts, p).Some?
    ensures Writes(e, ts, p, ParseUnary(ts, p).value.0, ParseUnary(ts, p).value.1) && e.LenSyntax?
  {
    hide ParseExpression, ParseCall, ParseLocation;
    e := LenSyntax(ts[p + 2].name);
    assert ts[p..p + 4] == [ts[p], ts[p + 1], ts[p + 2], ts[p + 3]];
  }

  lemma LiteralIsWritten(ts: seq<Token>, p: nat) returns (e: Syntax)
    requires p < |ts| && ParseUnary(ts, p).Some?
    requires (ts[p].Operator? && IsNumber(Peek(ts, p + 1))) || LiteralKindOf(ts[p]).Some?
    ensures Writes(e, ts, p, ParseUnary(ts, p).value.0, ParseUnary(ts, p).value.1) && e.LiteralSyntax?
  {
    hide ParseExpression, ParseCall, ParseLocation, ParseLen, LiteralTree;
    LiteralTokens(ts[p]);
    LiteralTokens(Peek(ts, p + 1));
    if ts[p].Operator? {
      e := LiteralSyntax(true, ts[p + 1]);
      assert ts[p..p + 2] == [ts[p], ts[p + 1]];
    } else {
      e := LiteralSyntax(false, ts[p]);
    }
    LiteralTreeIs(e.negated, e.literal);
  }

  /** A number after a minus belongs to it. */
  lemma NotANumber(o: Syntax, ts: seq<Token>, p: nat)
    requires Enough(o) && At(ts, p, Tokens(o)) && !IsNumber(Peek(ts, p))
    ensures !(o.LiteralSyntax? && !o.negated && IsNumeral(o.literal))
  {
    AtHead(ts, p, Tokens(o));
    LiteralTokens(ts[p]);
  }

  lemma {:induction false} PrefixIsWritten(ts: seq<Token>, p: nat) returns (e: Syntax)
    requires p < |ts| && ParseUnary(ts, p).Some?
    requires ts[p] == Bang || (ts[p].Operator? && !IsNumber(Peek(ts, p + 1)))
    ensures Writes(e, ts, p, ParseUnary(ts, p).value.0, ParseUnary(ts, p).value.1) && !e.BinarySyntax?
    decreases |ts| - p, 0, 0
  {
    hide At, ParseExpression, ParseCall, ParseLocation, ParseLen;
    var o := UnaryIsWritten(ts, p + 1);
    AtOne(ts, p);
    AtJoin(ts, p, [ts[p]], Tokens(o));
    if ts[p] == Bang {
      e := NotSyntax(o);
    } else {
      NotANumber(o, ts, p + 1);
      e := NegateSyntax(o);
    }
    hide Tree, Enough, Tokens;
  }

  lemma {:induction false} ParenthesisIsWritten(ts: seq<Token>, p: nat) returns (e: Syntax)
    requires p < |ts| && ts[p] == OpenParenthesis && ParseUnary(ts, p).Some?
    ensures Writes(e, ts, p, ParseUnary(ts, p).value.0, ParseUnary(ts, p).value.1) && e.ParenthesisSyntax?
    decreases |ts| - p, 0, 0
  {
    hide At, ParseExpression, ParseCall, ParseLocation, ParseLen;
    var inner := ExpressionIsWritten(ts, p + 1, None);
    AtBracketed(ts, p, Tokens(inner));
    e := ParenthesisSyntax(inner);
  }

  lemma {:induction false} LocationIsWritten(ts: seq<Token>, p: nat) returns (e: Syntax)
    requires p < |ts| && ts[p].Identifier? && Peek(ts, p + 1) != OpenParenthesis && ParseUnary(ts, p).Some?
    ensures Writes(e, ts, p, ParseUnary(ts, p).value.0, ParseUnary(ts, p).value.1) && e.LocationSyntax?
    decreases |ts| - p, 0, 0
  {
    hide ParseExpression, ParseCall, ParseLen;
    var id := ts[p].name;
    if Peek(ts, p + 1) != OpenBracket {
      e := LocationSyntax(id, None);
    } else {
      var index := ExpressionIsWritten(ts, p + 2, None);
      hide At;
      AtBracketed(ts, p + 1, Tokens(index));
      AtOne(ts, p);
      AtJoin(ts, p, [ts[p]], [OpenBracket] + Tokens(index) + [CloseBracket]);
      e := LocationSyntax(id, Some(index));
      assert Tokens(e) == [Identifier(id)] + ([OpenBracket] + Tokens(index) + [CloseBracket]);
    }
  }

  lemma {:induction false} CallIsWritten(ts: seq<Token>, p: nat) returns (e: Syntax)
    requires p + 1 < |ts| && ts[p].Identifier? && ts[p + 1] == OpenParenthesis && ParseUnary(ts, p).Some?
    ensures Writes(e, ts, p, ParseUnary(ts, p).value.0, ParseUnary(ts, p).value.1) && e.CallSyntax?
    decreases |ts| - p, 0, 0
  {
    hide ParseExpression, ParseArguments, ParseLocation, ParseLen, Writes, ArgumentTokens, ArgumentTrees, EnoughAll, At;
    if Peek(ts, p + 2) == CloseParenthesis {
      EmptyCallWritten(ts, p);
      e := CallSyntax(ts[p].name, []);
    } else {
      var arguments := ArgumentsAreWritten(ts, p + 2);
      CallWritten(ts, p, arguments);
      e := CallSyntax(ts[p].name, arguments);
    }
  }

  lemma EmptyCallWritten(ts: seq<Token>, p: nat)
    requires p + 2 < |ts| && ts[p].Identifier? && ts[p + 1] == OpenParenthesis && ts[p + 2] == CloseParenthesis
    ensures Writes(CallSyntax(ts[p].name, []), ts, p,
      Inner(ExpressionNode, [Inner(CallNode, [Leaf(IdentifierNode, ts[p]), Inner(CallEnd, [])])]), p + 3)
  {
    assert ts[p..p + 3] == [ts[p], ts[p + 1], ts[p + 2]];
    assert [Leaf(IdentifierNode, ts[p])] + ArgumentTrees([]) + [Inner(CallEnd, [])]
      == [Leaf(IdentifierNode, ts[p]), Inner(CallEnd, [])];
  }

  lemma CallWritten(ts: seq<Token>, p: nat, arguments: seq<ArgumentSyntax>)
    requires EnoughAll(arguments) && At(ts, p + 2, ArgumentTokens(arguments))
    requires var q := p + 2 + |ArgumentTokens(arguments)|; q < |ts| && ts[q] == CloseParenthesis
    requires ts[p].Identifier? && ts[p + 1] == OpenParenthesis
    ensures Writes(CallSyntax(ts[p].name, arguments), ts, p,
      Inner(ExpressionNode,
        [Inner(CallNode, [Leaf(IdentifierNode, ts[p])] + ArgumentTrees(arguments) + [Inner(CallEnd, [])])]),
      p + 3 + |ArgumentTokens(arguments)|)
  {
    hide At, ArgumentTokens, ArgumentTrees, EnoughAll;
    var inner, e := ArgumentTokens(arguments), CallSyntax(ts[p].name, arguments);
    AtBracketed(ts, p + 1, inner);
    AtOne(ts, p);
    AtJoin(ts, p, [ts[p]], [OpenParenthesis] + inner + [CloseParenthesis]);
    assert Tokens(e) == [ts[p]] + ([OpenParenthesis] + inner + [CloseParenthesis]);
  }

  /** The arguments of a call, up to and including the closing parenthesis. */
  lemma {:induction false} ArgumentsAreWritten(ts: seq<Token>, p: nat) returns (arguments: seq<ArgumentSyntax>)
    requires p <= |ts| && ParseArguments(ts, p).Some?
    ensures var n := |ArgumentTokens(arguments)|;
      && arguments != [] && EnoughAll(arguments) && At(ts, p, ArgumentTokens(arguments))
      && ParseArguments(ts, p) == Some((ArgumentTrees(arguments), p + n + 1))
      && p + n < |ts| && ts[p + n] == CloseParenthesis
    decreases |ts| - p, |ts| + 1, 2
  {
    hide At, ParseArgument, OneArgumentTokens, ArgumentTree, EnoughArgument;
    var first := ArgumentIsWritten(ts, p);
    var q := p + |OneArgumentTokens(first)|;
    if Peek(ts, q) == CloseParenthesis {
      arguments := [first];
      assert ArgumentTrees(arguments) == [ArgumentTree(first)] by { assert arguments[1..] == []; }
    } else {
      var rest := ArgumentsAreWritten(ts, q + 1);
      arguments := [first] + rest;
      assert arguments[1..] == rest;
      AtOne(ts, q);
      AtJoin(ts, p, OneArgumentTokens(first), [Comma]);
      AtJoin(ts, p, OneArgumentTokens(first) + [Comma], ArgumentTokens(rest));
    }
  }

  lemma {:induction false} ArgumentIsWritten(ts: seq<Token>, p: nat) returns (a: ArgumentSyntax)
    requires p <= |ts| && ParseArgument(ts, p).Some?
    ensures EnoughArgument(a) && At(ts, p, OneArgumentTokens(a))
    ensures ParseArgument(ts, p) == Some((ArgumentTree(a), p + |OneArgumentTokens(a)|))
    decreases |ts| - p, |ts| + 1, 1
  {
    hide At, ParseExpression;
    if Peek(ts, p).StringToken? {
      AtOne(ts, p);
      a := StringSyntax(ts[p].text);
    } else {
      var e := ExpressionIsWritten(ts, p, None);
      a := ValueSyntax(e);
    }
  }

  // ----- both directions -----

  /** Up to a terminator or the end, the parser makes a tree of all tokens if and only if they are an expression
      written with enough parentheses and that is its tree. */
  lemma ParsesExactly(before: seq<Token>, piece: seq<Token>, after: seq<Token>, n: Node)
    requires after == [] || after[0] in {CloseParenthesis, CloseBracket, Semicolon, Comma}
    ensures ParseExpression(before + piece + after, |before|, None) == Some((n, |before| + |piece|))
      <==> exists e :: Enough(e) && Tokens(e) == piece && Tree(e) == n
  {
    hide Tokens, Enough, Tree, ParseExpression, At;
    var ts := before + piece + after;
    if ParseExpression(ts, |before|, None) == Some((n, |before| + |piece|)) {
      var e := ExpressionIsWritten(ts, |before|, None);
      SamePiece(before, piece, after, Tokens(e));
      assert Enough(e) && Tokens(e) == piece && Tree(e) == n;
    }
    if exists e :: Enough(e) && Tokens(e) == piece && Tree(e) == n {
      var e :| Enough(e) && Tokens(e) == piece && Tree(e) == n;
      ParsingInvertsPrinting(e, before, after);
    }
  }

  lemma SamePiece(before: seq<Token>, piece: seq<Token>, after: seq<Token>, tokens: seq<Token>)
    requires At(before + piece + after, |before|, tokens) && |tokens| == |piece|
    ensures tokens == piece
  {
    Surrounded(before, piece, after);
  }
}
