/** The parser as it runs on expressions: a cursor that moves over the tokens, refining the functions
    of `ExpressionParser` on every run without a parse error. */
module Parsers {
  import opened Words
  import opened Ast
  import opened ExpressionParser
  import Ir

  class Parser {
    const tokens: seq<Token>
    var position: nat
    var error: bool

    constructor (tokens: seq<Token>)
      ensures this.tokens == tokens && position == 0 && !error
    {
      this.tokens := tokens;
      position, error := 0, false;
    }

    /** `peek_token`. */
    function PeekAhead(i: nat): Token
      reads this`position
    {
      Peek(tokens, position + i)
    }

    /** The cursor and the error flag after a parse: moved past the tree, if there is one. */
    ghost predicate Parsed(before: nat, r: Option<Node>, spec: Parse)
      reads this
    {
      position <= |tokens|
      && match spec
         case Some((n, q)) => r == Some(n) && position == q && !error
         case None => r.None?
    }

    method ParseError() returns (r: Option<Node>)
      modifies this`error
      ensures r == None && error
    {
      error := true;
      r := None;
    }

    /** `next_token`. */
    method NextToken(t: Token) returns (found: bool)
      requires position <= |tokens| && t != NoToken
      modifies this`position
      ensures found <==> Peek(tokens, old(position)) == t
      ensures position == old(position) + if found then 1 else 0
      ensures position <= |tokens|
    {
      found := position < |tokens| && tokens[position] == t;
      if found {
        position := position + 1;
      }
    }

    /** `find_binary_operator_indices`. */
    method FindBinaryOperatorIndices(length: Option<nat>) returns (indices: seq<nat>)
      ensures indices == FindOperators(tokens, position, 0, 0, length)
    {
      hide FindOperators, IsBinaryOperator, Stops, Peek;
      indices := [];
      var depth := 0;
      var i := 0;
      while !Stops(tokens, position, i, depth, length)
        invariant indices + FindOperators(tokens, position, i, depth, length)
          == FindOperators(tokens, position, 0, 0, length)
        decreases |tokens| - i
      {
        FindStep(tokens, position, i, depth, length);
        ghost var before := indices;
        var t := PeekAhead(i);
        if t == OpenParenthesis || t == OpenBracket {
          depth := depth + 1;
        }
        if (t == CloseParenthesis || t == CloseBracket) && depth > 0 {
          depth := depth - 1;
        }
        if depth == 0 && IsBinaryOperator(tokens, position, i) {
          indices := indices + [i];
        }
        i := i + 1;
        Regroup(before, i - 1, FindOperators(tokens, position, i, depth, length));
      }
      FindEnd(tokens, position, i, depth, length);
    }

    /** `get_lowest_precedence_index`: the rightmost of the operators that bind loosest. */
    method GetLowestPrecedenceIndex(indices: seq<nat>) returns (k: nat)
      requires indices != [] && forall j :: j in indices ==> position + j < |tokens| && tokens[position + j].Operator?
      ensures Lowest(tokens, position, indices, None) == Some(k)
      ensures AreOperators(tokens, position, indices)
      ensures exists j :: 0 <= j < |indices| && indices[j] == k && RightmostLowest(tokens, position, indices, j)
    {
      var best: Option<nat> := None;
      var i := 0;
      assert indices[i..] == indices;
      while i < |indices|
        invariant 0 <= i <= |indices| && (i > 0 ==> best.Some?)
        invariant forall j :: j in indices[i..] ==> j in indices
        invariant best.Some? ==> position + best.value < |tokens| && tokens[position + best.value].Operator?
        invariant Lowest(tokens, position, indices[i..], best) == Lowest(tokens, position, indices, None)
      {
        var index := indices[i];
        assert index in indices && indices[i..][0] == index && indices[i..][1..] == indices[i + 1..];
        if best.None? || Precedence(tokens[position + index].op) <= Precedence(tokens[position + best.value].op) {
          best := Some(index);
        }
        i := i + 1;
      }
      assert indices[i..] == [];
      k := best.value;
      var j := LowestIsRightmost(tokens, position, indices);
    }

    /** `parse_expression_with_length`, a binary expression first. */
    static lemma ExpressionUnfolds(ts: seq<Token>, p: nat, length: Option<nat>)
      requires p <= |ts|
      ensures ParseExpression(ts, p, length) ==
        var indices := FindOperators(ts, p, 0, 0, length);
        if indices == [] then ParseUnary(ts, p)
        else
          var k := Lowest(ts, p, indices, None).value;
          match ParseExpression(ts, p, Some(k))
          case None => None
          case Some((left, q)) =>
            if q != p + k then None
            else
              match ParseExpression(ts, q + 1, if length.Some? then Some(length.value - (k + 1)) else None)
              case None => None
              case Some((right, end)) =>
                Some((Inner(ExpressionNode, [Inner(BinaryNode, [left, Leaf(BinaryOperatorNode, ts[q]), right])]), end))
    {
    }

    method ParseExpressionWithLength(length: Option<nat>) returns (r: Option<Node>)
      requires position <= |tokens| && !error
      modifies this`position, this`error
      ensures Parsed(old(position), r, ParseExpression(tokens, old(position), length))
      decreases |tokens| - position, Window(tokens, position, length), 2
    {
      hide ParseUnary, FindOperators, Lowest, ParseExpression;
      ExpressionUnfolds(tokens, position, length);
      var indices := FindBinaryOperatorIndices(length);
      if indices == [] {
        r := ParseUnaryExpression();
        return;
      }
      var k := GetLowestPrecedenceIndex(indices);
      var expected := position + k;
      var left := ParseExpressionWithLength(Some(k));
      if left.None? {
        r := ParseError();
        return;
      }
      if position != expected {
        r := ParseError();
        return;
      }
      var op := Leaf(BinaryOperatorNode, tokens[position]);
      position := position + 1;
      var rest := if length.Some? then Some(length.value - (k + 1)) else None;
      var right := ParseExpressionWithLength(rest);
      if right.None? {
        r := ParseError();
        return;
      }
      r := Some(Inner(ExpressionNode, [Inner(BinaryNode, [left.value, op, right.value])]));
    }

    /** `parse_unary_expression`. */
    method ParseUnaryExpression() returns (r: Option<Node>)
      requires position <= |tokens| && !error
      modifies this`position, this`error
      ensures Parsed(old(position), r, ParseUnary(tokens, old(position)))
      decreases |tokens| - position, 0, 1
    {
      hide ParseExpression, ParseLen, ParseLocation, ParseCall, FindOperators, Lowest;
      var t := PeekAhead(0);
      if t == Len {
        r := ParseLenExpression();
      } else if t == Bang {
        position := position + 1;
        var operand := ParseUnaryExpression();
        if operand.None? {
          r := ParseError();
          return;
        }
        r := Some(Inner(NotNode, [operand.value]));
      } else if t == Operator(Ir.Minus) && !IsNumber(PeekAhead(1)) {
        position := position + 1;
        var operand := ParseUnaryExpression();
        if operand.None? {
          r := ParseError();
          return;
        }
        r := Some(Inner(NegateNode, [operand.value]));
      } else if t == Operator(Ir.Minus) || LiteralKindOf(t).Some? {
        r := ParseLiteral();
      } else if t.Identifier? && PeekAhead(1) == OpenParenthesis {
        r := ParseMethodCall();
      } else if t.Identifier? {
        r := ParseLocationNode();
      } else if t == OpenParenthesis {
        r := ParseParenthesisExpression();
        return;
      } else {
        r := None;
        return;
      }
      if r.Some? {
        r := Some(Inner(ExpressionNode, [r.value]));
      }
    }

    /** `parse_literal` where it starts with a literal or with a minus and a number. */
    method ParseLiteral() returns (r: Option<Node>)
      requires position < |tokens| && !error
      requires LiteralKindOf(tokens[position]).Some?
        || (tokens[position] == Operator(Ir.Minus) && IsNumber(Peek(tokens, position + 1)))
      modifies this`position
      ensures position <= |tokens| && r.Some?
      ensures if old(tokens[position]) == Operator(Ir.Minus) then
                position == old(position) + 2
                && r.value == Inner(LiteralNode,
                  [Leaf(LiteralNegation, tokens[old(position)]), Leaf(IntLiteralNode, tokens[old(position) + 1])])
              else
                position == old(position) + 1
                && r.value == Inner(LiteralNode,
                  [Leaf(LiteralKindOf(tokens[old(position)]).value, tokens[old(position)])])
    {
      var children := [];
      if tokens[position] == Operator(Ir.Minus) {
        children := [Leaf(LiteralNegation, tokens[position])];
        position := position + 1;
      }
      var kind := if IsNumber(tokens[position]) then IntLiteralNode else if tokens[position].Character? then
        CharLiteralNode else BoolLiteralNode;
      children := children + [Leaf(kind, tokens[position])];
      position := position + 1;
      r := Some(Inner(LiteralNode, children));
    }

    method ParseLenExpression() returns (r: Option<Node>)
      requires position < |tokens| && tokens[position] == Len && !error
      modifies this`position, this`error
      ensures Parsed(old(position), r, ParseLen(tokens, old(position)))
    {
      position := position + 1;
      var open := NextToken(OpenParenthesis);
      if !open || !PeekAhead(0).Identifier? {
        r := ParseError();
        return;
      }
      var identifier := tokens[position];
      position := position + 1;
      var close := NextToken(CloseParenthesis);
      if !close {
        r := ParseError();
        return;
      }
      r := Some(Inner(LenNode, [Leaf(IdentifierNode, identifier)]));
    }

    method ParseParenthesisExpression() returns (r: Option<Node>)
      requires position < |tokens| && tokens[position] == OpenParenthesis && !error
      modifies this`position, this`error
      ensures Parsed(old(position), r, ParseUnary(tokens, old(position)))
      decreases |tokens| - position, 0, 0
    {
      position := position + 1;
      r := ParseExpressionWithLength(None);
      if r.None? {
        r := ParseError();
        return;
      }
      var close := NextToken(CloseParenthesis);
      if !close {
        r := ParseError();
      }
    }

    /** `parse_location`. */
    method ParseLocationNode() returns (r: Option<Node>)
      requires position < |tokens| && tokens[position].Identifier? && !error
      modifies this`position, this`error
      ensures Parsed(old(position), r, ParseLocation(tokens, old(position)))
      decreases |tokens| - position, 0, 0
    {
      var identifier := Leaf(IdentifierNode, tokens[position]);
      position := position + 1;
      var open := NextToken(OpenBracket);
      if !open {
        r := Some(Inner(LocationNode, [identifier]));
        return;
      }
      var index := ParseExpressionWithLength(None);
      if index.None? {
        r := ParseError();
        return;
      }
      var close := NextToken(CloseBracket);
      if !close {
        r := ParseError();
        return;
      }
      r := Some(Inner(LocationNode, [identifier, Inner(LocationIndex, [index.value])]));
    }

    /** `parse_method_call`: the children are the identifier, the arguments and an end marker. */
    method ParseMethodCall() returns (r: Option<Node>)
      requires position + 1 < |tokens| && tokens[position].Identifier? && tokens[position + 1] == OpenParenthesis
        && !error
      modifies this`position, this`error
      ensures Parsed(old(position), r, ParseCall(tokens, old(position)))
      decreases |tokens| - position, 0, 0
    {
      hide ParseExpression, ParseArgument, ParseArguments, Peek;
      var children := [Leaf(IdentifierNode, tokens[position])];
      position := position + 2;
      var empty := NextToken(CloseParenthesis);
      if empty {
        r := Some(Inner(CallNode, children + [Inner(CallEnd, [])]));
        assert children + [Inner(CallEnd, [])] == [children[0], Inner(CallEnd, [])];
        return;
      }
      ghost var start, first := position, children;
      var more := true;
      while more
        invariant start <= position <= |tokens| && position > old(position) && !error
        invariant more ==>
          match ParseArguments(tokens, position)
          case None => ParseArguments(tokens, start).None?
          case Some((rest, end)) =>
            && ParseArguments(tokens, start).Some?
            && first + ParseArguments(tokens, start).value.0 == children + rest
            && ParseArguments(tokens, start).value.1 == end
        invariant !more ==>
          && ParseArguments(tokens, start).Some?
          && first + ParseArguments(tokens, start).value.0 == children
          && ParseArguments(tokens, start).value.1 == position
        decreases more, |tokens| - position
      {
        ArgumentsUnfold(tokens, position);
        var argument := ParseMethodCallArgument();
        if argument.None? {
          r := ParseError();
          return;
        }
        children := children + [argument.value];
        var comma := NextToken(Comma);
        if !comma {
          var close := NextToken(CloseParenthesis);
          if !close {
            r := ParseError();
            return;
          }
          more := false;
        }
      }
      r := Some(Inner(CallNode, children + [Inner(CallEnd, [])]));
    }

    static lemma ArgumentsUnfold(ts: seq<Token>, p: nat)
      requires p <= |ts|
      ensures ParseArguments(ts, p) ==
        match ParseArgument(ts, p)
        case None => None
        case Some((argument, q)) =>
          if Peek(ts, q) == CloseParenthesis then Some(([argument], q + 1))
          else if Peek(ts, q) != Comma then None
          else
            match ParseArguments(ts, q + 1)
            case None => None
            case Some((rest, end)) => Some(([argument] + rest, end))
    {
    }

    method ParseMethodCallArgument() returns (r: Option<Node>)
      requires position <= |tokens| && !error
      modifies this`position, this`error
      ensures Parsed(old(position), r, ParseArgument(tokens, old(position)))
      decreases |tokens| - position, |tokens| + 1, 1
    {
      var t := PeekAhead(0);
      if t.StringToken? {
        position := position + 1;
        r := Some(Inner(CallArgumentNode, [Leaf(StringLiteralNode, t)]));
        return;
      }
      var e := ParseExpressionWithLength(None);
      if e.None? {
        r := None;
        return;
      }
      r := Some(Inner(CallArgumentNode, [e.value]));
    }
  }

  lemma Regroup(before: seq<nat>, k: nat, rest: seq<nat>)
    ensures before + ([k] + rest) == (before + [k]) + rest && before + ([] + rest) == before + rest
  {
  }

  lemma FindStep(ts: seq<Token>, p: nat, i: nat, depth: nat, length: Option<nat>)
    requires !Stops(ts, p, i, depth, length)
    ensures var d := DepthAfter(Peek(ts, p + i), depth);
      FindOperators(ts, p, i, depth, length)
      == (if d == 0 && IsBinaryOperator(ts, p, i) then [i] else []) + FindOperators(ts, p, i + 1, d, length)
    ensures i < |ts|
  {
  }

  lemma FindEnd(ts: seq<Token>, p: nat, i: nat, depth: nat, length: Option<nat>)
    requires Stops(ts, p, i, depth, length)
    ensures FindOperators(ts, p, i, depth, length) == []
  {
  }
}
