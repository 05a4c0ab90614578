/** From written expressions to the structured representation: what the stream of a parsed expression
    is read back as. */
module ExpressionMeaning {
  import opened Words
  import opened Ast
  import opened ExpressionSyntax
  import opened IrBuilding
  import opened WrittenLiterals
  import ExpressionParser
  import Ir

  // ----- streams with what follows -----

  /** The stream of a tree, and then `rest`. */
  function StreamOf(n: Node, rest: Stream): Stream
    decreases n
  {
    [Entry(n.kind, n.token)] + StreamOfAll(n.children, EndMarker(n.kind) + rest)
  }

  function StreamOfAll(ns: seq<Node>, rest: Stream): Stream
    decreases ns
  {
    if ns == [] then rest else StreamOf(ns[0], StreamOfAll(ns[1..], rest))
  }

  lemma {:induction false} StreamIsLinear(n: Node, rest: Stream)
    ensures StreamOf(n, rest) == Linear(n) + rest
    decreases n
  {
    StreamAllIsLinear(n.children, EndMarker(n.kind) + rest);
    assert [Entry(n.kind, n.token)] + (LinearAll(n.children) + (EndMarker(n.kind) + rest)) == Linear(n) + rest;
  }

  lemma {:induction false} StreamAllIsLinear(ns: seq<Node>, rest: Stream)
    ensures StreamOfAll(ns, rest) == LinearAll(ns) + rest
    decreases ns
  {
    if ns != [] {
      StreamAllIsLinear(ns[1..], rest);
      StreamIsLinear(ns[0], LinearAll(ns[1..]) + rest);
    }
  }

  /** An inner node without an end marker: its own entry, then its children. */
  lemma StreamInner(kind: Kind, children: seq<Node>, rest: Stream)
    requires kind != ProgramNode && kind != BlockNode
    ensures var s := StreamOf(Inner(kind, children), rest);
      s != [] && s[0] == Entry(kind, NoToken) && s[1..] == StreamOfAll(children, rest)
  {
    assert EndMarker(kind) + rest == rest;
  }

  lemma StreamLeaf(kind: Kind, token: Token, rest: Stream)
    requires kind != ProgramNode && kind != BlockNode
    ensures var s := StreamOf(Leaf(kind, token), rest); s != [] && s[0] == Entry(kind, token) && s[1..] == rest
  {
    assert EndMarker(kind) + rest == rest;
  }

  lemma StreamAllNone(rest: Stream)
    ensures StreamOfAll([], rest) == rest
  {
  }

  lemma StreamAllCons(n: Node, ns: seq<Node>, rest: Stream)
    ensures StreamOfAll([n] + ns, rest) == StreamOf(n, StreamOfAll(ns, rest))
  {
    assert ([n] + ns)[1..] == ns;
  }

  lemma StreamAllOne(n: Node, rest: Stream)
    ensures StreamOfAll([n], rest) == StreamOf(n, rest)
  {
    hide StreamOf;
    assert [n][1..] == [];
  }

  lemma StreamAllTwo(a: Node, b: Node, rest: Stream)
    ensures StreamOfAll([a, b], rest) == StreamOf(a, StreamOf(b, rest))
  {
    hide StreamOf;
    assert [a, b][1..] == [b];
    StreamAllOne(b, rest);
  }

  lemma {:induction false} StreamAllConcat(a: seq<Node>, b: seq<Node>, rest: Stream)
    ensures StreamOfAll(a + b, rest) == StreamOfAll(a, StreamOfAll(b, rest))
  {
    hide StreamOf;
    if a == [] {
      assert a + b == b;
    } else {
      assert (a + b)[1..] == a[1..] + b;
      StreamAllConcat(a[1..], b, rest);
    }
  }

  // ----- meaning -----

  /** Every literal token can be read. */
  predicate Readable(e: Syntax)
    decreases e
  {
    match e
    case BinarySyntax(_, l, r) => Readable(l) && Readable(r)
    case NotSyntax(o) => Readable(o)
    case NegateSyntax(o) => Readable(o)
    case LenSyntax(_) => true
    case LiteralSyntax(negated, t) => LiteralReadable(negated, t)
    case CallSyntax(_, arguments) => ReadableAll(arguments)
    case LocationSyntax(_, index) => index.Some? ==> Readable(index.value)
    case ParenthesisSyntax(inner) => Readable(inner)
  }

  predicate ReadableAll(arguments: seq<ArgumentSyntax>)
    decreases arguments
  {
    arguments == [] || (ReadableArgument(arguments[0]) && ReadableAll(arguments[1..]))
  }

  predicate ReadableArgument(a: ArgumentSyntax)
    decreases a
  {
    a.ValueSyntax? ==> Readable(a.value)
  }

  /** The structured expression that is meant. Parentheses leave no trace. */
  function Meaning(e: Syntax): Ir.Expression
    decreases e
  {
    match e
    case BinarySyntax(op, l, r) => Ir.Binary(op, Meaning(l), Meaning(r))
    case NotSyntax(o) => Ir.Not(Meaning(o))
    case NegateSyntax(o) => Ir.Negate(Meaning(o))
    case LenSyntax(id) => Ir.Length(id, 1)
    case LiteralSyntax(negated, t) => Ir.Constant(LiteralMeaning(negated, t))
    case CallSyntax(id, arguments) => Ir.Invoke(Ir.MethodCall(id, ArgumentMeanings(arguments)))
    case LocationSyntax(id, None) => Ir.At(Ir.Location(id, None))
    case LocationSyntax(id, Some(index)) => Ir.At(Ir.Location(id, Some(Meaning(index))))
    case ParenthesisSyntax(inner) => Meaning(inner)
  }

  function ArgumentMeanings(arguments: seq<ArgumentSyntax>): seq<Ir.CallArgument>
    decreases arguments
  {
    if arguments == [] then [] else [ArgumentMeaning(arguments[0])] + ArgumentMeanings(arguments[1..])
  }

  function ArgumentMeaning(a: ArgumentSyntax): Ir.CallArgument
    decreases a
  {
    match a
    case StringSyntax(text) => Ir.StringArgument(text)
    case ValueSyntax(e) => Ir.ValueArgument(Meaning(e))
  }

  // ----- reading back -----

  lemma LiteralRead(negated: bool, t: Token, rest: Stream)
    requires LiteralReadable(negated, t)
    ensures ReadLiteral(StreamOf(LiteralTree(negated, t), rest)) == Some((LiteralMeaning(negated, t), rest))
    ensures Starts(StreamOf(LiteralTree(negated, t), rest), LiteralNode)
  {
    LiteralTokenRead(negated, t);
    hide StreamOf, StreamOfAll, LiteralOf, LiteralSaid;
    var kind := LiteralLeaf(t);
    var leaf := Leaf(kind, t);
    StreamLeaf(kind, t, rest);
    if negated {
      var sign := Leaf(LiteralNegation, Operator(Ir.Minus));
      assert LiteralTree(negated, t) == Inner(LiteralNode, [sign, leaf]);
      StreamInner(LiteralNode, [sign, leaf], rest);
      StreamAllTwo(sign, leaf, rest);
      StreamLeaf(LiteralNegation, Operator(Ir.Minus), StreamOf(leaf, rest));
      var s := StreamOf(LiteralTree(negated, t), rest);
      assert s[2..] == s[1..][1..];
    } else {
      assert LiteralTree(negated, t) == Inner(LiteralNode, [leaf]);
      StreamInner(LiteralNode, [leaf], rest);
      StreamAllOne(leaf, rest);
    }
  }

  lemma IdentifierRead(id: string, rest: Stream)
    ensures ReadIdentifier(StreamOf(Leaf(IdentifierNode, Identifier(id)), rest)) == Some((id, rest))
  {
    hide StreamOf;
    StreamLeaf(IdentifierNode, Identifier(id), rest);
  }

  /** A tree of an expression has one child, whose stream follows the expression's entry. */
  lemma ExpressionStream(child: Node, rest: Stream)
    ensures var s := StreamOf(Inner(ExpressionNode, [child]), rest);
      && |s| >= 2 && s[0] == Entry(ExpressionNode, NoToken) && s[1..] == StreamOf(child, rest)
      && s[1].kind == child.kind && s[2..] == StreamOf(child, rest)[1..]
  {
    StreamInner(ExpressionNode, [child], rest);
    StreamAllOne(child, rest);
    var s := StreamOf(Inner(ExpressionNode, [child]), rest);
    assert s[2..] == s[1..][1..] && s[1] == s[1..][0];
  }

  /** The reader goes by the kind of the child. */
  lemma Dispatched(child: Node, rest: Stream)
    ensures var r, inner := ReadExpression(StreamOf(Inner(ExpressionNode, [child]), rest)), StreamOf(child, rest);
      && (child.kind == BinaryNode ==> r == ReadBinary(inner[1..]))
      && (child.kind == LenNode && ReadIdentifier(inner[1..]).Some? ==>
            r == Some((Ir.Length(ReadIdentifier(inner[1..]).value.0, 1), ReadIdentifier(inner[1..]).value.1)))
      && (child.kind == CallNode && ReadCall(inner).Some?
        ==> r == Some((Ir.Invoke(ReadCall(inner).value.0), ReadCall(inner).value.1)))
      && (child.kind == LiteralNode && ReadLiteral(inner).Some? ==>
            r == Some((Ir.Constant(ReadLiteral(inner).value.0), ReadLiteral(inner).value.1)))
      && (child.kind == LocationNode && ReadLocation(inner).Some? ==>
            r == Some((Ir.At(ReadLocation(inner).value.0), ReadLocation(inner).value.1)))
  {
    hide StreamOf, StreamOfAll, ReadLiteral, ReadCall, ReadLocation, ReadBinary, ReadIdentifier;
    ExpressionStream(child, rest);
  }

  /** The readers consume exactly the stream of an expression and rebuild what was meant. */
  lemma {:induction false} ExpressionRead(e: Syntax, rest: Stream)
    requires Readable(e) && !Starts(rest, LocationIndex)
    ensures ReadExpression(StreamOf(Tree(e), rest)) == Some((Meaning(e), rest))
    decreases e, 1
  {
    hide StreamOf, StreamOfAll, ReadExpression, ReadLiteral, ReadCall, ReadLocation, ReadBinary, ReadIdentifier,
      LiteralReadable, LiteralMeaning, ReadableAll, ArgumentTrees, ArgumentMeanings;
    match e
    case BinarySyntax(op, l, r) => BinaryRead(op, l, r, rest);
    case NotSyntax(o) => PrefixRead(NotNode, o, rest);
    case NegateSyntax(o) => PrefixRead(NegateNode, o, rest);
    case LenSyntax(id) =>
      var leaf := Leaf(IdentifierNode, Identifier(id));
      Dispatched(Inner(LenNode, [leaf]), rest);
      StreamInner(LenNode, [leaf], rest);
      StreamAllOne(leaf, rest);
      IdentifierRead(id, rest);
    case LiteralSyntax(negated, t) =>
      Dispatched(LiteralTree(negated, t), rest);
      LiteralRead(negated, t, rest);
    case CallSyntax(id, arguments) =>
      Dispatched(CallTree(id, arguments), rest);
      CallRead(id, arguments, rest);
    case LocationSyntax(id, index) =>
      Dispatched(LocationTree(id, index), rest);
      LocationRead(id, index, rest);
    case ParenthesisSyntax(inner) => ExpressionRead(inner, rest);
  }

  lemma {:induction false} BinaryRead(op: Ir.BinaryOperator, l: Syntax, r: Syntax, rest: Stream)
    requires Readable(l) && Readable(r) && !Starts(rest, LocationIndex)
    ensures var n := Inner(ExpressionNode,
      [Inner(BinaryNode, [Tree(l), Leaf(BinaryOperatorNode, Operator(op)), Tree(r)])]);
      ReadExpression(StreamOf(n, rest)) == Some((Ir.Binary(op, Meaning(l), Meaning(r)), rest))
    decreases BinarySyntax(op, l, r), 0
  {
    hide StreamOf, StreamOfAll, ReadExpression, ReadBinary, Tree, Meaning, Readable;
    var leaf := Leaf(BinaryOperatorNode, Operator(op));
    var children := [Tree(l), leaf, Tree(r)];
    Dispatched(Inner(BinaryNode, children), rest);
    StreamInner(BinaryNode, children, rest);
    assert children == [Tree(l)] + [leaf, Tree(r)];
    StreamAllCons(Tree(l), [leaf, Tree(r)], rest);
    StreamAllTwo(leaf, Tree(r), rest);
    StreamLeaf(BinaryOperatorNode, Operator(op), StreamOf(Tree(r), rest));
    var last := StreamOf(Tree(r), rest);
    var middle := StreamOf(leaf, last);
    ExpressionRead(l, middle);
    ExpressionRead(r, rest);
    BinaryFromParts(StreamOf(Tree(l), middle), op, Meaning(l), middle, Meaning(r), rest);
  }

  lemma BinaryFromParts(s: Stream, op: Ir.BinaryOperator, left: Ir.Expression, middle: Stream, right: Ir.Expression,
                        rest: Stream)
    requires ReadExpression(s) == Some((left, middle)) && middle != [] && middle[0].token == Operator(op)
    requires ReadExpression(middle[1..]) == Some((right, rest))
    ensures ReadBinary(s) == Some((Ir.Binary(op, left, right), rest))
  {
    hide ReadExpression;
  }

  lemma {:induction false} PrefixRead(kind: Kind, o: Syntax, rest: Stream)
    requires (kind == NotNode || kind == NegateNode) && Readable(o) && !Starts(rest, LocationIndex)
    ensures ReadExpression(StreamOf(Inner(ExpressionNode, [Inner(kind, [Tree(o)])]), rest))
      == Some((if kind == NotNode then Ir.Not(Meaning(o)) else Ir.Negate(Meaning(o)), rest))
    decreases o, 2
  {
    hide StreamOf, StreamOfAll, ReadLiteral, ReadCall, ReadLocation, Tree, Meaning, Readable;
    ExpressionStream(Inner(kind, [Tree(o)]), rest);
    StreamInner(kind, [Tree(o)], rest);
    StreamAllOne(Tree(o), rest);
    ExpressionRead(o, rest);
  }

  function LocationTree(id: string, index: Option<Syntax>): Node {
    var leaf := Leaf(IdentifierNode, Identifier(id));
    Inner(LocationNode, if index.None? then [leaf] else [leaf, Inner(LocationIndex, [Tree(index.value)])])
  }

  function LocationMeaning(id: string, index: Option<Syntax>): Ir.Location {
    Ir.Location(id, if index.None? then None else Some(Meaning(index.value)))
  }

  lemma {:induction false} LocationRead(id: string, index: Option<Syntax>, rest: Stream)
    requires (index.Some? ==> Readable(index.value)) && !Starts(rest, LocationIndex)
    ensures ReadLocation(StreamOf(LocationTree(id, index), rest)) == Some((LocationMeaning(id, index), rest))
    ensures Starts(StreamOf(LocationTree(id, index), rest), LocationNode)
    decreases index, 3
  {
    hide StreamOf, StreamOfAll, ReadExpression, Tree, Meaning, Readable;
    var leaf := Leaf(IdentifierNode, Identifier(id));
    if index.None? {
      StreamInner(LocationNode, [leaf], rest);
      StreamAllOne(leaf, rest);
      IdentifierRead(id, rest);
    } else {
      var inner := Inner(LocationIndex, [Tree(index.value)]);
      StreamInner(LocationNode, [leaf, inner], rest);
      StreamAllTwo(leaf, inner, rest);
      IdentifierRead(id, StreamOf(inner, rest));
      StreamInner(LocationIndex, [Tree(index.value)], rest);
      StreamAllOne(Tree(index.value), rest);
      ExpressionRead(index.value, rest);
    }
  }

  function CallTree(id: string, arguments: seq<ArgumentSyntax>): Node {
    Inner(CallNode, [Leaf(IdentifierNode, Identifier(id))] + ArgumentTrees(arguments) + [Inner(CallEnd, [])])
  }

  lemma {:induction false} CallRead(id: string, arguments: seq<ArgumentSyntax>, rest: Stream)
    requires ReadableAll(arguments)
    ensures ReadCall(StreamOf(CallTree(id, arguments), rest))
      == Some((Ir.MethodCall(id, ArgumentMeanings(arguments)), rest))
    ensures Starts(StreamOf(CallTree(id, arguments), rest), CallNode)
    decreases arguments, 3
  {
    hide StreamOf, StreamOfAll, ReadArguments, ArgumentTrees, ArgumentMeanings, ReadableAll;
    var leaf, end := Leaf(IdentifierNode, Identifier(id)), Inner(CallEnd, []);
    var all := [leaf] + ArgumentTrees(arguments) + [end];
    StreamInner(CallNode, all, rest);
    assert all == [leaf] + (ArgumentTrees(arguments) + [end]);
    StreamAllCons(leaf, ArgumentTrees(arguments) + [end], rest);
    StreamAllConcat(ArgumentTrees(arguments), [end], rest);
    StreamAllOne(end, rest);
    IdentifierRead(id, StreamOfAll(ArgumentTrees(arguments), StreamOf(end, rest)));
    ArgumentsRead(arguments, rest);
  }

  lemma {:induction false} ArgumentsRead(arguments: seq<ArgumentSyntax>, rest: Stream)
    requires ReadableAll(arguments)
    ensures ReadArguments(StreamOfAll(ArgumentTrees(arguments), StreamOf(Inner(CallEnd, []), rest)))
      == Some((ArgumentMeanings(arguments), rest))
    ensures !Starts(StreamOfAll(ArgumentTrees(arguments), StreamOf(Inner(CallEnd, []), rest)), LocationIndex)
    decreases arguments, 2
  {
    hide StreamOf, StreamOfAll, ReadArgument;
    var end := StreamOf(Inner(CallEnd, []), rest);
    StreamInner(CallEnd, [], rest);
    StreamAllNone(rest);
    if arguments == [] {
      StreamAllNone(end);
    } else {
      var tail := StreamOfAll(ArgumentTrees(arguments[1..]), end);
      StreamAllCons(ArgumentTree(arguments[0]), ArgumentTrees(arguments[1..]), end);
      ArgumentsRead(arguments[1..], rest);
      ArgumentRead(arguments[0], tail);
    }
  }

  lemma {:induction false} ArgumentRead(a: ArgumentSyntax, rest: Stream)
    requires ReadableArgument(a) && !Starts(rest, LocationIndex)
    ensures ReadArgument(StreamOf(ArgumentTree(a), rest)) == Some((ArgumentMeaning(a), rest))
    ensures Starts(StreamOf(ArgumentTree(a), rest), CallArgumentNode)
    decreases a, 2
  {
    hide StreamOf, StreamOfAll, ReadExpression;
    match a
    case StringSyntax(text) =>
      var leaf := Leaf(StringLiteralNode, StringToken(text));
      StreamInner(CallArgumentNode, [leaf], rest);
      StreamAllOne(leaf, rest);
      StreamLeaf(StringLiteralNode, StringToken(text), rest);
      var s := StreamOf(ArgumentTree(a), rest);
      assert s[1] == s[1..][0] && s[2..] == s[1..][1..];
    case ValueSyntax(e) =>
      StreamInner(CallArgumentNode, [Tree(e)], rest);
      StreamAllOne(Tree(e), rest);
      ExpressionTreeStarts(e, rest);
      var s := StreamOf(ArgumentTree(a), rest);
      assert s[1] == s[1..][0];
      ExpressionRead(e, rest);
  }

  lemma {:induction false} ExpressionTreeStarts(e: Syntax, rest: Stream)
    ensures Starts(StreamOf(Tree(e), rest), ExpressionNode)
    decreases e
  {
    if e.ParenthesisSyntax? { ExpressionTreeStarts(e.inner, rest); }
  }

  /** The whole front end on expressions: written with enough parentheses and followed by a terminator,
      an expression is parsed, flattened and read back as what it means. */
  lemma FrontEndReadsExpressions(e: Syntax, before: seq<Token>, after: seq<Token>, rest: Stream)
    requires Enough(e) && Readable(e) && !Starts(rest, LocationIndex)
    requires after == [] || after[0] in {CloseParenthesis, CloseBracket, Semicolon, Comma}
    ensures var parsed := ExpressionParser.ParseExpression(before + Tokens(e) + after, |before|, None);
      && parsed.Some? && parsed.value.1 == |before| + |Tokens(e)|
      && ReadExpression(Linear(parsed.value.0) + rest) == Some((Meaning(e), rest))
  {
    hide Enough, Readable, Tokens, Tree, Meaning, ReadExpression, Linear, ExpressionParser.ParseExpression, StreamOf;
    ParsingInvertsPrinting(e, before, after);
    StreamIsLinear(Tree(e), rest);
    ExpressionRead(e, rest);
  }
}
