/** Tokens and syntax trees, and the flattening of a tree into a preorder stream. */
module Ast {
  import Ir

  datatype Token =
    | Identifier(name: string)
    | Decimal(text: string)
    | Hexadecimal(text: string)
    | Character(text: string)
    | StringToken(text: string)
    | True
    | False
    | Operator(op: Ir.BinaryOperator)
    | Bang
    | Len
    | OpenParenthesis
    | CloseParenthesis
    | OpenBracket
    | CloseBracket
    | Comma
    | Semicolon
    | Assigning(how: Ir.AssignOperator)
    | TypeName(base: Ir.Type)
    | OtherToken(text: string)
    | NoToken

  datatype Kind =
    | ProgramNode | ImportNode | FieldNode | ConstNode | FieldIdentifier | EmptyArrayLength
    | MethodNode | VoidNode | MethodArgument | BlockNode
    | StatementNode | AssignmentNode | IfNode | ForNode | WhileNode | ReturnNode | BreakNode | ContinueNode |
    ForUpdateNode
    | LocationNode | LocationIndex
    | ExpressionNode | BinaryNode | NotNode | NegateNode | LenNode
    | CallNode | CallArgumentNode | CallEnd
    | InitializerNode | ArrayLiteral | LiteralNode | LiteralNegation
    | AssignOperatorNode | IncrementNode | BinaryOperatorNode | DataTypeNode | IdentifierNode
    | CharLiteralNode | StringLiteralNode | BoolLiteralNode | IntLiteralNode
    | ProgramEnd | BlockEnd

  /** Only leaves carry a token that means something; the token of an inner node is for messages. */
  datatype Node = Node(kind: Kind, token: Token, children: seq<Node>)

  function Inner(kind: Kind, children: seq<Node>): Node {
    Node(kind, NoToken, children)
  }

  function Leaf(kind: Kind, token: Token): Node {
    Node(kind, token, [])
  }

  /** One element of the stream: a node without its children. */
  datatype Entry = Entry(kind: Kind, token: Token)

  /** Preorder; only programs and blocks get an end marker of their own. */
  function Linear(n: Node): (s: seq<Entry>)
    ensures s != []
    decreases n
  {
    [Entry(n.kind, n.token)] + LinearAll(n.children) + EndMarker(n.kind)
  }

  function LinearAll(ns: seq<Node>): seq<Entry>
    decreases ns
  {
    if ns == [] then [] else Linear(ns[0]) + LinearAll(ns[1..])
  }

  function EndMarker(kind: Kind): seq<Entry> {
    if kind == ProgramNode then [Entry(ProgramEnd, NoToken)]
    else if kind == BlockNode then [Entry(BlockEnd, NoToken)]
    else []
  }

  /** The growing array of `ast_node_linearize`. */
  class Linearizer {
    var nodes: seq<Entry>

    constructor ()
      ensures nodes == []
    {
      nodes := [];
    }

    /** `linearize_ast`. */
    method Linearize(ast: Node)
      modifies this
      ensures nodes == old(nodes) + Linear(ast)
      decreases ast
    {
      hide Linear, LinearAll;
      nodes := nodes + [Entry(ast.kind, ast.token)];
      ghost var start := nodes;
      var i := 0;
      assert ast.children[0..] == ast.children;
      while i < |ast.children|
        invariant 0 <= i <= |ast.children|
        invariant start + LinearAll(ast.children) == nodes + LinearAll(ast.children[i..])
      {
        LinearStep(nodes, ast.children, i);
        Linearize(ast.children[i]);
        i := i + 1;
      }
      LinearDone(nodes, ast.children[i..]);
      LinearIs(ast);
      if ast.kind == ProgramNode {
        nodes := nodes + [Entry(ProgramEnd, NoToken)];
      }
      if ast.kind == BlockNode {
        nodes := nodes + [Entry(BlockEnd, NoToken)];
      }
    }
  }

  lemma LinearStep(done: seq<Entry>, ns: seq<Node>, i: nat)
    requires i < |ns|
    ensures done + LinearAll(ns[i..]) == (done + Linear(ns[i])) + LinearAll(ns[i + 1..])
  {
    hide Linear;
    assert ns[i..][1..] == ns[i + 1..];
  }

  lemma LinearDone(done: seq<Entry>, ns: seq<Node>)
    requires ns == []
    ensures done + LinearAll(ns) == done
  {
  }

  lemma LinearIs(n: Node)
    ensures Linear(n) == [Entry(n.kind, n.token)] + LinearAll(n.children) + EndMarker(n.kind)
  {
  }
}
