/** The binding-power tables and the precedence-climbing parser of pratt_parser.c.
    The lexer the parser pulls from is a sequence of tokens and a position in it;
    reading at or past the end of the sequence yields end-of-input, as the
    tokenizer does once its text is exhausted. The process exits of the source
    are `Err` results. */
module PrattParser {
  import opened Tokens
  import Arena

  /** `Pair`: a left (`f`) and a right (`s`) binding power. */
  datatype Pair = Pair(f: nat, s: nat)

  /** `Parse_type`: the tag of a tree node. */
  datatype ParseType = Num | Pos | Neg | Sum | Min | Mul | Div

  /** A tree node. The source's union is split by tag: a number leaf,
      a prefix node with one operand, an infix node with two children. */
  datatype Node =
    | Leaf(num: int)
    | Prefix(kind: ParseType, operand: Node)
    | Binop(kind: ParseType, lhs: Node, rhs: Node)

  /** `sizeof(Node)` on a 64-bit target: a 4-byte tag padded to 8, then a 16-byte union. */
  const NODE_SIZE: nat := 24

  /** `is_binary_operator`. */
  predicate IsBinaryOperator(t: TokenType) {
    t == Plus || t == Minus || t == Star || t == Slash
  }

  /** `prefix_binding_power`, defined only for `+` and `-`. */
  function PrefixBindingPower(t: TokenType): (bp: Pair)
    requires t == Plus || t == Minus
    ensures forall u :: IsBinaryOperator(u) ==> InfixBindingPower(u).f < bp.s
  {
    Pair(0, 5)
  }

  /** `infix_binding_power`, defined only for the four binary operators. */
  function InfixBindingPower(t: TokenType): (bp: Pair)
    requires IsBinaryOperator(t)
    ensures bp.f < bp.s
  {
    match t
    case Plus | Minus => Pair(1, 2)
    case Star | Slash => Pair(3, 4)
  }

  /** `parse_node_type`, defined for numbers and the four binary operators. */
  function ParseNodeType(t: TokenType): (p: ParseType)
    requires t == Number || IsBinaryOperator(t)
  {
    match t
    case Number => Num
    case Plus => Sum
    case Minus => Min
    case Star => Mul
    case Slash => Div
  }

  /** `parse_type_to_char`. */
  function ParseTypeToChar(p: ParseType): char {
    match p
    case Pos | Sum => '+'
    case Neg | Min => '-'
    case Mul => '*'
    case Div => '/'
    case Num => '?'
  }

  function DigitValue(c: char): nat {
    if '0' <= c <= '9' then (c as int - '0' as int) else 0
  }

  /** The length of the run of decimal digits that opens `s`. */
  function DigitPrefix(s: string): (n: nat)
    ensures n <= |s|
    ensures forall k :: 0 <= k < n ==> '0' <= s[k] <= '9'
    ensures n < |s| ==> !('0' <= s[n] <= '9')
  {
    if s != [] && '0' <= s[0] <= '9' then 1 + DigitPrefix(s[1..]) else 0
  }

  /** The value of a string of decimal digits, most significant first. */
  function DigitsValue(s: string): nat {
    if s == [] then 0 else 10 * DigitsValue(s[..|s| - 1]) + DigitValue(s[|s| - 1])
  }

  /** `strtol(lexeme, NULL, 10)` on a number lexeme: the value of its leading digits. */
  function Strtol(lexeme: string): nat {
    DigitsValue(lexeme[..DigitPrefix(lexeme)])
  }

  /** What the token stream yields at position `i`: end-of-input once it is exhausted. */
  function TokenAt(tokens: seq<Token>, i: nat): (t: Token)
    ensures t.kind != Eof ==> i < |tokens| && t == tokens[i]
  {
    if i < |tokens| then tokens[i] else EofToken
  }

  /** The two ways the source aborts a parse. */
  datatype ParseError =
    | ExpectedOperand(found: Token)
    | ExpectedBinaryOperator(found: Token)

  /** A parsed tree and the position of the first token not consumed. */
  datatype Parsed = Parsed(tree: Node, next: nat)

  datatype Result = Ok(parsed: Parsed) | Err(error: ParseError)

  /** `expr_bp(lexer, minBp)` with the lexer at position `pos`: the lead term,
      then the operator loop. */
  function ExprBp(tokens: seq<Token>, pos: nat, minBp: nat): (r: Result)
    requires pos <= |tokens|
    ensures r.Ok? ==> pos < r.parsed.next <= |tokens|
    decreases |tokens| - pos, 1
  {
    var token := TokenAt(tokens, pos);
    match token.kind
    case Number => Loop(tokens, pos + 1, minBp, Leaf(Strtol(token.lexeme)))
    case Plus =>
      (match ExprBp(tokens, pos + 1, PrefixBindingPower(Minus).s)
       case Ok(operand) => Loop(tokens, operand.next, minBp, Prefix(Pos, operand.tree))
       case Err(e) => Err(e))
    case Minus =>
      (match ExprBp(tokens, pos + 1, PrefixBindingPower(Minus).s)
       case Ok(operand) => Loop(tokens, operand.next, minBp, Prefix(Neg, operand.tree))
       case Err(e) => Err(e))
    case _ => Err(ExpectedOperand(token))
  }

  /** The `while(1)` loop of `expr_bp`, entered at position `pos` with left-hand side `lhs`. */
  function Loop(tokens: seq<Token>, pos: nat, minBp: nat, lhs: Node): (r: Result)
    requires pos <= |tokens|
    ensures r.Ok? ==> pos <= r.parsed.next <= |tokens|
    decreases |tokens| - pos, 0
  {
    var token := TokenAt(tokens, pos);
    if token.kind == Eof then Ok(Parsed(lhs, pos))
    else if !IsBinaryOperator(token.kind) then Err(ExpectedBinaryOperator(token))
    else
      var bp := InfixBindingPower(token.kind);
      if bp.f < minBp then Ok(Parsed(lhs, pos))
      else
        match ExprBp(tokens, pos + 1, bp.s)
        case Ok(rhs) => Loop(tokens, rhs.next, minBp, Binop(ParseNodeType(token.kind), lhs, rhs.tree))
        case Err(e) => Err(e)
  }

  /** The number of nodes in a tree. */
  function NodeCount(n: Node): (c: nat)
    ensures c >= 1
  {
    match n
    case Leaf(_) => 1
    case Prefix(_, e) => 1 + NodeCount(e)
    case Binop(_, l, r) => NodeCount(l) + 1 + NodeCount(r)
  }

  /** `blocks` is `before` followed by `n` more node-sized blocks. */
  ghost predicate NodesAdded(before: seq<Arena.Block>, blocks: seq<Arena.Block>, n: int) {
    before <= blocks && |blocks| == |before| + n &&
    forall i :: |before| <= i < |blocks| ==> blocks[i].size == NODE_SIZE
  }

  /** Adding `n` blocks and then `m` more adds `n + m`. */
  lemma NodesAddedTrans(a: seq<Arena.Block>, b: seq<Arena.Block>, c: seq<Arena.Block>, n: int, m: int)
    requires NodesAdded(a, b, n) && NodesAdded(b, c, m)
    ensures NodesAdded(a, c, n + m)
  {
  }

  /** `arena_alloc(&nodes_arena, sizeof(Node))`: the chain becomes `AllocOn`'s, the returned
      address is the node-sized block just recorded, and the arena stays valid. */
  method NewNode(arena: Arena.Arena) returns (addr: nat)
    requires arena.Valid()
    modifies arena
    ensures arena.Valid()
    ensures var a := Arena.AllocOn(old(arena.regions), NODE_SIZE, Arena.EndOfRegions(old(arena.regions)));
            arena.regions == a.regions && addr == a.addr &&
            arena.blocks == old(arena.blocks) + [Arena.Block(a.target, addr, NODE_SIZE)]
    ensures NodesAdded(old(arena.blocks), arena.blocks, 1)
    ensures addr % 8 == 0
  {
    addr := arena.Alloc(NODE_SIZE, arena.FreshBase());
  }

  /** `expr_bp` as the source runs it, allocating every node from `arena`:
      one block for the lead term here and one per iteration of the operator loop. */
  method ParseExpr(arena: Arena.Arena, tokens: seq<Token>, pos: nat, minBp: nat) returns (r: Result)
    requires pos <= |tokens|
    requires arena.Valid()
    modifies arena
    ensures arena.Valid()
    ensures r == ExprBp(tokens, pos, minBp)
    ensures r.Ok? ==> NodesAdded(old(arena.blocks), arena.blocks, NodeCount(r.parsed.tree))
    decreases |tokens| - pos, 1
  {
    var token := TokenAt(tokens, pos);
    var _ := NewNode(arena);
    ghost var before := arena.blocks;
    var lhs: Node;
    var p: nat;
    match token.kind {
      case Number =>
        lhs, p := Leaf(Strtol(token.lexeme)), pos + 1;
      case Plus =>
        var operand := ParseExpr(arena, tokens, pos + 1, PrefixBindingPower(Minus).s);
        if operand.Err? {
          return Err(operand.error);
        }
        lhs, p := Prefix(Pos, operand.parsed.tree), operand.parsed.next;
      case Minus =>
        var operand := ParseExpr(arena, tokens, pos + 1, PrefixBindingPower(Minus).s);
        if operand.Err? {
          return Err(operand.error);
        }
        lhs, p := Prefix(Neg, operand.parsed.tree), operand.parsed.next;
      case _ =>
        return Err(ExpectedOperand(token));
    }
    assert NodesAdded(old(arena.blocks), arena.blocks, NodeCount(lhs));
    r := OperatorLoop(arena, tokens, p, minBp, lhs);
  }

  /** The body of one operator-loop iteration after the operator is consumed:
      the right-hand side, then one block for the infix node that joins it. */
  method ParseOperand(arena: Arena.Arena, tokens: seq<Token>, pos: nat, minBp: nat) returns (r: Result)
    requires pos <= |tokens|
    requires arena.Valid()
    modifies arena
    ensures arena.Valid()
    ensures r == ExprBp(tokens, pos, minBp)
    ensures r.Ok? ==> NodesAdded(old(arena.blocks), arena.blocks, NodeCount(r.parsed.tree) + 1)
    decreases |tokens| - pos, 2
  {
    r := ParseExpr(arena, tokens, pos, minBp);
    if r.Ok? {
      ghost var mid := arena.blocks;
      var _ := NewNode(arena);
      NodesAddedTrans(old(arena.blocks), mid, arena.blocks, NodeCount(r.parsed.tree), 1);
    }
  }

  /** The `while(1)` loop of `expr_bp`: each iteration that does not return parses
      a right-hand side and allocates one block for the new infix node. */
  method OperatorLoop(arena: Arena.Arena, tokens: seq<Token>, pos: nat, minBp: nat, lhs: Node) returns (r: Result)
    requires pos <= |tokens|
    requires arena.Valid()
    modifies arena
    ensures arena.Valid()
    ensures r == Loop(tokens, pos, minBp, lhs)
    ensures r.Ok? ==> NodesAdded(old(arena.blocks), arena.blocks, NodeCount(r.parsed.tree) - NodeCount(lhs))
    decreases |tokens| - pos, 0
  {
    var p := pos;
    var tree := lhs;
    while true
      invariant pos <= p <= |tokens|
      invariant Loop(tokens, p, minBp, tree) == Loop(tokens, pos, minBp, lhs)
      invariant arena.Valid()
      invariant NodesAdded(old(arena.blocks), arena.blocks, NodeCount(tree) - NodeCount(lhs))
      decreases |tokens| - p
    {
      var token := TokenAt(tokens, p);
      if token.kind == Eof {
        return Ok(Parsed(tree, p));
      } else if !IsBinaryOperator(token.kind) {
        return Err(ExpectedBinaryOperator(token));
      }
      var bp := InfixBindingPower(token.kind);
      if bp.f < minBp {
        return Ok(Parsed(tree, p));
      }
      ghost var before := arena.blocks;
      var rhs := ParseOperand(arena, tokens, p + 1, bp.s);
      if rhs.Err? {
        return Err(rhs.error);
      }
      NodesAddedTrans(old(arena.blocks), before, arena.blocks, NodeCount(tree) - NodeCount(lhs), NodeCount(rhs.parsed.tree) + 1);
      tree := Binop(ParseNodeType(token.kind), tree, rhs.parsed.tree);
      p := rhs.parsed.next;
    }
  }

  /** The decimal digits of a natural number, as `printf("%ld")` writes it. */
  function NatToString(n: nat): (s: string)
    ensures |s| >= 1
    ensures forall k :: 0 <= k < |s| ==> '0' <= s[k] <= '9'
  {
    var digit := ['0' + (n % 10) as char];
    if n < 10 then digit else NatToString(n / 10) + digit
  }

  function IntToString(i: int): string {
    if i < 0 then "-" + NatToString(-i) else NatToString(i)
  }

  /** The S-expression `print_tree` writes for a tree. */
  function Show(n: Node): string {
    match n
    case Leaf(v) => IntToString(v)
    case Prefix(k, e) => "(" + [ParseTypeToChar(k)] + " " + Show(e) + ")"
    case Binop(k, l, r) => "(" + [ParseTypeToChar(k)] + " " + Show(l) + " " + Show(r) + ")"
  }
}
