/** What the parser of pratt_parser.c guarantees: the binding-power tables encode
    left associativity and two precedence tiers below the prefix operators, every
    tree it returns reads back as exactly the tokens it consumed, and every tree is
    nested the way those tiers demand. */
module PrattProperties {
  import opened Tokens
  import opened PrattParser
  import Tlex

  // ---------------------------------------------------------------------------
  // The tables

  /** Each binary operator binds tighter on its right than on its left (left
      associativity); the multiplicative tier starts above where the additive
      tier ends; the prefix operand power is above every infix left power. */
  lemma BindingPowerTiers(add: TokenType, mul: TokenType, any: TokenType)
    requires add == Plus || add == Minus
    requires mul == Star || mul == Slash
    requires IsBinaryOperator(any)
    ensures InfixBindingPower(add).f < InfixBindingPower(add).s
    ensures InfixBindingPower(mul).f < InfixBindingPower(mul).s
    ensures InfixBindingPower(mul).f >= InfixBindingPower(add).s
    ensures InfixBindingPower(any).f < PrefixBindingPower(Minus).s
    ensures PrefixBindingPower(Plus) == PrefixBindingPower(Minus)
  {
  }

  /** The character `parse_type_to_char` prints for the node a binary operator builds
      is the character the tokenizer reads as that operator. */
  lemma NodeTypeCharRoundTrip(t: TokenType)
    requires IsBinaryOperator(t)
    ensures Tlex.Punctuation(ParseTypeToChar(ParseNodeType(t))) == Some(t)
  {
  }

  /** The same holds for the two prefix node types. */
  lemma PrefixCharRoundTrip()
    ensures Tlex.Punctuation(ParseTypeToChar(Pos)) == Some(Plus)
    ensures Tlex.Punctuation(ParseTypeToChar(Neg)) == Some(Minus)
  {
  }

  // ---------------------------------------------------------------------------
  // Number values

  /** On a string of decimal digits `strtol` reads the whole string. */
  lemma StrtolOfDigits(s: string)
    requires forall k :: 0 <= k < |s| ==> '0' <= s[k] <= '9'
    ensures Strtol(s) == DigitsValue(s)
  {
    assert s[..DigitPrefix(s)] == s;
  }

  /** The lexeme of every number token the tokenizer yields is a non-empty digit
      run, so the leaf the parser builds from it holds the value of all its digits. */
  lemma NumberTokenValue(text: string, start: nat)
    requires start <= |text|
    requires Tlex.Scan(text, start).token.kind == Number
    ensures Tlex.Scan(text, start).token.lexeme != []
    ensures Strtol(Tlex.Scan(text, start).token.lexeme) == DigitsValue(Tlex.Scan(text, start).token.lexeme)
  {
    StrtolOfDigits(Tlex.Scan(text, start).token.lexeme);
  }

  /** The digits `%ld` writes for a natural number are its decimal representation. */
  lemma {:induction false} NatToStringValue(n: nat)
    ensures DigitsValue(NatToString(n)) == n
  {
    var s := NatToString(n);
    if n >= 10 {
      NatToStringValue(n / 10);
      assert s[..|s| - 1] == NatToString(n / 10);
    }
  }

  /** A leaf printed by `print_tree` and read back by `strtol` gives its value again. */
  lemma LeafPrintRoundTrip(n: nat)
    ensures Strtol(Show(Leaf(n))) == n
  {
    NatToStringValue(n);
    StrtolOfDigits(NatToString(n));
  }

  // ---------------------------------------------------------------------------
  // Reading a tree back as tokens

  /** A token as the parser sees it: a number's value, or an operator. */
  datatype Sym = NumSym(value: int) | OpSym(op: TokenType)

  function TokenSym(t: Token): Sym {
    if t.kind == Number then NumSym(Strtol(t.lexeme)) else OpSym(t.kind)
  }

  function Syms(ts: seq<Token>): (r: seq<Sym>)
    ensures |r| == |ts|
  {
    seq(|ts|, i requires 0 <= i < |ts| => TokenSym(ts[i]))
  }

  /** The operator token a node type stands for. */
  function OpToken(k: ParseType): TokenType {
    match k
    case Pos | Sum => Plus
    case Neg | Min => Minus
    case Mul => Star
    case Div => Slash
    case Num => Number
  }

  /** The infix reading of a tree: a number, a prefix operator before its operand,
      an infix operator between its operands. */
  function Flatten(n: Node): seq<Sym> {
    match n
    case Leaf(v) => [NumSym(v)]
    case Prefix(k, e) => [OpSym(OpToken(k))] + Flatten(e)
    case Binop(k, l, r) => Flatten(l) + [OpSym(OpToken(k))] + Flatten(r)
  }

  /** Every node contributes exactly one symbol to the reading. */
  lemma {:induction false} FlattenLength(n: Node)
    ensures |Flatten(n)| == NodeCount(n)
  {
    match n
    case Leaf(_) =>
    case Prefix(_, e) => FlattenLength(e);
    case Binop(_, l, r) => FlattenLength(l); FlattenLength(r);
  }

  lemma SymsSplit(tokens: seq<Token>, a: nat, b: nat, c: nat)
    requires a <= b <= c <= |tokens|
    ensures Syms(tokens[a..c]) == Syms(tokens[a..b]) + Syms(tokens[b..c])
  {
    assert tokens[a..c] == tokens[a..b] + tokens[b..c];
  }

  /** The node a binary operator token builds stands for that operator again. */
  lemma OpTokenOfNodeType(t: TokenType)
    requires IsBinaryOperator(t)
    ensures OpToken(ParseNodeType(t)) == t
  {
  }

  /** Joining a left-hand side and a right-hand side with the operator between them
      reads back as the tokens of the three, in order. */
  lemma FlattenJoin(tokens: seq<Token>, start: nat, pos: nat, next: nat, lhs: Node, rhs: Node)
    requires start <= pos < next <= |tokens|
    requires IsBinaryOperator(tokens[pos].kind)
    requires Flatten(lhs) == Syms(tokens[start..pos])
    requires Flatten(rhs) == Syms(tokens[pos + 1..next])
    ensures Flatten(Binop(ParseNodeType(tokens[pos].kind), lhs, rhs)) == Syms(tokens[start..next])
  {
    OpTokenOfNodeType(tokens[pos].kind);
    assert Syms(tokens[pos..pos + 1]) == [OpSym(tokens[pos].kind)];
    SymsSplit(tokens, start, pos, pos + 1);
    SymsSplit(tokens, start, pos + 1, next);
  }

  /** The tree `expr_bp` returns reads back as exactly the tokens it consumed, in order. */
  lemma {:induction false} ExprBpFlattens(tokens: seq<Token>, pos: nat, minBp: nat)
    requires pos <= |tokens|
    requires ExprBp(tokens, pos, minBp).Ok?
    ensures var p := ExprBp(tokens, pos, minBp).parsed;
            Flatten(p.tree) == Syms(tokens[pos..p.next])
    decreases |tokens| - pos, 1
  {
    var token := TokenAt(tokens, pos);
    assert Syms(tokens[pos..pos + 1]) == [TokenSym(token)];
    match token.kind
    case Number =>
      LoopFlattens(tokens, pos + 1, minBp, Leaf(Strtol(token.lexeme)), pos);
    case Plus =>
      ExprBpFlattens(tokens, pos + 1, PrefixBindingPower(Minus).s);
      var operand := ExprBp(tokens, pos + 1, PrefixBindingPower(Minus).s).parsed;
      SymsSplit(tokens, pos, pos + 1, operand.next);
      LoopFlattens(tokens, operand.next, minBp, Prefix(Pos, operand.tree), pos);
    case Minus =>
      ExprBpFlattens(tokens, pos + 1, PrefixBindingPower(Minus).s);
      var operand := ExprBp(tokens, pos + 1, PrefixBindingPower(Minus).s).parsed;
      SymsSplit(tokens, pos, pos + 1, operand.next);
      LoopFlattens(tokens, operand.next, minBp, Prefix(Neg, operand.tree), pos);
  }

  /** The operator loop extends a left-hand side that reads back as the tokens from
      `start` to `pos` into a tree that reads back as the tokens from `start` to where it stops. */
  lemma {:induction false} LoopFlattens(tokens: seq<Token>, pos: nat, minBp: nat, lhs: Node, start: nat)
    requires start <= pos <= |tokens|
    requires Flatten(lhs) == Syms(tokens[start..pos])
    requires Loop(tokens, pos, minBp, lhs).Ok?
    ensures var p := Loop(tokens, pos, minBp, lhs).parsed;
            Flatten(p.tree) == Syms(tokens[start..p.next])
    decreases |tokens| - pos, 0
  {
    var token := TokenAt(tokens, pos);
    if token.kind != Eof && IsBinaryOperator(token.kind) && InfixBindingPower(token.kind).f >= minBp {
      var bp := InfixBindingPower(token.kind);
      ExprBpFlattens(tokens, pos + 1, bp.s);
      var rhs := ExprBp(tokens, pos + 1, bp.s).parsed;
      var tree := Binop(ParseNodeType(token.kind), lhs, rhs.tree);
      FlattenJoin(tokens, start, pos, rhs.next, lhs, rhs.tree);
      LoopFlattens(tokens, rhs.next, minBp, tree, start);
    }
  }

  /** One node is allocated per token consumed. */
  lemma NodeCountIsTokensConsumed(tokens: seq<Token>, pos: nat, minBp: nat)
    requires pos <= |tokens|
    requires ExprBp(tokens, pos, minBp).Ok?
    ensures var p := ExprBp(tokens, pos, minBp).parsed;
            NodeCount(p.tree) == p.next - pos
  {
    ExprBpFlattens(tokens, pos, minBp);
    FlattenLength(ExprBp(tokens, pos, minBp).parsed.tree);
  }

  // ---------------------------------------------------------------------------
  // Precedence and associativity

  /** The left binding power of the operator that built an infix node. */
  function Lbp(k: ParseType): nat {
    if k == Mul || k == Div then InfixBindingPower(Star).f else InfixBindingPower(Plus).f
  }

  /** A tree nested as the tables demand: prefix nodes are `+`/`-` and never take an
      infix node as operand; an infix node's left child binds at least as tightly as it
      (same-tier chains lean left) and its right child strictly tighter. */
  predicate Nested(n: Node) {
    match n
    case Leaf(_) => true
    case Prefix(k, e) => (k == Pos || k == Neg) && !e.Binop? && Nested(e)
    case Binop(k, l, r) =>
      (k == Sum || k == Min || k == Mul || k == Div) &&
      Nested(l) && Nested(r) &&
      (l.Binop? ==> Lbp(l.kind) >= Lbp(k)) &&
      (r.Binop? ==> Lbp(r.kind) > Lbp(k))
  }

  /** The root of an infix tree binds at least as tightly as the caller's floor. */
  predicate RootBinds(n: Node, minBp: nat) {
    n.Binop? ==> Lbp(n.kind) >= minBp
  }

  /** Where `expr_bp` may stop: at end-of-input, or before an operator whose left power is below the floor. */
  predicate Stops(tokens: seq<Token>, i: nat, minBp: nat) {
    var t := TokenAt(tokens, i);
    t.kind == Eof || (IsBinaryOperator(t.kind) && InfixBindingPower(t.kind).f < minBp)
  }

  /** What the operator loop needs of its left-hand side: if it is an infix node, the
      operator ahead does not bind more tightly than it. */
  predicate Fenced(lhs: Node, tokens: seq<Token>, i: nat) {
    var t := TokenAt(tokens, i);
    lhs.Binop? && IsBinaryOperator(t.kind) ==> InfixBindingPower(t.kind).f <= Lbp(lhs.kind)
  }

  lemma LbpOfNodeType(t: TokenType)
    requires IsBinaryOperator(t)
    ensures Lbp(ParseNodeType(t)) == InfixBindingPower(t).f
  {
  }

  /** Every tree `expr_bp` returns is nested as the tables demand, its root is not
      looser than the floor, and it stops only where the source's loop breaks. */
  lemma {:induction false} ExprBpNested(tokens: seq<Token>, pos: nat, minBp: nat)
    requires pos <= |tokens|
    requires ExprBp(tokens, pos, minBp).Ok?
    ensures var p := ExprBp(tokens, pos, minBp).parsed;
            Nested(p.tree) && RootBinds(p.tree, minBp) && Stops(tokens, p.next, minBp)
    decreases |tokens| - pos, 1
  {
    var token := TokenAt(tokens, pos);
    var prefixBp := PrefixBindingPower(Minus).s;
    match token.kind
    case Number =>
      LoopNested(tokens, pos + 1, minBp, Leaf(Strtol(token.lexeme)));
    case Plus =>
      ExprBpNested(tokens, pos + 1, prefixBp);
      var operand := ExprBp(tokens, pos + 1, prefixBp).parsed;
      LoopNested(tokens, operand.next, minBp, Prefix(Pos, operand.tree));
    case Minus =>
      ExprBpNested(tokens, pos + 1, prefixBp);
      var operand := ExprBp(tokens, pos + 1, prefixBp).parsed;
      LoopNested(tokens, operand.next, minBp, Prefix(Neg, operand.tree));
  }

  lemma {:induction false} LoopNested(tokens: seq<Token>, pos: nat, minBp: nat, lhs: Node)
    requires pos <= |tokens|
    requires Nested(lhs) && RootBinds(lhs, minBp) && Fenced(lhs, tokens, pos)
    requires Loop(tokens, pos, minBp, lhs).Ok?
    ensures var p := Loop(tokens, pos, minBp, lhs).parsed;
            Nested(p.tree) && RootBinds(p.tree, minBp) && Stops(tokens, p.next, minBp)
    decreases |tokens| - pos, 0
  {
    var token := TokenAt(tokens, pos);
    if token.kind != Eof && IsBinaryOperator(token.kind) && InfixBindingPower(token.kind).f >= minBp {
      var bp := InfixBindingPower(token.kind);
      ExprBpNested(tokens, pos + 1, bp.s);
      var rhs := ExprBp(tokens, pos + 1, bp.s).parsed;
      LbpOfNodeType(token.kind);
      var tree := Binop(ParseNodeType(token.kind), lhs, rhs.tree);
      assert Nested(tree);
      LoopNested(tokens, rhs.next, minBp, tree);
    }
  }

  // ---------------------------------------------------------------------------
  // How the source's branches decide

  /** Every "Expected a number or a prefix operator" abort names a token that opens no term. */
  lemma {:induction false} OperandErrorFound(tokens: seq<Token>, pos: nat, minBp: nat)
    requires pos <= |tokens|
    ensures var r := ExprBp(tokens, pos, minBp);
            r.Err? && r.error.ExpectedOperand? ==> r.error.found.kind !in {Number, Plus, Minus}
    decreases |tokens| - pos, 1
  {
    var token := TokenAt(tokens, pos);
    if token.kind == Number {
      LoopOperandErrorFound(tokens, pos + 1, minBp, Leaf(Strtol(token.lexeme)));
    } else if token.kind == Plus || token.kind == Minus {
      OperandErrorFound(tokens, pos + 1, PrefixBindingPower(Minus).s);
      var operand := ExprBp(tokens, pos + 1, PrefixBindingPower(Minus).s);
      if operand.Ok? {
        var k := if token.kind == Plus then Pos else Neg;
        LoopOperandErrorFound(tokens, operand.parsed.next, minBp, Prefix(k, operand.parsed.tree));
      }
    }
  }

  /** The operator loop's aborts on a missing operand come from a right-hand side. */
  lemma {:induction false} LoopOperandErrorFound(tokens: seq<Token>, pos: nat, minBp: nat, lhs: Node)
    requires pos <= |tokens|
    ensures var r := Loop(tokens, pos, minBp, lhs);
            r.Err? && r.error.ExpectedOperand? ==> r.error.found.kind !in {Number, Plus, Minus}
    decreases |tokens| - pos, 0
  {
    var token := TokenAt(tokens, pos);
    if token.kind != Eof && IsBinaryOperator(token.kind) && InfixBindingPower(token.kind).f >= minBp {
      var bp := InfixBindingPower(token.kind);
      OperandErrorFound(tokens, pos + 1, bp.s);
      var rhs := ExprBp(tokens, pos + 1, bp.s);
      if rhs.Ok? {
        LoopOperandErrorFound(tokens, rhs.parsed.next, minBp, Binop(ParseNodeType(token.kind), lhs, rhs.parsed.tree));
      }
    }
  }

  /** A term must open with a number or a prefix `+`/`-`: the parse aborts on the
      token at `pos` with "Expected a number or a prefix operator" exactly when it does not. */
  lemma LeadTermRequired(tokens: seq<Token>, pos: nat, minBp: nat)
    requires pos <= |tokens|
    ensures ExprBp(tokens, pos, minBp) == Err(ExpectedOperand(TokenAt(tokens, pos))) <==>
            TokenAt(tokens, pos).kind !in {Number, Plus, Minus}
  {
    OperandErrorFound(tokens, pos, minBp);
  }

  /** The operator loop returns at end-of-input and, without consuming, before an
      operator below the floor; any other non-operator token aborts. */
  lemma LoopDecisions(tokens: seq<Token>, pos: nat, minBp: nat, lhs: Node)
    requires pos <= |tokens|
    ensures TokenAt(tokens, pos).kind == Eof ==> Loop(tokens, pos, minBp, lhs) == Ok(Parsed(lhs, pos))
    ensures Stops(tokens, pos, minBp) ==> Loop(tokens, pos, minBp, lhs) == Ok(Parsed(lhs, pos))
    ensures TokenAt(tokens, pos).kind != Eof && !IsBinaryOperator(TokenAt(tokens, pos).kind) ==>
              Loop(tokens, pos, minBp, lhs) == Err(ExpectedBinaryOperator(TokenAt(tokens, pos)))
  {
  }

  // ---------------------------------------------------------------------------
  // Three-number chains

  /** The leaf `expr_bp` builds from a number token. */
  function NumLeaf(t: Token): Node {
    Leaf(Strtol(t.lexeme))
  }

  /** Two operators of one tier group to the left: `a o1 b o2 c` is `(o2 (o1 a b) c)`. */
  lemma SameTierGroupsLeft(a: Token, o1: Token, b: Token, o2: Token, c: Token)
    requires a.kind == Number && b.kind == Number && c.kind == Number
    requires IsBinaryOperator(o1.kind) && IsBinaryOperator(o2.kind)
    requires InfixBindingPower(o1.kind) == InfixBindingPower(o2.kind)
    ensures ExprBp([a, o1, b, o2, c], 0, 0) ==
            Ok(Parsed(Binop(ParseNodeType(o2.kind), Binop(ParseNodeType(o1.kind), NumLeaf(a), NumLeaf(b)), NumLeaf(c)), 5))
  {
    var ts := [a, o1, b, o2, c];
    var bp := InfixBindingPower(o1.kind);
    var left := Binop(ParseNodeType(o1.kind), NumLeaf(a), NumLeaf(b));
    var tree := Binop(ParseNodeType(o2.kind), left, NumLeaf(c));
    assert Loop(ts, 3, bp.s, NumLeaf(b)) == Ok(Parsed(NumLeaf(b), 3));
    assert ExprBp(ts, 2, bp.s) == Ok(Parsed(NumLeaf(b), 3));
    assert Loop(ts, 5, bp.s, NumLeaf(c)) == Ok(Parsed(NumLeaf(c), 5));
    assert ExprBp(ts, 4, bp.s) == Ok(Parsed(NumLeaf(c), 5));
    assert Loop(ts, 5, 0, tree) == Ok(Parsed(tree, 5));
    assert Loop(ts, 3, 0, left) == Ok(Parsed(tree, 5));
    assert Loop(ts, 1, 0, NumLeaf(a)) == Ok(Parsed(tree, 5));
  }

  /** An additive operator followed by a multiplicative one: `a o1 b o2 c` is `(o1 a (o2 b c))`. */
  lemma HigherTierNestsRight(a: Token, o1: Token, b: Token, o2: Token, c: Token)
    requires a.kind == Number && b.kind == Number && c.kind == Number
    requires o1.kind == Plus || o1.kind == Minus
    requires o2.kind == Star || o2.kind == Slash
    ensures ExprBp([a, o1, b, o2, c], 0, 0) ==
            Ok(Parsed(Binop(ParseNodeType(o1.kind), NumLeaf(a), Binop(ParseNodeType(o2.kind), NumLeaf(b), NumLeaf(c))), 5))
  {
    var ts := [a, o1, b, o2, c];
    var right := Binop(ParseNodeType(o2.kind), NumLeaf(b), NumLeaf(c));
    var tree := Binop(ParseNodeType(o1.kind), NumLeaf(a), right);
    assert Loop(ts, 5, 4, NumLeaf(c)) == Ok(Parsed(NumLeaf(c), 5));
    assert ExprBp(ts, 4, 4) == Ok(Parsed(NumLeaf(c), 5));
    assert Loop(ts, 5, 2, right) == Ok(Parsed(right, 5));
    assert Loop(ts, 3, 2, NumLeaf(b)) == Ok(Parsed(right, 5));
    assert ExprBp(ts, 2, 2) == Ok(Parsed(right, 5));
    assert Loop(ts, 5, 0, tree) == Ok(Parsed(tree, 5));
    assert Loop(ts, 1, 0, NumLeaf(a)) == Ok(Parsed(tree, 5));
  }

  /** A multiplicative operator followed by an additive one: `a o1 b o2 c` is `(o2 (o1 a b) c)`. */
  lemma LowerTierClosesLeft(a: Token, o1: Token, b: Token, o2: Token, c: Token)
    requires a.kind == Number && b.kind == Number && c.kind == Number
    requires o1.kind == Star || o1.kind == Slash
    requires o2.kind == Plus || o2.kind == Minus
    ensures ExprBp([a, o1, b, o2, c], 0, 0) ==
            Ok(Parsed(Binop(ParseNodeType(o2.kind), Binop(ParseNodeType(o1.kind), NumLeaf(a), NumLeaf(b)), NumLeaf(c)), 5))
  {
    var ts := [a, o1, b, o2, c];
    var left := Binop(ParseNodeType(o1.kind), NumLeaf(a), NumLeaf(b));
    var tree := Binop(ParseNodeType(o2.kind), left, NumLeaf(c));
    assert Loop(ts, 3, 4, NumLeaf(b)) == Ok(Parsed(NumLeaf(b), 3));
    assert ExprBp(ts, 2, 4) == Ok(Parsed(NumLeaf(b), 3));
    assert Loop(ts, 5, 2, NumLeaf(c)) == Ok(Parsed(NumLeaf(c), 5));
    assert ExprBp(ts, 4, 2) == Ok(Parsed(NumLeaf(c), 5));
    assert Loop(ts, 5, 0, tree) == Ok(Parsed(tree, 5));
    assert Loop(ts, 3, 0, left) == Ok(Parsed(tree, 5));
    assert Loop(ts, 1, 0, NumLeaf(a)) == Ok(Parsed(tree, 5));
  }

  /** A prefix sign takes only the number behind it: `p a o b` is `(o (p a) b)`. */
  lemma PrefixTakesOperandOnly(p: Token, a: Token, o: Token, b: Token)
    requires p.kind == Plus || p.kind == Minus
    requires a.kind == Number && b.kind == Number
    requires IsBinaryOperator(o.kind)
    ensures var sign := if p.kind == Plus then Pos else Neg;
            ExprBp([p, a, o, b], 0, 0) ==
            Ok(Parsed(Binop(ParseNodeType(o.kind), Prefix(sign, NumLeaf(a)), NumLeaf(b)), 4))
  {
    var ts := [p, a, o, b];
    var sign := if p.kind == Plus then Pos else Neg;
    var bp := InfixBindingPower(o.kind);
    var tree := Binop(ParseNodeType(o.kind), Prefix(sign, NumLeaf(a)), NumLeaf(b));
    assert Loop(ts, 2, 5, NumLeaf(a)) == Ok(Parsed(NumLeaf(a), 2));
    assert ExprBp(ts, 1, 5) == Ok(Parsed(NumLeaf(a), 2));
    assert Loop(ts, 4, bp.s, NumLeaf(b)) == Ok(Parsed(NumLeaf(b), 4));
    assert ExprBp(ts, 3, bp.s) == Ok(Parsed(NumLeaf(b), 4));
    assert Loop(ts, 4, 0, tree) == Ok(Parsed(tree, 4));
    assert Loop(ts, 2, 0, Prefix(sign, NumLeaf(a))) == Ok(Parsed(tree, 4));
  }

  /** An operator with nothing behind it aborts on end-of-input: `a o` has no tree. */
  lemma MissingOperandAborts(a: Token, o: Token)
    requires a.kind == Number && IsBinaryOperator(o.kind)
    ensures ExprBp([a, o], 0, 0) == Err(ExpectedOperand(EofToken))
  {
    var ts := [a, o];
    assert ExprBp(ts, 2, InfixBindingPower(o.kind).s) == Err(ExpectedOperand(EofToken));
    assert Loop(ts, 1, 0, NumLeaf(a)) == Err(ExpectedOperand(EofToken));
  }
}
