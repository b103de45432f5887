/**
 * The recursive-descent parser (lib/parser.rs).
 *
 * The `Parser` class keeps the token vector and the `current` cursor and
 * advances it exactly as the source does. Every method is proved against
 * a pure function of the tokens and the starting position (the functions
 * named `...At`), which gives the method's result together with the
 * position the cursor ends at, on success and on error alike. The
 * properties the grammar promises (what `check`, `matches` and
 * `pop_expect` do to the cursor, left-nested operator levels, the
 * assignment targets, the `for` desugaring, where `synchronize` stops,
 * the comma rule of struct and enum bodies) are stated about those
 * functions.
 *
 * The cursor functions require a well-formed token vector: it ends with
 * the end-of-file token the scanner always appends, and the cursor is
 * inside it. The source indexes the vector without a check, so a cursor
 * outside it panics there.
 */
module Parser {
  import opened Wrappers
  import opened Errors
  import opened Types
  import Values
  import opened Ast
  import Lang

  /** The tokens end with `Eof`. */
  predicate WellFormed(ts: seq<Token>)
  {
    |ts| > 0 && ts[|ts| - 1].tokenType == Eof
  }

  /** A cursor position the source can index. */
  predicate ValidAt(ts: seq<Token>, p: nat)
  {
    WellFormed(ts) && p < |ts|
  }

  /** The token just before position `q` has type `tt`. */
  predicate PrecededBy(ts: seq<Token>, q: nat, tt: TokenType)
  {
    0 < q <= |ts| && ts[q - 1].tokenType == tt
  }

  /** What a parsing function returns, paired with where the cursor ends. */
  datatype Parsed<T> = Parsed(result: Result<T, LangError>, pos: nat)

  // ---------------------------------------------------------------- the cursor

  /** `is_at_end`. */
  predicate IsAtEndAt(ts: seq<Token>, p: nat)
    requires ValidAt(ts, p)
  {
    ts[p].tokenType == Eof
  }

  /** `check`: false at the end of the input, whatever the expected type. */
  predicate CheckAt(ts: seq<Token>, p: nat, tt: TokenType)
    requires ValidAt(ts, p)
    ensures CheckAt(ts, p, tt) ==> !IsAtEndAt(ts, p) && p + 1 < |ts|
  {
    !IsAtEndAt(ts, p) && TokenTypeEq(ts[p].tokenType, tt)
  }

  /** Where `advance` leaves the cursor: one step on, except at the end of the input. */
  function AdvancePos(ts: seq<Token>, p: nat): (q: nat)
    requires ValidAt(ts, p)
    ensures ValidAt(ts, q)
    ensures q == p || q == p + 1
    ensures q == p <==> IsAtEndAt(ts, p)
  {
    if IsAtEndAt(ts, p) then p else p + 1
  }

  /** The token `advance` returns: the one before the new cursor (a cursor left at 0 would underflow). */
  function AdvanceToken(ts: seq<Token>, p: nat): (t: Token)
    requires ValidAt(ts, p)
    requires p > 0 || !IsAtEndAt(ts, p)
    ensures !IsAtEndAt(ts, p) ==> t == ts[p]
    ensures IsAtEndAt(ts, p) ==> t == ts[p - 1]
  {
    ts[AdvancePos(ts, p) - 1]
  }

  /**
   * Where `matches(tts)` leaves the cursor: the types are tried in order
   * and the first that `check`s advances one token.
   */
  function MatchesPos(ts: seq<Token>, p: nat, tts: seq<TokenType>): (q: nat)
    requires ValidAt(ts, p)
    ensures ValidAt(ts, q) && (q == p || q == p + 1)
    ensures q == p + 1 <==> exists i :: 0 <= i < |tts| && CheckAt(ts, p, tts[i])
    ensures q == p <==> forall i :: 0 <= i < |tts| ==> !CheckAt(ts, p, tts[i])
    decreases |tts|
  {
    if tts == [] then p
    else if CheckAt(ts, p, tts[0]) then AdvancePos(ts, p)
    else
      var q := MatchesPos(ts, p, tts[1..]);
      assert forall i :: 1 <= i < |tts| ==> tts[i] == tts[1..][i - 1];
      q
  }

  /** `matches` with a single token type: `check`, then `advance` when it holds. */
  function MatchPos(ts: seq<Token>, p: nat, tt: TokenType): (q: nat)
    requires ValidAt(ts, p)
    ensures ValidAt(ts, q)
    ensures q == (if CheckAt(ts, p, tt) then p + 1 else p)
  {
    if CheckAt(ts, p, tt) then AdvancePos(ts, p) else p
  }

  /** A single-type `matches` is `matches` on a one-element list. */
  lemma MatchPosIsMatchesPos(ts: seq<Token>, p: nat, tt: TokenType)
    requires ValidAt(ts, p)
    ensures MatchPos(ts, p, tt) == MatchesPos(ts, p, [tt])
  {
    assert MatchesPos(ts, p, [tt][1..]) == p;
  }

  /** `pop_expect`: the token of the expected type, consumed, or an error at the current token with the cursor left alone. */
  function PopExpectAt(ts: seq<Token>, p: nat, tt: TokenType, message: string): (r: Parsed<Token>)
    requires ValidAt(ts, p)
    ensures ValidAt(ts, r.pos)
    ensures r.result.Ok? <==> CheckAt(ts, p, tt)
    ensures r.result.Ok? ==> r.pos == p + 1 && r.result.value == ts[p] && TokenTypeEq(r.result.value.tokenType, tt)
    ensures r.result.Err? ==> r.pos == p && r.result.error == Lang.Error(ts[p], message)
  {
    if CheckAt(ts, p, tt) then Parsed(Ok(AdvanceToken(ts, p)), AdvancePos(ts, p))
    else Parsed(Err(Lang.Error(ts[p], message)), p)
  }

  /** The token kinds at which `synchronize` stops before consuming. */
  predicate StartsStatement(tt: TokenType)
  {
    tt == FnKw || tt == Let || tt == For || tt == TokenType.If || tt == TokenType.While ||
    tt == TokenType.Print || tt == TokenType.Return
  }

  /** `synchronize`: one token is skipped, then tokens up to a statement boundary. */
  function SynchronizeAt(ts: seq<Token>, p: nat): (q: nat)
    requires ValidAt(ts, p)
    requires p > 0 || !IsAtEndAt(ts, p)
    ensures ValidAt(ts, q) && q >= p && q > 0
    ensures IsAtEndAt(ts, q) || PrecededBy(ts, q, SemiColon) || StartsStatement(ts[q].tokenType)
  {
    SkipToBoundary(ts, AdvancePos(ts, p))
  }

  /** The loop of `synchronize`. */
  function SkipToBoundary(ts: seq<Token>, p: nat): (q: nat)
    requires ValidAt(ts, p) && p > 0
    ensures ValidAt(ts, q) && q >= p
    ensures IsAtEndAt(ts, q) || PrecededBy(ts, q, SemiColon) || StartsStatement(ts[q].tokenType)
    decreases |ts| - p
  {
    if IsAtEndAt(ts, p) then p
    else if ts[p - 1].tokenType == SemiColon then p
    else if StartsStatement(ts[p].tokenType) then p
    else SkipToBoundary(ts, AdvancePos(ts, p))
  }

  /**
   * `TypeAnnotation::check_token_type`, which the parser calls on the
   * token after a ':' or '->'. Its definition is not part of this model;
   * it is taken to be `check_token_type2` on the token, with the report at
   * the quoted lexeme that `Lang.ErrorIr` stands for as its error.
   */
  function CheckTypeToken(t: Token): (r: Result<(), LangError>)
    ensures r.Ok? <==> t.tokenType.Type? || t.tokenType == Identifier
  {
    if t.tokenType.Type? || t.tokenType == Identifier then Ok(())
    else Err(Lang.Report(t.line, "at '" + t.lexeme + "'",
      "invalid type annotation expected a type annotation, found '" + DisplayTokenType(t.tokenType) + "'"))
  }

  /** `CheckTypeToken` is `check_token_type2` on the token's type, line and lexeme, with `Lang.ErrorIr` as the error builder. */
  lemma CheckTypeTokenIsCheckTokenType2(t: Token)
    ensures CheckTypeToken(t) == CheckTokenType2(t.tokenType, t.line, t.lexeme, Lang.ErrorIr)
  {
  }

  /**
   * Which tokens the parser accepts as a type annotation does not depend
   * on how the error is built: every error builder gives the same verdict.
   */
  lemma CheckTypeTokenVerdict(t: Token, errorIr: (nat, string, string) -> LangError)
    ensures CheckTypeToken(t).Ok? <==> CheckTokenType2(t.tokenType, t.line, t.lexeme, errorIr).Ok?
  {
  }

  /** A loop that returns an extension of `acc + [x]` returns a longer extension of `acc`. */
  lemma PrefixKept<T>(r: Parsed<seq<T>>, acc: seq<T>, x: T)
    requires r.result.Ok? ==> acc + [x] <= r.result.value
    ensures r.result.Ok? ==> acc < r.result.value
  {
    if r.result.Ok? {
      assert (acc + [x])[..|acc|] == acc;
      assert r.result.value[..|acc|] == r.result.value[..|acc| + 1][..|acc|];
    }
  }

  /** `previous`: the token before the cursor. */
  function PreviousAt(ts: seq<Token>, p: nat): (t: Token)
    requires ValidAt(ts, p) && p > 0
    ensures t == ts[p - 1]
  {
    ts[p - 1]
  }

  // ---------------------------------------------------------------- expressions

  /** A literal expression of the given value and annotation. */
  function LiteralOf(v: Values.Value, t: TypeAnnotation): (e: Expr)
    ensures e.Literal? && e.literalExpr.value == Values.TypedValue(v, t)
  {
    Literal(NewLiteralExpr(Values.TypedValue(v, t)))
  }

  /** The operators of the six binary levels, from the loosest (`or`) to the tightest (`*`, `/`). */
  function LevelOperators(k: nat): (ops: seq<TokenType>)
    requires k <= 5
    ensures |ops| >= 1 && forall i :: 0 <= i < |ops| ==> !ops[i].Type?
  {
    if k == 0 then [Or]
    else if k == 1 then [And]
    else if k == 2 then [BangEqual, EqualEqual]
    else if k == 3 then [Greater, GreaterEqual, Less, LessEqual]
    else if k == 4 then [Minus, Plus]
    else [Slash, Star]
  }

  /** The level an operator token belongs to; 6 for any other token. */
  function OpLevel(tt: TokenType): (k: nat)
    ensures k <= 6
    ensures k < 6 ==> tt in LevelOperators(k)
  {
    if tt == Or then 0
    else if tt == And then 1
    else if tt == BangEqual || tt == EqualEqual then 2
    else if tt == Greater || tt == GreaterEqual || tt == Less || tt == LessEqual then 3
    else if tt == Minus || tt == Plus then 4
    else if tt == Slash || tt == Star then 5
    else 6
  }

  /** Every operator of level `k` has level `k`. */
  lemma OperatorsHaveTheirLevel(k: nat, tt: TokenType)
    requires k <= 5 && tt in LevelOperators(k)
    ensures OpLevel(tt) == k
  {
  }

  /** The two- and one-child operator nodes. */
  predicate IsOperatorNode(e: Expr)
  {
    e.Binary? || e.Logical?
  }

  /** The level of an expression's top operator; 6 when the top is not a binary or logical operator. */
  function NodeLevel(e: Expr): (k: nat)
    ensures k <= 6
    ensures k < 6 ==> IsOperatorNode(e)
  {
    match e
    case Logical(l) => OpLevel(l.operator.tokenType)
    case Binary(b) => OpLevel(b.operator.tokenType)
    case _ => 6
  }

  function LeftOf(e: Expr): Expr
    requires IsOperatorNode(e)
  {
    if e.Binary? then e.binaryExpr.left else e.logicalExpr.left
  }

  function RightOf(e: Expr): Expr
    requires IsOperatorNode(e)
  {
    if e.Binary? then e.binaryExpr.right else e.logicalExpr.right
  }

  /**
   * Left association at level `k`: an expression parsed at level `k` is
   * a chain of level-`k` nodes down its left operands, every right operand
   * and the innermost left operand binding tighter than `k`. So
   * `a - b - c` is `(a - b) - c`, and `a - (b - c)` without the
   * parentheses is never built.
   */
  predicate LeftNested(e: Expr, k: nat)
    decreases e
  {
    NodeLevel(e) >= k &&
    (NodeLevel(e) == k < 6 ==>
      NodeLevel(RightOf(e)) > k &&
      match e
      case Binary(b) => LeftNested(b.left, k)
      case Logical(l) => LeftNested(l.left, k)
      case _ => false)
  }

  /** The node a level builds: `Logical` for `or` and `and`, `Binary` for the others. */
  function LevelNode(k: nat, left: Expr, op: Token, right: Expr): (e: Expr)
    requires k <= 5
    ensures k <= 1 ==> e == Logical(LogicalExpr(left, op, right))
    ensures k >= 2 ==> e == Binary(BinaryExpr(left, op, right))
    ensures IsOperatorNode(e) && LeftOf(e) == left && RightOf(e) == right
    ensures NodeLevel(e) == OpLevel(op.tokenType)
  {
    if k <= 1 then Logical(LogicalExpr(left, op, right)) else Binary(BinaryExpr(left, op, right))
  }

  /** `a - b - c` is left-nested: two level-`k` nodes down the left operand over tighter operands. */
  lemma ChainIsLeftNested(k: nat, a: Expr, op1: Token, b: Expr, op2: Token, c: Expr)
    requires k <= 5 && op1.tokenType in LevelOperators(k) && op2.tokenType in LevelOperators(k)
    requires NodeLevel(a) > k && NodeLevel(b) > k && NodeLevel(c) > k
    ensures LeftNested(LevelNode(k, LevelNode(k, a, op1, b), op2, c), k)
  {
    OperatorsHaveTheirLevel(k, op1.tokenType);
    OperatorsHaveTheirLevel(k, op2.tokenType);
  }

  /**
   * A level-`k` node whose right operand is itself a level-`k` node is
   * never left-nested, however deep in the left operands it sits: neither
   * `a - (b - c)` nor `(a - (b - c)) - d` is a level-`k` parse.
   */
  lemma RightNestingIsNotLeftNested(k: nat, a: Expr, op1: Token, b: Expr, op2: Token, c: Expr, op3: Token, d: Expr)
    requires k <= 5
    requires op1.tokenType in LevelOperators(k) && op2.tokenType in LevelOperators(k) && op3.tokenType in LevelOperators(k)
    ensures !LeftNested(LevelNode(k, a, op1, LevelNode(k, b, op2, c)), k)
    ensures !LeftNested(LevelNode(k, LevelNode(k, a, op1, LevelNode(k, b, op2, c)), op3, d), k)
  {
    OperatorsHaveTheirLevel(k, op1.tokenType);
    OperatorsHaveTheirLevel(k, op2.tokenType);
    OperatorsHaveTheirLevel(k, op3.tokenType);
  }

  /** A matched level operator gives the node it builds that level. */
  lemma MatchedOperatorLevel(ts: seq<Token>, p: nat, k: nat)
    requires ValidAt(ts, p) && k <= 5
    requires MatchesPos(ts, p, LevelOperators(k)) == p + 1
    ensures OpLevel(ts[p].tokenType) == k
  {
    var ops := LevelOperators(k);
    forall i | 0 <= i < |ops| && CheckAt(ts, p, ops[i])
      ensures ts[p].tokenType in ops
    {
      assert ts[p].tokenType == ops[i];
    }
    OperatorsHaveTheirLevel(k, ts[p].tokenType);
  }

  /** `expression`. */
  function ExpressionAt(ts: seq<Token>, p: nat): (r: Parsed<Expr>)
    requires ValidAt(ts, p)
    ensures ValidAt(ts, r.pos) && r.pos >= p
    ensures r.result.Ok? ==> r.pos > p
    decreases |ts| - p, 40
  {
    AssignmentAt(ts, p)
  }

  /**
   * What `assignment` makes of `target = value`: a variable becomes an
   * assignment, a property access a `Set`, an indexing a
   * `SetArrayElement`; anything else is an error at the '='.
   */
  function AssignTarget(target: Expr, value: Expr, equals: Token): (r: Result<Expr, LangError>)
    ensures target.Variable? ==> r == Ok(Assign(AssignExpr(value, target.variableExpr.name)))
    ensures target.Get? ==> r == Ok(Set(SetExpr(target.getExpr.name, target.getExpr.obj, value)))
    ensures target.Index? ==>
      r == Ok(SetArrayElement(SetArrayElementExpr(target.indexExpr.index, target.indexExpr.from, value)))
    ensures r.Err? <==> !(target.Variable? || target.Get? || target.Index?)
    ensures r.Err? ==> r.error == Lang.Error(equals, "Invalid assignment target")
  {
    match target
    case Variable(v) => Ok(Assign(AssignExpr(value, v.name)))
    case Get(g) => Ok(Set(SetExpr(g.name, g.obj, value)))
    case Index(i) => Ok(SetArrayElement(SetArrayElementExpr(i.index, i.from, value)))
    case _ => Err(Lang.Error(equals, "Invalid assignment target"))
  }

  /** `assignment`: the value is itself an assignment, so `a = b = c` is `a = (b = c)`. */
  function AssignmentAt(ts: seq<Token>, p: nat): (r: Parsed<Expr>)
    requires ValidAt(ts, p)
    ensures ValidAt(ts, r.pos) && r.pos >= p
    ensures r.result.Ok? ==> r.pos > p
    decreases |ts| - p, 39
  {
    var e := LevelAt(ts, p, 0);
    if e.result.Err? then e
    else
      var q := MatchPos(ts, e.pos, Equal);
      if q == e.pos then e
      else CombineAssign(e.result.value, PreviousAt(ts, q), AssignmentAt(ts, q))
  }

  /** The value after '=' is parsed first: its error is the result; otherwise `AssignTarget` combines the two. */
  function CombineAssign(target: Expr, equals: Token, v: Parsed<Expr>): (r: Parsed<Expr>)
    ensures v.result.Err? ==> r == v
    ensures v.result.Ok? ==> r == Parsed(AssignTarget(target, v.result.value, equals), v.pos)
  {
    if v.result.Err? then v
    else Parsed(AssignTarget(target, v.result.value, equals), v.pos)
  }

  /** One step of `assignment`. */
  lemma AssignmentUnfold(ts: seq<Token>, p: nat)
    requires ValidAt(ts, p)
    ensures AssignmentAt(ts, p) == (
      var e := LevelAt(ts, p, 0);
      if e.result.Err? then e
      else
        var q := MatchPos(ts, e.pos, Equal);
        if q == e.pos then e else CombineAssign(e.result.value, PreviousAt(ts, q), AssignmentAt(ts, q)))
  {
  }

  /** Without a following '=', `assignment` is the `or` expression it parsed, or that parse's error. */
  lemma AssignmentWithoutEqual(ts: seq<Token>, p: nat)
    requires ValidAt(ts, p)
    requires LevelAt(ts, p, 0).result.Err? || !CheckAt(ts, LevelAt(ts, p, 0).pos, Equal)
    ensures AssignmentAt(ts, p) == LevelAt(ts, p, 0)
  {
    AssignmentUnfold(ts, p);
  }

  /**
   * When '=' follows a parsed `or` expression, the value after the '='
   * is parsed by `assignment` again, so `a = b = c` is `a = (b = c)`, and
   * the two are combined by `AssignTarget`, with the '=' token for its
   * error.
   */
  lemma AssignmentWithEqual(ts: seq<Token>, p: nat)
    requires ValidAt(ts, p)
    requires LevelAt(ts, p, 0).result.Ok? && CheckAt(ts, LevelAt(ts, p, 0).pos, Equal)
    ensures var e := LevelAt(ts, p, 0);
      AssignmentAt(ts, p) == CombineAssign(e.result.value, ts[e.pos], AssignmentAt(ts, e.pos + 1))
  {
    AssignmentUnfold(ts, p);
    var e := LevelAt(ts, p, 0);
    assert PreviousAt(ts, MatchPos(ts, e.pos, Equal)) == ts[e.pos];
  }

  /**
   * Assignment is right-associative: in `x = y = rest`, the value
   * assigned to `x` is the assignment of `rest` to `y`.
   */
  lemma AssignmentIsRightAssociative(ts: seq<Token>, p: nat)
    requires ValidAt(ts, p) && p + 4 < |ts|
    requires ts[p].tokenType == Identifier && ts[p + 1].tokenType == Equal
    requires ts[p + 2].tokenType == Identifier && ts[p + 3].tokenType == Equal
    ensures var v := AssignmentAt(ts, p + 4);
      AssignmentAt(ts, p) == if v.result.Err? then v
        else Parsed(Ok(Assign(AssignExpr(Assign(AssignExpr(v.result.value, ts[p + 2])), ts[p]))), v.pos)
  {
    AssignmentToVariable(ts, p + 2);
    AssignmentToVariable(ts, p);
  }

  /** `x = rest` assigns the assignment parsed from `rest` to the variable `x`. */
  lemma AssignmentToVariable(ts: seq<Token>, p: nat)
    requires ValidAt(ts, p) && p + 2 < |ts|
    requires ts[p].tokenType == Identifier && ts[p + 1].tokenType == Equal
    ensures var v := AssignmentAt(ts, p + 2);
      AssignmentAt(ts, p) == if v.result.Err? then v
        else Parsed(Ok(Assign(AssignExpr(v.result.value, ts[p]))), v.pos)
  {
    VariableBeforeEqual(ts, p, 0);
    var x := Variable(VariableExpr(ts[p]));
    assert LevelAt(ts, p, 0) == Parsed(Ok(x), p + 1);
    assert CheckAt(ts, p + 1, Equal);
    AssignmentWithEqual(ts, p);
    assert AssignmentAt(ts, p) == CombineAssign(x, ts[p + 1], AssignmentAt(ts, p + 2));
  }

  /** An identifier followed by '=' parses, at every binary level, to the variable it names. */
  lemma {:induction false} VariableBeforeEqual(ts: seq<Token>, q: nat, k: nat)
    requires ValidAt(ts, q) && q + 1 < |ts| && k <= 5
    requires ts[q].tokenType == Identifier && ts[q + 1].tokenType == Equal
    ensures LevelAt(ts, q, k) == Parsed(Ok(Variable(VariableExpr(ts[q]))), q + 1)
    decreases 5 - k
  {
    if k == 5 {
      UnaryOfVariable(ts, q);
    } else {
      VariableBeforeEqual(ts, q, k + 1);
    }
    NoLevelOperatorAt(ts, q + 1, k);
  }

  /** No binary level has '=' among its operators. */
  lemma NoLevelOperatorAt(ts: seq<Token>, p: nat, k: nat)
    requires ValidAt(ts, p) && k <= 5 && ts[p].tokenType == Equal
    ensures MatchesPos(ts, p, LevelOperators(k)) == p
  {
    if MatchesPos(ts, p, LevelOperators(k)) != p {
      MatchedOperatorLevel(ts, p, k);
      assert false;
    }
  }

  /** An identifier followed by '=' is a variable to `unary`. */
  lemma UnaryOfVariable(ts: seq<Token>, q: nat)
    requires ValidAt(ts, q) && q + 1 < |ts|
    requires ts[q].tokenType == Identifier && ts[q + 1].tokenType == Equal
    ensures UnaryAt(ts, q) == Parsed(Ok(Variable(VariableExpr(ts[q]))), q + 1)
  {
    assert MatchesPos(ts, q, [Bang, Minus]) == q;
    CallOfVariable(ts, q);
  }

  /** An identifier followed by '=' is a variable to `call`: no '(' or '.' follows. */
  lemma CallOfVariable(ts: seq<Token>, q: nat)
    requires ValidAt(ts, q) && q + 1 < |ts|
    requires ts[q].tokenType == Identifier && ts[q + 1].tokenType == Equal
    ensures CallAt(ts, q) == Parsed(Ok(Variable(VariableExpr(ts[q]))), q + 1)
  {
    PrimaryOfVariable(ts, q);
    assert !CheckAt(ts, q + 1, LeftParen) && !CheckAt(ts, q + 1, Dot);
  }

  /** An identifier followed by '=' is a variable to `primary`. */
  lemma PrimaryOfVariable(ts: seq<Token>, q: nat)
    requires ValidAt(ts, q) && q + 1 < |ts|
    requires ts[q].tokenType == Identifier && ts[q + 1].tokenType == Equal
    ensures PrimaryAt(ts, q) == Parsed(Ok(Variable(VariableExpr(ts[q]))), q + 1)
  {
    PrimaryPassesIdentifier(ts, q);
    PrimaryValuePassesIdentifier(ts, q);
    CompoundOfVariable(ts, q);
  }

  /** `self`, `false`, `true` and `()` do not match an identifier. */
  lemma PrimaryPassesIdentifier(ts: seq<Token>, q: nat)
    requires ValidAt(ts, q) && ts[q].tokenType == Identifier
    ensures PrimaryAt(ts, q) == PrimaryValueAt(ts, q)
  {
    assert MatchPos(ts, q, TokenType.SelfIdent) == q && MatchPos(ts, q, False) == q;
    assert MatchPos(ts, q, True) == q && MatchPos(ts, q, UnitKw) == q;
  }

  /** Integer, float and string literals do not match an identifier. */
  lemma PrimaryValuePassesIdentifier(ts: seq<Token>, q: nat)
    requires ValidAt(ts, q) && ts[q].tokenType == Identifier
    ensures PrimaryValueAt(ts, q) == PrimaryCompoundAt(ts, q)
  {
    assert MatchPos(ts, q, Integer) == q && MatchPos(ts, q, Float) == q && MatchPos(ts, q, StringLit) == q;
  }

  /** An identifier followed by '=' is a variable to the compound forms of `primary`. */
  lemma CompoundOfVariable(ts: seq<Token>, q: nat)
    requires ValidAt(ts, q) && q + 1 < |ts|
    requires ts[q].tokenType == Identifier && ts[q + 1].tokenType == Equal
    ensures PrimaryCompoundAt(ts, q) == Parsed(Ok(Variable(VariableExpr(ts[q]))), q + 1)
  {
    assert MatchPos(ts, q, Identifier) == q + 1;
    IdentifierTailOfVariable(ts, q + 1);
  }

  /** After an identifier, a following '=' leaves the bare variable. */
  lemma IdentifierTailOfVariable(ts: seq<Token>, p: nat)
    requires ValidAt(ts, p) && p > 0 && ts[p].tokenType == Equal
    ensures IdentifierTailAt(ts, p) == Parsed(Ok(Variable(VariableExpr(ts[p - 1]))), p)
  {
    assert !CheckAt(ts, p, LeftBracket) && MatchPos(ts, p, PathSeparator) == p;
  }

  /** `or`, `and`, `equality`, `comparison`, `addition` and `multiplication`, as levels 0 to 5. */
  function LevelAt(ts: seq<Token>, p: nat, k: nat): (r: Parsed<Expr>)
    requires ValidAt(ts, p) && k <= 5
    ensures ValidAt(ts, r.pos) && r.pos >= p
    ensures r.result.Ok? ==> r.pos > p && LeftNested(r.result.value, k)
    decreases |ts| - p, 30 - 3 * k
  {
    var e := OperandAt(ts, p, k);
    if e.result.Err? then e
    else LevelLoopAt(ts, e.pos, k, e.result.value)
  }

  /** The operand of level `k`: the next tighter level, or `unary` below `*` and `/`. */
  function OperandAt(ts: seq<Token>, p: nat, k: nat): (r: Parsed<Expr>)
    requires ValidAt(ts, p) && k <= 5
    ensures ValidAt(ts, r.pos) && r.pos >= p
    ensures r.result.Ok? ==> r.pos > p && NodeLevel(r.result.value) > k
    decreases |ts| - p, 29 - 3 * k
  {
    if k == 5 then UnaryAt(ts, p) else LevelAt(ts, p, k + 1)
  }

  /** The loop of a binary level: while an operator of the level follows, parse a tighter operand and nest to the left. */
  function LevelLoopAt(ts: seq<Token>, p: nat, k: nat, left: Expr): (r: Parsed<Expr>)
    requires ValidAt(ts, p) && k <= 5 && LeftNested(left, k)
    ensures ValidAt(ts, r.pos) && r.pos >= p
    ensures r.result.Ok? ==> LeftNested(r.result.value, k)
    ensures r.pos == p ==> r.result == Ok(left)
    decreases |ts| - p, 28 - 3 * k
  {
    var q := MatchesPos(ts, p, LevelOperators(k));
    if q == p then Parsed(Ok(left), p)
    else
      var op := PreviousAt(ts, q);
      MatchedOperatorLevel(ts, p, k);
      var right := OperandAt(ts, q, k);
      if right.result.Err? then right
      else
        var e := LevelNode(k, left, op, right.result.value);
        assert NodeLevel(e) == k;
        LevelLoopAt(ts, right.pos, k, e)
  }

  /** `unary`: prefix `!` and `-` nest to the right. */
  function UnaryAt(ts: seq<Token>, p: nat): (r: Parsed<Expr>)
    requires ValidAt(ts, p)
    ensures ValidAt(ts, r.pos) && r.pos >= p
    ensures r.result.Ok? ==> r.pos > p && !IsOperatorNode(r.result.value)
    decreases |ts| - p, 10
  {
    var q := MatchesPos(ts, p, [Bang, Minus]);
    if q > p then
      var op := PreviousAt(ts, q);
      var right := UnaryAt(ts, q);
      if right.result.Err? then right
      else Parsed(Ok(Unary(UnaryExpr(op, right.result.value))), right.pos)
    else CallAt(ts, p)
  }

  /** `call`: a primary followed by any number of argument lists and property accesses. */
  function CallAt(ts: seq<Token>, p: nat): (r: Parsed<Expr>)
    requires ValidAt(ts, p)
    ensures ValidAt(ts, r.pos) && r.pos >= p
    ensures r.result.Ok? ==> r.pos > p && !IsOperatorNode(r.result.value)
    decreases |ts| - p, 9
  {
    var e := PrimaryAt(ts, p);
    if e.result.Err? then e
    else CallLoopAt(ts, e.pos, e.result.value)
  }

  /** The loop of `call`: a step for each '(' or '.', until neither follows. */
  function CallLoopAt(ts: seq<Token>, p: nat, e: Expr): (r: Parsed<Expr>)
    requires ValidAt(ts, p)
    ensures ValidAt(ts, r.pos) && r.pos >= p
    ensures r.result.Ok? ==> r.result.value == e || r.result.value.Call? || r.result.value.Get?
    decreases |ts| - p, 8
  {
    if CheckAt(ts, p, LeftParen) || CheckAt(ts, p, Dot) then
      var step := CallStepAt(ts, p, e);
      if step.result.Err? then step
      else CallLoopAt(ts, step.pos, step.result.value)
    else Parsed(Ok(e), p)
  }

  /** One step of the loop of `call`: `matches(LeftParen)` finishes a call, otherwise `matches(Dot)` reads a property. */
  function CallStepAt(ts: seq<Token>, p: nat, e: Expr): (r: Parsed<Expr>)
    requires ValidAt(ts, p) && (CheckAt(ts, p, LeftParen) || CheckAt(ts, p, Dot))
    ensures ValidAt(ts, r.pos) && r.pos > p
    ensures r.result.Ok? ==> r.result.value.Call? || r.result.value.Get?
    decreases |ts| - p, 7
  {
    var q := MatchPos(ts, p, LeftParen);
    if q > p then FinishCallAt(ts, q, e)
    else PropertyAt(ts, MatchPos(ts, p, Dot), e)
  }

  /** The property name after '.', wrapped around the target expression as a `Get`. */
  function PropertyAt(ts: seq<Token>, p: nat, target: Expr): (r: Parsed<Expr>)
    requires ValidAt(ts, p)
    ensures ValidAt(ts, r.pos) && r.pos >= p
    ensures r.result.Ok? ==> r.pos == p + 1 && r.result.value == Get(GetExpr(ts[p], target))
    ensures r.result.Err? ==> r.pos == p
  {
    var name := PopExpectAt(ts, p, Identifier, "Expected property name after '.'");
    if name.result.Err? then Parsed(Err(name.result.error), name.pos)
    else Parsed(Ok(Get(GetExpr(name.result.value, target))), name.pos)
  }

  /** `finish_call`: the arguments after '(' and the closing ')'. */
  function FinishCallAt(ts: seq<Token>, p: nat, callee: Expr): (r: Parsed<Expr>)
    requires ValidAt(ts, p)
    ensures ValidAt(ts, r.pos) && r.pos >= p
    ensures r.result.Ok? ==> r.result.value.Call? && r.result.value.callExpr.callee == callee
    decreases |ts| - p, 43
  {
    var args := if !CheckAt(ts, p, RightParen) then CommaSeparatedAt(ts, p, []) else Parsed(Ok([]), p);
    if args.result.Err? then Parsed(Err(args.result.error), args.pos)
    else
      var close := PopExpectAt(ts, args.pos, RightParen, "Expect ')' after function arguments");
      if close.result.Err? then Parsed(Err(close.result.error), close.pos)
      else Parsed(Ok(Call(CallExpr(args.result.value, callee))), close.pos)
  }

  /**
   * The loop shared by argument lists and array literals: an expression,
   * then another after each ','.
   */
  function CommaSeparatedAt(ts: seq<Token>, p: nat, acc: seq<Expr>): (r: Parsed<seq<Expr>>)
    requires ValidAt(ts, p)
    ensures ValidAt(ts, r.pos) && r.pos >= p
    ensures r.result.Ok? ==> r.pos > p && acc < r.result.value
    decreases |ts| - p, 42
  {
    var e := ExpressionAt(ts, p);
    if e.result.Err? then Parsed(Err(e.result.error), e.pos)
    else
      var items := acc + [e.result.value];
      var q := MatchPos(ts, e.pos, Comma);
      if q == e.pos then Parsed(Ok(items), e.pos)
      else
        var r := CommaSeparatedAt(ts, q, items);
        PrefixKept(r, acc, e.result.value);
        r
  }

  /**
   * The annotation of an integer or float literal: the narrow type when
   * the literal is followed by ';' and the token two places before it is
   * that type (as in `let x: i32 = 5;`), and the wide type otherwise.
   */
  function LiteralAnnotation(ts: seq<Token>, q: nat, narrow: TypeAnnotation, wide: TypeAnnotation): (t: TypeAnnotation)
    requires ValidAt(ts, q) && q > 0
    ensures t == narrow || t == wide
    ensures narrow != wide ==>
      (t == narrow <==> CheckAt(ts, q, SemiColon) && q > 3 && ts[q - 3].tokenType == Type(narrow))
  {
    if CheckAt(ts, q, SemiColon) && q - 1 > 2 && ts[q - 3].tokenType == Type(narrow) then narrow else wide
  }

  /**
   * The annotation token of an array literal: the token three places
   * before the cursor, when it is a type (as in
   * `let a: Array<i32> = [1, 2];`, where it is the annotation's type
   * token). With fewer than three tokens before the
   * cursor there is no such token.
   */
  function ArrayTypeToken(ts: seq<Token>, current: nat): (t: Option<Token>)
    requires ValidAt(ts, current)
    ensures t.Some? <==> current >= 3 && ts[current - 3].tokenType.Type?
    ensures t.Some? ==> t.value == ts[current - 3]
  {
    if current >= 3 && ts[current - 3].tokenType.Type? then Some(ts[current - 3]) else None
  }

  /** `primary`: `self`, `false`, `true` and `()`; the other forms follow. */
  function PrimaryAt(ts: seq<Token>, p: nat): (r: Parsed<Expr>)
    requires ValidAt(ts, p)
    ensures ValidAt(ts, r.pos) && r.pos >= p
    ensures r.result.Ok? ==> r.pos > p && !IsOperatorNode(r.result.value)
    ensures r.result.Err? && r.pos == p ==> r.result.error == Lang.Error(ts[p], "Expected expression")
    decreases |ts| - p, 7
  {
    var q := MatchPos(ts, p, TokenType.SelfIdent);
    if q > p then Parsed(Ok(Expr.SelfIdent(SelfIdentExpr(PreviousAt(ts, q)))), q)
    else
      var q := MatchPos(ts, p, False);
      if q > p then Parsed(Ok(LiteralOf(Values.Boolean(false), Bool)), q)
      else
        var q := MatchPos(ts, p, True);
        if q > p then Parsed(Ok(LiteralOf(Values.Boolean(true), Bool)), q)
        else
          var q := MatchPos(ts, p, UnitKw);
          if q > p then Parsed(Ok(LiteralOf(Values.Unit, TypeAnnotation.Unit)), q)
          else PrimaryValueAt(ts, p)
  }

  /** `primary`: integer, float and string literals, which carry the value the scanner gave the token. */
  function PrimaryValueAt(ts: seq<Token>, p: nat): (r: Parsed<Expr>)
    requires ValidAt(ts, p)
    ensures ValidAt(ts, r.pos) && r.pos >= p
    ensures r.result.Ok? ==> r.pos > p && !IsOperatorNode(r.result.value)
    ensures r.result.Err? && r.pos == p ==> r.result.error == Lang.Error(ts[p], "Expected expression")
    decreases |ts| - p, 6
  {
    var q := MatchPos(ts, p, Integer);
    if q > p then Parsed(Ok(LiteralOf(PreviousAt(ts, q).value, LiteralAnnotation(ts, q, I32, I64))), q)
    else
      var q := MatchPos(ts, p, Float);
      if q > p then Parsed(Ok(LiteralOf(PreviousAt(ts, q).value, LiteralAnnotation(ts, q, F32, F64))), q)
      else
        var q := MatchPos(ts, p, StringLit);
        if q > p then Parsed(Ok(LiteralOf(PreviousAt(ts, q).value, TypeAnnotation.String)), q)
        else PrimaryCompoundAt(ts, p)
  }

  /** `self`, `false`, `true` and `()` each parse to their own expression, one token long. */
  lemma PrimaryKeywordLiterals(ts: seq<Token>, p: nat)
    requires ValidAt(ts, p)
    ensures ts[p].tokenType == TokenType.SelfIdent ==>
      PrimaryAt(ts, p) == Parsed(Ok(Expr.SelfIdent(SelfIdentExpr(ts[p]))), p + 1)
    ensures ts[p].tokenType == False ==> PrimaryAt(ts, p) == Parsed(Ok(LiteralOf(Values.Boolean(false), Bool)), p + 1)
    ensures ts[p].tokenType == True ==> PrimaryAt(ts, p) == Parsed(Ok(LiteralOf(Values.Boolean(true), Bool)), p + 1)
    ensures ts[p].tokenType == UnitKw ==>
      PrimaryAt(ts, p) == Parsed(Ok(LiteralOf(Values.Unit, TypeAnnotation.Unit)), p + 1)
  {
    var tt := ts[p].tokenType;
    if tt == TokenType.SelfIdent {
      assert MatchPos(ts, p, TokenType.SelfIdent) == p + 1;
    } else if tt == False {
      assert MatchPos(ts, p, TokenType.SelfIdent) == p && MatchPos(ts, p, False) == p + 1;
    } else if tt == True {
      assert MatchPos(ts, p, TokenType.SelfIdent) == p && MatchPos(ts, p, False) == p && MatchPos(ts, p, True) == p + 1;
    } else if tt == UnitKw {
      assert MatchPos(ts, p, TokenType.SelfIdent) == p && MatchPos(ts, p, False) == p;
      assert MatchPos(ts, p, True) == p && MatchPos(ts, p, UnitKw) == p + 1;
    }
  }

  /**
   * Integer, float and string literals carry the value the scanner gave
   * the token; numbers take the annotation `LiteralAnnotation` chooses.
   */
  lemma PrimaryValueLiterals(ts: seq<Token>, p: nat)
    requires ValidAt(ts, p)
    ensures ts[p].tokenType == Integer ==>
      PrimaryValueAt(ts, p) == Parsed(Ok(LiteralOf(ts[p].value, LiteralAnnotation(ts, p + 1, I32, I64))), p + 1)
    ensures ts[p].tokenType == Float ==>
      PrimaryValueAt(ts, p) == Parsed(Ok(LiteralOf(ts[p].value, LiteralAnnotation(ts, p + 1, F32, F64))), p + 1)
    ensures ts[p].tokenType == StringLit ==>
      PrimaryValueAt(ts, p) == Parsed(Ok(LiteralOf(ts[p].value, TypeAnnotation.String)), p + 1)
  {
    var tt := ts[p].tokenType;
    if tt == Integer {
      assert MatchPos(ts, p, Integer) == p + 1;
    } else if tt == Float {
      assert MatchPos(ts, p, Integer) == p && MatchPos(ts, p, Float) == p + 1;
    } else if tt == StringLit {
      assert MatchPos(ts, p, Integer) == p && MatchPos(ts, p, Float) == p && MatchPos(ts, p, StringLit) == p + 1;
    }
  }

  /** `primary`: identifiers (with an index or a path), groupings and array literals; anything else is an error. */
  function PrimaryCompoundAt(ts: seq<Token>, p: nat): (r: Parsed<Expr>)
    requires ValidAt(ts, p)
    ensures ValidAt(ts, r.pos) && r.pos >= p
    ensures r.result.Ok? ==> r.pos > p
    ensures r.result.Ok? ==> var e := r.result.value; e.Variable? || e.Index? || e.EnumPath? || e.Grouping? || e.Array?
    ensures r.result.Err? && r.pos == p ==> r.result.error == Lang.Error(ts[p], "Expected expression")
    decreases |ts| - p, 5
  {
    var q := MatchPos(ts, p, Identifier);
    if q > p then IdentifierTailAt(ts, q)
    else
      var q := MatchPos(ts, p, LeftParen);
      if q > p then
        var e := ExpressionAt(ts, q);
        if e.result.Err? then e
        else
          var close := PopExpectAt(ts, e.pos, RightParen, "Expect ')' after and expression");
          if close.result.Err? then Parsed(Err(close.result.error), close.pos)
          else Parsed(Ok(Grouping(GroupingExpr(e.result.value))), close.pos)
      else
        var q := MatchPos(ts, p, LeftBracket);
        if q > p then ArrayLiteralAt(ts, q)
        else Parsed(Err(Lang.Error(ts[p], "Expected expression")), p)
  }

  /** `primary` after an identifier: an index, an enum path, or the variable itself. */
  function IdentifierTailAt(ts: seq<Token>, p: nat): (r: Parsed<Expr>)
    requires ValidAt(ts, p) && p > 0
    ensures ValidAt(ts, r.pos) && r.pos >= p
    ensures r.result.Ok? ==> r.result.value.Index? || r.result.value.EnumPath? || r.result.value.Variable?
    ensures r.result.Ok? && !CheckAt(ts, p, LeftBracket) && !CheckAt(ts, p, PathSeparator) ==>
      r == Parsed(Ok(Variable(VariableExpr(ts[p - 1]))), p)
    decreases |ts| - p, 4
  {
    if CheckAt(ts, p, LeftBracket) then
      var from := PreviousAt(ts, p);
      var open := PopExpectAt(ts, p, LeftBracket, "Expected '[' after identifier");
      // the '[' was just checked, so this `pop_expect` cannot fail
      assert open.result.Ok?;
      var index := ExpressionAt(ts, open.pos);
      if index.result.Err? then index
      else
        var close := PopExpectAt(ts, index.pos, RightBracket, "Expected ']' after index expression");
        if close.result.Err? then Parsed(Err(close.result.error), close.pos)
        else Parsed(Ok(Index(IndexExpr(index.result.value, from))), close.pos)
    else
      var q := MatchPos(ts, p, PathSeparator);
      if q > p then
        var name := PreviousAt(ts, q);
        var items := EnumPathItemsAt(ts, q, []);
        if items.result.Err? then Parsed(Err(items.result.error), items.pos)
        else Parsed(Ok(EnumPath(EnumPathExpr(name, items.result.value))), items.pos)
      else Parsed(Ok(Variable(VariableExpr(PreviousAt(ts, p)))), p)
  }

  /** The loop of an enum path: identifiers up to a ';' or the end of the input. */
  function EnumPathItemsAt(ts: seq<Token>, p: nat, acc: seq<Token>): (r: Parsed<seq<Token>>)
    requires ValidAt(ts, p)
    ensures ValidAt(ts, r.pos) && r.pos >= p
    ensures r.result.Ok? ==>
      acc <= r.result.value &&
      (forall i :: |acc| <= i < |r.result.value| ==> r.result.value[i].tokenType == Identifier) &&
      (IsAtEndAt(ts, r.pos) || CheckAt(ts, r.pos, SemiColon))
    decreases |ts| - p
  {
    if CheckAt(ts, p, SemiColon) || IsAtEndAt(ts, p) then Parsed(Ok(acc), p)
    else
      var item := PopExpectAt(ts, p, Identifier, "expected ident");
      if item.result.Err? then Parsed(Err(item.result.error), item.pos)
      else
        var r := EnumPathItemsAt(ts, item.pos, acc + [item.result.value]);
        PrefixKept(r, acc, item.result.value);
        r
  }

  /** `primary` after '[': the annotation token, the elements and the closing ']'. */
  function ArrayLiteralAt(ts: seq<Token>, p: nat): (r: Parsed<Expr>)
    requires ValidAt(ts, p) && p > 0
    ensures ValidAt(ts, r.pos) && r.pos >= p
    ensures r.result.Ok? ==> r.result.value.Array? && r.result.value.arrayExpr.typeAnnotation == ArrayTypeToken(ts, p)
    decreases |ts| - p, 44
  {
    var annotation := ArrayTypeToken(ts, p);
    var elements := if !CheckAt(ts, p, RightBracket) then CommaSeparatedAt(ts, p, []) else Parsed(Ok([]), p);
    if elements.result.Err? then Parsed(Err(elements.result.error), elements.pos)
    else
      var close := PopExpectAt(ts, elements.pos, RightBracket, "Expect ']' after array expression");
      if close.result.Err? then Parsed(Err(close.result.error), close.pos)
      else Parsed(Ok(Expr.Array(ArrayExpr(annotation, elements.result.value))), close.pos)
  }

  // ---------------------------------------------------------------- statements

  /** The literal `true` a `for` without a condition loops on. */
  function TrueLiteral(): (e: Expr)
    ensures e.Literal? && e.literalExpr.value == Values.TypedValue(Values.Boolean(true), Bool)
  {
    LiteralOf(Values.Boolean(true), Bool)
  }

  /** `statement`: `break`, `for`, `if` and `print`; the other forms follow. */
  function StatementAt(ts: seq<Token>, p: nat): (r: Parsed<Stmt>)
    requires ValidAt(ts, p)
    ensures ValidAt(ts, r.pos) && r.pos >= p
    ensures r.result.Ok? ==> r.pos > p
    decreases |ts| - p, 70
  {
    var q := MatchPos(ts, p, TokenType.Break);
    if q > p then BreakStatementAt(ts, q)
    else
      var q := MatchPos(ts, p, For);
      if q > p then ForStatementAt(ts, q)
      else
        var q := MatchPos(ts, p, TokenType.If);
        if q > p then IfStatementAt(ts, q)
        else
          var q := MatchPos(ts, p, TokenType.Print);
          if q > p then PrintStatementAt(ts, q)
          else StatementRestAt(ts, p)
  }

  /** `statement`: `return`, `while` and blocks; any other statement is an expression statement. */
  function StatementRestAt(ts: seq<Token>, p: nat): (r: Parsed<Stmt>)
    requires ValidAt(ts, p)
    ensures ValidAt(ts, r.pos) && r.pos >= p
    ensures r.result.Ok? ==> r.pos > p
    decreases |ts| - p, 69
  {
    var q := MatchPos(ts, p, TokenType.Return);
    if q > p then ReturnStatementAt(ts, q)
    else
      var q := MatchPos(ts, p, TokenType.While);
      if q > p then WhileStatementAt(ts, q)
      else
        var q := MatchPos(ts, p, LeftBrace);
        if q > p then
          var b := BlockAt(ts, q);
          if b.result.Err? then Parsed(Err(b.result.error), b.pos)
          else Parsed(Ok(Stmt.Block(BlockStmt(b.result.value))), b.pos)
        else ExpressionStatementAt(ts, p)
  }

  /** `break_statement`. */
  function BreakStatementAt(ts: seq<Token>, p: nat): (r: Parsed<Stmt>)
    requires ValidAt(ts, p)
    ensures ValidAt(ts, r.pos) && r.pos >= p
    ensures r.result.Ok? <==> CheckAt(ts, p, SemiColon)
    ensures r.result.Ok? ==> r == Parsed(Ok(Stmt.Break), p + 1)
    ensures r.result.Err? ==> r == Parsed(Err(Lang.Error(ts[p], "expected ';' after 'break'")), p)
  {
    var semi := PopExpectAt(ts, p, SemiColon, "expected ';' after 'break'");
    if semi.result.Err? then Parsed(Err(semi.result.error), semi.pos)
    else Parsed(Ok(Stmt.Break), semi.pos)
  }

  /** An expression and the ';' after it, as `print_statement` and `expression_statement` read them. */
  function TerminatedExpressionAt(ts: seq<Token>, p: nat, message: string): (r: Parsed<Expr>)
    requires ValidAt(ts, p)
    ensures ValidAt(ts, r.pos) && r.pos >= p
    ensures r.result.Ok? ==> r.pos > p + 1 && PrecededBy(ts, r.pos, SemiColon)
    decreases |ts| - p, 41
  {
    var e := ExpressionAt(ts, p);
    if e.result.Err? then e
    else
      var semi := PopExpectAt(ts, e.pos, SemiColon, message);
      if semi.result.Err? then Parsed(Err(semi.result.error), semi.pos)
      else Parsed(e.result, semi.pos)
  }

  /** `print_statement`. */
  function PrintStatementAt(ts: seq<Token>, p: nat): (r: Parsed<Stmt>)
    requires ValidAt(ts, p)
    ensures ValidAt(ts, r.pos) && r.pos >= p
    ensures r.result.Ok? ==> r.pos > p && r.result.value.Print?
    decreases |ts| - p, 60
  {
    var e := TerminatedExpressionAt(ts, p, "Expect ';' after value.");
    if e.result.Err? then Parsed(Err(e.result.error), e.pos)
    else Parsed(Ok(Stmt.Print(PrintStmt(e.result.value))), e.pos)
  }

  /** `expression_statement`. */
  function ExpressionStatementAt(ts: seq<Token>, p: nat): (r: Parsed<Stmt>)
    requires ValidAt(ts, p)
    ensures ValidAt(ts, r.pos) && r.pos >= p
    ensures r.result.Ok? ==> r.pos > p && r.result.value.Expression?
    decreases |ts| - p, 60
  {
    var e := TerminatedExpressionAt(ts, p, "Expect ';' after expression.");
    if e.result.Err? then Parsed(Err(e.result.error), e.pos)
    else Parsed(Ok(Stmt.Expression(ExpressionStmt(e.result.value))), e.pos)
  }

  /** `return_statement`: the keyword is the token before the cursor; a bare `return;` returns the unit literal. */
  function ReturnStatementAt(ts: seq<Token>, p: nat): (r: Parsed<Stmt>)
    requires ValidAt(ts, p) && p > 0
    ensures ValidAt(ts, r.pos) && r.pos >= p
    ensures r.result.Ok? ==> r.pos > p && r.result.value.Return? && r.result.value.returnStmt.keyword == ts[p - 1]
    ensures r.result.Ok? && CheckAt(ts, p, SemiColon) ==> r.result.value.returnStmt.value == UnitLiteral()
    decreases |ts| - p, 60
  {
    var keyword := PreviousAt(ts, p);
    var v := if !CheckAt(ts, p, SemiColon) then ExpressionAt(ts, p) else Parsed(Ok(UnitLiteral()), p);
    if v.result.Err? then Parsed(Err(v.result.error), v.pos)
    else
      var semi := PopExpectAt(ts, v.pos, SemiColon, "Expect ';' after return value.");
      if semi.result.Err? then Parsed(Err(semi.result.error), semi.pos)
      else Parsed(Ok(Stmt.Return(ReturnStmt(keyword, v.result.value))), semi.pos)
  }

  /** `if_statement` up to the condition's ')'. */
  function IfStatementAt(ts: seq<Token>, p: nat): (r: Parsed<Stmt>)
    requires ValidAt(ts, p)
    ensures ValidAt(ts, r.pos) && r.pos >= p
    ensures r.result.Ok? ==> r.pos > p && r.result.value.If?
    decreases |ts| - p, 0
  {
    var open := PopExpectAt(ts, p, LeftParen, "Expect '(' after an 'if'.");
    if open.result.Err? then Parsed(Err(open.result.error), open.pos)
    else
      var c := ExpressionAt(ts, open.pos);
      if c.result.Err? then Parsed(Err(c.result.error), c.pos)
      else
        var close := PopExpectAt(ts, c.pos, RightParen, "Expect ')' after 'if' condition.");
        if close.result.Err? then Parsed(Err(close.result.error), close.pos)
        else IfBranchesAt(ts, close.pos, c.result.value)
  }

  /** `if_statement`: the then branch, and an else branch when `else` follows it. */
  function IfBranchesAt(ts: seq<Token>, p: nat, condition: Expr): (r: Parsed<Stmt>)
    requires ValidAt(ts, p)
    ensures ValidAt(ts, r.pos) && r.pos >= p
    ensures r.result.Ok? ==> r.pos > p && r.result.value.If? && r.result.value.ifStmt.condition == condition
    decreases |ts| - p, 71
  {
    var thenBranch := StatementAt(ts, p);
    if thenBranch.result.Err? then thenBranch
    else
      var q := MatchPos(ts, thenBranch.pos, Else);
      if q > thenBranch.pos then
        var elseBranch := StatementAt(ts, q);
        if elseBranch.result.Err? then elseBranch
        else Parsed(Ok(Stmt.If(IfStmt(condition, Some(elseBranch.result.value), thenBranch.result.value))), elseBranch.pos)
      else Parsed(Ok(Stmt.If(IfStmt(condition, None, thenBranch.result.value))), thenBranch.pos)
  }

  /** `while_statement`. */
  function WhileStatementAt(ts: seq<Token>, p: nat): (r: Parsed<Stmt>)
    requires ValidAt(ts, p)
    ensures ValidAt(ts, r.pos) && r.pos >= p
    ensures r.result.Ok? ==> r.pos > p && r.result.value.While?
    decreases |ts| - p, 0
  {
    var open := PopExpectAt(ts, p, LeftParen, "Expect '(' after 'while'");
    if open.result.Err? then Parsed(Err(open.result.error), open.pos)
    else
      var c := ExpressionAt(ts, open.pos);
      if c.result.Err? then Parsed(Err(c.result.error), c.pos)
      else
        var close := PopExpectAt(ts, c.pos, RightParen, "Expect ')' after condition");
        if close.result.Err? then Parsed(Err(close.result.error), close.pos)
        else
          var body := StatementAt(ts, close.pos);
          if body.result.Err? then body
          else Parsed(Ok(Stmt.While(WhileStmt(body.result.value, c.result.value))), body.pos)
  }

  /**
   * The statement `for (init; cond; incr) body` stands for: the body
   * followed by the increment, looped while the condition (or `true`)
   * holds, preceded by the initializer in a block of its own.
   */
  function ForDesugar(init: Option<Stmt>, cond: Option<Expr>, incr: Option<Expr>, body: Stmt): (s: Stmt)
    ensures init.Some? ==> s.Block? && |s.blockStmt.statements| == 2 && s.blockStmt.statements[0] == init.value
    ensures var loop := if init.Some? then s.blockStmt.statements[1] else s;
      loop.While? &&
      loop.whileStmt.condition == (if cond.Some? then cond.value else TrueLiteral()) &&
      loop.whileStmt.body ==
        (if incr.Some? then Stmt.Block(BlockStmt([body, Stmt.Expression(ExpressionStmt(incr.value))])) else body)
  {
    var body' := if incr.Some? then Stmt.Block(BlockStmt([body, Stmt.Expression(ExpressionStmt(incr.value))])) else body;
    var cond' := if cond.Some? then cond.value else TrueLiteral();
    var loop := Stmt.While(WhileStmt(body', cond'));
    if init.Some? then Stmt.Block(BlockStmt([init.value, loop])) else loop
  }

  /** `for_statement` up to the initializer. */
  function ForStatementAt(ts: seq<Token>, p: nat): (r: Parsed<Stmt>)
    requires ValidAt(ts, p)
    ensures ValidAt(ts, r.pos) && r.pos >= p
    ensures r.result.Ok? ==> r.pos > p
    decreases |ts| - p, 0
  {
    var open := PopExpectAt(ts, p, LeftParen, "Expect '(' after 'for'");
    if open.result.Err? then Parsed(Err(open.result.error), open.pos)
    else
      var init := ForInitializerAt(ts, open.pos);
      if init.result.Err? then Parsed(Err(init.result.error), init.pos)
      else ForClausesAt(ts, init.pos, init.result.value)
  }

  /** The initializer of a `for`: nothing before a ';', a `let` declaration, or an expression statement. */
  function ForInitializerAt(ts: seq<Token>, p: nat): (r: Parsed<Option<Stmt>>)
    requires ValidAt(ts, p) && p > 0
    ensures ValidAt(ts, r.pos) && r.pos >= p
    ensures r.result.Ok? ==> r.pos > p
    ensures r.result.Ok? && r.result.value.None? ==> CheckAt(ts, p, SemiColon) && r.pos == p + 1
    decreases |ts| - p, 65
  {
    var q := MatchPos(ts, p, SemiColon);
    if q > p then Parsed(Ok(None), q)
    else
      var q := MatchPos(ts, p, Let);
      if q > p then
        var l := LetDeclarationAt(ts, q);
        if l.result.Err? then Parsed(Err(l.result.error), l.pos)
        else Parsed(Ok(Some(l.result.value)), l.pos)
      else
        var e := ExpressionStatementAt(ts, p);
        if e.result.Err? then Parsed(Err(e.result.error), e.pos)
        else Parsed(Ok(Some(e.result.value)), e.pos)
  }

  /** An expression unless the cursor is at `stop`: the optional condition and increment of a `for`. */
  function OptionalExpressionAt(ts: seq<Token>, p: nat, stop: TokenType): (r: Parsed<Option<Expr>>)
    requires ValidAt(ts, p)
    ensures ValidAt(ts, r.pos) && r.pos >= p
    ensures r.result.Ok? ==> (r.result.value.None? <==> CheckAt(ts, p, stop))
    ensures r.result.Ok? && r.result.value.None? ==> r.pos == p
    decreases |ts| - p, 41
  {
    if CheckAt(ts, p, stop) then Parsed(Ok(None), p)
    else
      var e := ExpressionAt(ts, p);
      if e.result.Err? then Parsed(Err(e.result.error), e.pos)
      else Parsed(Ok(Some(e.result.value)), e.pos)
  }

  /** `for_statement`: the condition and its ';'. */
  function ForClausesAt(ts: seq<Token>, p: nat, init: Option<Stmt>): (r: Parsed<Stmt>)
    requires ValidAt(ts, p)
    ensures ValidAt(ts, r.pos) && r.pos >= p
    ensures r.result.Ok? ==> r.pos > p
    decreases |ts| - p, 62
  {
    var cond := OptionalExpressionAt(ts, p, SemiColon);
    if cond.result.Err? then Parsed(Err(cond.result.error), cond.pos)
    else
      var semi := PopExpectAt(ts, cond.pos, SemiColon, "Expect ';' after loop condition");
      if semi.result.Err? then Parsed(Err(semi.result.error), semi.pos)
      else ForIncrementAt(ts, semi.pos, init, cond.result.value)
  }

  /** `for_statement`: the increment, its ')', the body, and the desugared loop. */
  function ForIncrementAt(ts: seq<Token>, p: nat, init: Option<Stmt>, cond: Option<Expr>): (r: Parsed<Stmt>)
    requires ValidAt(ts, p)
    ensures ValidAt(ts, r.pos) && r.pos >= p
    ensures r.result.Ok? ==> r.pos > p
    ensures r.result.Ok? ==> exists incr, body :: r.result.value == ForDesugar(init, cond, incr, body)
    decreases |ts| - p, 61
  {
    var incr := OptionalExpressionAt(ts, p, RightParen);
    if incr.result.Err? then Parsed(Err(incr.result.error), incr.pos)
    else
      var close := PopExpectAt(ts, incr.pos, RightParen, "Expect ')' after for clauses");
      if close.result.Err? then Parsed(Err(close.result.error), close.pos)
      else
        var body := StatementAt(ts, close.pos);
        if body.result.Err? then body
        else Parsed(Ok(ForDesugar(init, cond, incr.result.value, body.result.value)), body.pos)
  }

  /**
   * An identifier, a ':', and the type token after it, which must be a
   * type or an identifier: the shape shared by `let` declarations,
   * struct fields and parameters.
   */
  function TypedNameAt(ts: seq<Token>, p: nat, nameMessage: string, colonMessage: string): (r: Parsed<(Token, Token)>)
    requires ValidAt(ts, p)
    ensures ValidAt(ts, r.pos) && r.pos >= p
    ensures r.result.Ok? ==>
      r.pos == p + 3 && r.result.value == (ts[p], ts[p + 2]) && ts[p].tokenType == Identifier &&
      ts[p + 1].tokenType == Colon && CheckTypeToken(ts[p + 2]).Ok?
    ensures r.result.Err? && r.pos == p ==> r.result.error == Lang.Error(ts[p], nameMessage)
  {
    var name := PopExpectAt(ts, p, Identifier, nameMessage);
    if name.result.Err? then Parsed(Err(name.result.error), name.pos)
    else
      var colon := PopExpectAt(ts, name.pos, Colon, colonMessage);
      if colon.result.Err? then Parsed(Err(colon.result.error), colon.pos)
      else
        var annotation := AdvanceToken(ts, colon.pos);
        var q := AdvancePos(ts, colon.pos);
        var checked := CheckTypeToken(annotation);
        if checked.Err? then Parsed(Err(checked.error), q)
        else Parsed(Ok((name.result.value, annotation)), q)
  }

  /** The initializer a `let` without `=` gets: the default value of the declared type. */
  function DefaultInitializer(annotation: Token): (r: Result<Expr, LangError>)
    ensures r.Ok? <==> annotation.tokenType.Type?
    ensures r.Ok? ==> r.value == LiteralOf(Values.DefaultValue(annotation.tokenType.annotation), annotation.tokenType.annotation)
    ensures r.Err? ==> r.error == ToTypeAnnotation(annotation.tokenType).error
  {
    var t :- ToTypeAnnotation(annotation.tokenType);
    Ok(LiteralOf(Values.DefaultValue(t), t))
  }

  /** `let_declaration`. */
  function LetDeclarationAt(ts: seq<Token>, p: nat): (r: Parsed<Stmt>)
    requires ValidAt(ts, p)
    ensures ValidAt(ts, r.pos) && r.pos >= p
    ensures r.result.Ok? ==>
      r.pos > p + 3 && r.result.value.Var? && r.result.value.varStmt.initializer.Some? &&
      r.result.value.varStmt.name == ts[p] && r.result.value.varStmt.typeAnnotation == ts[p + 2]
    decreases |ts| - p, 51
  {
    var typed := TypedNameAt(ts, p, "Expected variable name", "Expected colon after variable name");
    if typed.result.Err? then Parsed(Err(typed.result.error), typed.pos)
    else LetInitializerAt(ts, typed.pos, typed.result.value.0, typed.result.value.1)
  }

  /** `let_declaration`: `= expression`, or the default value of the type; then ';'. */
  function LetInitializerAt(ts: seq<Token>, p: nat, name: Token, annotation: Token): (r: Parsed<Stmt>)
    requires ValidAt(ts, p)
    ensures ValidAt(ts, r.pos) && r.pos >= p
    ensures r.result.Ok? ==>
      r.pos > p && r.result.value.Var? && r.result.value.varStmt.initializer.Some? &&
      r.result.value.varStmt.name == name && r.result.value.varStmt.typeAnnotation == annotation
    ensures r.result.Ok? && !CheckAt(ts, p, Equal) ==>
      Ok(r.result.value.varStmt.initializer.value) == DefaultInitializer(annotation)
    decreases |ts| - p, 50
  {
    var q := MatchPos(ts, p, Equal);
    var init := if q > p then ExpressionAt(ts, q) else Parsed(DefaultInitializer(annotation), p);
    if init.result.Err? then Parsed(Err(init.result.error), init.pos)
    else
      var semi := PopExpectAt(ts, init.pos, SemiColon, "Expect ';' after variable declaration");
      if semi.result.Err? then Parsed(Err(semi.result.error), semi.pos)
      else Parsed(Ok(Stmt.Var(VarStmt(Some(init.result.value), annotation, name))), semi.pos)
  }

  /** `block`: declarations up to the closing '}'. */
  function BlockAt(ts: seq<Token>, p: nat): (r: Parsed<seq<Stmt>>)
    requires ValidAt(ts, p) && p > 0
    ensures ValidAt(ts, r.pos) && r.pos >= p
    ensures r.result.Ok? ==> r.pos > p && PrecededBy(ts, r.pos, RightBrace)
    decreases |ts| - p, 91
  {
    BlockLoopAt(ts, p, [])
  }

  /** The loop of `block`. */
  function BlockLoopAt(ts: seq<Token>, p: nat, acc: seq<Stmt>): (r: Parsed<seq<Stmt>>)
    requires ValidAt(ts, p) && p > 0
    ensures ValidAt(ts, r.pos) && r.pos >= p
    ensures r.result.Ok? ==>
      r.pos > p && PrecededBy(ts, r.pos, RightBrace) &&
      acc <= r.result.value
    decreases |ts| - p, 90
  {
    if !CheckAt(ts, p, RightBrace) && !IsAtEndAt(ts, p) then
      var d := DeclarationAt(ts, p);
      if d.result.Err? then Parsed(Err(d.result.error), d.pos)
      else
        var r := BlockLoopAt(ts, d.pos, acc + [d.result.value]);
        PrefixKept(r, acc, d.result.value);
        r
    else CloseBlockAt(ts, p, acc)
  }

  /** The '}' that ends a block, after which the collected declarations are the result. */
  function CloseBlockAt(ts: seq<Token>, p: nat, acc: seq<Stmt>): (r: Parsed<seq<Stmt>>)
    requires ValidAt(ts, p)
    ensures ValidAt(ts, r.pos) && r.pos >= p
    ensures r.result.Ok? <==> CheckAt(ts, p, RightBrace)
    ensures r.result.Ok? ==> r.pos == p + 1 && PrecededBy(ts, r.pos, RightBrace) && r.result.value == acc
  {
    var close := PopExpectAt(ts, p, RightBrace, "Expect '}' after a block.");
    if close.result.Err? then Parsed(Err(close.result.error), close.pos)
    else Parsed(Ok(acc), close.pos)
  }

  // ---------------------------------------------------------------- declarations

  /** The comma rule of struct and enum bodies: an item without a ',' after it must be the last one. */
  predicate MissingComma(ts: seq<Token>, before: nat, after: nat)
    requires ValidAt(ts, after)
  {
    after == before && !(CheckAt(ts, after, RightBrace) || IsAtEndAt(ts, after))
  }

  /** `struct_declaration`. */
  function StructDeclarationAt(ts: seq<Token>, p: nat): (r: Parsed<Stmt>)
    requires ValidAt(ts, p)
    ensures ValidAt(ts, r.pos) && r.pos >= p
    ensures r.result.Ok? ==> r.pos > p && r.result.value.Struct? && r.result.value.structStmt.name == ts[p]
  {
    var name := PopExpectAt(ts, p, Identifier, "Expected struct name");
    if name.result.Err? then Parsed(Err(name.result.error), name.pos)
    else
      var open := PopExpectAt(ts, name.pos, LeftBrace, "Expected '{' before struct body");
      if open.result.Err? then Parsed(Err(open.result.error), open.pos)
      else
        var fields := StructFieldsAt(ts, open.pos, []);
        if fields.result.Err? then Parsed(Err(fields.result.error), fields.pos)
        else
          var close := PopExpectAt(ts, fields.pos, RightBrace, "Expected '}' after struct body");
          if close.result.Err? then Parsed(Err(close.result.error), close.pos)
          else Parsed(Ok(Stmt.Struct(StructStmt(fields.result.value, name.result.value))), close.pos)
  }

  /**
   * The loop of `struct_declaration`: `name: type` fields up to a '}' or
   * the end of the input, each but the last followed by ','.
   */
  function StructFieldsAt(ts: seq<Token>, p: nat, fields: seq<VariableData>): (r: Parsed<seq<VariableData>>)
    requires ValidAt(ts, p)
    ensures ValidAt(ts, r.pos) && r.pos >= p
    ensures r.result.Ok? ==>
      fields <= r.result.value &&
      (CheckAt(ts, r.pos, RightBrace) || IsAtEndAt(ts, r.pos))
    decreases |ts| - p
  {
    if CheckAt(ts, p, RightBrace) || IsAtEndAt(ts, p) then Parsed(Ok(fields), p)
    else
      var typed := TypedNameAt(ts, p, "Expected identifier", "Expected ':' after field identifier");
      if typed.result.Err? then Parsed(Err(typed.result.error), typed.pos)
      else
        var q := MatchPos(ts, typed.pos, Comma);
        var t := ToTypeAnnotation(typed.result.value.1.tokenType);
        if t.Err? then Parsed(Err(t.error), q)
        else
          var fields' := fields + [NewVariableData(typed.result.value.0, t.value)];
          if MissingComma(ts, typed.pos, q) then Parsed(Err(NewParserError("need comma after field declaration")), q)
          else
            var r := StructFieldsAt(ts, q, fields');
            PrefixKept(r, fields, NewVariableData(typed.result.value.0, t.value));
            r
  }

  /**
   * The loop of `struct_declaration` as the source writes it: it counts
   * the commas and fails only once there are fewer than the fields less
   * one, so a trailing ',' makes up for a missing one.
   */
  function StructFieldsAsWrittenAt(ts: seq<Token>, p: nat, fields: seq<VariableData>, commas: nat): (r: Parsed<seq<VariableData>>)
    requires ValidAt(ts, p)
    ensures ValidAt(ts, r.pos) && r.pos >= p
    ensures r.result.Ok? ==> fields <= r.result.value
    decreases |ts| - p
  {
    if CheckAt(ts, p, RightBrace) || IsAtEndAt(ts, p) then Parsed(Ok(fields), p)
    else
      var typed := TypedNameAt(ts, p, "Expected identifier", "Expected ':' after field identifier");
      if typed.result.Err? then Parsed(Err(typed.result.error), typed.pos)
      else
        var q := MatchPos(ts, typed.pos, Comma);
        var commas' := if q > typed.pos then commas + 1 else commas;
        var t := ToTypeAnnotation(typed.result.value.1.tokenType);
        if t.Err? then Parsed(Err(t.error), q)
        else
          var fields' := fields + [NewVariableData(typed.result.value.0, t.value)];
          if commas' < |fields'| - 1 then Parsed(Err(NewParserError("need comma after field declaration")), q)
          else
            var r := StructFieldsAsWrittenAt(ts, q, fields', commas');
            PrefixKept(r, fields, NewVariableData(typed.result.value.0, t.value));
            r
  }

  /** `enum_declaration`. */
  function EnumDeclarationAt(ts: seq<Token>, p: nat): (r: Parsed<Stmt>)
    requires ValidAt(ts, p)
    ensures ValidAt(ts, r.pos) && r.pos >= p
    ensures r.result.Ok? ==> r.pos > p && r.result.value.Enum? && r.result.value.enumStmt.name == ts[p]
  {
    var name := PopExpectAt(ts, p, Identifier, "expected identifier");
    if name.result.Err? then Parsed(Err(name.result.error), name.pos)
    else
      var open := PopExpectAt(ts, name.pos, LeftBrace, "expected left brace");
      if open.result.Err? then Parsed(Err(open.result.error), open.pos)
      else
        var items := EnumItemsAt(ts, open.pos, []);
        if items.result.Err? then Parsed(Err(items.result.error), items.pos)
        else
          var close := PopExpectAt(ts, items.pos, RightBrace, "expected right brace");
          if close.result.Err? then Parsed(Err(close.result.error), close.pos)
          else Parsed(Ok(Stmt.Enum(EnumStmt(name.result.value, items.result.value))), close.pos)
  }

  /** An enum item: an identifier and, after '=', its initializer. */
  function EnumItemAt(ts: seq<Token>, p: nat): (r: Parsed<EnumItem>)
    requires ValidAt(ts, p)
    ensures ValidAt(ts, r.pos) && r.pos >= p
    ensures r.result.Ok? ==> r.pos > p && r.result.value.identifier == ts[p] && ts[p].tokenType == Identifier
    ensures r.result.Ok? ==> (r.result.value.initializer.Some? <==> CheckAt(ts, p + 1, Equal))
  {
    var id := PopExpectAt(ts, p, Identifier, "expected identifier");
    if id.result.Err? then Parsed(Err(id.result.error), id.pos)
    else
      var q := MatchPos(ts, id.pos, Equal);
      if q > id.pos then
        var e := ExpressionAt(ts, q);
        if e.result.Err? then Parsed(Err(e.result.error), e.pos)
        else Parsed(Ok(EnumItem(id.result.value, Some(e.result.value))), e.pos)
      else Parsed(Ok(EnumItem(id.result.value, None)), id.pos)
  }

  /** The loop of `enum_declaration`: items up to a '}' or the end of the input, each but the last followed by ','. */
  function EnumItemsAt(ts: seq<Token>, p: nat, items: seq<EnumItem>): (r: Parsed<seq<EnumItem>>)
    requires ValidAt(ts, p)
    ensures ValidAt(ts, r.pos) && r.pos >= p
    ensures r.result.Ok? ==>
      items <= r.result.value &&
      (CheckAt(ts, r.pos, RightBrace) || IsAtEndAt(ts, r.pos))
    decreases |ts| - p
  {
    if CheckAt(ts, p, RightBrace) || IsAtEndAt(ts, p) then Parsed(Ok(items), p)
    else
      var item := EnumItemAt(ts, p);
      if item.result.Err? then Parsed(Err(item.result.error), item.pos)
      else
        var items' := items + [item.result.value];
        var q := MatchPos(ts, item.pos, Comma);
        if MissingComma(ts, item.pos, q) then Parsed(Err(NewParserError("need comma after enum item")), q)
        else
          var r := EnumItemsAt(ts, q, items');
          PrefixKept(r, items, item.result.value);
          r
  }

  /** The loop of `enum_declaration` as the source writes it, counting commas like the struct loop. */
  function EnumItemsAsWrittenAt(ts: seq<Token>, p: nat, items: seq<EnumItem>, commas: nat): (r: Parsed<seq<EnumItem>>)
    requires ValidAt(ts, p)
    ensures ValidAt(ts, r.pos) && r.pos >= p
    ensures r.result.Ok? ==> items <= r.result.value
    decreases |ts| - p
  {
    if CheckAt(ts, p, RightBrace) || IsAtEndAt(ts, p) then Parsed(Ok(items), p)
    else
      var item := EnumItemAt(ts, p);
      if item.result.Err? then Parsed(Err(item.result.error), item.pos)
      else
        var items' := items + [item.result.value];
        var q := MatchPos(ts, item.pos, Comma);
        var commas' := if q > item.pos then commas + 1 else commas;
        if commas' < |items'| - 1 then Parsed(Err(NewParserError("need comma after enum item")), q)
        else
          var r := EnumItemsAsWrittenAt(ts, q, items', commas');
          PrefixKept(r, items, item.result.value);
          r
  }

  /**
   * After a field that is followed neither by ',' nor by the closing '}',
   * the struct body is refused with the comma error, whatever fields came
   * before it.
   */
  lemma CommaRequiredBetweenFields(ts: seq<Token>, p: nat, fields: seq<VariableData>)
    requires WellFormed(ts) && p + 3 < |ts|
    requires ts[p].tokenType.Identifier? && ts[p + 1].tokenType.Colon? && ts[p + 2].tokenType.Type?
    requires !CheckAt(ts, p + 3, Comma) && !CheckAt(ts, p + 3, RightBrace) && !IsAtEndAt(ts, p + 3)
    ensures StructFieldsAt(ts, p, fields) == Parsed(Err(NewParserError("need comma after field declaration")), p + 3)
  {
    TypedFieldOk(ts, p, "Expected identifier", "Expected ':' after field identifier");
    assert !CheckAt(ts, p, RightBrace) && !IsAtEndAt(ts, p);
    assert ToTypeAnnotation(ts[p + 2].tokenType).Ok?;
    assert MatchPos(ts, p + 3, Comma) == p + 3;
  }

  /**
   * The token types of the struct body `a: i32 b: i32, }`, which lacks the
   * ',' after `a`, followed by the end of the input.
   */
  predicate MissingCommaBody(ts: seq<Token>)
  {
    |ts| == 9 && ts[0].tokenType.Identifier? && ts[1].tokenType.Colon? && ts[2].tokenType == Type(I32) &&
    ts[3].tokenType.Identifier? && ts[4].tokenType.Colon? && ts[5].tokenType == Type(I32) &&
    ts[6].tokenType.Comma? && ts[7].tokenType.RightBrace? && ts[8].tokenType.Eof?
  }

  /** `name: type` with a primitive type is a well-typed field name. */
  lemma TypedFieldOk(ts: seq<Token>, p: nat, nameMessage: string, colonMessage: string)
    requires WellFormed(ts) && p + 3 < |ts|
    requires ts[p].tokenType.Identifier? && ts[p + 1].tokenType.Colon? && ts[p + 2].tokenType.Type?
    ensures TypedNameAt(ts, p, nameMessage, colonMessage).result.Ok?
  {
    assert !IsAtEndAt(ts, p) && !IsAtEndAt(ts, p + 1) && !IsAtEndAt(ts, p + 2);
    assert PopExpectAt(ts, p, Identifier, nameMessage) == Parsed(Ok(ts[p]), p + 1);
    assert PopExpectAt(ts, p + 1, Colon, colonMessage) == Parsed(Ok(ts[p + 1]), p + 2);
    assert AdvanceToken(ts, p + 2) == ts[p + 2] && CheckTypeToken(ts[p + 2]).Ok?;
  }

  /** One field of the as-written loop: when the comma count keeps up, the loop goes on after the field and its ','. */
  lemma AsWrittenFieldStep(ts: seq<Token>, p: nat, fields: seq<VariableData>, commas: nat)
    requires WellFormed(ts) && p + 3 < |ts|
    requires ts[p].tokenType.Identifier? && ts[p + 1].tokenType.Colon? && ts[p + 2].tokenType.Type?
    ensures var q := MatchPos(ts, p + 3, Comma);
      var commas' := if q > p + 3 then commas + 1 else commas;
      var fields' := fields + [NewVariableData(ts[p], ts[p + 2].tokenType.annotation)];
      commas' >= |fields'| - 1 ==>
        StructFieldsAsWrittenAt(ts, p, fields, commas) == StructFieldsAsWrittenAt(ts, q, fields', commas')
  {
    TypedFieldOk(ts, p, "Expected identifier", "Expected ':' after field identifier");
    assert !CheckAt(ts, p, RightBrace) && !IsAtEndAt(ts, p);
  }

  /** The as-written loop has seen one comma for two fields when it checks, and accepts the body. */
  lemma AsWrittenAcceptsMissingComma(ts: seq<Token>)
    requires MissingCommaBody(ts)
    ensures StructFieldsAsWrittenAt(ts, 0, [], 0).result.Ok?
  {
    var a := NewVariableData(ts[0], ts[2].tokenType.annotation);
    var b := NewVariableData(ts[3], ts[5].tokenType.annotation);
    assert WellFormed(ts);
    assert !CheckAt(ts, 3, Comma);
    assert MatchPos(ts, 3, Comma) == 3;
    AsWrittenFieldStep(ts, 0, [], 0);
    assert [] + [a] == [a];
    assert StructFieldsAsWrittenAt(ts, 0, [], 0) == StructFieldsAsWrittenAt(ts, 3, [a], 0);
    assert CheckAt(ts, 6, Comma);
    assert MatchPos(ts, 6, Comma) == 7;
    AsWrittenFieldStep(ts, 3, [a], 0);
    assert [a] + [b] == [a, b];
    assert StructFieldsAsWrittenAt(ts, 3, [a], 0) == StructFieldsAsWrittenAt(ts, 7, [a, b], 1);
    assert CheckAt(ts, 7, RightBrace);
    assert StructFieldsAsWrittenAt(ts, 7, [a, b], 1).result.Ok?;
  }

  /** The comma rule refuses the same body at the field `b`. */
  lemma CommaRuleRefusesMissingComma(ts: seq<Token>)
    requires MissingCommaBody(ts)
    ensures StructFieldsAt(ts, 0, []).result.Err?
  {
    assert WellFormed(ts);
    assert !IsAtEndAt(ts, 3);
    assert !CheckAt(ts, 3, Comma);
    assert !CheckAt(ts, 3, RightBrace);
    CommaRequiredBetweenFields(ts, 0, []);
  }

  /**
   * Any struct body `a: i32 b: i32, }` lacks the ',' after `a`. The
   * as-written loop accepts it; the comma rule refuses it.
   */
  lemma MissingCommaAcceptedAsWritten(ts: seq<Token>)
    requires MissingCommaBody(ts)
    ensures StructFieldsAsWrittenAt(ts, 0, [], 0).result.Ok? && StructFieldsAt(ts, 0, []).result.Err?
  {
    AsWrittenAcceptsMissingComma(ts);
    CommaRuleRefusesMissingComma(ts);
  }

  /** An identifier without '=' is an enum item without an initializer, one token long. */
  lemma BareEnumItemOk(ts: seq<Token>, p: nat)
    requires WellFormed(ts) && p + 1 < |ts|
    requires ts[p].tokenType.Identifier? && !CheckAt(ts, p + 1, Equal)
    ensures EnumItemAt(ts, p) == Parsed(Ok(EnumItem(ts[p], None)), p + 1)
  {
    assert !IsAtEndAt(ts, p);
    assert PopExpectAt(ts, p, Identifier, "expected identifier") == Parsed(Ok(ts[p]), p + 1);
  }

  /**
   * After an enum item that is followed neither by ',' nor by the closing
   * '}', the enum body is refused with the comma error, whatever items
   * came before it.
   */
  lemma CommaRequiredBetweenEnumItems(ts: seq<Token>, p: nat, items: seq<EnumItem>)
    requires WellFormed(ts) && p + 1 < |ts|
    requires ts[p].tokenType.Identifier? && !CheckAt(ts, p + 1, Equal)
    requires !CheckAt(ts, p + 1, Comma) && !CheckAt(ts, p + 1, RightBrace) && !IsAtEndAt(ts, p + 1)
    ensures EnumItemsAt(ts, p, items) == Parsed(Err(NewParserError("need comma after enum item")), p + 1)
  {
    BareEnumItemOk(ts, p);
    assert !CheckAt(ts, p, RightBrace) && !IsAtEndAt(ts, p);
    assert MatchPos(ts, p + 1, Comma) == p + 1;
  }

  /** The token types of the enum body `A B, }`, which lacks the ',' after `A`, followed by the end of the input. */
  predicate MissingEnumCommaBody(ts: seq<Token>)
  {
    |ts| == 5 && ts[0].tokenType.Identifier? && ts[1].tokenType.Identifier? &&
    ts[2].tokenType.Comma? && ts[3].tokenType.RightBrace? && ts[4].tokenType.Eof?
  }

  /** One item of the as-written enum loop: when the comma count keeps up, the loop goes on after the item and its ','. */
  lemma AsWrittenEnumItemStep(ts: seq<Token>, p: nat, items: seq<EnumItem>, commas: nat)
    requires WellFormed(ts) && p + 1 < |ts|
    requires ts[p].tokenType.Identifier? && !CheckAt(ts, p + 1, Equal)
    ensures var q := MatchPos(ts, p + 1, Comma);
      var commas' := if q > p + 1 then commas + 1 else commas;
      var items' := items + [EnumItem(ts[p], None)];
      commas' >= |items'| - 1 ==>
        EnumItemsAsWrittenAt(ts, p, items, commas) == EnumItemsAsWrittenAt(ts, q, items', commas')
  {
    BareEnumItemOk(ts, p);
    assert !CheckAt(ts, p, RightBrace) && !IsAtEndAt(ts, p);
  }

  /**
   * Any enum body `A B, }` lacks the ',' after `A`. The as-written loop
   * has seen one comma for two items when it checks, and accepts it; the
   * comma rule refuses it at `B`.
   */
  lemma MissingEnumCommaAcceptedAsWritten(ts: seq<Token>)
    requires MissingEnumCommaBody(ts)
    ensures EnumItemsAsWrittenAt(ts, 0, [], 0).result.Ok?
    ensures EnumItemsAt(ts, 0, []).result.Err?
  {
    assert WellFormed(ts);
    var a := EnumItem(ts[0], None);
    var b := EnumItem(ts[1], None);
    assert !CheckAt(ts, 1, Equal) && !CheckAt(ts, 1, Comma) && !CheckAt(ts, 1, RightBrace) && !IsAtEndAt(ts, 1);
    assert MatchPos(ts, 1, Comma) == 1;
    AsWrittenEnumItemStep(ts, 0, [], 0);
    assert [] + [a] == [a];
    assert !CheckAt(ts, 2, Equal) && CheckAt(ts, 2, Comma);
    assert MatchPos(ts, 2, Comma) == 3;
    AsWrittenEnumItemStep(ts, 1, [a], 0);
    assert [a] + [b] == [a, b];
    assert CheckAt(ts, 3, RightBrace);
    assert EnumItemsAsWrittenAt(ts, 3, [a, b], 1).result.Ok?;
    CommaRequiredBetweenEnumItems(ts, 0, []);
  }

  /** One parameter: `name: type`, its annotation converted. */
  function ParamAt(ts: seq<Token>, p: nat): (r: Parsed<VariableData>)
    requires ValidAt(ts, p)
    ensures ValidAt(ts, r.pos) && r.pos >= p
    ensures r.result.Ok? ==> r.pos == p + 3 && r.result.value.identifier == ts[p]
  {
    var typed := TypedNameAt(ts, p, "Expect parameter name", "Expected colon after paramter name");
    if typed.result.Err? then Parsed(Err(typed.result.error), typed.pos)
    else
      var t := ToTypeAnnotation(typed.result.value.1.tokenType);
      if t.Err? then Parsed(Err(t.error), typed.pos)
      else Parsed(Ok(NewVariableData(typed.result.value.0, t.value)), typed.pos)
  }

  /** The parameter loop of `function` and `trait_function_declaration`: `name: type`, repeated after each ','. */
  function ParamsAt(ts: seq<Token>, p: nat, acc: seq<VariableData>): (r: Parsed<seq<VariableData>>)
    requires ValidAt(ts, p)
    ensures ValidAt(ts, r.pos) && r.pos >= p
    ensures r.result.Ok? ==> r.pos > p && acc < r.result.value
    decreases |ts| - p
  {
    var param := ParamAt(ts, p);
    if param.result.Err? then Parsed(Err(param.result.error), param.pos)
    else
      var d := param.result.value;
      var q := MatchPos(ts, param.pos, Comma);
      if q == param.pos then
        assert (acc + [d])[..|acc|] == acc;
        Parsed(Ok(acc + [d]), q)
      else
        var r := ParamsAt(ts, q, acc + [d]);
        PrefixKept(r, acc, d);
        r
  }

  /** A parameter list after '(', the ')', then the return type. */
  function SignatureAt(ts: seq<Token>, p: nat): (r: Parsed<(seq<VariableData>, Token)>)
    requires ValidAt(ts, p)
    ensures ValidAt(ts, r.pos) && r.pos >= p
    ensures r.result.Ok? ==> r.pos > p + 2 && r.result.value.1 == ts[r.pos - 1] && IsTypeToken(ts[r.pos - 1])
    ensures r.result.Ok? && CheckAt(ts, p, RightParen) ==> r.result.value.0 == [] && r.pos == p + 3
  {
    var params := if !CheckAt(ts, p, RightParen) then ParamsAt(ts, p, []) else Parsed(Ok([]), p);
    if params.result.Err? then Parsed(Err(params.result.error), params.pos)
    else
      assert params.pos >= p;
      var rest := SignatureTailAt(ts, params.pos);
      if rest.result.Err? then Parsed(Err(rest.result.error), rest.pos)
      else
        assert rest.pos == params.pos + 3;
        Parsed(Ok((params.result.value, rest.result.value)), rest.pos)
  }

  /** The ')' closing a parameter list, then the return type. */
  function SignatureTailAt(ts: seq<Token>, p: nat): (r: Parsed<Token>)
    requires ValidAt(ts, p)
    ensures ValidAt(ts, r.pos) && r.pos >= p
    ensures r.result.Ok? ==> r.pos == p + 3 && r.result.value == ts[r.pos - 1] && IsTypeToken(ts[r.pos - 1])
  {
    var close := PopExpectAt(ts, p, RightParen, "Expect ')' after parameter list.");
    if close.result.Err? then Parsed(Err(close.result.error), close.pos)
    else ReturnTypeAt(ts, close.pos)
  }

  /** What `check_token_type` accepts as a type: a type keyword or an identifier. */
  predicate IsTypeToken(t: Token)
  {
    t.tokenType.Type? || t.tokenType == Identifier
  }

  /** The '->' and the token after it, which must be a type or an identifier. */
  function ReturnTypeAt(ts: seq<Token>, p: nat): (r: Parsed<Token>)
    requires ValidAt(ts, p)
    ensures ValidAt(ts, r.pos) && r.pos >= p
    ensures r.result.Ok? <==> CheckAt(ts, p, ReturnType) && IsTypeToken(ts[p + 1])
    ensures r.result.Ok? ==> r.pos == p + 2 && r.result.value == ts[p + 1]
    ensures !CheckAt(ts, p, ReturnType) ==> r == Parsed(Err(Lang.Error(ts[p], "Expected '->' after ')'")), p)
  {
    var arrow := PopExpectAt(ts, p, ReturnType, "Expected '->' after ')'");
    if arrow.result.Err? then Parsed(Err(arrow.result.error), arrow.pos)
    else
      var returnType := AdvanceToken(ts, arrow.pos);
      var q := AdvancePos(ts, arrow.pos);
      var checked := CheckTypeToken(returnType);
      if checked.Err? then Parsed(Err(checked.error), q)
      else Parsed(Ok(returnType), q)
  }

  /** `trait_function_declaration`: a signature without a body. */
  function TraitFunctionDeclarationAt(ts: seq<Token>, p: nat): (r: Parsed<Stmt>)
    requires ValidAt(ts, p)
    ensures ValidAt(ts, r.pos) && r.pos >= p
    ensures r.result.Ok? ==> r.pos > p && r.result.value.TraitFunction? && r.result.value.traitFunctionStmt.name == ts[p]
  {
    var name := PopExpectAt(ts, p, Identifier, "function: Expect function name");
    if name.result.Err? then Parsed(Err(name.result.error), name.pos)
    else
      var open := PopExpectAt(ts, name.pos, LeftParen, "Expect '(' after function name.");
      if open.result.Err? then Parsed(Err(open.result.error), open.pos)
      else
        var signature := SignatureAt(ts, open.pos);
        if signature.result.Err? then Parsed(Err(signature.result.error), signature.pos)
        else
          var (params, returnType) := signature.result.value;
          Parsed(Ok(Stmt.TraitFunction(TraitFunctionStmt(name.result.value, returnType, params))), signature.pos)
  }

  /** `trait_declaration`. Its loop is entered unless the token after '{' is ';'. */
  function TraitDeclarationAt(ts: seq<Token>, p: nat): (r: Parsed<Stmt>)
    requires ValidAt(ts, p)
    ensures ValidAt(ts, r.pos) && r.pos >= p
    ensures r.result.Ok? ==> r.pos > p && r.result.value.Trait? && r.result.value.traitStmt.name == ts[p]
  {
    var name := PopExpectAt(ts, p, Identifier, "expected identifier for trait");
    if name.result.Err? then Parsed(Err(name.result.error), name.pos)
    else
      var open := PopExpectAt(ts, name.pos, LeftBrace, "expected left brace after identifier");
      if open.result.Err? then Parsed(Err(open.result.error), open.pos)
      else
        var fns := if !CheckAt(ts, open.pos, SemiColon) then TraitFunctionsAt(ts, open.pos, []) else Parsed(Ok([]), open.pos);
        if fns.result.Err? then Parsed(Err(fns.result.error), fns.pos)
        else
          var close := PopExpectAt(ts, fns.pos, RightBrace, "expected right brace after function declarations");
          if close.result.Err? then Parsed(Err(close.result.error), close.pos)
          else Parsed(Ok(Stmt.Trait(TraitStmt(name.result.value, fns.result.value))), close.pos)
  }

  /** The loop of `trait_declaration`: `fn` signatures, each followed by ';', until a '}' follows one. */
  function TraitFunctionsAt(ts: seq<Token>, p: nat, acc: seq<Stmt>): (r: Parsed<seq<Stmt>>)
    requires ValidAt(ts, p)
    ensures ValidAt(ts, r.pos) && r.pos >= p
    ensures r.result.Ok? ==>
      r.pos > p && CheckAt(ts, r.pos, RightBrace) &&
      acc < r.result.value
    decreases |ts| - p
  {
    var fnKeyword := PopExpectAt(ts, p, FnKw, "expected fn after left brace");
    if fnKeyword.result.Err? then Parsed(Err(fnKeyword.result.error), fnKeyword.pos)
    else
      var d := TraitFunctionDeclarationAt(ts, fnKeyword.pos);
      if d.result.Err? then Parsed(Err(d.result.error), d.pos)
      else
        var semi := PopExpectAt(ts, d.pos, SemiColon, "expected fn after left brace");
        if semi.result.Err? then Parsed(Err(semi.result.error), semi.pos)
        else
          var acc' := acc + [d.result.value];
          if CheckAt(ts, semi.pos, RightBrace) then Parsed(Ok(acc'), semi.pos)
          else
            var r := TraitFunctionsAt(ts, semi.pos, acc');
            PrefixKept(r, acc, d.result.value);
            r
  }

  /** `function(kind)`: a signature and a block body; `kind` names the construct in the messages. */
  function FunctionAt(ts: seq<Token>, p: nat, kind: string): (r: Parsed<Stmt>)
    requires ValidAt(ts, p)
    ensures ValidAt(ts, r.pos) && r.pos >= p
    ensures r.result.Ok? ==> r.pos > p && r.result.value.Function? && r.result.value.functionStmt.name == ts[p]
    ensures r.result.Err? && r.pos == p ==> r.result.error == Lang.Error(ts[p], "function: Expect " + kind + " name")
    decreases |ts| - p, 0
  {
    var name := PopExpectAt(ts, p, Identifier, "function: Expect " + kind + " name");
    if name.result.Err? then Parsed(Err(name.result.error), name.pos)
    else
      var open := PopExpectAt(ts, name.pos, LeftParen, "Expect '(' after " + kind + " name.");
      if open.result.Err? then Parsed(Err(open.result.error), open.pos)
      else
        var signature := SignatureAt(ts, open.pos);
        if signature.result.Err? then Parsed(Err(signature.result.error), signature.pos)
        else
          var (params, returnType) := signature.result.value;
          var brace := PopExpectAt(ts, signature.pos, LeftBrace, "Expect '{' before " + kind + " body.");
          if brace.result.Err? then Parsed(Err(brace.result.error), brace.pos)
          else
            var body := BlockAt(ts, brace.pos);
            if body.result.Err? then Parsed(Err(body.result.error), body.pos)
            else Parsed(Ok(Stmt.Function(FunctionStmt(name.result.value, returnType, params, body.result.value))), body.pos)
  }

  /** `impl_declaration`: `impl Trait for Type` or `impl Type`. */
  function ImplDeclarationAt(ts: seq<Token>, p: nat): (r: Parsed<Stmt>)
    requires ValidAt(ts, p)
    ensures ValidAt(ts, r.pos) && r.pos >= p
    ensures r.result.Ok? ==> r.pos > p && (r.result.value.ImplTrait? || r.result.value.Impl?)
    ensures r.result.Ok? ==> (r.result.value.ImplTrait? <==> CheckAt(ts, p + 1, For))
    decreases |ts| - p, 0
  {
    var name := PopExpectAt(ts, p, Identifier, "expected identifier");
    if name.result.Err? then Parsed(Err(name.result.error), name.pos)
    else
      var q := MatchPos(ts, name.pos, For);
      if q > name.pos then TraitImplAt(ts, q, name.result.value)
      else MethodImplAt(ts, name.pos, name.result.value)
  }

  /** `trait_impl_declaration`: the trait's name was read first, the implementing type's name follows `for`. */
  function TraitImplAt(ts: seq<Token>, p: nat, traitName: Token): (r: Parsed<Stmt>)
    requires ValidAt(ts, p)
    ensures ValidAt(ts, r.pos) && r.pos >= p
    ensures r.result.Ok? ==>
      r.pos > p && r.result.value.ImplTrait? &&
      r.result.value.implTraitStmt.traitName == traitName && r.result.value.implTraitStmt.implName == ts[p]
    decreases |ts| - p, 0
  {
    var implName := PopExpectAt(ts, p, Identifier, "expected identifier after for");
    if implName.result.Err? then Parsed(Err(implName.result.error), implName.pos)
    else
      var open := PopExpectAt(ts, implName.pos, LeftBrace, "trait_impl_decl expected left brace after identifier");
      if open.result.Err? then Parsed(Err(open.result.error), open.pos)
      else
        var fns := ImplBodyAt(ts, open.pos);
        if fns.result.Err? then Parsed(Err(fns.result.error), fns.pos)
        else Parsed(Ok(Stmt.ImplTrait(ImplTraitStmt(traitName, implName.result.value, fns.result.value))), fns.pos)
  }

  /** `method_impl_declaration`. */
  function MethodImplAt(ts: seq<Token>, p: nat, name: Token): (r: Parsed<Stmt>)
    requires ValidAt(ts, p)
    ensures ValidAt(ts, r.pos) && r.pos >= p
    ensures r.result.Ok? ==> r.pos > p && r.result.value.Impl? && r.result.value.implStmt.name == name
    decreases |ts| - p, 0
  {
    var open := PopExpectAt(ts, p, LeftBrace, "expected left brace after identifier");
    if open.result.Err? then Parsed(Err(open.result.error), open.pos)
    else
      var fns := ImplBodyAt(ts, open.pos);
      if fns.result.Err? then Parsed(Err(fns.result.error), fns.pos)
      else Parsed(Ok(Stmt.Impl(ImplStmt(name, fns.result.value))), fns.pos)
  }

  /** The methods of an impl block and its closing '}'. */
  function ImplBodyAt(ts: seq<Token>, p: nat): (r: Parsed<seq<Stmt>>)
    requires ValidAt(ts, p)
    ensures ValidAt(ts, r.pos) && r.pos >= p
    ensures r.result.Ok? ==> r.pos > p && PrecededBy(ts, r.pos, RightBrace)
    decreases |ts| - p, 2
  {
    if CheckAt(ts, p, RightBrace) then CloseImplAt(ts, p, [])
    else
      var fns := MethodsAt(ts, p, []);
      if fns.result.Err? then Parsed(Err(fns.result.error), fns.pos)
      else CloseImplAt(ts, fns.pos, fns.result.value)
  }

  /** The '}' of an impl block, which both callers have already seen, so its `pop_expect` cannot fail. */
  function CloseImplAt(ts: seq<Token>, p: nat, fns: seq<Stmt>): (r: Parsed<seq<Stmt>>)
    requires ValidAt(ts, p) && CheckAt(ts, p, RightBrace)
    ensures ValidAt(ts, r.pos) && r.pos == p + 1 && PrecededBy(ts, r.pos, RightBrace)
    ensures r.result == Ok(fns)
  {
    var close := PopExpectAt(ts, p, RightBrace, "expected right brace after function declarations");
    assert close.result.Ok?;
    Parsed(Ok(fns), close.pos)
  }

  /** The loop of an impl block: `fn` methods until a '}' follows one. */
  function MethodsAt(ts: seq<Token>, p: nat, acc: seq<Stmt>): (r: Parsed<seq<Stmt>>)
    requires ValidAt(ts, p)
    ensures ValidAt(ts, r.pos) && r.pos >= p
    ensures r.result.Ok? ==>
      CheckAt(ts, r.pos, RightBrace) && acc < r.result.value
    decreases |ts| - p, 1
  {
    var fnKeyword := PopExpectAt(ts, p, FnKw, "expected fn after left brace");
    if fnKeyword.result.Err? then Parsed(Err(fnKeyword.result.error), fnKeyword.pos)
    else
      var f := FunctionAt(ts, fnKeyword.pos, "method");
      if f.result.Err? then Parsed(Err(f.result.error), f.pos)
      else
        var acc' := acc + [f.result.value];
        if CheckAt(ts, f.pos, RightBrace) then Parsed(Ok(acc'), f.pos)
        else
          var r := MethodsAt(ts, f.pos, acc');
          PrefixKept(r, acc, f.result.value);
          r
  }

  /**
   * Where `synchronize` may leave the cursor: at the end of the input,
   * after a ';', or before a keyword that starts a statement.
   */
  predicate AtBoundary(ts: seq<Token>, q: nat)
    requires ValidAt(ts, q)
  {
    IsAtEndAt(ts, q) || (q > 0 && PrecededBy(ts, q, SemiColon)) || StartsStatement(ts[q].tokenType)
  }

  /**
   * `declaration`: a failed struct declaration skips to a statement
   * boundary. A successful enum declaration is dropped and the
   * declaration after it is returned in its place; a failed one is
   * returned without skipping.
   */
  function DeclarationAt(ts: seq<Token>, p: nat): (r: Parsed<Stmt>)
    requires ValidAt(ts, p) && (p > 0 || !IsAtEndAt(ts, p))
    ensures ValidAt(ts, r.pos) && r.pos >= p
    ensures r.result.Ok? ==> r.pos > p
    ensures r.result.Err? && CheckAt(ts, p, TokenType.Struct) ==> AtBoundary(ts, r.pos)
    decreases |ts| - p, 80
  {
    var q := MatchPos(ts, p, TokenType.Struct);
    if q > p then
      var s := StructDeclarationAt(ts, q);
      if s.result.Err? then Synchronized(ts, s.result.error, s.pos)
      else s
    else
      var q := MatchPos(ts, p, TokenType.Enum);
      if q > p then
        var e := EnumDeclarationAt(ts, q);
        if e.result.Err? then e
        else DeclarationRestAt(ts, e.pos)
      else DeclarationRestAt(ts, p)
  }

  /** `declaration` after the struct and enum cases: traits, impls, functions, `let`, then statements. */
  function DeclarationRestAt(ts: seq<Token>, p: nat): (r: Parsed<Stmt>)
    requires ValidAt(ts, p) && (p > 0 || !IsAtEndAt(ts, p))
    ensures ValidAt(ts, r.pos) && r.pos >= p
    ensures r.result.Ok? ==> r.pos > p
    ensures r.result.Err? && !CheckAt(ts, p, TraitKw) && !CheckAt(ts, p, TokenType.Impl) && !CheckAt(ts, p, FnKw) ==>
      AtBoundary(ts, r.pos)
    decreases |ts| - p, 79
  {
    var q := MatchPos(ts, p, TraitKw);
    if q > p then TraitDeclarationAt(ts, q)
    else
      var q := MatchPos(ts, p, TokenType.Impl);
      if q > p then ImplDeclarationAt(ts, q)
      else
        var q := MatchPos(ts, p, FnKw);
        if q > p then FunctionAt(ts, q, "function")
        else LocalDeclarationAt(ts, p)
  }

  /** The last cases of `declaration`: `let`, then statements; both synchronize on an error. */
  function LocalDeclarationAt(ts: seq<Token>, p: nat): (r: Parsed<Stmt>)
    requires ValidAt(ts, p) && (p > 0 || !IsAtEndAt(ts, p))
    ensures ValidAt(ts, r.pos) && r.pos >= p
    ensures r.result.Ok? ==> r.pos > p
    ensures r.result.Err? ==> AtBoundary(ts, r.pos)
    decreases |ts| - p, 78
  {
    var q := MatchPos(ts, p, Let);
    RecoverAt(ts, p, if q > p then LetDeclarationAt(ts, q) else StatementAt(ts, p))
  }

  /** A declaration that fails is followed by `synchronize`; one that succeeds is kept. */
  function RecoverAt(ts: seq<Token>, p: nat, l: Parsed<Stmt>): (r: Parsed<Stmt>)
    requires ValidAt(ts, l.pos) && l.pos >= p && (p > 0 || !IsAtEndAt(ts, p))
    ensures l.result.Ok? ==> r == l
    ensures l.result.Err? ==> r.result == l.result && ValidAt(ts, r.pos) && r.pos >= l.pos && AtBoundary(ts, r.pos)
  {
    if l.result.Err? then Synchronized(ts, l.result.error, l.pos) else l
  }

  /** An error after which the cursor has been moved on by `synchronize`. */
  function Synchronized<T>(ts: seq<Token>, e: LangError, p: nat): (r: Parsed<T>)
    requires ValidAt(ts, p) && (p > 0 || !IsAtEndAt(ts, p))
    ensures r.result == Err(e) && ValidAt(ts, r.pos) && r.pos >= p && AtBoundary(ts, r.pos)
  {
    Parsed(Err(e), SynchronizeAt(ts, p))
  }

  /** `parse`: declarations until the end of the input; the first error ends the parse. */
  function ParseAt(ts: seq<Token>): (r: Parsed<seq<Stmt>>)
    requires WellFormed(ts)
    ensures ValidAt(ts, r.pos)
    ensures r.result.Ok? ==> IsAtEndAt(ts, r.pos)
  {
    ParseLoopAt(ts, 0, [])
  }

  /** The loop of `parse`. */
  function ParseLoopAt(ts: seq<Token>, p: nat, acc: seq<Stmt>): (r: Parsed<seq<Stmt>>)
    requires ValidAt(ts, p)
    ensures ValidAt(ts, r.pos) && r.pos >= p
    ensures r.result.Ok? ==> IsAtEndAt(ts, r.pos) && acc <= r.result.value
    decreases |ts| - p, 100
  {
    if IsAtEndAt(ts, p) then Parsed(Ok(acc), p)
    else
      var d := DeclarationAt(ts, p);
      if d.result.Err? then Parsed(Err(d.result.error), d.pos)
      else
        var r := ParseLoopAt(ts, d.pos, acc + [d.result.value]);
        PrefixKept(r, acc, d.result.value);
        r
  }

  // ---------------------------------------------------------------- the parser object

  /**
   * `Parser`: the tokens and the cursor. The methods below change the
   * cursor as the source's `&mut self` methods do; the read-only helpers
   * (`check`, `peek`, `is_at_end`, `previous`) are the functions above,
   * applied to `tokens` and `current`.
   */
  class Parser {
    const tokens: seq<Token>
    var current: nat

    /** `Parser::new`. */
    constructor (tokens: seq<Token>)
      ensures this.tokens == tokens && current == 0
    {
      this.tokens := tokens;
      current := 0;
    }

    /** `advance`: one step on unless at the end, returning the token before the new cursor. */
    method Advance() returns (t: Token)
      requires ValidAt(tokens, current) && (current > 0 || !IsAtEndAt(tokens, current))
      modifies this
      ensures current == AdvancePos(tokens, old(current))
      ensures t == AdvanceToken(tokens, old(current))
    {
      if !IsAtEndAt(tokens, current) {
        current := current + 1;
      }
      t := tokens[current - 1];
    }

    /** `matches`: tries the types in order and advances on the first that `check`s. */
    method Matches(tts: seq<TokenType>) returns (b: bool)
      requires ValidAt(tokens, current)
      modifies this
      ensures current == MatchesPos(tokens, old(current), tts)
      ensures b <==> current == old(current) + 1
    {
      var i := 0;
      while i < |tts|
        invariant 0 <= i <= |tts| && current == old(current)
        invariant forall j :: 0 <= j < i ==> !CheckAt(tokens, current, tts[j])
      {
        if CheckAt(tokens, current, tts[i]) {
          var _ := Advance();
          return true;
        }
        i := i + 1;
      }
      return false;
    }

    /** `pop_expect`: the expected token, consumed, or an error at the current token. */
    method PopExpect(tt: TokenType, message: string) returns (r: Result<Token, LangError>)
      requires ValidAt(tokens, current)
      modifies this
      ensures Parsed(r, current) == PopExpectAt(tokens, old(current), tt, message)
    {
      if CheckAt(tokens, current, tt) {
        var t := Advance();
        return Ok(t);
      }
      return Err(Lang.Error(tokens[current], message));
    }

    /** `synchronize`: skips one token, then tokens up to a statement boundary. */
    method Synchronize()
      requires ValidAt(tokens, current) && (current > 0 || !IsAtEndAt(tokens, current))
      modifies this
      ensures current == SynchronizeAt(tokens, old(current))
      ensures AtBoundary(tokens, current)
    {
      var _ := Advance();
      while !IsAtEndAt(tokens, current)
        invariant ValidAt(tokens, current) && current > 0
        invariant SkipToBoundary(tokens, current) == SynchronizeAt(tokens, old(current))
        decreases |tokens| - current
      {
        if PreviousAt(tokens, current).tokenType == SemiColon {
          return;
        }
        if StartsStatement(tokens[current].tokenType) {
          return;
        }
        var _ := Advance();
      }
    }

    /** `parse`: declarations until the end of the input, stopping at the first error. */
    method Parse() returns (r: Result<seq<Stmt>, LangError>)
      requires ValidAt(tokens, current)
      modifies this
      ensures Parsed(r, current) == ParseLoopAt(tokens, old(current), [])
    {
      var statements: seq<Stmt> := [];
      while !IsAtEndAt(tokens, current)
        invariant ValidAt(tokens, current)
        invariant ParseLoopAt(tokens, current, statements) == ParseLoopAt(tokens, old(current), [])
        decreases |tokens| - current
      {
        var d := DeclarationAt(tokens, current);
        current := d.pos;
        if d.result.Err? {
          return Err(d.result.error);
        }
        statements := statements + [d.result.value];
      }
      return Ok(statements);
    }
  }
}
