/** Parsing and evaluation of tag queries (src/prelude/inventory/tag_expr.rs).

    The source feeds every token to a foreign tree builder (`bet::BeTree`):
    one builder call per token. The model records those calls as `Action`s
    and builds the tree from them by recursive descent over the grammar

      expr   := term ("|" term)*
      term   := factor ("&" factor)*
      factor := "!" factor | "(" expr ")" | TAG

    The tree has the builder's shape: an operator node holds a left operand
    and an optional right one, and evaluation folds the source's three
    closures (leaf, operator, short-circuit) over it. */
module TagExpr {
  import opened Errors
  import opened HostTags
  import opened TagLexer

  datatype BoolOp = And | Or | Not

  /** The tree-builder calls: `open_par`, `close_par`, `push_operator`,
      `push_atom`. */
  datatype Action =
    | OpenPar
    | ClosePar
    | PushOperator(op: BoolOp)
    | PushAtom(atom: string)

  /** The one builder call that each non-error token drives. */
  function ActionOf(t: Token): Action
    requires t != ErrorToken
  {
    match t
    case OpenParen => OpenPar
    case CloseParen => ClosePar
    case AndOp => PushOperator(And)
    case OrOp => PushOperator(Or)
    case NotOp => PushOperator(Not)
    case Tag(name) => PushAtom(name)
  }

  /** The token that drives a builder call: the inverse of `ActionOf`. */
  function TokenOf(a: Action): (t: Token)
    ensures t != ErrorToken && ActionOf(t) == a
  {
    match a
    case OpenPar => OpenParen
    case ClosePar => CloseParen
    case PushOperator(op) => (match op case And => AndOp case Or => OrOp case Not => NotOp)
    case PushAtom(name) => Tag(name)
  }

  /** The builder calls of a token stream, in order. */
  function ActionsOf(ts: seq<Token>): (acts: seq<Action>)
    requires ErrorToken !in ts
    ensures |acts| == |ts|
    ensures forall i :: 0 <= i < |ts| ==> acts[i] == ActionOf(ts[i])
  {
    if ts == [] then [] else ActionsOf(ts[..|ts| - 1]) + [ActionOf(ts[|ts| - 1])]
  }

  /** The message of the `InvalidToken` error: the `Debug` form of the error
      token. */
  const InvalidTokenMessage: string := "Invalid token in tag expression: Error"

  /** Reported for a token sequence outside the grammar. */
  const MalformedQuery: Error := Boxed("malformed tag expression")

  /** What the operator closure returns for an operator/operand combination
      it does not expect. */
  const UnexpectedOperation: Error := Boxed("unexpected operation")

  /** A tree: a tag atom, or an operator with a left operand and an optional
      right operand. */
  datatype Expr = Atom(tag: string) | Node(op: BoolOp, left: Expr, right: Option<Expr>)

  /** `&` and `|` have two operands, `!` has one. */
  predicate WellFormed(e: Expr) {
    match e
    case Atom(_) => true
    case Node(op, l, r) =>
      WellFormed(l) && (if op == Not then r.None? else r.Some? && WellFormed(r.value))
  }

  datatype Parsed = Parsed(expr: Expr, rest: seq<Action>)

  function ParseFactor(a: seq<Action>): (r: Option<Parsed>)
    ensures r.Some? ==> |r.value.rest| < |a| && WellFormed(r.value.expr)
    decreases |a|, 0
  {
    if a == [] then None
    else match a[0]
      case PushAtom(t) => Some(Parsed(Atom(t), a[1..]))
      case PushOperator(Not) =>
        (match ParseFactor(a[1..])
         case None => None
         case Some(p) => Some(Parsed(Node(Not, p.expr, None), p.rest)))
      case OpenPar =>
        (match ParseDisjunction(a[1..])
         case None => None
         case Some(p) =>
           if p.rest != [] && p.rest[0] == ClosePar then Some(Parsed(p.expr, p.rest[1..]))
           else None)
      case _ => None
  }

  function ParseConjunction(a: seq<Action>): (r: Option<Parsed>)
    ensures r.Some? ==> |r.value.rest| < |a| && WellFormed(r.value.expr)
    decreases |a|, 1
  {
    match ParseFactor(a)
    case None => None
    case Some(p) => ConjunctionTail(p.expr, p.rest)
  }

  /** `("&" factor)*`, left-associative. */
  function ConjunctionTail(left: Expr, a: seq<Action>): (r: Option<Parsed>)
    requires WellFormed(left)
    ensures r.Some? ==> |r.value.rest| <= |a| && WellFormed(r.value.expr)
    decreases |a|, 2
  {
    if a != [] && a[0] == PushOperator(And) then
      match ParseFactor(a[1..])
      case None => None
      case Some(p) => ConjunctionTail(Node(And, left, Some(p.expr)), p.rest)
    else Some(Parsed(left, a))
  }

  function ParseDisjunction(a: seq<Action>): (r: Option<Parsed>)
    ensures r.Some? ==> |r.value.rest| < |a| && WellFormed(r.value.expr)
    decreases |a|, 3
  {
    match ParseConjunction(a)
    case None => None
    case Some(p) => DisjunctionTail(p.expr, p.rest)
  }

  /** `("|" term)*`, left-associative. */
  function DisjunctionTail(left: Expr, a: seq<Action>): (r: Option<Parsed>)
    requires WellFormed(left)
    ensures r.Some? ==> |r.value.rest| <= |a| && WellFormed(r.value.expr)
    decreases |a|, 4
  {
    if a != [] && a[0] == PushOperator(Or) then
      match ParseConjunction(a[1..])
      case None => None
      case Some(p) => DisjunctionTail(Node(Or, left, Some(p.expr)), p.rest)
    else Some(Parsed(left, a))
  }

  /** The tree built from a whole sequence of builder calls. */
  function Build(a: seq<Action>): (r: Result<Expr>)
    ensures r.Ok? ==> WellFormed(r.value)
    ensures r.Err? ==> r.error == MalformedQuery
  {
    match ParseDisjunction(a)
    case None => Err(MalformedQuery)
    case Some(p) => if p.rest == [] then Ok(p.expr) else Err(MalformedQuery)
  }

  /** What `parse` returns for a query string: an `InvalidToken` error as
      soon as the lexer yields its error token, otherwise the tree of the
      builder calls. */
  function ParseQuery(input: string): Result<Expr> {
    var ts := Lex(input);
    if ErrorToken in ts then Err(InvalidToken(InvalidTokenMessage))
    else Build(ActionsOf(ts))
  }

  /** `parse`: one builder call per token, in order; the first error token
      aborts with `InvalidToken`. */
  method Parse(input: string) returns (r: Result<Expr>)
    ensures r == ParseQuery(input)
    ensures r.Err? ==> r.error == InvalidToken(InvalidTokenMessage) || r.error == MalformedQuery
    ensures r.Ok? ==> WellFormed(r.value)
  {
    var tokens := Lex(input);
    var actions: seq<Action> := [];
    for i := 0 to |tokens|
      invariant ErrorToken !in tokens[..i]
      invariant actions == ActionsOf(tokens[..i])
    {
      assert tokens[..i + 1] == tokens[..i] + [tokens[i]];
      match tokens[i]
      case OpenParen => actions := actions + [OpenPar];
      case CloseParen => actions := actions + [ClosePar];
      case AndOp => actions := actions + [PushOperator(And)];
      case OrOp => actions := actions + [PushOperator(Or)];
      case NotOp => actions := actions + [PushOperator(Not)];
      case Tag(name) => actions := actions + [PushAtom(name)];
      case ErrorToken =>
        return Err(InvalidToken(InvalidTokenMessage));
    }
    assert tokens[..|tokens|] == tokens;
    r := Build(actions);
  }

  /** The leaf closure: a tag is true iff the host's tag list contains it. */
  function EvalLeaf(tag: string, tags: seq<string>): bool {
    tag in tags
  }

  /** The operator closure. */
  function EvalOperator(op: BoolOp, a: bool, b: Option<bool>): Result<bool> {
    match (op, b)
    case (And, Some(b)) => Ok(a && b)
    case (Or, Some(b)) => Ok(a || b)
    case (Not, None) => Ok(!a)
    case _ => Err(UnexpectedOperation)
  }

  /** The short-circuit closure: the left value decides `&` when false and
      `|` when true. */
  function ShortCircuit(op: BoolOp, a: bool): bool {
    (op == And && !a) || (op == Or && a)
  }

  /** Evaluation of a tree: the left operand first; a short-circuiting left
      value is the result and the right operand is not evaluated; otherwise
      the operator closure combines the left value with the right one, if
      any. */
  function Eval(e: Expr, tags: seq<string>): Result<bool> {
    match e
    case Atom(t) => Ok(EvalLeaf(t, tags))
    case Node(op, l, r) =>
      match Eval(l, tags)
      case Err(x) => Err(x)
      case Ok(a) =>
        if ShortCircuit(op, a) then Ok(a)
        else match r
          case None => EvalOperator(op, a, None)
          case Some(re) =>
            match Eval(re, tags)
            case Err(x) => Err(x)
            case Ok(b) => EvalOperator(op, a, Some(b))
  }

  /** Reference meaning of a well-formed tree, without short-circuiting. */
  function Denote(e: Expr, tags: seq<string>): bool
    requires WellFormed(e)
  {
    match e
    case Atom(t) => t in tags
    case Node(op, l, r) =>
      match op
      case And => Denote(l, tags) && Denote(r.value, tags)
      case Or => Denote(l, tags) || Denote(r.value, tags)
      case Not => !Denote(l, tags)
  }

  /** `eval_tag_expr`: parse, then evaluate against the host's tags. */
  function EvalTagExpr(query: string, tags: seq<string>): Result<bool> {
    match ParseQuery(query)
    case Err(e) => Err(e)
    case Ok(e) => Eval(e, tags)
  }

  /** The operator closure accepts exactly `&` and `|` with a right operand
      and `!` without one, and computes conjunction, disjunction and
      negation; every other combination is the "unexpected operation"
      error. */
  lemma OperatorSemantics(op: BoolOp, a: bool, b: Option<bool>)
    ensures EvalOperator(op, a, b).Ok? <==> (op == Not <==> b.None?)
    ensures op == And && b.Some? ==> EvalOperator(op, a, b) == Ok(a && b.value)
    ensures op == Or && b.Some? ==> EvalOperator(op, a, b) == Ok(a || b.value)
    ensures op == Not && b.None? ==> EvalOperator(op, a, b) == Ok(!a)
    ensures EvalOperator(op, a, b).Err? ==> EvalOperator(op, a, b).error == UnexpectedOperation
  {
  }

  /** Short-circuit: once the left operand decides, the right operand, well
      formed or not, is never looked at. */
  lemma ShortCircuitSkipsRight(op: BoolOp, l: Expr, r1: Option<Expr>, r2: Option<Expr>, tags: seq<string>)
    requires Eval(l, tags).Ok? && ShortCircuit(op, Eval(l, tags).value)
    ensures Eval(Node(op, l, r1), tags) == Eval(Node(op, l, r2), tags) == Eval(l, tags)
    ensures op == And ==> Eval(Node(op, l, r1), tags) == Ok(false)
    ensures op == Or ==> Eval(Node(op, l, r1), tags) == Ok(true)
  {
  }

  /** On well-formed trees the short-circuiting evaluation never fails and
      agrees with the plain boolean meaning. */
  lemma {:induction false} EvalWellFormed(e: Expr, tags: seq<string>)
    requires WellFormed(e)
    ensures Eval(e, tags) == Ok(Denote(e, tags))
  {
    match e
    case Atom(_) =>
    case Node(op, l, r) =>
      EvalWellFormed(l, tags);
      if r.Some? {
        EvalWellFormed(r.value, tags);
      }
  }

  /** What a query means for a host: it fails, for every tag list alike,
      exactly when it does not parse; otherwise it is the boolean meaning of
      its tree. */
  lemma EvalTagExprMeaning(query: string, tags: seq<string>)
    ensures EvalTagExpr(query, tags).Err? <==> ParseQuery(query).Err?
    ensures EvalTagExpr(query, tags).Err? ==> EvalTagExpr(query, tags).error == ParseQuery(query).error
    ensures ParseQuery(query).Ok? ==>
      EvalTagExpr(query, tags) == Ok(Denote(ParseQuery(query).value, tags))
  {
    if ParseQuery(query).Ok? {
      EvalWellFormed(ParseQuery(query).value, tags);
    }
  }

  /** A lone valid tag is true exactly on hosts whose tag list holds it. */
  lemma SingleTagQuery(t: string, tags: seq<string>)
    requires MatchesTagRegex(t)
    ensures ParseQuery(t) == Ok(Atom(t))
    ensures EvalTagExpr(t, tags) == Ok(t in tags)
  {
    LexSingleTag(t);
    var acts := ActionsOf([Tag(t)]);
    assert acts == [PushAtom(t)];
    assert acts[1..] == [];
    assert ParseFactor(acts) == Some(Parsed(Atom(t), []));
    assert ParseConjunction(acts) == Some(Parsed(Atom(t), []));
    assert ParseDisjunction(acts) == Some(Parsed(Atom(t), []));
    assert ParseQuery(t) == Ok(Atom(t));
  }

  /** A carriage return is no token and is not skipped: the query fails with
      `InvalidToken`, never evaluates to false. */
  lemma CarriageReturnIsInvalidToken(query: string, tags: seq<string>)
    requires '\r' in query
    ensures EvalTagExpr(query, tags) == Err(InvalidToken(InvalidTokenMessage))
  {
    ErrorTokenIffCarriageReturn(query);
  }
  /** Builder calls that rebuild a well-formed tree: `!` as a prefix,
      every binary node in parentheses. */
  function Show(e: Expr): seq<Action>
    requires WellFormed(e)
  {
    match e
    case Atom(t) => [PushAtom(t)]
    case Node(op, l, r) =>
      if op == Not then [PushOperator(Not)] + Show(l)
      else [OpenPar] + Show(l) + [PushOperator(op)] + Show(r.value) + [ClosePar]
  }

  /** A parenthesised disjunction followed by its closing call is one
      factor. */
  lemma FactorOfGroup(a: seq<Action>, e: Expr, rest: seq<Action>)
    requires a != [] && a[0] == OpenPar
    requires ParseDisjunction(a[1..]) == Some(Parsed(e, [ClosePar] + rest))
    ensures ParseFactor(a) == Some(Parsed(e, rest))
  {
    assert ([ClosePar] + rest)[1..] == rest;
  }

  /** Both operator tails stop at a closing parenthesis. */
  lemma TailsStopAtClose(e: Expr, closed: seq<Action>)
    requires WellFormed(e) && closed != [] && closed[0] == ClosePar
    ensures ConjunctionTail(e, closed) == Some(Parsed(e, closed))
    ensures DisjunctionTail(e, closed) == Some(Parsed(e, closed))
  {
  }

  /** Every well-formed tree is reachable: parsing a shown factor gives the
      tree back and leaves what follows untouched. */
  lemma {:induction false} ParseFactorShow(e: Expr, rest: seq<Action>)
    requires WellFormed(e)
    ensures ParseFactor(Show(e) + rest) == Some(Parsed(e, rest))
    decreases e, 1
  {
    var a := Show(e) + rest;
    match e
    case Atom(t) =>
      assert a[1..] == rest;
    case Node(op, l, r) =>
      if op == Not {
        assert a[1..] == Show(l) + rest;
        ParseFactorShow(l, rest);
      } else {
        ParseFactorShowGroup(e, rest);
      }
  }

  /** `ParseFactorShow` for a binary node, shown in parentheses. */
  lemma {:induction false} ParseFactorShowGroup(e: Expr, rest: seq<Action>)
    requires WellFormed(e) && e.Node? && e.op != Not
    ensures ParseFactor(Show(e) + rest) == Some(Parsed(e, rest))
    decreases e, 0
  {
    var op, l, r := e.op, e.left, e.right.value;
    var a := Show(e) + rest;
    var closed := [ClosePar] + rest;
    var afterLeft := [PushOperator(op)] + Show(r) + closed;
    assert a == [OpenPar] + (Show(l) + afterLeft);
    assert afterLeft[1..] == Show(r) + closed;
    ParseFactorShow(l, afterLeft);
    ParseFactorShow(r, closed);
    TailsStopAtClose(e, closed);
    if op == And {
      assert ConjunctionTail(l, afterLeft) == ConjunctionTail(e, closed);
      assert ParseConjunction(a[1..]) == Some(Parsed(e, closed));
    } else {
      TailsStopAtClose(r, closed);
      assert ParseConjunction(Show(r) + closed) == Some(Parsed(r, closed));
      assert ConjunctionTail(l, afterLeft) == Some(Parsed(l, afterLeft));
      assert DisjunctionTail(l, afterLeft) == DisjunctionTail(e, closed);
    }
    assert ParseDisjunction(a[1..]) == Some(Parsed(e, closed));
    FactorOfGroup(a, e, rest);
  }

  /** The parser accepts the shown form of every well-formed tree and
      rebuilds that very tree. */
  lemma BuildShow(e: Expr)
    requires WellFormed(e)
    ensures Build(Show(e)) == Ok(e)
  {
    ParseFactorShow(e, []);
    assert Show(e) + [] == Show(e);
    assert ConjunctionTail(e, []) == Some(Parsed(e, []));
    assert ParseConjunction(Show(e)) == Some(Parsed(e, []));
    assert DisjunctionTail(e, []) == Some(Parsed(e, []));
  }

  /** The tokens that drive a sequence of builder calls. */
  function TokensOf(acts: seq<Action>): (ts: seq<Token>)
    ensures |ts| == |acts| && ErrorToken !in ts
    ensures ActionsOf(ts) == acts
  {
    var ts := seq(|acts|, i requires 0 <= i < |acts| => TokenOf(acts[i]));
    assert forall i :: 0 <= i < |ts| ==> ts[i] != ErrorToken;
    ts
  }

  /** Every atom of the tree is a valid host tag. */
  predicate AtomsAreTags(e: Expr) {
    match e
    case Atom(t) => MatchesTagRegex(t)
    case Node(_, l, r) => AtomsAreTags(l) && (r.Some? ==> AtomsAreTags(r.value))
  }

  lemma {:induction false} ShowAtomsAreTags(e: Expr)
    requires WellFormed(e) && AtomsAreTags(e)
    ensures forall i :: 0 <= i < |Show(e)| && Show(e)[i].PushAtom? ==> MatchesTagRegex(Show(e)[i].atom)
  {
    match e
    case Atom(_) =>
    case Node(op, l, r) =>
      ShowAtomsAreTags(l);
      if op != Not {
        ShowAtomsAreTags(r.value);
      }
  }

  lemma TokensOfPrintable(acts: seq<Action>)
    requires forall i :: 0 <= i < |acts| && acts[i].PushAtom? ==> MatchesTagRegex(acts[i].atom)
    ensures forall i :: 0 <= i < |TokensOf(acts)| ==> Printable(TokensOf(acts)[i])
  {
  }

  /** A well-formed tree written out as query text. */
  function Print(e: Expr): string
    requires WellFormed(e) && AtomsAreTags(e)
  {
    ShowAtomsAreTags(e);
    TokensOfPrintable(Show(e));
    Unlex(TokensOf(Show(e)))
  }

  /** Text-level round trip: the printed form of a well-formed tree whose
      atoms are valid tags parses back to that tree. */
  lemma ParsePrint(e: Expr)
    requires WellFormed(e) && AtomsAreTags(e)
    ensures ParseQuery(Print(e)) == Ok(e)
  {
    var acts := Show(e);
    ShowAtomsAreTags(e);
    TokensOfPrintable(acts);
    var ts := TokensOf(acts);
    LexUnlex(ts);
    assert Lex(Print(e)) == ts;
    assert ActionsOf(ts) == acts;
    BuildShow(e);
  }
  /** `x op r` with a shown right operand parses to the binary node. */
  lemma BuildAtomOperatorShown(x: string, op: BoolOp, r: Expr)
    requires op != Not && WellFormed(r)
    ensures Build([PushAtom(x), PushOperator(op)] + Show(r)) == Ok(Node(op, Atom(x), Some(r)))
  {
    var a := [PushAtom(x), PushOperator(op)] + Show(r);
    var e := Node(op, Atom(x), Some(r));
    assert a[1..] == [PushOperator(op)] + Show(r);
    assert a[1..][1..] == Show(r) + [];
    ParseFactorShow(r, []);
    assert ParseFactor(a) == Some(Parsed(Atom(x), a[1..]));
    assert ConjunctionTail(e, []) == Some(Parsed(e, []));
    assert DisjunctionTail(e, []) == Some(Parsed(e, []));
    if op == Or {
      assert ConjunctionTail(r, []) == Some(Parsed(r, []));
      assert ParseConjunction(a[1..][1..]) == Some(Parsed(r, []));
      assert ConjunctionTail(Atom(x), a[1..]) == Some(Parsed(Atom(x), a[1..]));
      assert ParseConjunction(a) == Some(Parsed(Atom(x), a[1..]));
      assert DisjunctionTail(Atom(x), a[1..]) == Some(Parsed(e, []));
    } else {
      assert ConjunctionTail(Atom(x), a[1..]) == Some(Parsed(e, []));
      assert ParseConjunction(a) == Some(Parsed(e, []));
    }
    assert ParseDisjunction(a) == Some(Parsed(e, []));
  }

  /** The tag list of the source's own test. */
  const TestTags: seq<string> := ["foo", "bar", "baz"]

  /** `x op rest`, where `rest` lexes to the shown form of `r`, parses to
      the binary node with `x` on the left. */
  lemma QueryAtomOperator(x: string, c: char, rest: string, r: Expr)
    requires MatchesTagRegex(x) && (c == '&' || c == '|') && WellFormed(r)
    requires ErrorToken !in Lex(rest) && ActionsOf(Lex(rest)) == Show(r)
    ensures ParseQuery(x + " " + [c] + " " + rest)
      == Ok(Node(if c == '&' then And else Or, Atom(x), Some(r)))
  {
    var q := x + " " + [c] + " " + rest;
    var op := if c == '&' then And else Or;
    SpacedActions(x, c, rest);
    BuildAtomOperatorShown(x, op, r);
    ParseQueryOfTokens(q, Node(op, Atom(x), Some(r)));
  }

  /** The builder calls of `x op rest`: the atom, the operator, then those
      of `rest`. */
  lemma SpacedActions(x: string, c: char, rest: string)
    requires MatchesTagRegex(x) && (c == '&' || c == '|')
    requires ErrorToken !in Lex(rest)
    ensures ErrorToken !in Lex(x + " " + [c] + " " + rest)
    ensures ActionsOf(Lex(x + " " + [c] + " " + rest))
      == [PushAtom(x), PushOperator(if c == '&' then And else Or)] + ActionsOf(Lex(rest))
  {
    LexSpaced(x, c, rest);
    var head := [Tag(x), OperatorToken(c)];
    assert ActionsOf(head) == [PushAtom(x), PushOperator(if c == '&' then And else Or)];
    ActionsOfAppend(head, Lex(rest));
  }

  /** A query whose tokens hold no error token is the tree its builder
      calls build. */
  lemma ParseQueryOfTokens(q: string, e: Expr)
    requires ErrorToken !in Lex(q) && Build(ActionsOf(Lex(q))) == Ok(e)
    ensures ParseQuery(q) == Ok(e)
  {
  }

  /** The builder calls of two token streams one after the other. */
  lemma ActionsOfAppend(a: seq<Token>, b: seq<Token>)
    requires ErrorToken !in a && ErrorToken !in b
    ensures ErrorToken !in a + b
    ensures ActionsOf(a + b) == ActionsOf(a) + ActionsOf(b)
  {
    assert forall i :: 0 <= i < |a| ==> (a + b)[i] == a[i];
    assert forall i :: |a| <= i < |a + b| ==> (a + b)[i] == b[i - |a|];
  }

  /** `x op y` with two tags and a binary operator means the operator
      applied to the two membership tests. */
  lemma EvalBinaryOfTags(x: string, c: char, y: string, tags: seq<string>)
    requires MatchesTagRegex(x) && MatchesTagRegex(y)
    requires c == '&' || c == '|'
    ensures EvalTagExpr(x + " " + [c] + " " + y, tags)
      == Ok(if c == '&' then x in tags && y in tags else x in tags || y in tags)
  {
    var op := if c == '&' then And else Or;
    LexSingleTag(y);
    QueryAtomOperator(x, c, y, Atom(y));
    EvalWellFormed(Node(op, Atom(x), Some(Atom(y))), tags);
  }

  /** `foo | biz` holds: foo is there. */
  lemma TestQueryOr(q: string)
    requires q == "foo | biz"
    ensures EvalTagExpr(q, TestTags) == Ok(true)
  {
    assert q == "foo" + " " + ['|'] + " " + "biz";
    EvalBinaryOfTags("foo", '|', "biz", TestTags);
  }

  /** `foo & biz` does not hold: biz is missing. */
  lemma TestQueryAnd(q: string)
    requires q == "foo & biz"
    ensures EvalTagExpr(q, TestTags) == Ok(false)
  {
    assert q == "foo" + " " + ['&'] + " " + "biz";
    EvalBinaryOfTags("foo", '&', "biz", TestTags);
    assert "biz" !in TestTags;
  }

  /** The parenthesised disjunction `(y | z)` lexes to the shown form of
      its tree. */
  lemma GroupShown(y: string, z: string)
    requires MatchesTagRegex(y) && MatchesTagRegex(z)
    ensures var group := "(" + y + " " + ['|'] + " " + z + ")";
      var yOrZ := Node(Or, Atom(y), Some(Atom(z)));
      WellFormed(yOrZ) && ErrorToken !in Lex(group) && ActionsOf(Lex(group)) == Show(yOrZ)
  {
    LexGroup(y, '|', z);
    assert WellFormed(Atom(z));
  }

  /** `!(y | z)` lexes to the shown form of the negated disjunction. */
  lemma NegatedGroupShown(y: string, z: string)
    requires MatchesTagRegex(y) && MatchesTagRegex(z)
    ensures var group := "(" + y + " " + ['|'] + " " + z + ")";
      var notGroup := Node(Not, Node(Or, Atom(y), Some(Atom(z))), None);
      WellFormed(notGroup) && ErrorToken !in Lex(['!'] + group) && ActionsOf(Lex(['!'] + group)) == Show(notGroup)
  {
    var group := "(" + y + " " + ['|'] + " " + z + ")";
    var yOrZ := Node(Or, Atom(y), Some(Atom(z)));
    GroupShown(y, z);
    LexOperator('!', group);
    assert Lex(['!'] + group) == [NotOp] + Lex(group);
    ActionsOfAppend([NotOp], Lex(group));
    assert Show(Node(Not, yOrZ, None)) == [PushOperator(Not)] + Show(yOrZ);
  }

  /** `x & (y | z)`: the group binds the disjunction first. */
  lemma EvalConjunctionOfGroup(x: string, y: string, z: string, tags: seq<string>)
    requires MatchesTagRegex(x) && MatchesTagRegex(y) && MatchesTagRegex(z)
    ensures EvalTagExpr(x + " " + ['&'] + " " + ("(" + y + " " + ['|'] + " " + z + ")"), tags)
      == Ok(x in tags && (y in tags || z in tags))
  {
    var group := "(" + y + " " + ['|'] + " " + z + ")";
    var yOrZ := Node(Or, Atom(y), Some(Atom(z)));
    GroupShown(y, z);
    QueryAtomOperator(x, '&', group, yOrZ);
    EvalWellFormed(Node(And, Atom(x), Some(yOrZ)), tags);
    assert Denote(yOrZ, tags) == (y in tags || z in tags);
  }

  /** `x & !(y | z)`: negation applies to the whole group. */
  lemma EvalConjunctionOfNegatedGroup(x: string, y: string, z: string, tags: seq<string>)
    requires MatchesTagRegex(x) && MatchesTagRegex(y) && MatchesTagRegex(z)
    ensures EvalTagExpr(x + " " + ['&'] + " " + (['!'] + ("(" + y + " " + ['|'] + " " + z + ")")), tags)
      == Ok(x in tags && !(y in tags || z in tags))
  {
    var group := "(" + y + " " + ['|'] + " " + z + ")";
    var yOrZ := Node(Or, Atom(y), Some(Atom(z)));
    var notGroup := Node(Not, yOrZ, None);
    NegatedGroupShown(y, z);
    QueryAtomOperator(x, '&', ['!'] + group, notGroup);
    EvalWellFormed(Node(And, Atom(x), Some(notGroup)), tags);
    assert Denote(yOrZ, tags) == (y in tags || z in tags);
    assert Denote(notGroup, tags) == !Denote(yOrZ, tags);
  }

  /** `foo & (bar | biz)` holds: foo and bar are there. */
  lemma TestQueryAndGroup(q: string)
    requires q == "foo & (bar | biz)"
    ensures EvalTagExpr(q, TestTags) == Ok(true)
  {
    assert q == "foo" + " " + ['&'] + " " + ("(" + "bar" + " " + ['|'] + " " + "biz" + ")");
    EvalConjunctionOfGroup("foo", "bar", "biz", TestTags);
  }

  /** `foo & !(bar | biz)` does not hold: bar is there. */
  lemma TestQueryAndNotGroup(q: string)
    requires q == "foo & !(bar | biz)"
    ensures EvalTagExpr(q, TestTags) == Ok(false)
  {
    assert q == "foo" + " " + ['&'] + " " + (['!'] + ("(" + "bar" + " " + ['|'] + " " + "biz" + ")"));
    EvalConjunctionOfNegatedGroup("foo", "bar", "biz", TestTags);
  }
}
