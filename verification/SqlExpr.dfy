/** Printing SQL expressions (`impl Display for Expr`) to tokens, and when the printed form
    determines the expression. */
module SqlExpr {
  import opened Seqs
  import opened OneOrMany

  datatype Keyword =
    | IS | NOT | TRUE | FALSE | NULL | UNKNOWN | DISTINCT | FROM | IN | BETWEEN | AND | LIKE | ILIKE | ANY | ESCAPE
    | CASE | WHEN | THEN | ELSE | END | CAST | AS

  /** The printed words: names (of columns and types), literals, operators, keywords and punctuation. */
  datatype Token = Id(name: string) | Lit(text: string) | Op(op: string) | Kw(kw: Keyword)
                 | LParen | RParen | Comma | Dot

  datatype Test = IsTrue | IsFalse | IsNull | IsUnknown

  datatype Expr =
    | Identifier(name: string)
    | CompoundIdentifier(parts: seq<string>)
    | Value(text: string)
    | Nested(expr: Expr)
    | Tuple(exprs: seq<Expr>)
    | UnaryOp(op: string, expr: Expr)
    | BinaryOp(left: Expr, op: string, right: Expr)
    | Is(expr: Expr, test: Test, negated: bool)
    | IsDistinctFrom(left: Expr, right: Expr, negated: bool)
    | InList(expr: Expr, exprs: seq<Expr>, negated: bool)
    | Between(expr: Expr, low: Expr, high: Expr, negated: bool)
    | Like(ilike: bool, expr: Expr, pattern: Expr, any: bool, escape: Option<string>, negated: bool)
    | Case(operand: Option<Expr>, whens: seq<When>, otherwise: Option<Expr>)
    | Cast(expr: Expr, ty: string)

  datatype When = When(condition: Expr, result: Expr)

  // ---- printing ---------------------------------------------------------------------------------

  function TestKeyword(t: Test): Keyword {
    match t case IsTrue => TRUE case IsFalse => FALSE case IsNull => NULL case IsUnknown => UNKNOWN
  }

  /** The operators AND and NOT are the same words as the AND of BETWEEN and the NOT of NOT IN. */
  function OpToken(op: string): Token { if op == "AND" then Kw(AND) else if op == "NOT" then Kw(NOT) else Op(op) }

  function LikeKeyword(ilike: bool): Keyword { if ilike then ILIKE else LIKE }

  function NotIf(negated: bool): seq<Token> { if negated then [Kw(NOT)] else [] }

  function Dotted(parts: seq<string>): seq<Token> {
    if parts == [] then [] else [Dot, Id(parts[0])] + Dotted(parts[1..])
  }

  function Print(e: Expr): seq<Token>
    decreases e
  {
    match e
    case Identifier(n) => [Id(n)]
    case CompoundIdentifier(ps) => if ps == [] then [] else [Id(ps[0])] + Dotted(ps[1..])
    case Value(t) => [Lit(t)]
    case Nested(x) => [LParen] + (Print(x) + [RParen])
    case Tuple(xs) => [LParen] + PrintList(xs)
    case UnaryOp(op, x) => [OpToken(op)] + Print(x)
    case BinaryOp(l, op, r) => Print(l) + ([OpToken(op)] + Print(r))
    case Is(x, t, n) => Print(x) + ([Kw(IS)] + NotIf(n) + [Kw(TestKeyword(t))])
    case IsDistinctFrom(l, r, n) => Print(l) + ([Kw(IS)] + NotIf(n) + [Kw(DISTINCT), Kw(FROM)] + Print(r))
    case InList(x, xs, n) => Print(x) + (NotIf(n) + [Kw(IN), LParen] + PrintList(xs))
    case Between(x, lo, hi, n) => Print(x) + (NotIf(n) + [Kw(BETWEEN)] + (Print(lo) + ([Kw(AND)] + Print(hi))))
    case Like(ilike, x, p, any, esc, n) =>
      Print(x) + (NotIf(n) + [Kw(LikeKeyword(ilike))] + (AnyIf(any) + (Print(p) + Escape(esc))))
    case Case(operand, whens, otherwise) =>
      [Kw(CASE)] + (PrintOperand(operand)
                    + (PrintWhens(whens)
                       + (PrintElse(otherwise) + [Kw(END)])))
    case Cast(x, ty) => [Kw(CAST), LParen] + (Print(x) + [Kw(AS), Id(ty), RParen])
  }

  function Escape(esc: Option<string>): seq<Token> {
    if esc.Some? then [Kw(ESCAPE), Lit(esc.value)] else []
  }

  /** A comma-separated list and its closing parenthesis. */
  function PrintList(xs: seq<Expr>): seq<Token>
    decreases xs
  {
    if xs == [] then [RParen]
    else Print(xs[0]) + (if |xs| == 1 then [RParen] else [Comma] + PrintList(xs[1..]))
  }

  function PrintOperand(o: Option<Expr>): seq<Token>
    decreases o
  {
    if o.Some? then Print(o.value) else []
  }

  function PrintElse(w: Option<Expr>): seq<Token>
    decreases w
  {
    if w.Some? then [Kw(ELSE)] + Print(w.value) else []
  }

  function PrintWhens(ws: seq<When>): seq<Token>
    decreases ws
  {
    if ws == [] then [] else PrintWhen(ws[0]) + PrintWhens(ws[1..])
  }

  function PrintWhen(w: When): seq<Token>
    decreases w
  {
    [Kw(WHEN)] + (Print(w.condition) + ([Kw(THEN)] + Print(w.result)))
  }

  // ---- the unambiguous fragment ----------------------------------------------------------------------

  /** Expressions whose printed form is closed on both sides. */
  predicate Primary(e: Expr) {
    e.Identifier? || e.CompoundIdentifier? || e.Value? || e.Nested? || e.Tuple? || e.Case? || e.Cast?
  }

  /** Keywords as they are printed. */
  function KeywordText(k: Keyword): string {
    match k
    case IS => "IS" case NOT => "NOT" case TRUE => "TRUE" case FALSE => "FALSE" case NULL => "NULL"
    case UNKNOWN => "UNKNOWN" case DISTINCT => "DISTINCT" case FROM => "FROM" case IN => "IN" case BETWEEN => "BETWEEN"
    case AND => "AND" case LIKE => "LIKE" case ILIKE => "ILIKE" case ANY => "ANY" case ESCAPE => "ESCAPE"
    case CASE => "CASE" case WHEN => "WHEN" case THEN => "THEN" case ELSE => "ELSE" case END => "END"
    case CAST => "CAST" case AS => "AS"
  }

  ghost predicate IsKeyword(w: string) { exists k :: w == KeywordText(k) }

  predicate Letter(c: char) { 'a' <= c <= 'z' || 'A' <= c <= 'Z' || c == '_' || c == '\"' }

  /** Operators spelled as words, other than the keywords. */
  predicate WordOperator(w: string) { w == "OR" || w == "XOR" }

  /** A bare or quoted identifier or type name that is no keyword. */
  ghost predicate IsName(w: string) { w != "" && Letter(w[0]) && !IsKeyword(w) && !WordOperator(w) }

  /** A number or a quoted string. */
  predicate IsLiteral(w: string) { w != "" && ('0' <= w[0] <= '9' || w[0] == '\'') }

  predicate Symbolic(c: char) {
    c == '+' || c == '-' || c == '*' || c == '/' || c == '%' || c == '<' || c == '>' || c == '=' || c == '!' || c == '|'
    || c == '&' || c == '^' || c == '~' || c == '@' || c == '#' || c == '?' || c == ':'
  }

  predicate IsOperator(w: string) { WordOperator(w) || (w != "" && Symbolic(w[0])) }

  /** Every operand is primary (compound ones are wrapped in Nested), no tuple has exactly one element, compound
      identifiers have at least two parts, names, literals and operators are what they should be, and ILIKE ANY has no
      escape character. */
  ghost predicate Wrapped(e: Expr)
    decreases e
  {
    match e
    case Identifier(n) => IsName(n)
    case CompoundIdentifier(ps) => |ps| >= 2 && AllNames(ps)
    case Value(t) => IsLiteral(t)
    case Nested(x) => Wrapped(x)
    case Tuple(xs) => |xs| != 1 && AllWrapped(xs)
    case UnaryOp(op, x) => (op == "NOT" || IsOperator(op)) && Primary(x) && Wrapped(x)
    case BinaryOp(l, op, r) =>
      (op == "AND" || IsOperator(op)) && Primary(l) && Wrapped(l) && Primary(r) && Wrapped(r)
    case Is(x, _, _) => Primary(x) && Wrapped(x)
    case IsDistinctFrom(l, r, _) => Primary(l) && Wrapped(l) && Primary(r) && Wrapped(r)
    case InList(x, xs, _) => Primary(x) && Wrapped(x) && AllWrapped(xs)
    case Between(x, lo, hi, _) => Primary(x) && Wrapped(x) && Primary(lo) && Wrapped(lo) && Primary(hi) && Wrapped(hi)
    case Like(ilike, x, p, any, esc, _) =>
      && Primary(x) && Wrapped(x) && Primary(p) && Wrapped(p)
      && (esc.Some? ==> IsLiteral(esc.value)) && !(ilike && any && esc.Some?)
    case Case(o, ws, w) => (o.Some? ==> Wrapped(o.value)) && WrappedWhens(ws) && (w.Some? ==> Wrapped(w.value))
    case Cast(x, ty) => IsName(ty) && Wrapped(x)
  }

  ghost predicate AllNames(ps: seq<string>) { forall i :: 0 <= i < |ps| ==> IsName(ps[i]) }

  ghost predicate AllWrapped(xs: seq<Expr>)
    decreases xs
  {
    xs == [] || (Wrapped(xs[0]) && AllWrapped(xs[1..]))
  }

  ghost predicate WrappedWhens(ws: seq<When>)
    decreases ws
  {
    ws == [] || (WrappedWhen(ws[0]) && WrappedWhens(ws[1..]))
  }

  ghost predicate WrappedWhen(w: When)
    decreases w
  {
    Wrapped(w.condition) && Wrapped(w.result)
  }

  // ---- a parser for it -------------------------------------------------------------------------------------

  datatype Parsed<+T> = Fail | Ok(value: T, rest: seq<Token>) {
    predicate IsFailure() { Fail? }
    function PropagateFailure<U>(): Parsed<U> requires Fail? { Fail }
    function Extract(): (T, seq<Token>) requires Ok? { (value, rest) }
  }

  predicate Starts(ts: seq<Token>, t: Token) { ts != [] && ts[0] == t }

  function Expect(ts: seq<Token>, t: Token): (r: Parsed<()>)
    ensures r.Ok? ==> ts == [t] + r.rest
  {
    if Starts(ts, t) then Ok((), ts[1..]) else Fail
  }

  function ParseDotted(ts: seq<Token>): (r: (seq<string>, seq<Token>))
    ensures |r.1| <= |ts|
  {
    if |ts| >= 2 && ts[0] == Dot && ts[1].Id? then
      var rest := ParseDotted(ts[2..]);
      ([ts[1].name] + rest.0, rest.1)
    else ([], ts)
  }

  function ParsePrimary(ts: seq<Token>): (r: Parsed<Expr>)
    ensures r.Ok? ==> |r.rest| < |ts|
    decreases |ts|, 0
  {
    if ts == [] then Fail
    else match ts[0]
      case Id(n) =>
        var d := ParseDotted(ts[1..]);
        Ok(if d.0 == [] then Identifier(n) else CompoundIdentifier([n] + d.0), d.1)
      case Lit(t) => Ok(Value(t), ts[1..])
      case LParen => ParseParens(ts[1..])
      case Kw(CASE) => ParseCase(ts[1..])
      case Kw(CAST) =>
        var (_, t1) :- Expect(ts[1..], LParen);
        var (x, t2) :- ParseExpr(t1);
        var (_, t3) :- Expect(t2, Kw(AS));
        if t3 != [] && t3[0].Id? then
          var (_, t4) :- Expect(t3[1..], RParen);
          Ok(Cast(x, t3[0].name), t4)
        else Fail
      case _ => Fail
  }

  /** After an opening parenthesis: a nested expression or a tuple. */
  function ParseParens(ts: seq<Token>): (r: Parsed<Expr>)
    ensures r.Ok? ==> |r.rest| <= |ts|
    decreases |ts|, 3
  {
    if Starts(ts, RParen) then Ok(Tuple([]), ts[1..])
    else
      var (x, t1) :- ParseExpr(ts);
      if Starts(t1, RParen) then Ok(Nested(x), t1[1..])
      else if Starts(t1, Comma) then
        var (xs, t2) :- ParseItems(t1[1..]);
        Ok(Tuple([x] + xs), t2)
      else Fail
  }

  /** A possibly empty list up to its closing parenthesis. */
  function ParseList(ts: seq<Token>): (r: Parsed<seq<Expr>>)
    ensures r.Ok? ==> |r.rest| <= |ts|
    decreases |ts|, 3
  {
    if Starts(ts, RParen) then Ok([], ts[1..]) else ParseItems(ts)
  }

  function ParseItems(ts: seq<Token>): (r: Parsed<seq<Expr>>)
    ensures r.Ok? ==> |r.rest| <= |ts|
    decreases |ts|, 2
  {
    var (x, t1) :- ParseExpr(ts);
    if Starts(t1, RParen) then Ok([x], t1[1..])
    else if Starts(t1, Comma) then
      var (xs, t2) :- ParseItems(t1[1..]);
      Ok([x] + xs, t2)
    else Fail
  }

  function ParseWhens(ts: seq<Token>): (r: Parsed<seq<When>>)
    ensures r.Ok? ==> |r.rest| <= |ts|
    decreases |ts|, 2
  {
    if !Starts(ts, Kw(WHEN)) then Ok([], ts)
    else
      var (c, t1) :- ParseExpr(ts[1..]);
      var (_, t2) :- Expect(t1, Kw(THEN));
      var (x, t3) :- ParseExpr(t2);
      var (ws, t4) :- ParseWhens(t3);
      Ok([When(c, x)] + ws, t4)
  }

  function ParseOperand(ts: seq<Token>): (r: Parsed<Option<Expr>>)
    ensures r.Ok? ==> |r.rest| <= |ts|
    decreases |ts|, 2
  {
    if Starts(ts, Kw(WHEN)) || Starts(ts, Kw(ELSE)) || Starts(ts, Kw(END)) then Ok(None, ts)
    else
      var (x, t1) :- ParseExpr(ts);
      Ok(Some(x), t1)
  }

  function ParseElse(ts: seq<Token>): (r: Parsed<Option<Expr>>)
    ensures r.Ok? ==> |r.rest| <= |ts|
    decreases |ts|, 2
  {
    if !Starts(ts, Kw(ELSE)) then Ok(None, ts)
    else
      var (x, t1) :- ParseExpr(ts[1..]);
      Ok(Some(x), t1)
  }

  /** After CASE. */
  function ParseCase(ts: seq<Token>): (r: Parsed<Expr>)
    ensures r.Ok? ==> |r.rest| <= |ts|
    decreases |ts|, 3
  {
    var (operand, t1) :- ParseOperand(ts);
    var (whens, t2) :- ParseWhens(t1);
    var (otherwise, t3) :- ParseElse(t2);
    var (_, t4) :- Expect(t3, Kw(END));
    Ok(Case(operand, whens, otherwise), t4)
  }

  function OpName(t: Token): string { if t.Op? then t.op else if t == Kw(AND) then "AND" else "NOT" }

  function ParseExpr(ts: seq<Token>): (r: Parsed<Expr>)
    ensures r.Ok? ==> |r.rest| < |ts|
    decreases |ts|, 1
  {
    if ts != [] && (ts[0].Op? || ts[0] == Kw(NOT)) then
      var (x, t1) :- ParsePrimary(ts[1..]);
      Ok(UnaryOp(OpName(ts[0]), x), t1)
    else
      var (x, t1) :- ParsePrimary(ts);
      ParseSuffix(x, t1)
  }

  /** What may follow a primary expression. */
  function ParseSuffix(x: Expr, ts: seq<Token>): (r: Parsed<Expr>)
    ensures r.Ok? ==> |r.rest| <= |ts|
    decreases |ts|, 4
  {
    if ts == [] then Ok(x, ts)
    else if ts[0].Op? || ts[0] == Kw(AND) then
      var (y, t1) :- ParsePrimary(ts[1..]);
      Ok(BinaryOp(x, OpName(ts[0]), y), t1)
    else if ts[0] == Kw(IS) then
      ParseIs(x, Starts(ts[1..], Kw(NOT)), if Starts(ts[1..], Kw(NOT)) then ts[2..] else ts[1..])
    else if ts[0] == Kw(NOT) then ParsePredicate(x, true, ts[1..])
    else if ts[0] == Kw(IN) || ts[0] == Kw(BETWEEN) || ts[0] == Kw(LIKE) || ts[0] == Kw(ILIKE) then
      ParsePredicate(x, false, ts)
    else Ok(x, ts)
  }

  function ParseIs(x: Expr, negated: bool, ts: seq<Token>): (r: Parsed<Expr>)
    ensures r.Ok? ==> |r.rest| <= |ts|
    decreases |ts|, 1
  {
    if ts == [] then Fail
    else if ts[0] == Kw(TRUE) then Ok(Is(x, IsTrue, negated), ts[1..])
    else if ts[0] == Kw(FALSE) then Ok(Is(x, IsFalse, negated), ts[1..])
    else if ts[0] == Kw(NULL) then Ok(Is(x, IsNull, negated), ts[1..])
    else if ts[0] == Kw(UNKNOWN) then Ok(Is(x, IsUnknown, negated), ts[1..])
    else if |ts| >= 2 && ts[0] == Kw(DISTINCT) && ts[1] == Kw(FROM) then
      var (y, t1) :- ParsePrimary(ts[2..]);
      Ok(IsDistinctFrom(x, y, negated), t1)
    else Fail
  }

  function ParsePredicate(x: Expr, negated: bool, ts: seq<Token>): (r: Parsed<Expr>)
    ensures r.Ok? ==> |r.rest| <= |ts|
    decreases |ts|, 1
  {
    if ts == [] then Fail
    else if ts[0] == Kw(IN) then
      var (_, t1) :- Expect(ts[1..], LParen);
      var (xs, t2) :- ParseList(t1);
      Ok(InList(x, xs, negated), t2)
    else if ts[0] == Kw(BETWEEN) then
      var (lo, t1) :- ParsePrimary(ts[1..]);
      var (_, t2) :- Expect(t1, Kw(AND));
      var (hi, t3) :- ParsePrimary(t2);
      Ok(Between(x, lo, hi, negated), t3)
    else if ts[0] == Kw(LIKE) || ts[0] == Kw(ILIKE) then
      var ilike := ts[0] == Kw(ILIKE);
      var any := Starts(ts[1..], Kw(ANY));
      var (p, t1) :- ParsePrimary(if any then ts[2..] else ts[1..]);
      if |t1| >= 2 && t1[0] == Kw(ESCAPE) && t1[1].Lit?
      then Ok(Like(ilike, x, p, any, Some(t1[1].text), negated), t1[2..])
      else Ok(Like(ilike, x, p, any, None, negated), t1)
    else Fail
  }

  // ---- printing then parsing gives the expression back -----------------------------------------------------

  /** Tokens that can follow a complete expression. */
  predicate Follow(ts: seq<Token>) {
    ts == [] || ts[0] == RParen || ts[0] == Comma
    || ts[0] == Kw(WHEN) || ts[0] == Kw(THEN) || ts[0] == Kw(ELSE) || ts[0] == Kw(END) || ts[0] == Kw(AS)
  }

  predicate Begins(t: Token) {
    t.Id? || t.Lit? || t.Op? || t == Kw(NOT) || t == LParen || t == Kw(CASE) || t == Kw(CAST)
  }

  lemma {:induction false} FirstToken(e: Expr)
    requires Wrapped(e)
    ensures Print(e) != [] && Begins(Print(e)[0])
    ensures Primary(e) ==> !Print(e)[0].Op? && Print(e)[0] != Kw(NOT)
    decreases e
  {
    match e
    case BinaryOp(l, _, _) => FirstToken(l);
    case Is(x, _, _) => FirstToken(x);
    case IsDistinctFrom(l, _, _) => FirstToken(l);
    case InList(x, _, _) => FirstToken(x);
    case Between(x, _, _, _) => FirstToken(x);
    case Like(_, x, _, _, _, _) => FirstToken(x);
    case _ =>
  }

  lemma {:induction false} DottedTrip(parts: seq<string>, rest: seq<Token>)
    requires !Starts(rest, Dot)
    ensures ParseDotted(Dotted(parts) + rest) == (parts, rest)
  {
    if parts == [] {
      assert Dotted(parts) + rest == rest;
    } else {
      var more := Dotted(parts[1..]) + rest;
      Regroup([Dot, Id(parts[0])], Dotted(parts[1..]), rest);
      DottedTrip(parts[1..], rest);
      DottedStep(parts[0], more);
      assert parts == [parts[0]] + parts[1..];
    }
  }

  lemma {:induction false} DottedStep(part: string, more: seq<Token>)
    ensures ParseDotted([Dot, Id(part)] + more) == ([part] + ParseDotted(more).0, ParseDotted(more).1)
  {
    var ts := [Dot, Id(part)] + more;
    assert ts[0] == Dot && ts[1] == Id(part) && ts[2..] == more;
  }

  lemma {:induction false} PrimaryTrip(e: Expr, rest: seq<Token>)
    requires Wrapped(e) && Primary(e) && !Starts(rest, Dot)
    ensures ParsePrimary(Print(e) + rest) == Ok(e, rest)
    decreases e, 2
  {
    match e
    case Identifier(n) =>
      assert ([Id(n)] + rest)[1..] == rest && Dotted([]) + rest == rest;
      DottedTrip([], rest);
    case CompoundIdentifier(ps) => CompoundTrip(ps, rest);
    case Value(t) => assert ([Lit(t)] + rest)[1..] == rest;
    case Nested(x) => NestedTrip(x, rest);
    case Tuple(xs) => TupleTrip(xs, rest);
    case Case(o, ws, w) => CaseTrip(e, rest);
    case Cast(x, ty) => CastTrip(x, ty, rest);
  }

  lemma {:induction false} CompoundTrip(ps: seq<string>, rest: seq<Token>)
    requires |ps| >= 2 && !Starts(rest, Dot)
    ensures ParsePrimary(Print(CompoundIdentifier(ps)) + rest) == Ok(CompoundIdentifier(ps), rest)
  {
    var ts := Print(CompoundIdentifier(ps)) + rest;
    assert ts[0] == Id(ps[0]) && ts[1..] == Dotted(ps[1..]) + rest;
    DottedTrip(ps[1..], rest);
    assert ps == [ps[0]] + ps[1..];
  }

  lemma {:induction false} CastTrip(x: Expr, ty: string, rest: seq<Token>)
    requires Wrapped(x)
    ensures ParsePrimary(Print(Cast(x, ty)) + rest) == Ok(Cast(x, ty), rest)
    decreases x, 5
  {
    var ts := Print(Cast(x, ty)) + rest;
    var t2 := [Kw(AS), Id(ty), RParen] + rest;
    assert ts == [Kw(CAST), LParen] + (Print(x) + t2);
    RoundTripInto(x, t2);
    CastStep(Print(x) + t2, x, ty, rest);
  }

  lemma {:induction false} CastStep(ts: seq<Token>, x: Expr, ty: string, rest: seq<Token>)
    requires ParseExpr(ts) == Ok(x, [Kw(AS), Id(ty), RParen] + rest)
    ensures ParsePrimary([Kw(CAST), LParen] + ts) == Ok(Cast(x, ty), rest)
  {
    var t0, t2 := [Kw(CAST), LParen] + ts, [Kw(AS), Id(ty), RParen] + rest;
    assert t0[1..] == [LParen] + ts && t0[1..][1..] == ts;
    assert t2[1..] == [Id(ty), RParen] + rest && t2[1..][1..] == [RParen] + rest;
    assert ([RParen] + rest)[1..] == rest;
  }

  lemma {:induction false} NestedTrip(x: Expr, rest: seq<Token>)
    requires Wrapped(x)
    ensures ParsePrimary(Print(Nested(x)) + rest) == Ok(Nested(x), rest)
    decreases x, 5
  {
    var ts := Print(Nested(x)) + rest;
    var t1 := [RParen] + rest;
    assert ts[0] == LParen && ts[1..] == Print(x) + t1;
    FirstToken(x);
    assert ts[1..][0] == Print(x)[0];
    RoundTripInto(x, t1);
    assert t1[1..] == rest;
  }

  lemma {:induction false} TupleTrip(xs: seq<Expr>, rest: seq<Token>)
    requires AllWrapped(xs) && |xs| != 1
    ensures ParsePrimary(Print(Tuple(xs)) + rest) == Ok(Tuple(xs), rest)
    decreases xs, 5
  {
    if xs == [] {
      EmptyTupleTrip(rest);
    } else {
      var t1 := PrintList(xs[1..]) + rest;
      var t0 := Print(xs[0]) + ([Comma] + t1);
      assert ParsePrimary([LParen] + t0) == Ok(Tuple([xs[0]] + xs[1..]), rest) by {
        StartTrip(xs[0], [Comma] + t1);
        ItemsTrip(xs[1..], rest);
        TupleStep(t0, xs[0], t1, xs[1..], rest);
      }
      assert Print(Tuple(xs)) + rest == [LParen] + t0 by { ListTokens(xs, rest); }
      assert xs == [xs[0]] + xs[1..];
    }
  }

  lemma {:induction false} EmptyTupleTrip(rest: seq<Token>)
    ensures ParsePrimary(Print(Tuple([])) + rest) == Ok(Tuple([]), rest)
  {
    var ts := [LParen] + ([RParen] + rest);
    assert Print(Tuple([])) + rest == ts;
    assert ts[1..] == [RParen] + rest && ([RParen] + rest)[1..] == rest;
  }

  lemma {:induction false} ListTokens(xs: seq<Expr>, rest: seq<Token>)
    requires |xs| >= 2
    ensures Print(Tuple(xs)) + rest == [LParen] + (Print(xs[0]) + ([Comma] + (PrintList(xs[1..]) + rest)))
  {
    ItemTokens(xs, rest);
    Regroup([LParen], PrintList(xs), rest);
  }

  /** Parsing a whole sub-expression, which does not start with a closing parenthesis or a keyword of CASE. */
  lemma {:induction false} StartTrip(x: Expr, ts: seq<Token>)
    requires Wrapped(x) && Follow(ts)
    ensures Print(x) + ts != [] && Begins((Print(x) + ts)[0])
    ensures ParseExpr(Print(x) + ts) == Ok(x, ts)
    decreases x, 5
  {
    FirstToken(x);
    assert (Print(x) + ts)[0] == Print(x)[0];
    RoundTripInto(x, ts);
  }

  lemma {:induction false} TupleStep(ts: seq<Token>, x: Expr, t1: seq<Token>, xs: seq<Expr>, rest: seq<Token>)
    requires !Starts(ts, RParen) && ParseExpr(ts) == Ok(x, [Comma] + t1) && ParseItems(t1) == Ok(xs, rest)
    ensures ParsePrimary([LParen] + ts) == Ok(Tuple([x] + xs), rest)
  {
    assert ([LParen] + ts)[1..] == ts && ([Comma] + t1)[1..] == t1;
    assert ParseParens(ts) == Ok(Tuple([x] + xs), rest);
  }

  lemma {:induction false} ItemsTrip(xs: seq<Expr>, rest: seq<Token>)
    requires AllWrapped(xs) && xs != []
    ensures ParseItems(PrintList(xs) + rest) == Ok(xs, rest)
    decreases xs, 4
  {
    if |xs| == 1 {
      RoundTripInto(xs[0], [RParen] + rest);
      LastItem(Print(xs[0]) + ([RParen] + rest), xs[0], rest);
      Regroup(Print(xs[0]), [RParen], rest);
      assert xs == [xs[0]];
    } else {
      var t1 := PrintList(xs[1..]) + rest;
      RoundTripInto(xs[0], [Comma] + t1);
      ItemsTrip(xs[1..], rest);
      OneItem(Print(xs[0]) + ([Comma] + t1), xs[0], t1, xs[1..], rest);
      ItemTokens(xs, rest);
      assert xs == [xs[0]] + xs[1..];
    }
  }

  lemma {:induction false} ItemTokens(xs: seq<Expr>, rest: seq<Token>)
    requires |xs| >= 2
    ensures PrintList(xs) + rest == Print(xs[0]) + ([Comma] + (PrintList(xs[1..]) + rest))
  {
  }

  lemma {:induction false} LastItem(ts: seq<Token>, x: Expr, rest: seq<Token>)
    requires ParseExpr(ts) == Ok(x, [RParen] + rest)
    ensures ParseItems(ts) == Ok([x], rest)
  {
    assert ([RParen] + rest)[1..] == rest;
  }

  lemma {:induction false} OneItem(ts: seq<Token>, x: Expr, t1: seq<Token>, xs: seq<Expr>, rest: seq<Token>)
    requires ParseExpr(ts) == Ok(x, [Comma] + t1) && ParseItems(t1) == Ok(xs, rest)
    ensures ParseItems(ts) == Ok([x] + xs, rest)
  {
    assert ([Comma] + t1)[1..] == t1;
  }

  lemma {:induction false} ListTrip(xs: seq<Expr>, rest: seq<Token>)
    requires AllWrapped(xs)
    ensures ParseList(PrintList(xs) + rest) == Ok(xs, rest)
    decreases xs, 5
  {
    var ts := PrintList(xs) + rest;
    if xs == [] {
      assert ts[1..] == rest;
    } else {
      FirstToken(xs[0]);
      assert ts[0] == Print(xs[0])[0];
      ItemsTrip(xs, rest);
    }
  }

  lemma {:induction false} WhenTrip(w: When, rest: seq<Token>)
    requires WrappedWhen(w) && Follow(rest)
    ensures var ts := PrintWhen(w) + rest;
            && Starts(ts, Kw(WHEN))
            && ParseExpr(ts[1..]) == Ok(w.condition, [Kw(THEN)] + (Print(w.result) + rest))
            && ParseExpr(Print(w.result) + rest) == Ok(w.result, rest)
    decreases w, 5
  {
    var ts := PrintWhen(w) + rest;
    var t1 := [Kw(THEN)] + (Print(w.result) + rest);
    assert ts[0] == Kw(WHEN) && ts[1..] == Print(w.condition) + t1;
    RoundTripInto(w.condition, t1);
    RoundTripInto(w.result, rest);
  }

  lemma {:induction false} WhensTrip(ws: seq<When>, rest: seq<Token>)
    requires WrappedWhens(ws) && (Starts(rest, Kw(ELSE)) || Starts(rest, Kw(END)))
    ensures ParseWhens(PrintWhens(ws) + rest) == Ok(ws, rest)
    decreases ws, 6
  {
    if ws == [] {
      assert PrintWhens(ws) + rest == rest;
    } else {
      var more := PrintWhens(ws[1..]) + rest;
      WhensTrip(ws[1..], rest);
      WhensTokens(ws, rest);
      WhensTokens(ws[1..], rest);
      WhenTrip(ws[0], more);
      WhensStep(PrintWhens(ws) + rest, ws[0], Print(ws[0].result) + more, more, ws[1..], rest);
      assert ws == [ws[0]] + ws[1..];
    }
  }

  lemma {:induction false} WhensTokens(ws: seq<When>, rest: seq<Token>)
    requires Starts(rest, Kw(ELSE)) || Starts(rest, Kw(END))
    ensures ws != [] ==> PrintWhens(ws) + rest == PrintWhen(ws[0]) + (PrintWhens(ws[1..]) + rest)
    ensures Starts(PrintWhens(ws) + rest, Kw(WHEN)) || PrintWhens(ws) + rest == rest
  {
    if ws == [] {
      assert PrintWhens(ws) + rest == rest;
    } else {
      var first, others := PrintWhen(ws[0]), PrintWhens(ws[1..]);
      assert first[0] == Kw(WHEN);
      Regroup(first, others, rest);
    }
  }

  lemma {:induction false} WhensStep(ts: seq<Token>, w: When, t1: seq<Token>, more: seq<Token>, ws: seq<When>,
                                     rest: seq<Token>)
    requires Starts(ts, Kw(WHEN)) && ParseExpr(ts[1..]) == Ok(w.condition, [Kw(THEN)] + t1)
    requires ParseExpr(t1) == Ok(w.result, more) && ParseWhens(more) == Ok(ws, rest)
    ensures ParseWhens(ts) == Ok([w] + ws, rest)
  {
    assert ([Kw(THEN)] + t1)[1..] == t1;
    assert Expect([Kw(THEN)] + t1, Kw(THEN)) == Ok((), t1);
    assert w == When(w.condition, w.result);
  }

  lemma {:induction false} ElseTrip(w: Option<Expr>, rest: seq<Token>)
    requires (w.Some? ==> Wrapped(w.value)) && Starts(rest, Kw(END))
    ensures var ts := PrintElse(w) + rest;
            ParseElse(ts) == Ok(w, rest) && (Starts(ts, Kw(ELSE)) || Starts(ts, Kw(END)))
    decreases w, 5
  {
    var ts := PrintElse(w) + rest;
    if w.Some? {
      assert ts[1..] == Print(w.value) + rest;
      RoundTripInto(w.value, rest);
    } else {
      assert ts == rest;
    }
  }

  lemma {:induction false} OperandTrip(o: Option<Expr>, rest: seq<Token>)
    requires o.Some? ==> Wrapped(o.value)
    requires (Starts(rest, Kw(WHEN)) || Starts(rest, Kw(ELSE)) || Starts(rest, Kw(END)))
    ensures ParseOperand(PrintOperand(o) + rest) == Ok(o, rest)
    decreases o, 5
  {
    var ts := PrintOperand(o) + rest;
    if o.Some? {
      FirstToken(o.value);
      assert ts[0] == Print(o.value)[0];
      RoundTripInto(o.value, rest);
    } else {
      assert ts == rest;
    }
  }

  lemma {:induction false} CaseTrip(e: Expr, rest: seq<Token>)
    requires e.Case? && Wrapped(e)
    ensures ParsePrimary(Print(e) + rest) == Ok(e, rest)
    decreases e, 1
  {
    var t3 := [Kw(END)] + rest;
    var t2 := PrintElse(e.otherwise) + t3;
    var t1 := PrintWhens(e.whens) + t2;
    CaseTokens(e.operand, e.whens, e.otherwise, rest);
    ElseTrip(e.otherwise, t3);
    WhensTrip(e.whens, t2);
    WhensTokens(e.whens, t2);
    OperandTrip(e.operand, t1);
    CaseStep(PrintOperand(e.operand) + t1, e.operand, t1, e.whens, t2, e.otherwise, rest);
  }

  lemma {:induction false} CaseTokens(o: Option<Expr>, ws: seq<When>, w: Option<Expr>, rest: seq<Token>)
    ensures Print(Case(o, ws, w)) + rest
            == [Kw(CASE)] + (PrintOperand(o) + (PrintWhens(ws) + (PrintElse(w) + ([Kw(END)] + rest))))
  {
    Nest([Kw(CASE)], PrintOperand(o), PrintWhens(ws), PrintElse(w), [Kw(END)], rest);
  }

  lemma {:induction false} CaseStep(ts: seq<Token>, o: Option<Expr>, t1: seq<Token>, ws: seq<When>, t2: seq<Token>,
                                    w: Option<Expr>, rest: seq<Token>)
    requires ParseOperand(ts) == Ok(o, t1) && ParseWhens(t1) == Ok(ws, t2) && ParseElse(t2) == Ok(w, [Kw(END)] + rest)
    ensures ParsePrimary([Kw(CASE)] + ts) == Ok(Case(o, ws, w), rest)
  {
    assert ([Kw(CASE)] + ts)[1..] == ts && ([Kw(END)] + rest)[1..] == rest;
    assert ParseCase(ts) == Ok(Case(o, ws, w), rest);
  }

  /** The same for a sub-expression: what it is printed into may follow it. */
  lemma {:induction false} RoundTripInto(e: Expr, rest: seq<Token>)
    requires Wrapped(e) && Follow(rest)
    ensures ParseExpr(Print(e) + rest) == Ok(e, rest)
    decreases e, 4
  {
    if e.UnaryOp? {
      UnaryTrip(e.op, e.expr, rest);
    } else if Primary(e) {
      PrimaryExprTrip(e, rest);
    } else {
      SuffixTrip(e, rest);
    }
  }

  lemma {:induction false} UnaryTrip(op: string, x: Expr, rest: seq<Token>)
    requires (op == "NOT" || IsOperator(op)) && Wrapped(x) && Primary(x) && Follow(rest)
    ensures ParseExpr(Print(UnaryOp(op, x)) + rest) == Ok(UnaryOp(op, x), rest)
    decreases x, 5
  {
    PrimaryTrip(x, rest);
    UnaryStep(op, Print(x) + rest, x, rest);
    Regroup([OpToken(op)], Print(x), rest);
  }

  lemma {:induction false} PrimaryExprTrip(e: Expr, rest: seq<Token>)
    requires Wrapped(e) && Primary(e) && Follow(rest)
    ensures ParseExpr(Print(e) + rest) == Ok(e, rest)
    decreases e, 3
  {
    PrimaryTrip(e, rest);
    FirstToken(e);
    assert (Print(e) + rest)[0] == Print(e)[0];
    PrimaryStep(Print(e) + rest, e, rest);
  }

  lemma {:induction false} UnaryStep(op: string, ts: seq<Token>, x: Expr, rest: seq<Token>)
    requires (op == "NOT" || IsOperator(op)) && ParsePrimary(ts) == Ok(x, rest)
    ensures ParseExpr([OpToken(op)] + ts) == Ok(UnaryOp(op, x), rest)
  {
    assert ([OpToken(op)] + ts)[1..] == ts;
  }

  lemma {:induction false} PrimaryStep(ts: seq<Token>, x: Expr, rest: seq<Token>)
    requires ts != [] && !ts[0].Op? && ts[0] != Kw(NOT) && ParsePrimary(ts) == Ok(x, rest) && Follow(rest)
    ensures ParseExpr(ts) == Ok(x, rest)
  {
    assert ParseSuffix(x, rest) == Ok(x, rest);
  }

  lemma {:induction false} SuffixTrip(e: Expr, rest: seq<Token>)
    requires Wrapped(e) && Follow(rest) && !e.UnaryOp? && !Primary(e)
    ensures ParseExpr(Print(e) + rest) == Ok(e, rest)
    decreases e, 3
  {
    match e
    case BinaryOp(l, op, r) => BinaryTrip(e, rest);
    case Is(x, t, n) => IsTrip(e, rest);
    case IsDistinctFrom(l, r, n) => DistinctTrip(e, rest);
    case InList(x, xs, n) => InListTrip(e, rest);
    case Between(x, lo, hi, n) => BetweenTrip(e, rest);
    case Like(_, x, p, any, esc, n) => LikeTrip(e, rest);
  }

  lemma {:induction false} BinaryTrip(e: Expr, rest: seq<Token>)
    requires e.BinaryOp? && Wrapped(e) && Follow(rest)
    ensures ParseExpr(Print(e) + rest) == Ok(e, rest)
    decreases e, 2
  {
    Regroup(Print(e.left), [OpToken(e.op)] + Print(e.right), rest);
    Regroup([OpToken(e.op)], Print(e.right), rest);
    HeadTrip(e, e.left, [OpToken(e.op)] + (Print(e.right) + rest));
    PrimaryTrip(e.right, rest);
    BinaryStep(e.left, e.op, Print(e.right) + rest, e.right, rest);
  }

  lemma {:induction false} BinaryStep(x: Expr, op: string, ts: seq<Token>, y: Expr, rest: seq<Token>)
    requires (op == "AND" || IsOperator(op)) && ParsePrimary(ts) == Ok(y, rest)
    ensures ParseSuffix(x, [OpToken(op)] + ts) == Ok(BinaryOp(x, op, y), rest)
  {
    assert ([OpToken(op)] + ts)[1..] == ts && OpName(OpToken(op)) == op;
  }

  /** Parsing an operand followed by more tokens continues with the suffix. */
  lemma {:induction false} HeadTrip(e: Expr, x: Expr, ts: seq<Token>)
    requires x < e && Wrapped(x) && Primary(x) && !Starts(ts, Dot)
    ensures ParseExpr(Print(x) + ts) == ParseSuffix(x, ts)
    decreases e, 0
  {
    FirstToken(x);
    assert (Print(x) + ts)[0] == Print(x)[0];
    PrimaryTrip(x, ts);
  }

  lemma {:induction false} IsTrip(e: Expr, rest: seq<Token>)
    requires e.Is? && Wrapped(e)
    ensures ParseExpr(Print(e) + rest) == Ok(e, rest)
    decreases e, 2
  {
    var t2 := [Kw(TestKeyword(e.test))] + rest;
    Unnest(Print(e.expr), [Kw(IS)], NotIf(e.negated), [Kw(TestKeyword(e.test))], rest);
    HeadTrip(e, e.expr, [Kw(IS)] + (NotIf(e.negated) + t2));
    IsNotTrip(e.expr, e.negated, t2);
    IsStep(e.expr, e.negated, e.test, rest);
  }

  lemma {:induction false} IsStep(x: Expr, negated: bool, t: Test, rest: seq<Token>)
    ensures ParseIs(x, negated, [Kw(TestKeyword(t))] + rest) == Ok(Is(x, t, negated), rest)
  {
    assert ([Kw(TestKeyword(t))] + rest)[1..] == rest;
  }

  /** The suffix after IS and an optional NOT. */
  lemma {:induction false} IsNotTrip(x: Expr, negated: bool, ts: seq<Token>)
    requires ts != [] && ts[0] != Kw(NOT)
    ensures ParseSuffix(x, [Kw(IS)] + (NotIf(negated) + ts)) == ParseIs(x, negated, ts)
  {
    var t1 := [Kw(IS)] + (NotIf(negated) + ts);
    assert t1[1..] == NotIf(negated) + ts;
    if negated { assert t1[2..] == ts; } else { assert t1[1..] == ts; }
  }

  lemma {:induction false} DistinctTrip(e: Expr, rest: seq<Token>)
    requires e.IsDistinctFrom? && Wrapped(e) && Follow(rest)
    ensures ParseExpr(Print(e) + rest) == Ok(e, rest)
    decreases e, 2
  {
    var t2 := [Kw(DISTINCT), Kw(FROM)] + (Print(e.right) + rest);
    var t1 := [Kw(IS)] + (NotIf(e.negated) + t2);
    Unnest(Print(e.left), [Kw(IS)], NotIf(e.negated), [Kw(DISTINCT), Kw(FROM)] + Print(e.right), rest);
    assert [Kw(DISTINCT), Kw(FROM)] + Print(e.right) + rest == t2;
    assert [Kw(IS)] + NotIf(e.negated) + [Kw(DISTINCT), Kw(FROM)] + Print(e.right)
        == [Kw(IS)] + NotIf(e.negated) + ([Kw(DISTINCT), Kw(FROM)] + Print(e.right));
    HeadTrip(e, e.left, t1);
    IsNotTrip(e.left, e.negated, t2);
    PrimaryTrip(e.right, rest);
    DistinctStep(e.left, e.negated, Print(e.right) + rest, e.right, rest);
  }

  lemma {:induction false} DistinctStep(x: Expr, negated: bool, ts: seq<Token>, y: Expr, rest: seq<Token>)
    requires ParsePrimary(ts) == Ok(y, rest)
    ensures ParseIs(x, negated, [Kw(DISTINCT), Kw(FROM)] + ts) == Ok(IsDistinctFrom(x, y, negated), rest)
  {
    assert ([Kw(DISTINCT), Kw(FROM)] + ts)[2..] == ts;
  }

  lemma {:induction false} Nest<T>(a: seq<T>, b: seq<T>, c: seq<T>, d: seq<T>, f: seq<T>, rest: seq<T>)
    ensures (a + (b + (c + (d + f)))) + rest == a + (b + (c + (d + (f + rest))))
  {
    assert b + (c + (d + f)) + rest == b + (c + (d + (f + rest)));
  }

  lemma {:induction false} Unnest<T>(a: seq<T>, b: seq<T>, c: seq<T>, d: seq<T>, rest: seq<T>)
    ensures (a + (b + c + d)) + rest == a + (b + (c + (d + rest)))
  {
  }

  /** The suffix after an optional NOT. */
  lemma {:induction false} NotTrip(x: Expr, negated: bool, ts: seq<Token>)
    requires Starts(ts, Kw(IN)) || Starts(ts, Kw(BETWEEN)) || Starts(ts, Kw(LIKE)) || Starts(ts, Kw(ILIKE))
    ensures ParseSuffix(x, NotIf(negated) + ts) == ParsePredicate(x, negated, ts)
  {
    if negated {
      var t := [Kw(NOT)] + ts;
      assert t[0] == Kw(NOT) && t[1..] == ts;
      assert ParseSuffix(x, t) == ParsePredicate(x, true, ts);
    } else {
      assert [] + ts == ts;
      assert ParseSuffix(x, ts) == ParsePredicate(x, false, ts);
    }
  }

  lemma {:induction false} InListTrip(e: Expr, rest: seq<Token>)
    requires e.InList? && Wrapped(e)
    ensures ParseExpr(Print(e) + rest) == Ok(e, rest)
    decreases e, 2
  {
    var t2 := [Kw(IN), LParen] + (PrintList(e.exprs) + rest);
    Unnest(Print(e.expr), NotIf(e.negated), [Kw(IN), LParen], PrintList(e.exprs), rest);
    ListTrip(e.exprs, rest);
    InListStep(e.expr, e.negated, PrintList(e.exprs) + rest, e.exprs, rest);
    PredicateTrip(e, e.expr, e.negated, t2);
  }

  lemma {:induction false} InListStep(x: Expr, negated: bool, ts: seq<Token>, xs: seq<Expr>, rest: seq<Token>)
    requires ParseList(ts) == Ok(xs, rest)
    ensures ParsePredicate(x, negated, [Kw(IN), LParen] + ts) == Ok(InList(x, xs, negated), rest)
  {
    var t0 := [Kw(IN), LParen] + ts;
    assert t0[1..] == [LParen] + ts && t0[1..][1..] == ts;
  }

  lemma {:induction false} BetweenTrip(e: Expr, rest: seq<Token>)
    requires e.Between? && Wrapped(e) && Follow(rest)
    ensures ParseExpr(Print(e) + rest) == Ok(e, rest)
    decreases e, 2
  {
    var t3 := [Kw(AND)] + (Print(e.high) + rest);
    BetweenTokens(e.expr, e.low, e.high, e.negated, rest);
    PrimaryTrip(e.low, t3);
    PrimaryTrip(e.high, rest);
    BetweenStep(e.expr, e.negated, Print(e.low) + t3, e.low, Print(e.high) + rest, e.high, rest);
    PredicateTrip(e, e.expr, e.negated, [Kw(BETWEEN)] + (Print(e.low) + t3));
  }

  lemma {:induction false} BetweenTokens(x: Expr, lo: Expr, hi: Expr, n: bool, rest: seq<Token>)
    ensures Print(Between(x, lo, hi, n)) + rest
            == Print(x) + (NotIf(n) + ([Kw(BETWEEN)] + (Print(lo) + ([Kw(AND)] + (Print(hi) + rest)))))
  {
    Unnest(Print(x), NotIf(n), [Kw(BETWEEN)], Print(lo) + ([Kw(AND)] + Print(hi)), rest);
    Regroup(Print(lo), [Kw(AND)] + Print(hi), rest);
    Regroup([Kw(AND)], Print(hi), rest);
  }

  lemma {:induction false} BetweenStep(x: Expr, negated: bool, ts: seq<Token>, lo: Expr, t2: seq<Token>, hi: Expr,
                                       rest: seq<Token>)
    requires ParsePrimary(ts) == Ok(lo, [Kw(AND)] + t2) && ParsePrimary(t2) == Ok(hi, rest)
    ensures ParsePredicate(x, negated, [Kw(BETWEEN)] + ts) == Ok(Between(x, lo, hi, negated), rest)
  {
    assert ([Kw(BETWEEN)] + ts)[1..] == ts && ([Kw(AND)] + t2)[1..] == t2;
  }

  function AnyIf(any: bool): seq<Token> { if any then [Kw(ANY)] else [] }

  lemma {:induction false} LikeTokens(ilike: bool, x: Expr, p: Expr, any: bool, esc: Option<string>, n: bool,
                                      rest: seq<Token>)
    ensures Print(Like(ilike, x, p, any, esc, n)) + rest
            == Print(x) + (NotIf(n) + ([Kw(LikeKeyword(ilike))] + (AnyIf(any) + (Print(p) + (Escape(esc) + rest)))))
  {
    Unnest(Print(x), NotIf(n), [Kw(LikeKeyword(ilike))], AnyIf(any) + (Print(p) + Escape(esc)), rest);
    Regroup(AnyIf(any), Print(p) + Escape(esc), rest);
    Regroup(Print(p), Escape(esc), rest);
  }

  lemma {:induction false} LikeTrip(e: Expr, rest: seq<Token>)
    requires e.Like? && Wrapped(e) && Follow(rest)
    ensures ParseExpr(Print(e) + rest) == Ok(e, rest)
    decreases e, 2
  {
    LikeTokens(e.ilike, e.expr, e.pattern, e.any, e.escape, e.negated, rest);
    var t4 := Escape(e.escape) + rest;
    var t2 := [Kw(LikeKeyword(e.ilike))] + (AnyIf(e.any) + (Print(e.pattern) + t4));
    PatternTrip(e.pattern, t4);
    LikePatternTrip(e.ilike, e.expr, e.negated, e.any, Print(e.pattern) + t4, e.pattern, e.escape, rest);
    PredicateTrip(e, e.expr, e.negated, t2);
  }

  lemma {:induction false} PatternTrip(p: Expr, ts: seq<Token>)
    requires Wrapped(p) && Primary(p) && !Starts(ts, Dot)
    ensures !Starts(Print(p) + ts, Kw(ANY)) && ParsePrimary(Print(p) + ts) == Ok(p, ts)
    decreases p, 5
  {
    FirstToken(p);
    assert (Print(p) + ts)[0] == Print(p)[0];
    PrimaryTrip(p, ts);
  }

  /** An operand, an optional NOT and a predicate keyword. */
  lemma {:induction false} PredicateTrip(e: Expr, x: Expr, negated: bool, ts: seq<Token>)
    requires x < e && Wrapped(x) && Primary(x)
    requires Starts(ts, Kw(IN)) || Starts(ts, Kw(BETWEEN)) || Starts(ts, Kw(LIKE)) || Starts(ts, Kw(ILIKE))
    ensures ParseExpr(Print(x) + (NotIf(negated) + ts)) == ParsePredicate(x, negated, ts)
    decreases e, 1
  {
    HeadTrip(e, x, NotIf(negated) + ts);
    NotTrip(x, negated, ts);
  }

  /** The part after LIKE, once the pattern parses. */
  lemma {:induction false} LikePatternTrip(ilike: bool, x: Expr, negated: bool, any: bool, ts: seq<Token>, p: Expr,
                                           esc: Option<string>, rest: seq<Token>)
    requires !Starts(ts, Kw(ANY)) && !Starts(rest, Kw(ESCAPE)) && ParsePrimary(ts) == Ok(p, Escape(esc) + rest)
    ensures ParsePredicate(x, negated, [Kw(LikeKeyword(ilike))] + (AnyIf(any) + ts))
            == Ok(Like(ilike, x, p, any, esc, negated), rest)
  {
    var t2 := [Kw(LikeKeyword(ilike))] + (AnyIf(any) + ts);
    var t4 := Escape(esc) + rest;
    assert Starts(t2[1..], Kw(ANY)) == any && (if any then t2[2..] else t2[1..]) == ts by { AnyTokens(ilike, any, ts); }
    assert t2[0] == Kw(LikeKeyword(ilike)) && (t2[0] == Kw(ILIKE) <==> ilike);
    assert if esc.None? then t4 == rest else t4[0] == Kw(ESCAPE) && t4[1] == Lit(esc.value) && t4[2..] == rest;
  }

  lemma {:induction false} AnyTokens(ilike: bool, any: bool, ts: seq<Token>)
    requires !Starts(ts, Kw(ANY))
    ensures var t2 := [Kw(LikeKeyword(ilike))] + (AnyIf(any) + ts);
            |t2| >= 1 && Starts(t2[1..], Kw(ANY)) == any && (any ==> t2[2..] == ts) && (!any ==> t2[1..] == ts)
  {
    var t2 := [Kw(LikeKeyword(ilike))] + (AnyIf(any) + ts);
    if any { assert t2[2..] == ts; } else { assert t2[1..] == ts; }
  }

  /** The parser inverts the printer on the fragment. */
  lemma {:induction false} RoundTrip(e: Expr)
    requires Wrapped(e)
    ensures ParseExpr(Print(e)) == Ok(e, [])
  {
    RoundTripInto(e, []);
    assert Print(e) + [] == Print(e);
  }

  /** Hence two expressions of the fragment that print alike are the same. */
  lemma {:induction false} PrintInjective(a: Expr, b: Expr)
    requires Wrapped(a) && Wrapped(b) && Print(a) == Print(b)
    ensures a == b
  {
    RoundTrip(a);
    RoundTrip(b);
  }

  // ---- the same for the printed words --------------------------------------------------------------------

  function WordOf(t: Token): string {
    match t
    case Id(n) => n
    case Lit(text) => text
    case Op(op) => op
    case Kw(k) => KeywordText(k)
    case LParen => "("
    case RParen => ")"
    case Comma => ","
    case Dot => "."
  }

  ghost predicate Lexical(t: Token) {
    (t.Id? ==> IsName(t.name)) && (t.Lit? ==> IsLiteral(t.text)) && (t.Op? ==> IsOperator(t.op))
  }

  ghost predicate AllLexical(ts: seq<Token>) { forall i :: 0 <= i < |ts| ==> Lexical(ts[i]) }

  function KeywordOf(w: string): Option<Keyword> {
    if w == "IS" then Some(IS) else if w == "NOT" then Some(NOT) else if w == "TRUE" then Some(TRUE)
    else if w == "FALSE" then Some(FALSE) else if w == "NULL" then Some(NULL) else if w == "UNKNOWN" then Some(UNKNOWN)
    else if w == "DISTINCT" then Some(DISTINCT) else if w == "FROM" then Some(FROM) else if w == "IN" then Some(IN)
    else if w == "BETWEEN" then Some(BETWEEN) else if w == "AND" then Some(AND) else if w == "LIKE" then Some(LIKE)
    else if w == "ILIKE" then Some(ILIKE) else if w == "ANY" then Some(ANY) else if w == "ESCAPE" then Some(ESCAPE)
    else if w == "CASE" then Some(CASE) else if w == "WHEN" then Some(WHEN) else if w == "THEN" then Some(THEN)
    else if w == "ELSE" then Some(ELSE) else if w == "END" then Some(END) else if w == "CAST" then Some(CAST)
    else if w == "AS" then Some(AS) else None
  }

  lemma {:induction false} KeywordRead(k: Keyword)
    ensures KeywordOf(KeywordText(k)) == Some(k)
  {
  }

  lemma {:induction false} KeywordsDiffer(j: Keyword, k: Keyword)
    requires KeywordText(j) == KeywordText(k)
    ensures j == k
  {
    KeywordRead(j);
    KeywordRead(k);
  }

  lemma {:induction false} KeywordSpelling(k: Keyword)
    ensures KeywordText(k) != "" && Letter(KeywordText(k)[0]) && !WordOperator(KeywordText(k))
  {
  }

  lemma {:induction false} NoKeyword(k: Keyword, u: Token)
    requires Lexical(u) && !u.Kw?
    ensures WordOf(u) != KeywordText(k)
  {
    KeywordSpelling(k);
    if u.Id? { assert IsKeyword(KeywordText(k)); }
  }

  /** What a word that is no keyword is shows in its first character, but for the operators that are words. */
  lemma {:induction false} PlainDetermines(t: Token, u: Token)
    requires Lexical(t) && Lexical(u) && !t.Kw? && !u.Kw? && WordOf(t) == WordOf(u)
    ensures t == u
  {
  }

  /** A printed word is one token. */
  lemma {:induction false} WordDetermines(t: Token, u: Token)
    requires Lexical(t) && Lexical(u) && WordOf(t) == WordOf(u)
    ensures t == u
  {
    if t.Kw? && u.Kw? {
      KeywordsDiffer(t.kw, u.kw);
    } else if t.Kw? {
      NoKeyword(t.kw, u);
    } else if u.Kw? {
      NoKeyword(u.kw, t);
    } else {
      PlainDetermines(t, u);
    }
  }

  lemma {:induction false} LexicalAppend(a: seq<Token>, b: seq<Token>)
    ensures AllLexical(a + b) <==> AllLexical(a) && AllLexical(b)
  {
    assert forall i :: 0 <= i < |a| ==> (a + b)[i] == a[i];
    assert forall i :: 0 <= i < |b| ==> (a + b)[|a| + i] == b[i];
  }

  /** Of five parts, as the longest printed forms are put together. */
  lemma {:induction false} LexicalParts(a: seq<Token>, b: seq<Token>, c: seq<Token>, d: seq<Token>)
    requires AllLexical(a) && AllLexical(b) && AllLexical(c) && AllLexical(d)
    ensures AllLexical(a + (b + c + d)) && AllLexical(a + (b + (c + d)))
  {
    LexicalAppend(b, c);
    LexicalAppend(b + c, d);
    LexicalAppend(a, b + c + d);
    Regroup(b, c, d);
  }

  lemma {:induction false} PrintLexical(e: Expr)
    requires Wrapped(e)
    ensures AllLexical(Print(e))
    decreases e, 1
  {
    match e
    case Identifier(_) =>
    case CompoundIdentifier(ps) => CompoundLexical(e);
    case Value(_) =>
    case Nested(x) => WrapLexical(e);
    case Tuple(xs) => WrapLexical(e);
    case UnaryOp(op, x) => OperatorLexical(e);
    case BinaryOp(l, op, r) => OperatorLexical(e);
    case Case(o, ws, w) => CaseLexical(e);
    case Cast(x, ty) => WrapLexical(e);
    case Is(_, _, _) => IsLexical(e);
    case IsDistinctFrom(_, _, _) => IsLexical(e);
    case _ => PredicateLexical(e);
  }

  lemma {:induction false} CompoundLexical(e: Expr)
    requires e.CompoundIdentifier? && Wrapped(e)
    ensures AllLexical(Print(e))
  {
    DottedLexical(e.parts[1..]);
    LexicalAppend([Id(e.parts[0])], Dotted(e.parts[1..]));
  }

  lemma {:induction false} WrapLexical(e: Expr)
    requires Wrapped(e) && (e.Nested? || e.Tuple? || e.Cast?)
    ensures AllLexical(Print(e))
    decreases e, 0
  {
    match e
    case Nested(x) =>
      PrintLexical(x);
      LexicalAppend(Print(x), [RParen]);
      LexicalAppend([LParen], Print(x) + [RParen]);
    case Tuple(xs) =>
      ListLexical(xs);
      LexicalAppend([LParen], PrintList(xs));
    case Cast(x, ty) =>
      PrintLexical(x);
      LexicalAppend(Print(x), [Kw(AS), Id(ty), RParen]);
      LexicalAppend([Kw(CAST), LParen], Print(x) + [Kw(AS), Id(ty), RParen]);
  }

  lemma {:induction false} OperatorLexical(e: Expr)
    requires Wrapped(e) && (e.UnaryOp? || e.BinaryOp?)
    ensures AllLexical(Print(e))
    decreases e, 0
  {
    match e
    case UnaryOp(op, x) =>
      PrintLexical(x);
      LexicalAppend([OpToken(op)], Print(x));
    case BinaryOp(l, op, r) =>
      PrintLexical(l);
      PrintLexical(r);
      LexicalAppend([OpToken(op)], Print(r));
      LexicalAppend(Print(l), [OpToken(op)] + Print(r));
  }

  lemma {:induction false} CaseLexical(e: Expr)
    requires e.Case? && Wrapped(e)
    ensures AllLexical(Print(e))
    decreases e, 0
  {
    var o, ws, w := PrintOperand(e.operand), PrintWhens(e.whens), PrintElse(e.otherwise);
    assert AllLexical(o) by { if e.operand.Some? { PrintLexical(e.operand.value); } }
    assert AllLexical(ws) by { WhensLexical(e.whens); }
    assert AllLexical(w) by {
      if e.otherwise.Some? {
        PrintLexical(e.otherwise.value);
        LexicalAppend([Kw(ELSE)], Print(e.otherwise.value));
      }
    }
    LexicalAppend(w, [Kw(END)]);
    LexicalParts([Kw(CASE)], o, ws, w + [Kw(END)]);
  }

  lemma {:induction false} IsLexical(e: Expr)
    requires Wrapped(e) && (e.Is? || e.IsDistinctFrom?)
    ensures AllLexical(Print(e))
    decreases e, 0
  {
    if e.Is? {
      PrintLexical(e.expr);
      LexicalParts(Print(e.expr), [Kw(IS)], NotIf(e.negated), [Kw(TestKeyword(e.test))]);
    } else {
      var words := [Kw(IS)] + NotIf(e.negated) + [Kw(DISTINCT), Kw(FROM)];
      PrintLexical(e.left);
      PrintLexical(e.right);
      assert AllLexical(words);
      LexicalAppend(words, Print(e.right));
      LexicalAppend(Print(e.left), words + Print(e.right));
    }
  }

  lemma {:induction false} PredicateLexical(e: Expr)
    requires Wrapped(e) && (e.InList? || e.Between? || e.Like?)
    ensures AllLexical(Print(e))
    decreases e, 0
  {
    match e
    case InList(x, xs, n) =>
      PrintLexical(x);
      ListLexical(xs);
      LexicalParts(Print(x), NotIf(n), [Kw(IN), LParen], PrintList(xs));
    case Between(x, lo, hi, n) =>
      PrintLexical(x);
      PrintLexical(lo);
      PrintLexical(hi);
      LexicalAppend([Kw(AND)], Print(hi));
      LexicalAppend(Print(lo), [Kw(AND)] + Print(hi));
      LexicalParts(Print(x), NotIf(n), [Kw(BETWEEN)], Print(lo) + ([Kw(AND)] + Print(hi)));
    case Like(ilike, x, p, any, esc, n) =>
      PrintLexical(x);
      PrintLexical(p);
      PatternLexical(Print(p), any, esc);
      LexicalParts(Print(x), NotIf(n), [Kw(LikeKeyword(ilike))], AnyIf(any) + (Print(p) + Escape(esc)));
  }

  lemma {:induction false} PatternLexical(ts: seq<Token>, any: bool, esc: Option<string>)
    requires AllLexical(ts) && AllLexical(Escape(esc))
    ensures AllLexical(AnyIf(any) + (ts + Escape(esc)))
  {
    LexicalAppend(ts, Escape(esc));
    LexicalAppend(AnyIf(any), ts + Escape(esc));
  }

  lemma {:induction false} DottedLexical(ps: seq<string>)
    requires AllNames(ps)
    ensures AllLexical(Dotted(ps))
  {
    if ps != [] {
      DottedLexical(ps[1..]);
      LexicalAppend([Dot, Id(ps[0])], Dotted(ps[1..]));
    }
  }

  lemma {:induction false} ListLexical(xs: seq<Expr>)
    requires AllWrapped(xs)
    ensures AllLexical(PrintList(xs))
    decreases xs
  {
    if xs != [] {
      PrintLexical(xs[0]);
      ListLexical(xs[1..]);
      LexicalAppend([Comma], PrintList(xs[1..]));
      LexicalAppend(Print(xs[0]), if |xs| == 1 then [RParen] else [Comma] + PrintList(xs[1..]));
    }
  }

  lemma {:induction false} WhensLexical(ws: seq<When>)
    requires WrappedWhens(ws)
    ensures AllLexical(PrintWhens(ws))
    decreases ws
  {
    if ws != [] {
      WhenLexical(ws[0]);
      WhensLexical(ws[1..]);
      LexicalAppend(PrintWhen(ws[0]), PrintWhens(ws[1..]));
    }
  }

  lemma {:induction false} WhenLexical(w: When)
    requires WrappedWhen(w)
    ensures AllLexical(PrintWhen(w))
    decreases w
  {
    PrintLexical(w.condition);
    PrintLexical(w.result);
    LexicalParts([Kw(WHEN)], Print(w.condition), [Kw(THEN)], Print(w.result));
  }

  /** Two expressions of the fragment that print the same words are the same. */
  lemma {:induction false} WordsInjective(a: Expr, b: Expr)
    requires Wrapped(a) && Wrapped(b) && Map(WordOf, Print(a)) == Map(WordOf, Print(b))
    ensures a == b
  {
    PrintLexical(a);
    PrintLexical(b);
    var x, y := Print(a), Print(b);
    assert |x| == |Map(WordOf, x)| == |Map(WordOf, y)| == |y|;
    forall i | 0 <= i < |x|
      ensures x[i] == y[i]
    {
      assert WordOf(x[i]) == Map(WordOf, x)[i] == Map(WordOf, y)[i] == WordOf(y[i]);
      WordDetermines(x[i], y[i]);
    }
    PrintInjective(a, b);
  }

  // ---- outside it, the printed form is ambiguous --------------------------------------------------------------

  /** Without Nested around compound operands, any two groupings of a chain of operators print alike;
      so do a prefix operator inside and around its neighbour. */
  lemma {:induction false} GroupingIsLost(a: Expr, p: string, b: Expr, q: string, c: Expr)
    ensures Print(BinaryOp(BinaryOp(a, p, b), q, c)) == Print(BinaryOp(a, p, BinaryOp(b, q, c)))
    ensures BinaryOp(BinaryOp(a, p, b), q, c) != BinaryOp(a, p, BinaryOp(b, q, c))
    ensures Print(UnaryOp(p, BinaryOp(a, q, b))) == Print(BinaryOp(UnaryOp(p, a), q, b))
  {
    var x, y, z := Print(a), Print(b), Print(c);
    assert (x + ([OpToken(p)] + y)) + ([OpToken(q)] + z) == x + ([OpToken(p)] + (y + ([OpToken(q)] + z)));
    assert [OpToken(p)] + (x + ([OpToken(q)] + y)) == ([OpToken(p)] + x) + ([OpToken(q)] + y);
  }

  /** A one-element tuple prints like a parenthesised expression, and a compound identifier of one
      part like a plain one. */
  lemma {:induction false} SingletonsAreLost(x: Expr, n: string)
    ensures Print(Tuple([x])) == Print(Nested(x))
    ensures Print(CompoundIdentifier([n])) == Print(Identifier(n))
  {
    assert [n][1..] == [] && [Id(n)] + [] == [Id(n)];
  }

  // ---- LIKE as text -----------------------------------------------------------------------------------------------

  /** The text of an operand, up to the spacing of its punctuation. */
  function Text(e: Expr): string { Join(Map(WordOf, Print(e)), " ") }

  /** The printed text of a LIKE or ILIKE. ILIKE with an escape character leaves out the space after ANY. */
  function LikeText(e: Expr): string
    requires e.Like?
  {
    Text(e.expr) + " " + (if e.negated then "NOT " else "") + (if e.ilike then "ILIKE " else "LIKE ")
    + (AnyText(e) + Text(e.pattern))
    + (if e.escape.Some? then " ESCAPE " + e.escape.value else "")
  }

  function AnyText(e: Expr): string
    requires e.Like?
  {
    if !e.any then "" else if e.ilike && e.escape.Some? then "ANY" else "ANY "
  }

  /** With ANY and one pattern, an expression prints like another pattern without ANY exactly when the second
      pattern's text is the first one's after ANY. */
  lemma {:induction false} AnyCollidesIff(e: Expr, q: Expr)
    requires e.Like? && e.any
    ensures LikeText(e) == LikeText(e.(any := false, pattern := q)) <==> Text(q) == AnyText(e) + Text(e.pattern)
  {
    var f := e.(any := false, pattern := q);
    var head := Text(e.expr) + " " + (if e.negated then "NOT " else "") + (if e.ilike then "ILIKE " else "LIKE ");
    var tail := if e.escape.Some? then " ESCAPE " + e.escape.value else "";
    var x, y := AnyText(e) + Text(e.pattern), AnyText(f) + Text(q);
    assert y == Text(q);
    SameMiddle(head, x, y, tail);
  }

  /** Two different expressions that print alike: ILIKE ANY with an escape character and the pattern `n`, and
      without ANY the pattern `ANYn`. */
  lemma {:induction false} AnySwallowed(x: Expr, n: string, esc: string, negated: bool)
    ensures var a := Like(true, x, Identifier(n), true, Some(esc), negated);
            var b := Like(true, x, Identifier("ANY" + n), false, Some(esc), negated);
            a != b && LikeText(a) == LikeText(b)
  {
    var a := Like(true, x, Identifier(n), true, Some(esc), negated);
    IdentifierText(n);
    IdentifierText("ANY" + n);
    AnyCollidesIff(a, Identifier("ANY" + n));
  }

  /** Otherwise ANY before an identifier never reads as part of another one. */
  lemma {:induction false} AnyKeptApart(e: Expr, n: string, m: string)
    requires e.Like? && e.any && e.pattern == Identifier(n) && !(e.ilike && e.escape.Some?) && ' ' !in m
    ensures LikeText(e) != LikeText(e.(any := false, pattern := Identifier(m)))
  {
    IdentifierText(n);
    IdentifierText(m);
    AnyCollidesIff(e, Identifier(m));
    assert ("ANY " + n)[3] == ' ';
  }

  lemma {:induction false} IdentifierText(n: string)
    ensures Text(Identifier(n)) == n
  {
    assert Map(WordOf, [Id(n)]) == [n];
  }

  lemma {:induction false} SameMiddle(head: string, x: string, y: string, tail: string)
    ensures head + x + tail == head + y + tail <==> x == y
  {
    if head + x + tail == head + y + tail {
      var s, t := head + x + tail, head + y + tail;
      assert |x| == |y|;
      assert x == s[|head|..|head| + |x|] && y == t[|head|..|head| + |y|];
    }
  }
}
