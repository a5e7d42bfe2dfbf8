/** From printed words to printed text: the text determines the expression however the printer spaces it, as long as
    it keeps apart words that would run together. */
module SqlText {
  import opened Seqs
  import opened SqlExpr

  predicate Digit(c: char) { '0' <= c <= '9' }

  predicate Quote(c: char) { c == '\'' || c == '\"' }

  predicate NameChar(c: char) { 'a' <= c <= 'z' || 'A' <= c <= 'Z' || c == '_' || Digit(c) }

  /** Whether a character goes on with the word that starts with `first`. */
  predicate Continues(first: char, c: char) {
    if Digit(first) then NameChar(c) || c == '.'
    else if NameChar(first) then NameChar(c)
    else Symbolic(first) && Symbolic(c)
  }

  function RunLength(first: char, s: string): (n: nat)
    ensures n <= |s|
  {
    if s == "" || !Continues(first, s[0]) then 0 else 1 + RunLength(first, s[1..])
  }

  /** The characters up to and including the closing quote. */
  function QuotedLength(quote: char, s: string): (n: nat)
    ensures n <= |s|
  {
    if s == "" then 0 else if s[0] == quote then 1 else 1 + QuotedLength(quote, s[1..])
  }

  /** The length of the word at the start of a text. */
  function WordLength(s: string): (n: nat)
    requires s != ""
    ensures 1 <= n <= |s|
  {
    1 + if Quote(s[0]) then QuotedLength(s[0], s[1..]) else RunLength(s[0], s[1..])
  }

  /** Cuts a text into words. */
  function Words(s: string): seq<string>
    decreases |s|
  {
    if s == "" then []
    else if s[0] == ' ' then Words(s[1..])
    else [s[..WordLength(s)]] + Words(s[WordLength(s)..])
  }

  /** A word as the printer writes names, literals, operators, keywords and punctuation. */
  ghost predicate Plain(w: string) {
    && w != "" && w[0] != ' '
    && if Quote(w[0]) then |w| >= 2 && w[|w| - 1] == w[0] && forall i :: 0 < i < |w| - 1 ==> w[i] != w[0]
       else forall i :: 0 < i < |w| ==> Continues(w[0], w[i])
  }

  /** The next word may follow without a space. */
  ghost predicate MayTouch(w: string, next: string)
    requires w != "" && next != ""
  {
    Quote(w[0]) || !Continues(w[0], next[0])
  }

  /** The words with a space after those for which there is to be one. */
  function Spaced(words: seq<string>, spaces: seq<bool>): string
    requires |words| == |spaces|
  {
    if words == [] then "" else words[0] + ((if spaces[0] then " " else "") + Spaced(words[1..], spaces[1..]))
  }

  ghost predicate KeptApart(words: seq<string>, spaces: seq<bool>) {
    && |words| == |spaces| && (forall i :: 0 <= i < |words| ==> Plain(words[i]))
    && forall i :: 0 <= i < |words| - 1 ==> spaces[i] || MayTouch(words[i], words[i + 1])
  }

  lemma {:induction false} RunEnds(first: char, w: string, rest: string)
    requires forall i :: 0 <= i < |w| ==> Continues(first, w[i])
    requires rest != "" ==> !Continues(first, rest[0])
    ensures RunLength(first, w + rest) == |w|
  {
    if w == "" {
      assert w + rest == rest;
    } else {
      assert (w + rest)[0] == w[0] && (w + rest)[1..] == w[1..] + rest;
      RunEnds(first, w[1..], rest);
    }
  }

  lemma {:induction false} QuotedEnds(quote: char, w: string, rest: string)
    requires w != "" && w[|w| - 1] == quote && forall i :: 0 <= i < |w| - 1 ==> w[i] != quote
    ensures QuotedLength(quote, w + rest) == |w|
  {
    assert (w + rest)[0] == w[0] && (w + rest)[1..] == w[1..] + rest;
    if |w| > 1 { QuotedEnds(quote, w[1..], rest); }
  }

  lemma {:induction false} WordEnds(w: string, rest: string)
    requires Plain(w) && (rest == "" || Quote(w[0]) || !Continues(w[0], rest[0]))
    ensures WordLength(w + rest) == |w| && (w + rest)[..|w|] == w && (w + rest)[|w|..] == rest
  {
    assert (w + rest)[0] == w[0] && (w + rest)[1..] == w[1..] + rest;
    if Quote(w[0]) { QuotedEnds(w[0], w[1..], rest); } else { RunEnds(w[0], w[1..], rest); }
  }

  lemma {:induction false} SpacedStarts(words: seq<string>, spaces: seq<bool>)
    requires KeptApart(words, spaces) && words != []
    ensures Spaced(words, spaces) != "" && Spaced(words, spaces)[0] == words[0][0]
  {
  }

  /** Cutting the printed text gives the words back. */
  lemma {:induction false} WordsOfSpaced(words: seq<string>, spaces: seq<bool>)
    requires KeptApart(words, spaces)
    ensures Words(Spaced(words, spaces)) == words
    decreases |words|
  {
    if words != [] {
      var w, rest := words[0], Spaced(words[1..], spaces[1..]);
      assert KeptApart(words[1..], spaces[1..]) by {
        assert forall i :: 0 <= i < |words| - 1 ==> words[1..][i] == words[i + 1] && spaces[1..][i] == spaces[i + 1];
      }
      WordsOfSpaced(words[1..], spaces[1..]);
      var tail := (if spaces[0] then " " else "") + rest;
      if |words| > 1 { SpacedStarts(words[1..], spaces[1..]); }
      WordEnds(w, tail);
      assert Words(tail) == Words(rest) by {
        if spaces[0] { assert tail[1..] == rest; } else { assert tail == rest; }
      }
      assert words == [w] + words[1..];
    }
  }

  function PrintedWords(e: Expr): seq<string> { WordsOf(Print(e)) }

  /** Two expressions of the fragment with the same printed text are the same, whatever spaces the printer puts between
      their words, as long as it keeps apart words that would run together. A prefix operator, a parenthesis, a
      comma or a dot may touch what follows. */
  lemma {:induction false} TextInjective(a: Expr, b: Expr, spaces: seq<bool>, spaces': seq<bool>)
    requires Wrapped(a) && Wrapped(b)
    requires KeptApart(PrintedWords(a), spaces) && KeptApart(PrintedWords(b), spaces')
    requires Spaced(PrintedWords(a), spaces) == Spaced(PrintedWords(b), spaces')
    ensures a == b
  {
    WordsOfSpaced(PrintedWords(a), spaces);
    WordsOfSpaced(PrintedWords(b), spaces');
    WordsInjective(a, b);
  }

  /** Keywords and punctuation are plain words. Punctuation may touch whatever follows, and a symbolic operator whatever
      is not symbolic; a keyword has to be kept apart from names and numbers. */
  lemma {:induction false} Touching(k: Keyword, p: string, op: string, next: string)
    requires p in ["(", ")", ",", "."] && op != "" && Symbolic(op[0]) && next != ""
    ensures Plain(KeywordText(k)) && Plain(p)
    ensures MayTouch(p, next) && (!Symbolic(next[0]) ==> MayTouch(op, next))
    ensures 'a' <= next[0] <= 'z' || 'A' <= next[0] <= 'Z' || '0' <= next[0] <= '9' || next[0] == '_' ==>
              !MayTouch(KeywordText(k), next)
  {
    KeywordLetters(k);
  }

  lemma {:induction false} KeywordLetters(k: Keyword)
    ensures KeywordText(k) != "" && forall i :: 0 <= i < |KeywordText(k)| ==> 'A' <= KeywordText(k)[i] <= 'Z'
  {}

  // ---- the words of each form -------------------------------------------------------------------------------

  function WordsOf(ts: seq<Token>): seq<string> { Map(WordOf, ts) }

  lemma {:induction false} WordsAppend(a: seq<Token>, b: seq<Token>)
    ensures WordsOf(a + b) == WordsOf(a) + WordsOf(b)
  {
    assert forall i :: 0 <= i < |a| + |b| ==> WordsOf(a + b)[i] == (WordsOf(a) + WordsOf(b))[i];
  }

  lemma {:induction false} WordsAppend3(a: seq<Token>, b: seq<Token>, c: seq<Token>)
    ensures WordsOf(a + (b + c)) == WordsOf(a) + (WordsOf(b) + WordsOf(c))
  {
    WordsAppend(a, b + c);
    WordsAppend(b, c);
  }

  lemma {:induction false} WordsAppend4(a: seq<Token>, b: seq<Token>, c: seq<Token>, d: seq<Token>)
    ensures WordsOf(a + (b + c + d)) == WordsOf(a) + (WordsOf(b) + WordsOf(c) + WordsOf(d))
  {
    WordsAppend(a, b + c + d);
    WordsAppend(b + c, d);
    WordsAppend(b, c);
  }

  /** Groups of words with a separator between them. */
  function Separated(groups: seq<seq<string>>, separator: string): seq<string> {
    if groups == [] then []
    else if |groups| == 1 then groups[0]
    else groups[0] + [separator] + Separated(groups[1..], separator)
  }

  function NotWord(negated: bool): seq<string> { if negated then ["NOT"] else [] }

  lemma {:induction false} NotWords(negated: bool)
    ensures WordsOf(NotIf(negated)) == NotWord(negated)
  {}

  lemma {:induction false} OperatorWord(op: string)
    ensures WordsOf([OpToken(op)]) == [op]
  {}

  /** Operators print between or before their operands. */
  lemma {:induction false} OperatorWords(x: Expr, y: Expr, op: string)
    ensures PrintedWords(UnaryOp(op, x)) == [op] + PrintedWords(x)
    ensures PrintedWords(BinaryOp(x, op, y)) == PrintedWords(x) + ([op] + PrintedWords(y))
  {
    OperatorWord(op);
    WordsAppend([OpToken(op)], Print(x));
    WordsAppend3(Print(x), [OpToken(op)], Print(y));
  }

  lemma {:induction false} Enclosed(ts: seq<Token>, n: string)
    ensures WordsOf([LParen] + (ts + [RParen])) == ["("] + (WordsOf(ts) + [")"])
    ensures WordsOf([Kw(CAST), LParen] + (ts + [Kw(AS), Id(n), RParen]))
         == ["CAST", "("] + (WordsOf(ts) + ["AS", n, ")"])
  {
    WordsAppend3([LParen], ts, [RParen]);
    WordsAppend3([Kw(CAST), LParen], ts, [Kw(AS), Id(n), RParen]);
  }

  /** Names and literals print as they are. */
  lemma {:induction false} PrimaryWords(x: Expr, n: string)
    ensures PrintedWords(Identifier(n)) == PrintedWords(Value(n)) == [n]
    ensures PrintedWords(Nested(x)) == ["("] + (PrintedWords(x) + [")"])
    ensures PrintedWords(Cast(x, n)) == ["CAST", "("] + (PrintedWords(x) + ["AS", n, ")"])
  {
    Enclosed(Print(x), n);
  }

  function Single(w: string): seq<string> { [w] }

  /** The parts of a compound identifier have dots between them. */
  lemma {:induction false} CompoundWords(parts: seq<string>)
    ensures PrintedWords(CompoundIdentifier(parts)) == Separated(Map(Single, parts), ".")
  {
    if parts != [] {
      assert Map(Single, parts)[1..] == Map(Single, parts[1..]);
      WordsAppend([Id(parts[0])], Dotted(parts[1..]));
      if |parts| > 1 {
        CompoundWords(parts[1..]);
        WordsAppend([Id(parts[1])], Dotted(parts[1..][1..]));
        WordsAppend([Dot, Id(parts[1])], Dotted(parts[1..][1..]));
      }
    }
  }

  lemma {:induction false} ListWords(xs: seq<Expr>)
    ensures WordsOf(PrintList(xs)) == Separated(Map(PrintedWords, xs), ",") + [")"]
  {
    if xs != [] {
      var rest := if |xs| == 1 then [RParen] else [Comma] + PrintList(xs[1..]);
      WordsAppend(Print(xs[0]), rest);
      assert Map(PrintedWords, xs)[1..] == Map(PrintedWords, xs[1..]);
      if |xs| > 1 {
        ListWords(xs[1..]);
        WordsAppend([Comma], PrintList(xs[1..]));
      }
    }
  }

  /** Tuples and IN lists have commas between their elements. */
  lemma {:induction false} InWords(x: Expr, xs: seq<Expr>, negated: bool)
    ensures PrintedWords(Tuple(xs)) == ["("] + (Separated(Map(PrintedWords, xs), ",") + [")"])
    ensures PrintedWords(InList(x, xs, negated))
         == PrintedWords(x) + (NotWord(negated) + ["IN", "("] + (Separated(Map(PrintedWords, xs), ",") + [")"]))
  {
    ListWords(xs);
    ParenFirst(PrintList(xs));
    InTail(Print(x), PrintList(xs), negated);
  }

  lemma {:induction false} ParenFirst(ts: seq<Token>)
    ensures WordsOf([LParen] + ts) == ["("] + WordsOf(ts)
  {
    WordsAppend([LParen], ts);
  }

  lemma {:induction false} InTail(x: seq<Token>, list: seq<Token>, negated: bool)
    ensures WordsOf(x + (NotIf(negated) + [Kw(IN), LParen] + list))
         == WordsOf(x) + (NotWord(negated) + ["IN", "("] + WordsOf(list))
  {
    NotWords(negated);
    WordsAppend4(x, NotIf(negated), [Kw(IN), LParen], list);
  }

  function TestWord(t: Test): string {
    match t case IsTrue => "TRUE" case IsFalse => "FALSE" case IsNull => "NULL" case IsUnknown => "UNKNOWN"
  }

  lemma {:induction false} IsWords(x: Expr, t: Test, negated: bool)
    ensures PrintedWords(Is(x, t, negated)) == PrintedWords(x) + (["IS"] + NotWord(negated) + [TestWord(t)])
  {
    NotWords(negated);
    WordsAppend4(Print(x), [Kw(IS)], NotIf(negated), [Kw(TestKeyword(t))]);
  }

  lemma {:induction false} DistinctWords(x: Expr, y: Expr, negated: bool)
    ensures PrintedWords(IsDistinctFrom(x, y, negated))
         == PrintedWords(x) + (["IS"] + NotWord(negated) + ["DISTINCT", "FROM"] + PrintedWords(y))
  {
    DistinctTail(Print(x), Print(y), negated);
  }

  lemma {:induction false} DistinctTail(x: seq<Token>, y: seq<Token>, negated: bool)
    ensures WordsOf(x + ([Kw(IS)] + NotIf(negated) + [Kw(DISTINCT), Kw(FROM)] + y))
         == WordsOf(x) + (["IS"] + NotWord(negated) + ["DISTINCT", "FROM"] + WordsOf(y))
  {
    NotWords(negated);
    WordsAppend(x, [Kw(IS)] + NotIf(negated) + [Kw(DISTINCT), Kw(FROM)] + y);
    WordsAppend([Kw(IS)] + NotIf(negated) + [Kw(DISTINCT), Kw(FROM)], y);
    WordsAppend([Kw(IS)] + NotIf(negated), [Kw(DISTINCT), Kw(FROM)]);
    WordsAppend([Kw(IS)], NotIf(negated));
  }

  lemma {:induction false} BetweenWords(x: Expr, low: Expr, high: Expr, negated: bool)
    ensures PrintedWords(Between(x, low, high, negated))
         == PrintedWords(x)
            + (NotWord(negated) + ["BETWEEN"] + (PrintedWords(low) + (["AND"] + PrintedWords(high))))
  {
    BetweenTail(Print(x), Print(low), Print(high), negated);
  }

  lemma {:induction false} BetweenTail(x: seq<Token>, low: seq<Token>, high: seq<Token>, negated: bool)
    ensures WordsOf(x + (NotIf(negated) + [Kw(BETWEEN)] + (low + ([Kw(AND)] + high))))
         == WordsOf(x) + (NotWord(negated) + ["BETWEEN"] + (WordsOf(low) + (["AND"] + WordsOf(high))))
  {
    NotWords(negated);
    WordsAppend4(x, NotIf(negated), [Kw(BETWEEN)], low + ([Kw(AND)] + high));
    WordsAppend3(low, [Kw(AND)], high);
  }

  function LikeWord(ilike: bool): seq<string> { if ilike then ["ILIKE"] else ["LIKE"] }

  function AnyWord(any: bool): seq<string> { if any then ["ANY"] else [] }

  function EscapeWords(escape: Option<string>): seq<string> { if escape.Some? then ["ESCAPE", escape.value] else [] }

  lemma {:induction false} LikePieces(ilike: bool, any: bool, escape: Option<string>)
    ensures WordsOf([Kw(LikeKeyword(ilike))]) == LikeWord(ilike)
    ensures WordsOf(AnyIf(any)) == AnyWord(any)
    ensures WordsOf(Escape(escape)) == EscapeWords(escape)
  {}

  lemma {:induction false} LikeWords(ilike: bool, x: Expr, p: Expr, any: bool, escape: Option<string>, negated: bool)
    ensures PrintedWords(Like(ilike, x, p, any, escape, negated))
         == PrintedWords(x) + (NotWord(negated) + LikeWord(ilike)
                               + (AnyWord(any) + (PrintedWords(p) + EscapeWords(escape))))
  {
    var tail := AnyIf(any) + (Print(p) + Escape(escape));
    NotWords(negated);
    LikePieces(ilike, any, escape);
    WordsAppend4(Print(x), NotIf(negated), [Kw(LikeKeyword(ilike))], tail);
    WordsAppend3(AnyIf(any), Print(p), Escape(escape));
  }

  function WhenWords(w: When): seq<string> {
    ["WHEN"] + PrintedWords(w.condition) + ["THEN"] + PrintedWords(w.result)
  }

  lemma {:induction false} WhenTail(condition: seq<Token>, result: seq<Token>)
    ensures WordsOf([Kw(WHEN)] + (condition + ([Kw(THEN)] + result)))
         == ["WHEN"] + WordsOf(condition) + ["THEN"] + WordsOf(result)
  {
    WordsAppend3([Kw(WHEN)], condition, [Kw(THEN)] + result);
    WordsAppend([Kw(THEN)], result);
  }

  lemma {:induction false} WhensWords(ws: seq<When>)
    ensures WordsOf(PrintWhens(ws)) == Flatten(Map(WhenWords, ws))
  {
    if ws != [] {
      var w := ws[0];
      assert WordsOf(PrintWhen(w)) == WhenWords(w) by { WhenTail(Print(w.condition), Print(w.result)); }
      WordsAppend(PrintWhen(w), PrintWhens(ws[1..]));
      WhensWords(ws[1..]);
      assert Map(WhenWords, ws)[1..] == Map(WhenWords, ws[1..]);
    }
  }

  function OperandWords(o: Option<Expr>): seq<string> { if o.Some? then PrintedWords(o.value) else [] }

  function ElseWords(o: Option<Expr>): seq<string> { if o.Some? then ["ELSE"] + PrintedWords(o.value) else [] }

  lemma {:induction false} CaseEnds()
    ensures WordsOf([Kw(CASE)]) == ["CASE"] && WordsOf([Kw(END)]) == ["END"]
  {}

  lemma {:induction false} ElseFirst(ts: seq<Token>)
    ensures WordsOf([Kw(ELSE)] + ts) == ["ELSE"] + WordsOf(ts)
  {
    WordsAppend([Kw(ELSE)], ts);
  }

  lemma {:induction false} CasePieces(operand: Option<Expr>, otherwise: Option<Expr>)
    ensures WordsOf(PrintOperand(operand)) == OperandWords(operand)
    ensures WordsOf(PrintElse(otherwise)) == ElseWords(otherwise)
  {
    if otherwise.Some? { ElseFirst(Print(otherwise.value)); }
  }

  lemma {:induction false} CaseWords(operand: Option<Expr>, whens: seq<When>, otherwise: Option<Expr>)
    ensures PrintedWords(Case(operand, whens, otherwise))
         == ["CASE"] + (OperandWords(operand)
                        + (Flatten(Map(WhenWords, whens)) + (ElseWords(otherwise) + ["END"])))
  {
    var tail := PrintElse(otherwise) + [Kw(END)];
    CaseEnds();
    CasePieces(operand, otherwise);
    WhensWords(whens);
    WordsAppend3([Kw(CASE)], PrintOperand(operand), PrintWhens(whens) + tail);
    WordsAppend3(PrintWhens(whens), PrintElse(otherwise), [Kw(END)]);
  }
}
