/** The tokens of the tag query language and the lexer that produces them
    (the `Token` enum of src/prelude/inventory/tag_expr.rs). */
module TagLexer {
  import opened HostTags

  /** `ErrorToken` is the enum's `#[error]` variant: what the lexer yields for
      a character that starts no token and is not skipped. */
  datatype Token =
    | OpenParen
    | CloseParen
    | AndOp
    | OrOp
    | NotOp
    | Tag(name: string)
    | ErrorToken

  /** `[ \t\n\f]`: the characters skipped between tokens. Carriage return is
      not one of them. */
  predicate IsSkip(c: char) {
    c == ' ' || c == '\t' || c == '\n' || c == FormFeed
  }

  predicate IsOperatorChar(c: char) {
    c == '(' || c == ')' || c == '&' || c == '|' || c == '!'
  }

  function OperatorToken(c: char): Token
    requires IsOperatorChar(c)
  {
    match c
    case '(' => OpenParen
    case ')' => CloseParen
    case '&' => AndOp
    case '|' => OrOp
    case '!' => NotOp
  }

  /** Length of the longest prefix of `s` made of tag characters. */
  function TagRun(s: string): (n: nat)
    ensures n <= |s|
    ensures forall i :: 0 <= i < n ==> IsTagChar(s[i])
    ensures n < |s| ==> !IsTagChar(s[n])
  {
    if s == [] || !IsTagChar(s[0]) then 0 else 1 + TagRun(s[1..])
  }

  /** The token stream of `s`: the five operator characters, maximal
      non-empty runs of tag characters, skipped white space, and one
      `ErrorToken` for any other character. */
  function Lex(s: string): seq<Token>
    decreases |s|
  {
    if s == [] then []
    else if IsOperatorChar(s[0]) then [OperatorToken(s[0])] + Lex(s[1..])
    else if IsSkip(s[0]) then Lex(s[1..])
    else if IsTagChar(s[0]) then
      var n := TagRun(s);
      [Tag(s[..n])] + Lex(s[n..])
    else [ErrorToken] + Lex(s[1..])
  }

  /** Every character falls in exactly one of the lexer's classes, and only
      carriage return is in none of the others. */
  lemma CharacterClasses(c: char)
    ensures !IsOperatorChar(c) && !IsSkip(c) && !IsTagChar(c) <==> c == '\r'
    ensures IsTagChar(c) ==> !IsOperatorChar(c) && !IsSkip(c)
  {
  }

  /** A tag run stops where the first non-tag character is, whatever follows
      it, and a string made only of tag characters runs to its end when the
      next character cannot extend it. */
  lemma {:induction false} TagRunAppend(a: string, b: string)
    ensures TagRun(a) < |a| ==> TagRun(a + b) == TagRun(a)
    ensures TagRun(a) == |a| && (b == [] || !IsTagChar(b[0])) ==> TagRun(a + b) == |a|
  {
    if a != [] {
      assert (a + b)[0] == a[0];
      if IsTagChar(a[0]) {
        assert (a + b)[1..] == a[1..] + b;
        TagRunAppend(a[1..], b);
      }
    } else {
      assert a + b == b;
    }
  }

  /** A string starting with a tag character lexes as its tag run, then
      the rest. */
  lemma LexTagStart(s: string)
    requires s != [] && IsTagChar(s[0])
    ensures 0 < TagRun(s) && Lex(s) == [Tag(s[..TagRun(s)])] + Lex(s[TagRun(s)..])
  {
    CharacterClasses(s[0]);
  }

  /** The tokens of one character that cannot start a tag: an operator,
      nothing for skipped white space, the error token otherwise. */
  function CharTokens(c: char): seq<Token>
    requires !IsTagChar(c)
  {
    if IsOperatorChar(c) then [OperatorToken(c)] else if IsSkip(c) then [] else [ErrorToken]
  }

  /** A string starting with any other character lexes as that character,
      then the rest. */
  lemma LexOtherStart(s: string)
    requires s != [] && !IsTagChar(s[0])
    ensures Lex(s) == CharTokens(s[0]) + Lex(s[1..])
  {
  }

  /** Lexing distributes over concatenation when the seam does not join two
      tag characters into one run. */
  lemma {:induction false} LexAppend(a: string, b: string)
    requires a == [] || b == [] || !IsTagChar(a[|a| - 1]) || !IsTagChar(b[0])
    ensures Lex(a + b) == Lex(a) + Lex(b)
    decreases |a|, 2
  {
    if a == [] {
      assert a + b == b;
    } else if IsTagChar(a[0]) {
      LexAppendTagStart(a, b);
    } else {
      LexAppendOtherStart(a, b);
    }
  }

  /** A tag run that stops inside `a` stops at the same place in `a + b`. */
  lemma LexTagRunInside(a: string, b: string)
    requires a != [] && IsTagChar(a[0]) && TagRun(a) < |a|
    ensures Lex(a + b) == [Tag(a[..TagRun(a)])] + Lex(a[TagRun(a)..] + b)
  {
    var n := TagRun(a);
    var ab := a + b;
    assert ab[0] == a[0];
    TagRunAppend(a, b);
    LexTagStart(ab);
    assert ab[..n] == a[..n];
    assert ab[n..] == a[n..] + b;
  }

  /** A string made only of tag characters, followed by `b` that cannot
      extend it, is one tag token and then the tokens of `b`. */
  lemma LexTagRunWhole(a: string, b: string)
    requires a != [] && TagRun(a) == |a|
    requires b == [] || !IsTagChar(b[0])
    ensures Lex(a) == [Tag(a)]
    ensures Lex(a + b) == [Tag(a)] + Lex(b)
  {
    var ab := a + b;
    assert ab[0] == a[0];
    TagRunAppend(a, b);
    LexTagStart(a);
    LexTagStart(ab);
    assert ab[..|a|] == a && a[..|a|] == a;
    assert ab[|a|..] == b;
    assert a[|a|..] == [];
  }

  /** `LexAppend` when `a` starts with a tag run. */
  lemma {:induction false} LexAppendTagStart(a: string, b: string)
    requires a != [] && IsTagChar(a[0])
    requires b == [] || !IsTagChar(a[|a| - 1]) || !IsTagChar(b[0])
    ensures Lex(a + b) == Lex(a) + Lex(b)
    decreases |a|, 1
  {
    if TagRun(a) < |a| {
      LexAppendTagInside(a, b);
    } else {
      assert IsTagChar(a[|a| - 1]);
      LexTagRunWhole(a, b);
    }
  }

  /** `LexAppend` when the leading tag run of `a` stops inside `a`. */
  lemma {:induction false} LexAppendTagInside(a: string, b: string)
    requires a != [] && IsTagChar(a[0]) && TagRun(a) < |a|
    requires b == [] || !IsTagChar(a[|a| - 1]) || !IsTagChar(b[0])
    ensures Lex(a + b) == Lex(a) + Lex(b)
    decreases |a|, 0
  {
    var rest := a[TagRun(a)..];
    assert rest != [] && rest[|rest| - 1] == a[|a| - 1];
    LexTagStart(a);
    LexTagRunInside(a, b);
    LexAppend(rest, b);
  }

  /** `LexAppend` when `a` starts with a character outside tags. */
  lemma {:induction false} LexAppendOtherStart(a: string, b: string)
    requires a != [] && !IsTagChar(a[0])
    requires b == [] || !IsTagChar(a[|a| - 1]) || !IsTagChar(b[0])
    ensures Lex(a + b) == Lex(a) + Lex(b)
    decreases |a|, 0
  {
    assert (a + b)[0] == a[0];
    assert (a + b)[1..] == a[1..] + b;
    LexOtherStart(a);
    LexOtherStart(a + b);
    assert Lex(a + b) == CharTokens(a[0]) + Lex(a[1..] + b);
    var rest := a[1..];
    assert rest == [] || rest[|rest| - 1] == a[|a| - 1];
    LexAppend(rest, b);
  }

  /** A valid host tag used alone as a query is exactly one Tag token: the
      tag pattern and the lexer's Tag class are the same. */
  lemma LexSingleTag(t: string)
    requires MatchesTagRegex(t)
    ensures Lex(t) == [Tag(t)]
  {
    assert TagRun(t) == |t|;
    assert t[..|t|] == t;
    assert t[|t|..] == [];
  }

  /** Every Tag token carries a string that is itself a valid host tag. */
  lemma {:induction false} LexTagsAreValidTags(s: string)
    ensures forall i :: 0 <= i < |Lex(s)| && Lex(s)[i].Tag? ==> MatchesTagRegex(Lex(s)[i].name)
    decreases |s|
  {
    if s != [] {
      if IsOperatorChar(s[0]) || IsSkip(s[0]) || !IsTagChar(s[0]) {
        LexTagsAreValidTags(s[1..]);
      } else {
        LexTagsAreValidTags(s[TagRun(s)..]);
      }
    }
  }

  /** The lexer yields an error token iff the input holds a carriage return:
      every other character is an operator, skipped, or part of a tag. */
  lemma {:induction false} ErrorTokenIffCarriageReturn(s: string)
    ensures ErrorToken in Lex(s) <==> '\r' in s
    decreases |s|
  {
    if s != [] {
      CharacterClasses(s[0]);
      if IsOperatorChar(s[0]) || IsSkip(s[0]) || !IsTagChar(s[0]) {
        ErrorTokenIffCarriageReturn(s[1..]);
        assert s == [s[0]] + s[1..];
      } else {
        var n := TagRun(s);
        ErrorTokenIffCarriageReturn(s[n..]);
        assert s == s[..n] + s[n..];
        assert '\r' !in s[..n];
      }
    }
  }

  /** The text of one token, as a query writer would type it. */
  function TokenText(t: Token): string
    requires t != ErrorToken
  {
    match t
    case OpenParen => "("
    case CloseParen => ")"
    case AndOp => "&"
    case OrOp => "|"
    case NotOp => "!"
    case Tag(name) => name
  }

  /** A token is printable when it is not the error token and, for a tag,
      its name is a valid host tag. */
  predicate Printable(t: Token) {
    t != ErrorToken && (t.Tag? ==> MatchesTagRegex(t.name))
  }

  /** The tokens written out, each followed by one space. */
  function Unlex(ts: seq<Token>): string
    requires forall i :: 0 <= i < |ts| ==> Printable(ts[i])
  {
    if ts == [] then []
    else
      assert Printable(ts[0]);
      TokenText(ts[0]) + " " + Unlex(ts[1..])
  }

  /** A printable token written out lexes as that one token. */
  lemma LexTokenText(t: Token)
    requires Printable(t)
    ensures Lex(TokenText(t)) == [t]
  {
    if t.Tag? {
      LexSingleTag(t.name);
    } else {
      var text := TokenText(t);
      assert text == [text[0]] + [];
      LexOperator(text[0], []);
    }
  }

  /** Round trip: lexing the printed form of printable tokens gives them
      back. */
  lemma {:induction false} LexUnlex(ts: seq<Token>)
    requires forall i :: 0 <= i < |ts| ==> Printable(ts[i])
    ensures Lex(Unlex(ts)) == ts
  {
    if ts != [] {
      var text := TokenText(ts[0]);
      var tail := Unlex(ts[1..]);
      LexUnlex(ts[1..]);
      assert Unlex(ts) == text + (" " + tail);
      LexTokenText(ts[0]);
      LexAppend(text, " " + tail);
      LexSkipped(' ', tail);
      assert [' '] + tail == " " + tail;
      assert ts == [ts[0]] + ts[1..];
    }
  }

  /** A skipped character contributes no token. */
  lemma LexSkipped(c: char, s: string)
    requires IsSkip(c)
    ensures Lex([c] + s) == Lex(s)
  {
    assert ([c] + s)[1..] == s;
  }

  /** An operator character is one token on its own. */
  lemma LexOperator(c: char, s: string)
    requires IsOperatorChar(c)
    ensures Lex([c] + s) == [OperatorToken(c)] + Lex(s)
  {
    assert ([c] + s)[1..] == s;
  }

  /** A valid tag followed by a non-tag character is one tag token. */
  lemma LexTagThen(t: string, s: string)
    requires MatchesTagRegex(t)
    requires s == [] || !IsTagChar(s[0])
    ensures Lex(t + s) == [Tag(t)] + Lex(s)
  {
    LexAppend(t, s);
    LexSingleTag(t);
  }
  /** `x c s`, spaced: a tag, an operator, then whatever `s` lexes to. */
  lemma LexSpaced(x: string, c: char, s: string)
    requires MatchesTagRegex(x) && IsOperatorChar(c)
    ensures Lex(x + " " + [c] + " " + s) == [Tag(x), OperatorToken(c)] + Lex(s)
  {
    assert x + " " + [c] + " " + s == x + (" " + ([c] + (" " + s)));
    LexSkipped(' ', s);
    LexOperator(c, " " + s);
    LexSkipped(' ', [c] + (" " + s));
    LexTagThen(x, " " + ([c] + (" " + s)));
  }

  /** `(x c y)`: a parenthesised binary operation on two tags. */
  lemma LexGroup(x: string, c: char, y: string)
    requires MatchesTagRegex(x) && IsOperatorChar(c) && MatchesTagRegex(y)
    ensures Lex("(" + x + " " + [c] + " " + y + ")") ==
      [OpenParen, Tag(x), OperatorToken(c), Tag(y), CloseParen]
  {
    var close: string := [')'];
    var tail := y + close;
    var inner := x + " " + [c] + " " + tail;
    assert "(" + x + " " + [c] + " " + y + ")" == ['('] + inner;
    LexOperator(')', []);
    assert close == [')'] + [];
    LexTagThen(y, close);
    assert Lex(tail) == [Tag(y), CloseParen];
    LexSpaced(x, c, tail);
    assert Lex(inner) == [Tag(x), OperatorToken(c), Tag(y), CloseParen];
    LexOperator('(', inner);
  }
}
