/** The linear-design tokenizer against the tree design's: a comment ends
    its run when a blank or another comment follows it, and on any input
    that does not hold both a `#` and a line feed the two tokenizers store
    the same tokens and stop in the same state. */
module RshellLexerProperties {
  import opened Wrappers
  import opened Scanner
  import opened RshellLexer
  import RshellTokens
  import Tokens
  import Lexer
  import LexerProperties
  import Chars

  /** No comment in `s` can be followed by more input: either `s` holds no
      `#` or it is a single line. */
  predicate OneLineComments(s: seq<char>)
  {
    '#' !in s || '\n' !in s
  }

  /** The same token in the tree design's token type. */
  function Upgrade(t: RshellTokens.Token): (r: Tokens.Token)
    ensures r.text == t.text
  {
    var kind := match t.kind
      case None => Tokens.TokenType.None
      case Word => Tokens.Word
      case Sequence => Tokens.Sequence
      case Conjunction => Tokens.Conjunction
      case Disjunction => Tokens.Disjunction;
    Tokens.Token(kind, t.text)
  }

  function UpgradeAll(ts: seq<RshellTokens.Token>): (r: seq<Tokens.Token>)
    ensures |r| == |ts|
  {
    if ts == [] then [] else UpgradeAll(ts[..|ts| - 1]) + [Upgrade(ts[|ts| - 1])]
  }

  function UpgradeLexed(x: Lexed): Lexer.Lexed
  {
    match x
    case Lexed(token, m) => Lexer.Lexed(Upgrade(token), m)
    case Failed(message, m) => Lexer.Failed(message, m)
  }

  function UpgradeResult(r: LexResult): Lexer.LexResult
  {
    Lexer.LexResult(UpgradeAll(r.tokens), r.error, r.m)
  }

  /** White space and one comment up to its line feed are skipped. */
  lemma SkipToComment(b: seq<char>, c: seq<char>, t: seq<char>)
    requires LexerProperties.IsBlank(b) && '\n' !in c
    ensures var spaced := Chars.SkipSpace(b + ['#'] + c + ['\n'] + t);
      spaced != [] && AfterComment(spaced) == t
  {
    var s := ['#'] + c + ['\n'] + t;
    assert b + ['#'] + c + ['\n'] + t == b + s;
    LexerProperties.SkipSpaceOfBlanks(b, s);
    assert s[1..] == c + ['\n'] + t;
    LexerProperties.LineRestOfComment(c, t);
  }

  /** No helper of next() accepts input that starts with a blank or `#`. */
  lemma NothingAt(t: seq<char>)
    requires t == [] || Chars.IsSpace(t[0]) || t[0] == '#'
    ensures TokenAt(Machine(t, false, false))
         == Lexed(RshellTokens.Token(RshellTokens.TokenType.None, ""), Machine(t, false, false))
  {
    var start := Machine(t, false, false);
    assert !IsDirect(Peek(t), false);
    assert ScanWord(start, Draft("", false)) == Scan(false, Draft("", false), start);
  }

  /** After white space, a comment that ends at a line feed hides whatever
      follows when that begins with a blank or another comment: next()
      returns a None token and apply() stops with that input still unread
      and no error. */
  lemma CommentThenBlank(b: seq<char>, c: seq<char>, t: seq<char>, tokens: seq<RshellTokens.Token>)
    requires LexerProperties.IsBlank(b) && '\n' !in c
    requires t == [] || Chars.IsSpace(t[0]) || t[0] == '#'
    ensures NextToken(Machine(b + ['#'] + c + ['\n'] + t, false, false))
         == Lexed(RshellTokens.Token(RshellTokens.TokenType.None, ""), Machine(t, false, false))
    ensures Lex(Machine(b + ['#'] + c + ['\n'] + t, false, false), tokens)
         == LexResult(tokens, Option.None, Machine(t, false, false))
  {
    SkipToComment(b, c, t);
    NothingAt(t);
  }

  /** A comment at the end of the input consumes all of it. */
  lemma CommentAtEnd(b: seq<char>, c: seq<char>, tokens: seq<RshellTokens.Token>)
    requires LexerProperties.IsBlank(b) && '\n' !in c
    ensures Lex(Machine(b + ['#'] + c, false, false), tokens)
         == LexResult(tokens, Option.None, Machine([], false, false))
  {
    var s := ['#'] + c;
    LexerProperties.SkipSpaceOfBlanks(b, s);
    assert Chars.SkipSpace(b + s) == s;
    assert '\n' !in s;
    assert AfterComment(s) == [];
    NothingAt([]);
    assert b + ['#'] + c == b + s;
    assert NextToken(Machine(b + s, false, false)) == TokenAt(Machine([], false, false));
  }

  /** Where the older next() skips one comment the newer one skips them all;
      with one-line comments the two skip the same input. */
  lemma SkipAgreement(s: seq<char>)
    requires OneLineComments(s)
    ensures var t := Chars.SkipSpace(s);
      t != [] ==> Lexer.SkipBlanks(s) == (if t[0] == '#' then [] else t) && AfterComment(t) == Lexer.SkipBlanks(s)
  {
    var t := Chars.SkipSpace(s);
    SkipSpaceSuffix(s);
    if t != [] && t[0] == '#' {
      SuffixAvoids(t, s, '\n');
      assert LineRest(t) == [];
      assert Lexer.SkipBlanks([]) == [];
    }
  }

  lemma TokenAtAgreement(m: Machine)
    ensures UpgradeLexed(TokenAt(m)) == Lexer.TokenAt(m)
  {
  }

  /** next() of both designs, under one-line comments. */
  lemma NextTokenAgreement(m: Machine)
    requires OneLineComments(m.rest)
    ensures UpgradeLexed(NextToken(m)) == Lexer.NextToken(m)
  {
    var t := Chars.SkipSpace(m.rest);
    SkipAgreement(m.rest);
    if t != [] {
      TokenAtAgreement(m.(rest := AfterComment(t)));
      if t[0] == '#' {
        var start := Machine([], m.inEscape, m.inQuote);
        assert ScanWord(start, Draft("", false)) == Scan(false, Draft("", false), start);
      }
    }
  }

  lemma UpgradeAppend(ts: seq<RshellTokens.Token>, t: RshellTokens.Token)
    ensures UpgradeAll(ts + [t]) == UpgradeAll(ts) + [Upgrade(t)]
  {
    assert (ts + [t])[..|ts|] == ts;
  }

  lemma {:induction false} LexAgreement(m: Machine, tokens: seq<RshellTokens.Token>)
    requires OneLineComments(m.rest)
    ensures UpgradeResult(Lex(m, tokens)) == Lexer.Lex(m, UpgradeAll(tokens))
    decreases |m.rest|
  {
    NextTokenAgreement(m);
    match NextToken(m)
    case Failed(_, _) =>
    case Lexed(token, after) =>
      if token.kind != RshellTokens.TokenType.None {
        Lexer.NextTokenSuffix(m);
        if '#' !in m.rest {
          SuffixAvoids(after.rest, m.rest, '#');
        } else {
          SuffixAvoids(after.rest, m.rest, '\n');
        }
        LexAgreement(after, tokens + [token]);
        UpgradeAppend(tokens, token);
      }
  }

  /** apply() of both designs, under one-line comments. */
  lemma TokenizeAgreement(input: seq<char>)
    requires OneLineComments(input)
    ensures UpgradeResult(Tokenize(input)) == Lexer.Tokenize(input)
  {
    LexAgreement(Machine(input, false, false), []);
  }

  /** `;`, `&&` and `||` give their operator tokens. */
  lemma OperatorTokens(s: seq<char>, e: bool, q: bool)
    ensures NextToken(Machine([';'] + s, e, q))
         == Lexed(RshellTokens.Token(RshellTokens.Sequence, ";"), Machine(s, e, q))
    ensures NextToken(Machine(['&', '&'] + s, e, q))
         == Lexed(RshellTokens.Token(RshellTokens.Conjunction, "&&"), Machine(s, e, q))
    ensures NextToken(Machine(['|', '|'] + s, e, q))
         == Lexed(RshellTokens.Token(RshellTokens.Disjunction, "||"), Machine(s, e, q))
  {
    var t1, t2, t3 := [';'] + s, ['&', '&'] + s, ['|', '|'] + s;
    assert t1[1..] == s && t2[1..][1..] == s && t3[1..][1..] == s;
    assert Chars.SkipSpace(t1) == t1 && Chars.SkipSpace(t2) == t2 && Chars.SkipSpace(t3) == t3;
    assert AfterComment(t1) == t1 && AfterComment(t2) == t2 && AfterComment(t3) == t3;
  }

  /** A lone `&` or `|` throws after consuming it. */
  lemma LoneOperators(s: seq<char>, e: bool, q: bool)
    ensures Peek(s) != Some('&') ==> NextToken(Machine(['&'] + s, e, q)) == Failed("unexpected &", Machine(s, e, q))
    ensures Peek(s) != Some('|') ==> NextToken(Machine(['|'] + s, e, q)) == Failed("unexpected |", Machine(s, e, q))
  {
    var t4, t5 := ['&'] + s, ['|'] + s;
    assert t4[1..] == s && t5[1..] == s;
    assert Chars.SkipSpace(t4) == t4 && Chars.SkipSpace(t5) == t5;
    assert AfterComment(t4) == t4 && AfterComment(t5) == t5;
    assert "unexpected " + ['&'] == "unexpected &" && "unexpected " + ['|'] == "unexpected |";
  }

  /** A backslash at the end of the input leaves `inEscape` raised and
      yields no token. */
  lemma TrailingBackslash(w: seq<char>)
    requires AllLiteral(w, false)
    ensures Tokenize(w + ['\\']) == LexResult([], Option.None, Machine([], true, false))
  {
    var s := w + ['\\'];
    forall i | 0 <= i < |s|
      ensures s[i] != '#'
    {
      if i < |w| {
        assert Literal(w[i], false);
      }
    }
    TokenizeAgreement(s);
    LexerProperties.TrailingBackslash(w);
  }

  /** A backslash that ends the input after a quoted segment: the word read
      so far is still stored, and the escape flag is left raised. */
  lemma QuotedThenBackslash(d: seq<char>, q: seq<char>)
    requires AllLiteral(d, false) && AllLiteral(q, true)
    ensures Tokenize(d + ['"'] + q + ['"'] + ['\\']) == LexResult(
      [RshellTokens.Token(RshellTokens.Word, d + q)], Option.None, Machine([], true, false))
  {
    var s := d + ['"'] + q + ['"'] + ['\\'];
    LexerProperties.QuotedBackslashWord(d, q);
    assert s[0] == (if d == [] then '"' else d[0]);
    assert Chars.SkipSpace(s) == s && AfterComment(s) == s;
    var w := ScanWord(Machine(s, false, false), Draft("", false));
    assert NextToken(Machine(s, false, false)) == Lexed(Typed(RshellTokens.Token(RshellTokens.TokenType.None, ""), w.draft), w.m);
    var rest := Machine([], true, false);
    var word := RshellTokens.Token(RshellTokens.Word, d + q);
    assert NextToken(rest) == Lexed(RshellTokens.Token(RshellTokens.TokenType.None, ""), rest);
    assert Lex(Machine(s, false, false), []) == Lex(rest, [word]);
  }

  /** A missing closing quote leaves `inQuote` raised; the text read after
      the quote is still stored as a Word. */
  lemma UnterminatedQuote(q: seq<char>)
    requires AllLiteral(q, true)
    ensures Tokenize(['"'] + q) == LexResult(
      if q == [] then [] else [RshellTokens.Token(RshellTokens.Word, q)], Option.None, Machine([], false, true))
  {
    var s := ['"'] + q;
    assert s[1..] == q && q == q + [];
    LiteralRun(q, [], false, true, Draft("", false));
    assert "" + q == q;
    assert Chars.SkipSpace(s) == s && AfterComment(s) == s;
    var w := ScanWord(Machine(s, false, false), Draft("", false));
    assert NextToken(Machine(s, false, false)) == Lexed(Typed(RshellTokens.Token(RshellTokens.TokenType.None, ""), w.draft), w.m);
    assert DirectWord(Machine(s, false, false), Draft("", false)) == Scan(false, Draft("", false), Machine(s, false, false));
    assert QuoteWord(Machine(s, false, false), Draft("", false)) == Scan(false, Draft(q, q != []), Machine([], false, true));
    assert w == Scan(false, Draft(q, q != []), Machine([], false, true));
    var rest := Machine([], false, true);
    assert NextToken(rest) == Lexed(RshellTokens.Token(RshellTokens.TokenType.None, ""), rest);
    if q != [] {
      assert Lex(Machine(s, false, false), []) == Lex(rest, [RshellTokens.Token(RshellTokens.Word, q)]);
    }
  }
}
