/** What the tree-design tokenizer does with typical inputs: operators,
    words built from direct, quoted and escaped segments, the flags left at
    the end of the input, and the blanks and comments it skips. */
module LexerProperties {
  import opened Wrappers
  import opened Tokens
  import opened Scanner
  import opened Lexer
  import Chars

  const Done := Machine([], false, false)

  /** Words separated by single spaces. */
  function Unwords(ws: seq<string>): string
  {
    if ws == [] then [] else ws[0] + (if |ws| == 1 then [] else [' '] + Unwords(ws[1..]))
  }

  function WordTokens(ws: seq<string>): (r: seq<Token>)
    ensures |r| == |ws| && forall i :: 0 <= i < |ws| ==> r[i] == Token(Word, ws[i])
  {
    if ws == [] then [] else [Token(Word, ws[0])] + WordTokens(ws[1..])
  }

  predicate IsBlank(b: seq<char>)
  {
    forall i :: 0 <= i < |b| ==> Chars.IsSpace(b[i])
  }

  lemma {:induction false} SkipSpaceOfBlanks(b: seq<char>, s: seq<char>)
    requires IsBlank(b)
    ensures Chars.SkipSpace(b + s) == Chars.SkipSpace(s)
  {
    if b != [] {
      assert (b + s)[0] == b[0] && Chars.IsSpace(b[0]);
      assert (b + s)[1..] == b[1..] + s;
      SkipSpaceOfBlanks(b[1..], s);
      assert Chars.SkipSpace(b + s) == Chars.SkipSpace(b[1..] + s);
    } else {
      assert b + s == s;
    }
  }

  lemma {:induction false} LineRestOfComment(c: seq<char>, s: seq<char>)
    requires '\n' !in c
    ensures LineRest(c + ['\n'] + s) == s
  {
    if c == [] {
      assert c + ['\n'] + s == ['\n'] + s;
    } else {
      assert (c + ['\n'] + s)[0] == c[0];
      assert (c + ['\n'] + s)[1..] == c[1..] + ['\n'] + s;
      LineRestOfComment(c[1..], s);
    }
  }

  /** A token that starts with neither a blank, `#` nor an operator
      character is read by nextWord. */
  lemma WordStart(s: seq<char>, e: bool, q: bool)
    requires s != [] && !IsSeparator(s[0])
    ensures var w := ScanWord(Machine(s, e, q), Draft("", false));
      NextToken(Machine(s, e, q)) == Lexed(Typed(Token(TokenType.None, ""), w.draft), w.m)
  {
    assert Chars.SkipSpace(s) == s;
    assert SkipBlanks(s) == s;
  }

  /** One stored token. */
  lemma LexStep(m: Machine, tokens: seq<Token>, t: Token, after: Machine)
    requires NextToken(m) == Lexed(t, after) && t.kind != TokenType.None
    ensures Lex(m, tokens) == Lex(after, tokens + [t])
  {
  }

  /** Blanks before a token are skipped. */
  lemma BlanksSkipped(b: seq<char>, s: seq<char>, e: bool, q: bool, tokens: seq<Token>)
    requires IsBlank(b)
    ensures NextToken(Machine(b + s, e, q)) == NextToken(Machine(s, e, q))
    ensures Lex(Machine(b + s, e, q), tokens) == Lex(Machine(s, e, q), tokens)
  {
    SkipSpaceOfBlanks(b, s);
    assert SkipBlanks(b + s) == SkipBlanks(s);
  }

  /** A comment, from `#` through the end of its line, is skipped like a
      blank; so is any number of them, one after the other. */
  lemma CommentSkipped(c: seq<char>, s: seq<char>, e: bool, q: bool, tokens: seq<Token>)
    requires '\n' !in c
    ensures NextToken(Machine(['#'] + c + ['\n'] + s, e, q)) == NextToken(Machine(s, e, q))
    ensures Lex(Machine(['#'] + c + ['\n'] + s, e, q), tokens) == Lex(Machine(s, e, q), tokens)
  {
    var text := ['#'] + c + ['\n'] + s;
    assert text == ['#'] + (c + ['\n'] + s);
    assert text[1..] == c + ['\n'] + s;
    LineRestOfComment(c, s);
    assert LineRest(text) == s;
    assert Chars.SkipSpace(text) == text;
    assert SkipBlanks(text) == SkipBlanks(s);
  }

  /** A comment that runs to the end of the input ends the run. */
  lemma CommentAtEnd(c: seq<char>, e: bool, q: bool, tokens: seq<Token>)
    requires '\n' !in c
    ensures Lex(Machine(['#'] + c, e, q), tokens) == LexResult(tokens, Option.None, Machine([], e, q))
  {
    var text := ['#'] + c;
    assert text[1..] == c;
    assert LineRest(text) == [];
    assert Chars.SkipSpace(text) == text;
    assert SkipBlanks(text) == [];
  }

  /** `;`, `&&` and `||` give their operator tokens. */
  lemma OperatorTokens(s: seq<char>, e: bool, q: bool)
    ensures NextToken(Machine([';'] + s, e, q)) == Lexed(Token(Sequence, ";"), Machine(s, e, q))
    ensures NextToken(Machine(['&', '&'] + s, e, q)) == Lexed(Token(Conjunction, "&&"), Machine(s, e, q))
    ensures NextToken(Machine(['|', '|'] + s, e, q)) == Lexed(Token(Disjunction, "||"), Machine(s, e, q))
  {
    var t1, t2, t3 := [';'] + s, ['&', '&'] + s, ['|', '|'] + s;
    assert t1[1..] == s && t2[1..][1..] == s && t3[1..][1..] == s;
    assert Chars.SkipSpace(t1) == t1 && Chars.SkipSpace(t2) == t2 && Chars.SkipSpace(t3) == t3;
    assert SkipBlanks(t1) == t1 && SkipBlanks(t2) == t2 && SkipBlanks(t3) == t3;
  }

  /** A lone `&` or `|` throws after consuming it. */
  lemma LoneOperators(s: seq<char>, e: bool, q: bool)
    ensures Peek(s) != Some('&') ==> NextToken(Machine(['&'] + s, e, q)) == Failed("unexpected &", Machine(s, e, q))
    ensures Peek(s) != Some('|') ==> NextToken(Machine(['|'] + s, e, q)) == Failed("unexpected |", Machine(s, e, q))
  {
    var t4, t5 := ['&'] + s, ['|'] + s;
    assert t4[1..] == s && t5[1..] == s;
    assert Chars.SkipSpace(t4) == t4 && Chars.SkipSpace(t5) == t5;
    assert SkipBlanks(t4) == t4 && SkipBlanks(t5) == t5;
    assert "unexpected " + ['&'] == "unexpected &" && "unexpected " + ['|'] == "unexpected |";
  }

  /** A literal word followed by the end of a word is one Word token. */
  lemma PlainWordToken(w: seq<char>, t: seq<char>, e: bool)
    requires w != [] && AllLiteral(w, false) && WordEnd(t)
    ensures NextToken(Machine(w + t, e, false)) == Lexed(Token(Word, w), Machine(t, e, false))
  {
    assert (w + t)[0] == w[0] && Literal(w[0], false);
    WordStart(w + t, e, false);
    WordRunDirect(w, t, e, Draft("", false), false);
    WordRunAtEnd(t, e, Draft("" + w, true), true);
    assert "" + w == w;
  }

  /** The first of several words is stored, and lexing continues after
      the space that follows it. */
  lemma LexFirstWord(w: seq<char>, rest: seq<char>, tokens: seq<Token>)
    requires w != [] && AllLiteral(w, false)
    ensures Lex(Machine(w + ([' '] + rest), false, false), tokens) == Lex(Machine(rest, false, false), tokens + [Token(Word, w)])
  {
    PlainWordToken(w, [' '] + rest, false);
    LexStep(Machine(w + ([' '] + rest), false, false), tokens, Token(Word, w), Machine([' '] + rest, false, false));
    BlanksSkipped([' '], rest, false, false, tokens + [Token(Word, w)]);
  }

  /** The last word is stored and the run ends. */
  lemma LexLastWord(w: seq<char>, tokens: seq<Token>)
    requires w != [] && AllLiteral(w, false)
    ensures Lex(Machine(w, false, false), tokens) == LexResult(tokens + [Token(Word, w)], Option.None, Done)
  {
    assert w == w + [];
    PlainWordToken(w, [], false);
    LexStep(Machine(w, false, false), tokens, Token(Word, w), Done);
  }

  predicate AllWords(ws: seq<string>)
  {
    forall i :: 0 <= i < |ws| ==> ws[i] != [] && AllLiteral(ws[i], false)
  }

  /** The inductive step of LexUnwords. */
  lemma LexUnwordsCons(ws: seq<string>, tokens: seq<Token>)
    requires |ws| >= 2 && ws[0] != [] && AllLiteral(ws[0], false)
    requires Lex(Machine(Unwords(ws[1..]), false, false), tokens + [Token(Word, ws[0])])
          == LexResult(tokens + [Token(Word, ws[0])] + WordTokens(ws[1..]), Option.None, Done)
    ensures Lex(Machine(Unwords(ws), false, false), tokens) == LexResult(tokens + WordTokens(ws), Option.None, Done)
  {
    var rest := Unwords(ws[1..]);
    assert Unwords(ws) == ws[0] + ([' '] + rest);
    LexFirstWord(ws[0], rest, tokens);
    assert tokens + [Token(Word, ws[0])] + WordTokens(ws[1..]) == tokens + WordTokens(ws);
  }

  lemma {:induction false} LexUnwords(ws: seq<string>, tokens: seq<Token>)
    requires AllWords(ws)
    ensures Lex(Machine(Unwords(ws), false, false), tokens) == LexResult(tokens + WordTokens(ws), Option.None, Done)
  {
    if ws == [] {
      assert tokens + [] == tokens;
    } else if |ws| == 1 {
      assert Unwords(ws) == ws[0] + [] == ws[0];
      LexLastWord(ws[0], tokens);
      assert WordTokens(ws) == [Token(Word, ws[0])];
    } else {
      assert AllWords(ws[1..]) by {
        forall i | 0 <= i < |ws| - 1
          ensures ws[1..][i] != [] && AllLiteral(ws[1..][i], false)
        {
          assert ws[1..][i] == ws[i + 1];
        }
      }
      LexUnwords(ws[1..], tokens + [Token(Word, ws[0])]);
      LexUnwordsCons(ws, tokens);
    }
  }

  /** Lexing words joined by spaces gives back exactly those words, and the
      run ends valid: tokenizing inverts joining. */
  lemma TokenizeUnwords(ws: seq<string>)
    requires AllWords(ws)
    ensures Tokenize(Unwords(ws)) == LexResult(WordTokens(ws), Option.None, Done)
  {
    LexUnwords(ws, []);
    assert [] + WordTokens(ws) == WordTokens(ws);
  }

  /** The end of the input gives the None token, so a run stops there. */
  lemma EndOfInput(e: bool, q: bool, tokens: seq<Token>)
    ensures Lex(Machine([], e, q), tokens) == LexResult(tokens, Option.None, Machine([], e, q))
  {
  }

  /** The whole input is one word, read to its end. */
  lemma SingleWord(s: seq<char>, w: Scan)
    requires s != [] && !IsSeparator(s[0])
    requires ScanWord(Machine(s, false, false), Draft("", false)) == w
    requires w.draft.isWord && w.m.rest == []
    ensures Tokenize(s) == LexResult([Token(Word, w.draft.text)], Option.None, w.m)
  {
    WordStart(s, false, false);
    LexStep(Machine(s, false, false), [], Token(Word, w.draft.text), w.m);
    EndOfInput(w.m.inEscape, w.m.inQuote, [Token(Word, w.draft.text)]);
  }

  /** Adjacent direct and quoted segments form one Word: `a"b"c` is the
      single Word "abc", and `""` is the empty Word. */
  lemma AdjacentSegments(d1: seq<char>, q: seq<char>, d2: seq<char>)
    requires AllLiteral(d1, false) && AllLiteral(q, true) && AllLiteral(d2, false)
    ensures Tokenize(d1 + ['"'] + q + ['"'] + d2) == LexResult([Token(Word, d1 + q + d2)], Option.None, Done)
  {
    var s := d1 + ['"'] + q + ['"'] + d2;
    SegmentsWord(d1, q, d2);
    assert s[0] == (if d1 == [] then '"' else d1[0]);
    SingleWord(s, Scan(true, Draft(d1 + q + d2, true), Done));
  }

  lemma SegmentsWord(d1: seq<char>, q: seq<char>, d2: seq<char>)
    requires AllLiteral(d1, false) && AllLiteral(q, true) && AllLiteral(d2, false)
    ensures ScanWord(Machine(d1 + ['"'] + q + ['"'] + d2, false, false), Draft("", false))
         == Scan(true, Draft(d1 + q + d2, true), Done)
  {
    var s := d1 + ['"'] + q + ['"'] + d2;
    var tail := ['"'] + q + ['"'] + d2;
    assert s == d1 + tail;
    var d := Draft("", false);
    var afterFirst := Draft(d1, d1 != []);
    if d1 != [] {
      assert s[0] == d1[0] && Literal(d1[0], false);
      WordRunDirect(d1, tail, false, d, false);
      assert "" + d1 == d1;
    } else {
      assert s == tail && afterFirst == d;
    }
    assert WordRun(Machine(s, false, false), d, false) == WordRun(Machine(tail, false, false), afterFirst, d1 != []);
    WordRunQuoted(q, d2, false, afterFirst, d1 != []);
    var afterQuote := Draft(d1 + q, true);
    var text := d1 + q + d2;
    if d2 != [] {
      assert d2 == d2 + [];
      WordRunDirect(d2, [], false, afterQuote, true);
    } else {
      assert text == d1 + q;
    }
    WordRunAtEnd([], false, Draft(text, true), true);
  }

  /** A backslash puts the next character, unescaped, into the word, even a
      blank, a quote or an operator character. */
  lemma EscapeInWord(w1: seq<char>, c: char, w2: seq<char>)
    requires AllLiteral(w1, false) && AllLiteral(w2, false)
    ensures Tokenize(w1 + ['\\', c] + w2) == LexResult([Token(Word, w1 + [Chars.Unescape(c)] + w2)], Option.None, Done)
  {
    var s := w1 + ['\\', c] + w2;
    EscapedWord(w1, c, w2);
    assert s[0] == (if w1 == [] then '\\' else w1[0]);
    SingleWord(s, Scan(true, Draft(w1 + [Chars.Unescape(c)] + w2, true), Done));
  }

  lemma EscapedWord(w1: seq<char>, c: char, w2: seq<char>)
    requires AllLiteral(w1, false) && AllLiteral(w2, false)
    ensures ScanWord(Machine(w1 + ['\\', c] + w2, false, false), Draft("", false))
         == Scan(true, Draft(w1 + [Chars.Unescape(c)] + w2, true), Done)
  {
    var s := w1 + ['\\', c] + w2;
    assert s == w1 + (['\\', c] + w2);
    assert s[0] == (if w1 == [] then '\\' else w1[0]);
    var d := Draft("", false);
    LiteralPrefix(w1, ['\\', c] + w2, false, false, d, 0);
    assert "" + w1 == w1;
    EscapeStep(c, w2, false, false, Draft(w1, false), |w1|);
    assert w2 == w2 + [];
    LiteralPrefix(w2, [], false, false, Draft(w1 + [Chars.Unescape(c)], false), |w1| + 1);
    var text := w1 + [Chars.Unescape(c)] + w2;
    assert DirectWord(Machine(s, false, false), d) == Scan(true, Draft(text, true), Done);
    WordRunAtEnd([], false, Draft(text, true), true);
  }

  /** A backslash at the end of the input leaves `inEscape` raised and
      yields no token, even after direct characters. */
  lemma TrailingBackslash(w: seq<char>)
    requires AllLiteral(w, false)
    ensures Tokenize(w + ['\\']) == LexResult([], Option.None, Machine([], true, false))
  {
    var s := w + ['\\'];
    assert s[0] == (if w == [] then '\\' else w[0]);
    LiteralPrefix(w, ['\\'], false, false, Draft("", false), 0);
    EscapeAtEnd(false, false, Draft("" + w, false), |w|);
    WordStart(s, false, false);
  }

  /** The word scan of a plain run, a quoted segment and a final
      backslash: the word holds both runs and the escape flag is raised. */
  lemma QuotedBackslashWord(d: seq<char>, q: seq<char>)
    requires AllLiteral(d, false) && AllLiteral(q, true)
    ensures ScanWord(Machine(d + ['"'] + q + ['"'] + ['\\'], false, false), Draft("", false))
         == Scan(true, Draft(d + q, true), Machine([], true, false))
  {
    var s := d + ['"'] + q + ['"'] + ['\\'];
    var tail := ['"'] + q + ['"'] + ['\\'];
    assert s == d + tail;
    var start := Draft("", false);
    var afterFirst := Draft(d, d != []);
    if d != [] {
      assert s[0] == d[0] && Literal(d[0], false);
      WordRunDirect(d, tail, false, start, false);
      assert "" + d == d;
    } else {
      assert s == tail && afterFirst == start;
    }
    WordRunQuoted(q, ['\\'], false, afterFirst, d != []);
    var draft := Draft(d + q, true);
    EscapeAtEnd(false, false, draft, 0);
    assert WordRun(Machine(['\\'], false, false), draft, true) == Scan(true, draft, Machine([], true, false));
  }

  /** A backslash that ends the input after a quoted segment: the word read
      so far is still stored, and the escape flag is left raised. */
  lemma QuotedThenBackslash(d: seq<char>, q: seq<char>)
    requires AllLiteral(d, false) && AllLiteral(q, true)
    ensures Tokenize(d + ['"'] + q + ['"'] + ['\\'])
         == LexResult([Token(Word, d + q)], Option.None, Machine([], true, false))
  {
    var s := d + ['"'] + q + ['"'] + ['\\'];
    QuotedBackslashWord(d, q);
    assert s[0] == (if d == [] then '"' else d[0]);
    WordStart(s, false, false);
    LexStep(Machine(s, false, false), [], Token(Word, d + q), Machine([], true, false));
  }

  /** A missing closing quote leaves `inQuote` raised; the text read after
      the quote is still stored as a Word. */
  lemma UnterminatedQuote(q: seq<char>)
    requires AllLiteral(q, true)
    ensures Tokenize(['"'] + q) ==
      LexResult(if q == [] then [] else [Token(Word, q)], Option.None, Machine([], false, true))
  {
    var s := ['"'] + q;
    assert s[1..] == q && q == q + [];
    LiteralRun(q, [], false, true, Draft("", false));
    assert "" + q == q;
    WordStart(s, false, false);
    if q != [] {
      LexStep(Machine(s, false, false), [], Token(Word, q), Machine([], false, true));
    }
  }

  /** A word ends at a `#`, which starts a comment even without a blank
      before it. */
  lemma CommentEndsWord(w: seq<char>, c: seq<char>)
    requires w != [] && AllLiteral(w, false) && '\n' !in c
    ensures Tokenize(w + ['#'] + c) == LexResult([Token(Word, w)], Option.None, Done)
  {
    assert w + ['#'] + c == w + (['#'] + c);
    PlainWordToken(w, ['#'] + c, false);
    LexStep(Machine(w + ['#'] + c, false, false), [], Token(Word, w), Machine(['#'] + c, false, false));
    CommentAtEnd(c, false, false, [Token(Word, w)]);
  }

  /** isValid() after apply() can only fail when the input holds a quote or
      a backslash. */
  lemma PlainInputValid(input: seq<char>)
    requires '\\' !in input && '"' !in input
    ensures !Tokenize(input).m.inEscape && !Tokenize(input).m.inQuote
  {
    PlainLex(Machine(input, false, false), []);
  }
}
