/** The tokenizer of the tree-design shell (src/Tokenizer.cpp).  Before each
    token it skips white space and any number of comments; a lexing run stops
    at the end of the input or at the first lone `&` or `|`. */
module Lexer {
  import opened Wrappers
  import opened Tokens
  import opened Scanner
  import Chars

  /** next(): the token read (a None token at the end of the input) or the
      exception thrown, together with the new machine state. */
  datatype Lexed = Lexed(token: Token, m: Machine) | Failed(message: string, m: Machine)

  /** apply(): the tokens stored, the exception that ended the run if any,
      and the final machine state. */
  datatype LexResult = LexResult(tokens: seq<Token>, error: Option<string>, m: Machine)

  /** The kinds of token the lexer ever stores. */
  predicate Lexical(t: Token)
  {
    t.kind == Word || t.kind == Sequence || t.kind == Conjunction || t.kind == Disjunction
  }

  /** The part of a token the word helpers read and write. */
  function AsDraft(t: Token): Draft
  {
    Draft(t.text, t.kind == Word)
  }

  /** The token `t` after a word helper has left it as `d`. */
  function Typed(t: Token, d: Draft): Token
  {
    if d.isWord then Token(Word, d.text) else t.(text := d.text)
  }

  /** The `do { >> std::ws } while (ignoreComment())` loop of next(). */
  function SkipBlanks(s: seq<char>): (r: seq<char>)
    ensures |r| <= |s|
    ensures r == [] || (!Chars.IsSpace(r[0]) && r[0] != '#')
    decreases |s|
  {
    var t := Chars.SkipSpace(s);
    match SkipComment(t)
    case None => t
    case Some(after) => SkipBlanks(after)
  }

  /** next(): skip blanks and comments, then try a sequence, conjunction,
      disjunction and word token in that order.  The token is returned even
      when nextWord failed after setting its type, as an unterminated quote
      does. */
  function NextToken(m: Machine): (r: Lexed)
    ensures r.Lexed? && r.token.kind != TokenType.None ==> |r.m.rest| < |m.rest| && Lexical(r.token)
    ensures r.Lexed? && r.token.kind == Sequence ==> r.token.text == ";"
    ensures r.Lexed? && r.token.kind == Conjunction ==> r.token.text == "&&"
    ensures r.Lexed? && r.token.kind == Disjunction ==> r.token.text == "||"
    ensures r.Failed? ==> (r.message == "unexpected &" || r.message == "unexpected |") && |r.m.rest| < |m.rest|
    ensures Sane(m) ==> Sane(r.m)
    ensures Sane(m) && r.Lexed? && r.token.kind == TokenType.None ==> r.m.rest == []
  {
    var rest := SkipBlanks(m.rest);
    if rest == [] then Lexed(Token(TokenType.None, ""), m.(rest := rest))
    else TokenAt(m.(rest := rest))
  }

  /** The operator and word helpers of next(), tried in order once the blanks
      are skipped. */
  function TokenAt(start: Machine): (r: Lexed)
  {
    var sequence := Operator(start.rest, ';', false);
    if sequence.Symbol? then Lexed(Token(Sequence, sequence.text), start.(rest := sequence.rest))
    else ConjunctionAt(start)
  }

  /** What next() tries once no sequence operator is found. */
  function ConjunctionAt(start: Machine): (r: Lexed)
  {
    var conjunction := Operator(start.rest, '&', true);
    if conjunction.Symbol? then Lexed(Token(Conjunction, conjunction.text), start.(rest := conjunction.rest))
    else if conjunction.Unexpected? then Failed(conjunction.message, start.(rest := conjunction.rest))
    else DisjunctionAt(start)
  }

  /** What next() tries once no `&` is found either. */
  function DisjunctionAt(start: Machine): (r: Lexed)
  {
    var disjunction := Operator(start.rest, '|', true);
    if disjunction.Symbol? then Lexed(Token(Disjunction, disjunction.text), start.(rest := disjunction.rest))
    else if disjunction.Unexpected? then Failed(disjunction.message, start.(rest := disjunction.rest))
    else WordAt(start)
  }

  /** The word helpers, tried last. */
  function WordAt(start: Machine): (r: Lexed)
  {
    var w := ScanWord(start, Draft("", false));
    Lexed(Typed(Token(TokenType.None, ""), w.draft), w.m)
  }

  /** The loop of apply(): store tokens until a None token; an exception
      ends the run with the tokens stored so far. */
  function Lex(m: Machine, tokens: seq<Token>): (r: LexResult)
    decreases |m.rest|
  {
    match NextToken(m)
    case Failed(message, after) => LexResult(tokens, Some(message), after)
    case Lexed(token, after) =>
      if token.kind == TokenType.None then LexResult(tokens, Option.None, after)
      else Lex(after, tokens + [token])
  }

  /** A run only appends to the tokens, stores no None token (nor any scope
      token), keeps a reachable machine reachable, and stops early only on
      an exception: without one it has consumed the whole input. */
  lemma {:induction false} LexInvariants(m: Machine, tokens: seq<Token>)
    ensures var r := Lex(m, tokens);
      && tokens <= r.tokens
      && (forall i :: |tokens| <= i < |r.tokens| ==> Lexical(r.tokens[i]))
      && (Sane(m) ==> Sane(r.m))
      && (Sane(m) && r.error.None? ==> r.m.rest == [])
    decreases |m.rest|
  {
    match NextToken(m)
    case Failed(_, _) =>
    case Lexed(token, after) =>
      if token.kind != TokenType.None {
        LexInvariants(after, tokens + [token]);
      }
  }

  lemma {:induction false} SkipBlanksSuffix(s: seq<char>)
    ensures IsSuffix(SkipBlanks(s), s)
    decreases |s|
  {
    var t := Chars.SkipSpace(s);
    SkipSpaceSuffix(s);
    match SkipComment(t)
    case None =>
    case Some(after) =>
      LineRestSuffix(t);
      SkipBlanksSuffix(after);
      SuffixTransitive(SkipBlanks(after), after, t);
      SuffixTransitive(SkipBlanks(after), t, s);
  }

  /** next() only reads from the front of the input. */
  lemma NextTokenSuffix(m: Machine)
    ensures IsSuffix(NextToken(m).m.rest, m.rest)
  {
    var rest := SkipBlanks(m.rest);
    SkipBlanksSuffix(m.rest);
    if rest != [] {
      TokenAtSuffix(m.(rest := rest));
      SuffixTransitive(NextToken(m).m.rest, rest, m.rest);
    }
  }

  /** The operator and word helpers only read from the front of the input. */
  lemma TokenAtSuffix(start: Machine)
    ensures IsSuffix(TokenAt(start).m.rest, start.rest)
  {
    OperatorSuffix(start.rest, ';', false);
    OperatorSuffix(start.rest, '&', true);
    OperatorSuffix(start.rest, '|', true);
    WordRunSuffix(start, Draft("", false), false);
  }

  /** Over input with neither a backslash nor a quote, next() leaves both
      flags as they were. */
  lemma PlainNextToken(m: Machine)
    requires '\\' !in m.rest && '"' !in m.rest
    ensures NextToken(m).m.inEscape == m.inEscape && NextToken(m).m.inQuote == m.inQuote
  {
    var rest := SkipBlanks(m.rest);
    SkipBlanksSuffix(m.rest);
    if rest != [] {
      SuffixAvoids(rest, m.rest, '\\');
      SuffixAvoids(rest, m.rest, '"');
      PlainWordRun(m.(rest := rest), Draft("", false), false);
    }
  }

  lemma {:induction false} PlainLex(m: Machine, tokens: seq<Token>)
    requires '\\' !in m.rest && '"' !in m.rest
    ensures Lex(m, tokens).m.inEscape == m.inEscape && Lex(m, tokens).m.inQuote == m.inQuote
    decreases |m.rest|
  {
    PlainNextToken(m);
    match NextToken(m)
    case Failed(_, _) =>
    case Lexed(token, after) =>
      if token.kind != TokenType.None {
        NextTokenSuffix(m);
        SuffixAvoids(after.rest, m.rest, '\\');
        SuffixAvoids(after.rest, m.rest, '"');
        PlainLex(after, tokens + [token]);
      }
  }

  /** A fresh tokenizer over `input`, applied once. */
  function Tokenize(input: seq<char>): LexResult
  {
    Lex(Machine(input, false, false), [])
  }

  /** The Tokenizer object: a cursor `pos` into `input`, the tokens stored so
      far and the two flags.  `scopeLevel` is declared but never updated. */
  class Tokenizer {
    const input: seq<char>
    var pos: nat
    var tokens: seq<Token>
    var inEscape: bool
    var inQuote: bool
    var scopeLevel: int

    predicate Valid()
      reads this
    {
      pos <= |input| && scopeLevel == 0
    }

    constructor (input: seq<char>)
      ensures Valid() && this.input == input && pos == 0 && tokens == []
      ensures !inEscape && !inQuote
    {
      this.input := input;
      pos := 0;
      tokens := [];
      inEscape := false;
      inQuote := false;
      scopeLevel := 0;
    }

    /** The unread input. */
    function Rest(): seq<char>
      reads this
      requires Valid()
    {
      input[pos..]
    }

    function State(): Machine
      reads this
      requires Valid()
    {
      Machine(Rest(), inEscape, inQuote)
    }

    function PeekChar(): Option<char>
      reads this
      requires Valid()
    {
      Peek(Rest())
    }

    /** isValid(): the run ended outside an escape and outside a quote. */
    function IsValid(): (r: bool)
      reads this
      ensures r <==> !inEscape && !inQuote
    {
      !(inEscape || inQuote)
    }

    /** inScope(): the scope level is never raised, so this never holds. */
    function InScope(): (r: bool)
      reads this
      requires Valid()
      ensures !r
    {
      scopeLevel > 0
    }

    /** apply(): next() is called until it returns a None token; an
        exception from next() ends the run. */
    method Apply() returns (error: Option<string>)
      requires Valid()
      modifies this
      ensures Valid()
      ensures LexResult(tokens, error, State()) == Lex(old(State()), old(tokens))
    {
      while true
        invariant Valid() && Lex(State(), tokens) == Lex(old(State()), old(tokens))
        decreases |input| - pos
      {
        ghost var before := State();
        var token;
        token, error := Next();
        if error.Some? || token.kind == TokenType.None {
          return;
        }
        tokens := tokens + [token];
      }
    }

    /** next() */
    method Next() returns (token: Token, error: Option<string>)
      requires Valid()
      modifies this
      ensures Valid() && tokens == old(tokens)
      ensures NextToken(old(State())) == (if error.Some? then Failed(error.value, State()) else Lexed(token, State()))
    {
      token := Token(TokenType.None, "");
      error := Option.None;
      var more := SkipBlanksAndComments();
      if !more {
        return;
      }
      assert NextToken(old(State())) == TokenAt(State());
      token, error := ReadToken();
    }

    /** The helpers of next() tried in order: sequence, conjunction,
        disjunction, word. */
    method ReadToken() returns (token: Token, error: Option<string>)
      requires Valid()
      modifies this
      ensures Valid() && tokens == old(tokens)
      ensures TokenAt(old(State())) == (if error.Some? then Failed(error.value, State()) else Lexed(token, State()))
    {
      error := Option.None;
      var found;
      found, token := NextSequence(Token(TokenType.None, ""));
      if !found {
        token, error := ReadConjunction();
      }
    }

    /** The helpers after the sequence one: conjunction, disjunction, word. */
    method ReadConjunction() returns (token: Token, error: Option<string>)
      requires Valid()
      modifies this
      ensures Valid() && tokens == old(tokens)
      ensures ConjunctionAt(old(State())) == (if error.Some? then Failed(error.value, State()) else Lexed(token, State()))
    {
      var found;
      found, token, error := NextConjunction(Token(TokenType.None, ""));
      if !found && error.None? {
        token, error := ReadDisjunction();
      }
    }

    /** The helpers after the conjunction one: disjunction, word. */
    method ReadDisjunction() returns (token: Token, error: Option<string>)
      requires Valid()
      modifies this
      ensures Valid() && tokens == old(tokens)
      ensures DisjunctionAt(old(State())) == (if error.Some? then Failed(error.value, State()) else Lexed(token, State()))
    {
      var found;
      found, token, error := NextDisjunction(Token(TokenType.None, ""));
      if !found && error.None? {
        found, token := NextWord(token);
      }
    }

    /** The opening loop of next(): white space is skipped, then a comment,
        for as long as there is a comment.  Returns false where next()
        returns its None token because the input is exhausted. */
    method SkipBlanksAndComments() returns (more: bool)
      requires Valid()
      modifies this
      ensures Valid() && tokens == old(tokens)
      ensures inEscape == old(inEscape) && inQuote == old(inQuote)
      ensures Rest() == SkipBlanks(old(Rest()))
      ensures more <==> Rest() != []
    {
      while true
        invariant Valid() && tokens == old(tokens)
        invariant inEscape == old(inEscape) && inQuote == old(inQuote)
        invariant SkipBlanks(Rest()) == SkipBlanks(old(Rest()))
        decreases |input| - pos
      {
        ghost var line := Rest();
        while pos < |input| && Chars.IsSpace(input[pos])
          invariant Valid() && tokens == old(tokens) && Chars.SkipSpace(Rest()) == Chars.SkipSpace(line)
          invariant inEscape == old(inEscape) && inQuote == old(inQuote)
          decreases |input| - pos
        {
          pos := pos + 1;
        }
        assert Rest() == Chars.SkipSpace(line);
        if pos == |input| {
          return false;
        }
        var comment := IgnoreComment();
        if !comment {
          return true;
        }
      }
    }

    /** ignoreComment() */
    method IgnoreComment() returns (found: bool)
      requires Valid()
      modifies this
      ensures Valid() && tokens == old(tokens)
      ensures inEscape == old(inEscape) && inQuote == old(inQuote)
      ensures SkipComment(old(Rest())) == (if found then Some(Rest()) else Option.None)
      ensures !found ==> pos == old(pos)
    {
      if PeekChar() != Some('#') {
        return false;
      }
      ghost var after := LineRest(input[pos..]);
      var i, reading := pos, true;
      while reading && i < |input|
        invariant pos <= i <= |input|
        invariant reading ==> LineRest(input[i..]) == after
        invariant !reading ==> input[i..] == after
        decreases |input| - i
      {
        var c := input[i];
        assert input[i..][1..] == input[i + 1..];
        i := i + 1;
        reading := c != '\n';
      }
      pos := i;
      return true;
    }

    /** nextSequence() */
    method NextSequence(token: Token) returns (found: bool, result: Token)
      requires Valid()
      modifies this
      ensures Valid() && tokens == old(tokens)
      ensures inEscape == old(inEscape) && inQuote == old(inQuote)
      ensures var o := Operator(old(Rest()), ';', false);
        found == o.Symbol? &&
        (found ==> result == Token(Sequence, token.text + o.text) && Rest() == o.rest) &&
        (!found ==> result == token && pos == old(pos))
    {
      if PeekChar() != Some(';') {
        return false, token;
      }
      result := Token(Sequence, token.text + [input[pos]]);
      pos := pos + 1;
      return true, result;
    }

    /** nextConjunction() */
    method NextConjunction(token: Token) returns (found: bool, result: Token, error: Option<string>)
      requires Valid()
      modifies this
      ensures Valid() && tokens == old(tokens)
      ensures inEscape == old(inEscape) && inQuote == old(inQuote)
      ensures var o := Operator(old(Rest()), '&', true);
        found == o.Symbol? && error.Some? == o.Unexpected? &&
        (o.Symbol? ==> result == Token(Conjunction, token.text + o.text) && Rest() == o.rest) &&
        (o.Unexpected? ==> error == Some(o.message) && Rest() == o.rest) &&
        (o.NoSymbol? ==> result == token && pos == old(pos))
    {
      if PeekChar() != Some('&') {
        return false, token, Option.None;
      }
      result := token.(text := token.text + [input[pos]]);
      pos := pos + 1;
      if PeekChar() != Some('&') {
        assert "unexpected " + ['&'] == "unexpected &";
        return false, result, Some("unexpected &");
      }
      result := Token(Conjunction, result.text + [input[pos]]);
      pos := pos + 1;
      return true, result, Option.None;
    }

    /** nextDisjunction() */
    method NextDisjunction(token: Token) returns (found: bool, result: Token, error: Option<string>)
      requires Valid()
      modifies this
      ensures Valid() && tokens == old(tokens)
      ensures inEscape == old(inEscape) && inQuote == old(inQuote)
      ensures var o := Operator(old(Rest()), '|', true);
        found == o.Symbol? && error.Some? == o.Unexpected? &&
        (o.Symbol? ==> result == Token(Disjunction, token.text + o.text) && Rest() == o.rest) &&
        (o.Unexpected? ==> error == Some(o.message) && Rest() == o.rest) &&
        (o.NoSymbol? ==> result == token && pos == old(pos))
    {
      if PeekChar() != Some('|') {
        return false, token, Option.None;
      }
      result := token.(text := token.text + [input[pos]]);
      pos := pos + 1;
      if PeekChar() != Some('|') {
        assert "unexpected " + ['|'] == "unexpected |";
        return false, result, Some("unexpected |");
      }
      result := Token(Disjunction, result.text + [input[pos]]);
      pos := pos + 1;
      return true, result, Option.None;
    }

    /** nextWord() */
    method NextWord(token: Token) returns (found: bool, result: Token)
      requires Valid()
      modifies this
      ensures Valid() && tokens == old(tokens)
      ensures var s := ScanWord(old(State()), AsDraft(token));
        found == s.found && result == Typed(token, s.draft) && State() == s.m
    {
      found := false;
      result := token;
      while true
        invariant Valid() && tokens == old(tokens)
        invariant WordRun(State(), AsDraft(result), found) == ScanWord(old(State()), AsDraft(token))
        invariant result == Typed(token, AsDraft(result))
        invariant found ==> result.kind == Word
        decreases |input| - pos
      {
        var direct;
        direct, result := NextDirectWord(result);
        if !direct {
          var quoted;
          quoted, result := NextQuoteWord(result);
          if !quoted {
            break;
          }
        }
        found := true;
      }
    }

    /** nextDirectWord() */
    method NextDirectWord(token: Token) returns (found: bool, result: Token)
      requires Valid()
      modifies this
      ensures Valid() && tokens == old(tokens)
      ensures var s := DirectWord(old(State()), AsDraft(token));
        found == s.found && result == Typed(token, s.draft) && State() == s.m
    {
      ghost var goal := DirectWord(State(), AsDraft(token));
      ghost var isWord := token.kind == Word;
      var count: nat := 0;
      var text := token.text;
      var complete := true;
      while complete && IsDirect(PeekChar(), inQuote)
        invariant Valid() && tokens == old(tokens) && inQuote == old(inQuote)
        invariant complete ==> DirectRun(State(), Draft(text, isWord), count) == goal
        invariant !complete ==> goal == Scan(false, Draft(text, isWord), State())
        decreases |input| - pos
      {
        complete, text := DirectCharacter(text, count, isWord);
        if complete {
          count := count + 1;
        }
      }
      if complete {
        DirectStop(State(), Draft(text, isWord), count);
      }
      if !complete || count == 0 {
        found, result := false, token.(text := text);
      } else {
        found, result := true, Token(Word, text);
      }
    }

    /** The body of nextDirectWord()'s loop: one character, or a backslash
        and the character it escapes, appended to `text`.  Returns false
        where the backslash is the last character of the input. */
    method DirectCharacter(text: string, count: nat, ghost isWord: bool) returns (complete: bool, text': string)
      requires Valid() && IsDirect(PeekChar(), inQuote)
      modifies this
      ensures Valid() && tokens == old(tokens) && inQuote == old(inQuote)
      ensures pos > old(pos)
      ensures complete ==> DirectRun(old(State()), Draft(text, isWord), count) == DirectRun(State(), Draft(text', isWord), count + 1)
      ensures !complete ==> text' == text
      ensures !complete ==> DirectRun(old(State()), Draft(text, isWord), count) == Scan(false, Draft(text, isWord), State())
    {
      ghost var m := State();
      var c := input[pos];
      if c == '\\' {
        if pos + 1 == |input| {
          assert m.rest == ['\\'];
          inEscape := true;
          pos := pos + 1;
          return false, text;
        }
        EscapedStep(m, Draft(text, isWord), count);
        assert m.rest[1] == input[pos + 1] && m.rest[2..] == input[pos + 2..];
        inEscape := true;
        text' := text + [Chars.Unescape(input[pos + 1])];
        inEscape := false;
        pos := pos + 2;
      } else {
        assert m.rest[1..] == input[pos + 1..];
        text' := text + [c];
        pos := pos + 1;
      }
      return true, text';
    }

    /** nextQuoteWord() */
    method NextQuoteWord(token: Token) returns (found: bool, result: Token)
      requires Valid()
      modifies this
      ensures Valid() && tokens == old(tokens)
      ensures var s := QuoteWord(old(State()), AsDraft(token));
        found == s.found && result == Typed(token, s.draft) && State() == s.m
    {
      if PeekChar() != Some('"') {
        return false, token;
      }
      inQuote := true;
      pos := pos + 1;
      var _, t := NextDirectWord(token);
      result := t;
      if PeekChar() != Some('"') {
        return false, result;
      }
      inQuote := false;
      pos := pos + 1;
      result := result.(kind := Word);
      return true, result;
    }
  }
}
