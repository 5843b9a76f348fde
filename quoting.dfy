/** When the tree-design tokenizer ends valid.  `Balanced` reads the text
    from left to right with a five-state automaton that knows nothing of
    tokens: plain text, quoted text, a comment running to the end of its
    line, and a backslash about to escape the next character in plain or
    quoted text.  A run of the tokenizer leaves both flags lowered exactly
    when the automaton ends in plain text or in a comment, unless the run
    was cut short by a lone `&` or `|`; such a run always ends with both
    flags lowered. */
module Quoting {
  import opened Wrappers
  import opened Scanner
  import opened Lexer
  import opened Tokens
  import Chars

  datatype Mode = Plain | Quoted | Comment | EscapedPlain | EscapedQuoted

  /** One character of the reading: a backslash escapes whatever follows in
      plain and in quoted text, a quote opens or closes quoted text, and a
      `#` in plain text starts a comment that a line feed ends. */
  function Next(mode: Mode, c: char): Mode
  {
    match mode
    case Plain => if c == '\\' then EscapedPlain else if c == '"' then Quoted else if c == '#' then Comment else Plain
    case Quoted => if c == '\\' then EscapedQuoted else if c == '"' then Plain else Quoted
    case Comment => if c == '\n' then Plain else Comment
    case EscapedPlain => Plain
    case EscapedQuoted => Quoted
  }

  /** The mode reached after reading all of `s` from `mode`. */
  function Settle(mode: Mode, s: seq<char>): Mode
    decreases |s|
  {
    if s == [] then mode else Settle(Next(mode, s[0]), s[1..])
  }

  /** The modes in which the text may end. */
  predicate Closed(mode: Mode)
  {
    mode == Plain || mode == Comment
  }

  /** Every quote is closed and no backslash is left without a character
      to escape. */
  predicate Balanced(input: seq<char>)
  {
    Closed(Settle(Plain, input))
  }

  /** The mode that a machine's two flags stand for. */
  function ModeOf(m: Machine): (r: Mode)
    ensures r == Plain <==> !m.inEscape && !m.inQuote
    ensures r != Comment
  {
    if m.inEscape then (if m.inQuote then EscapedQuoted else EscapedPlain)
    else if m.inQuote then Quoted else Plain
  }

  /** The mode reached once the machine's remaining input is read. */
  function Pending(m: Machine): Mode
  {
    Settle(ModeOf(m), m.rest)
  }

  /** The direct-word loop reads its characters as the automaton does: a
      literal leaves the mode alone, an escape pair passes through an
      escaped mode and back, and a backslash at the end of the input leaves
      the escaped mode that the raised `inEscape` stands for. */
  lemma {:induction false} DirectRunSettles(m: Machine, d: Draft, count: nat)
    requires m.inEscape ==> m.rest == []
    ensures Pending(DirectRun(m, d, count).m) == Pending(m)
    decreases |m.rest|
  {
    if IsDirect(Peek(m.rest), m.inQuote) {
      if m.rest[0] == '\\' {
        if |m.rest| >= 2 {
          EscapedStep(m, d, count);
          var n := Machine(m.rest[2..], false, m.inQuote);
          assert m.rest[1..][1..] == m.rest[2..];
          assert Pending(m) == Settle(Next(ModeOf(m), '\\'), m.rest[1..]);
          assert Pending(m) == Settle(ModeOf(n), m.rest[1..][1..]);
          DirectRunSettles(n, d.(text := d.text + [Chars.Unescape(m.rest[1])]), count + 1);
        } else {
          assert m.rest[1..] == [];
        }
      } else {
        var n := m.(rest := m.rest[1..]);
        assert Next(ModeOf(m), m.rest[0]) == ModeOf(n);
        DirectRunSettles(n, d.(text := d.text + [m.rest[0]]), count + 1);
      }
    }
  }

  /** The quoted-word helper: the opening quote enters quoted text, the
      closing quote leaves it. */
  lemma QuoteWordSettles(m: Machine, d: Draft)
    requires Sane(m)
    ensures Pending(QuoteWord(m, d).m) == Pending(m)
  {
    if Peek(m.rest) == Some('"') {
      var inner := m.(rest := m.rest[1..], inQuote := true);
      assert Pending(inner) == Pending(m);
      DirectRunSettles(inner, d, 0);
    }
  }

  lemma {:induction false} WordRunSettles(m: Machine, d: Draft, result: bool)
    requires Sane(m)
    ensures Pending(WordRun(m, d, result).m) == Pending(m)
    decreases |m.rest|
  {
    var s := DirectWord(m, d);
    DirectRunSettles(m, d, 0);
    if s.found {
      WordRunSettles(s.m, s.draft, true);
    } else {
      QuoteWordSettles(s.m, s.draft);
      var q := QuoteWord(s.m, s.draft);
      if q.found {
        WordRunSettles(q.m, q.draft, true);
      }
    }
  }

  /** Blanks are plain text. */
  lemma {:induction false} SkipSpaceSettles(s: seq<char>)
    ensures Settle(Plain, Chars.SkipSpace(s)) == Settle(Plain, s)
  {
    if s != [] && Chars.IsSpace(s[0]) {
      SkipSpaceSettles(s[1..]);
    }
  }

  /** A comment read to its line feed returns to plain text; one that runs
      to the end of the input ends in a mode that is closed as well. */
  lemma {:induction false} CommentSettles(t: seq<char>)
    ensures Closed(Settle(Comment, t)) <==> Closed(Settle(Plain, LineRest(t)))
  {
    if t != [] && t[0] != '\n' {
      CommentSettles(t[1..]);
    }
  }

  /** Skipping blanks and comments keeps whether the text is balanced. */
  lemma {:induction false} SkipBlanksSettles(s: seq<char>)
    ensures Closed(Settle(Plain, SkipBlanks(s))) <==> Closed(Settle(Plain, s))
    decreases |s|
  {
    var t := Chars.SkipSpace(s);
    SkipSpaceSettles(s);
    match SkipComment(t)
    case None =>
    case Some(after) =>
      assert after == LineRest(t[1..]);
      CommentSettles(t[1..]);
      SkipBlanksSettles(after);
  }

  /** One call of next() keeps whether the remaining text is balanced; an
      exception leaves both flags lowered. */
  lemma NextTokenSettles(m: Machine)
    requires Sane(m)
    ensures NextToken(m).Lexed? ==> (Closed(Pending(NextToken(m).m)) <==> Closed(Pending(m)))
    ensures NextToken(m).Failed? ==> ModeOf(NextToken(m).m) == Plain
  {
    if !m.inEscape && !m.inQuote {
      var rest := SkipBlanks(m.rest);
      SkipBlanksSettles(m.rest);
      if rest != [] {
        var start := m.(rest := rest);
        var r := TokenAt(start);
        if r.Lexed? && r.token.kind == Sequence {
          assert r.m.rest == rest[1..];
        } else if r.Lexed? && (r.token.kind == Conjunction || r.token.kind == Disjunction) {
          assert r.m.rest == rest[2..] && rest[1..][1..] == rest[2..];
        } else if r.Lexed? {
          WordRunSettles(start, Draft("", false), false);
        }
      }
    }
  }

  lemma {:induction false} LexSettles(m: Machine, tokens: seq<Token>)
    requires Sane(m)
    ensures Lex(m, tokens).error.None? ==> (Closed(Pending(m)) <==> ModeOf(Lex(m, tokens).m) == Plain)
    ensures Lex(m, tokens).error.Some? ==> ModeOf(Lex(m, tokens).m) == Plain
    decreases |m.rest|
  {
    NextTokenSettles(m);
    match NextToken(m)
    case Failed(_, _) =>
    case Lexed(token, after) =>
      if token.kind != TokenType.None {
        LexSettles(after, tokens + [token]);
      }
  }

  /** isValid() after apply(): balanced text always leaves both flags
      lowered, and a run that ends without an exception leaves them lowered
      only over balanced text. */
  lemma BalancedValid(input: seq<char>)
    ensures Balanced(input) ==> !Tokenize(input).m.inEscape && !Tokenize(input).m.inQuote
    ensures Tokenize(input).error.None? && !Tokenize(input).m.inEscape && !Tokenize(input).m.inQuote
      ==> Balanced(input)
  {
    LexSettles(Machine(input, false, false), []);
  }

  /** The exception matters: `& "` is not balanced, yet the run stops at
      the lone `&` with both flags lowered. */
  lemma CutShort()
    ensures !Balanced("& \"")
    ensures Tokenize("& \"").error.Some? && !Tokenize("& \"").m.inEscape && !Tokenize("& \"").m.inQuote
  {
    assert Settle(Plain, "& \"") == Settle(Plain, " \"");
    assert Settle(Plain, " \"") == Settle(Plain, "\"");
    assert Settle(Plain, "\"") == Quoted;
    assert Chars.SkipSpace("& \"") == "& \"";
    assert SkipBlanks("& \"") == "& \"";
  }
}
