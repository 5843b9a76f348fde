/** The character-level machinery that the two tokenizers share: the
    `isDirect` test, the direct-word and quoted-word loops, comment skipping
    and the one- and two-character operators.

    The input stream is the remaining input `rest`; `peek()` at the end of
    the input yields EOF, modelled as `None`.  The state the helpers change is
    a `Machine`: the remaining input plus the `_inEscape` and `_inQuote`
    flags.  The token a helper writes into is a `Draft`: its text so far and
    whether its type has been set to Word (the helpers never set any other
    type). */
module Scanner {
  import opened Wrappers
  import Chars

  datatype Machine = Machine(rest: seq<char>, inEscape: bool, inQuote: bool)

  datatype Draft = Draft(text: string, isWord: bool)

  /** The outcome of a `bool next...(Token&)` helper: what it returned, the
      token it wrote into and the new machine state. */
  datatype Scan = Scan(found: bool, draft: Draft, m: Machine)

  /** The outcome of an operator helper: no operator here (nothing
      consumed), an operator with its text, or the exception thrown for a
      lone `&` or `|` (after consuming it). */
  datatype Symbol = NoSymbol | Symbol(text: string, rest: seq<char>) | Unexpected(message: string, rest: seq<char>)

  function Peek(rest: seq<char>): Option<char>
  {
    if rest == [] then None else Some(rest[0])
  }

  /** Characters that end a direct word outside quotes. */
  predicate IsSeparator(c: char)
  {
    Chars.IsSpace(c) || c == '#' || c == ';' || c == '&' || c == '|'
  }

  /** A reachable machine: a flag stays raised only once the input is
      exhausted. */
  predicate Sane(m: Machine)
  {
    (m.inEscape || m.inQuote) ==> m.rest == []
  }

  /** isDirect: whether the peeked character continues a direct word. */
  predicate IsDirect(c: Option<char>, inQuote: bool)
  {
    if c.None? || c.value == '"' then false
    else if !inQuote && IsSeparator(c.value) then false
    else true
  }

  /** The loop of nextDirectWord, with `count` characters already taken.  A
      backslash takes the next character through Unescape whatever it is;
      a backslash at the end of the input leaves `inEscape` raised and makes
      the helper fail without setting the token type. */
  function DirectRun(m: Machine, d: Draft, count: nat): (r: Scan)
    ensures |r.m.rest| <= |m.rest| && r.m.inQuote == m.inQuote
    ensures r.m.rest == [] || !IsDirect(Peek(r.m.rest), m.inQuote)
    ensures r.found ==> r.draft.isWord && (count > 0 || |r.m.rest| < |m.rest|)
    ensures !r.found ==> r.draft.isWord == d.isWord
    ensures !r.found ==> r.m.rest == [] || (count == 0 && r.m == m && r.draft == d)
    ensures d.isWord ==> r.draft.isWord
    ensures r.m.inEscape && !m.inEscape ==> r.m.rest == [] && !r.found
    decreases |m.rest|
  {
    if !IsDirect(Peek(m.rest), m.inQuote) then
      if count == 0 then Scan(false, d, m) else Scan(true, d.(isWord := true), m)
    else if m.rest[0] == '\\' then
      var escaped := m.(rest := m.rest[1..], inEscape := true);
      if escaped.rest == [] then Scan(false, d, escaped)
      else
        DirectRun(escaped.(rest := escaped.rest[1..], inEscape := false),
                  d.(text := d.text + [Chars.Unescape(escaped.rest[0])]), count + 1)
    else
      DirectRun(m.(rest := m.rest[1..]), d.(text := d.text + [m.rest[0]]), count + 1)
  }

  /** One step of the direct-word loop, by the character read: a backslash
      at the end of the input, a backslash and the character it escapes, or
      any other character. */
  lemma DirectStep(m: Machine, d: Draft, count: nat)
    requires IsDirect(Peek(m.rest), m.inQuote)
    ensures m.rest == ['\\'] ==> DirectRun(m, d, count) == Scan(false, d, Machine([], true, m.inQuote))
    ensures m.rest[0] == '\\' && |m.rest| >= 2 ==> (DirectRun(m, d, count) ==
      DirectRun(Machine(m.rest[2..], false, m.inQuote), d.(text := d.text + [Chars.Unescape(m.rest[1])]), count + 1))
    ensures m.rest[0] != '\\' ==> (DirectRun(m, d, count) ==
      DirectRun(m.(rest := m.rest[1..]), d.(text := d.text + [m.rest[0]]), count + 1))
  {
    if m.rest[0] == '\\' && |m.rest| >= 2 {
      EscapedStep(m, d, count);
    }
  }

  /** The step over a backslash and the character it escapes. */
  lemma EscapedStep(m: Machine, d: Draft, count: nat)
    requires IsDirect(Peek(m.rest), m.inQuote) && |m.rest| >= 2 && m.rest[0] == '\\'
    ensures DirectRun(m, d, count) ==
      DirectRun(Machine(m.rest[2..], false, m.inQuote), d.(text := d.text + [Chars.Unescape(m.rest[1])]), count + 1)
  {
    assert m.rest[1..][1..] == m.rest[2..];
  }

  /** Where the loop stops: the helper fails if it took nothing, and
      otherwise sets the token type to Word. */
  lemma DirectStop(m: Machine, d: Draft, count: nat)
    requires !IsDirect(Peek(m.rest), m.inQuote)
    ensures DirectRun(m, d, count) == if count == 0 then Scan(false, d, m) else Scan(true, d.(isWord := true), m)
  {
  }

  /** nextDirectWord. */
  function DirectWord(m: Machine, d: Draft): (r: Scan)
  {
    DirectRun(m, d, 0)
  }

  /** nextQuoteWord: an opening quote, a direct word read with `inQuote`
      raised, and the closing quote.  Without the closing quote the helper
      fails with `inQuote` still raised. */
  function QuoteWord(m: Machine, d: Draft): (r: Scan)
    ensures |r.m.rest| <= |m.rest|
    ensures r.found ==> |r.m.rest| < |m.rest| && r.draft.isWord && !r.m.inQuote
    ensures !r.found ==> r.m.rest == [] || (r.m == m && r.draft == d)
    ensures d.isWord ==> r.draft.isWord
    ensures Peek(m.rest) != Some('"') ==> r == Scan(false, d, m)
    ensures Peek(m.rest) == Some('"') && !r.found ==> r.m.inQuote && r.m.rest == []
    ensures r.m.inEscape && !m.inEscape ==> r.m.rest == [] && !r.found
  {
    if Peek(m.rest) != Some('"') then Scan(false, d, m)
    else
      var s := DirectRun(m.(rest := m.rest[1..], inQuote := true), d, 0);
      if Peek(s.m.rest) != Some('"') then Scan(false, s.draft, s.m)
      else Scan(true, s.draft.(isWord := true), s.m.(rest := s.m.rest[1..], inQuote := false))
  }

  /** The loop of nextWord: direct and quoted segments are read for as long
      as one of them succeeds; `result` records whether one has. */
  function WordRun(m: Machine, d: Draft, result: bool): (r: Scan)
    ensures |r.m.rest| <= |m.rest|
    ensures result ==> r.found
    ensures r.found ==> result || |r.m.rest| < |m.rest|
    ensures r.found && (result ==> d.isWord) ==> r.draft.isWord
    ensures d.isWord ==> r.draft.isWord
    ensures r.draft.isWord ==> d.isWord || |r.m.rest| < |m.rest|
    ensures !r.found ==> r.m.rest == [] || (r.m == m && r.draft == d)
    ensures Sane(m) ==> Sane(r.m)
    ensures Sane(m) ==> r.m.rest == [] || IsSeparator(r.m.rest[0])
    decreases |m.rest|
  {
    var s := DirectWord(m, d);
    if s.found then WordRun(s.m, s.draft, true)
    else
      var q := QuoteWord(s.m, s.draft);
      if q.found then WordRun(q.m, q.draft, true)
      else Scan(result, q.draft, q.m)
  }

  /** nextWord. */
  function ScanWord(m: Machine, d: Draft): (r: Scan)
  {
    WordRun(m, d, false)
  }

  /** The input after the current line: everything after the first line
      feed, or nothing when there is none. */
  function LineRest(s: seq<char>): (r: seq<char>)
    ensures |r| < |s| || s == []
    ensures '\n' !in s ==> r == []
  {
    if s == [] then [] else if s[0] == '\n' then s[1..] else LineRest(s[1..])
  }

  /** ignoreComment: None when the input does not start with `#`, and the
      rest of the input after the comment's line otherwise. */
  function SkipComment(s: seq<char>): (r: Option<seq<char>>)
    ensures r.Some? <==> Peek(s) == Some('#')
    ensures r.Some? ==> |r.value| < |s|
  {
    if Peek(s) != Some('#') then None else Some(LineRest(s))
  }

  /** nextSequence (`doubled` false) and nextConjunction / nextDisjunction
      (`doubled` true) for the operator character `c`. */
  function Operator(s: seq<char>, c: char, doubled: bool): (r: Symbol)
    ensures r.NoSymbol? <==> Peek(s) != Some(c)
    ensures r.Symbol? ==> r.text == (if doubled then [c, c] else [c]) && s == r.text + r.rest
    ensures r.Unexpected? <==> doubled && Peek(s) == Some(c) && Peek(s[1..]) != Some(c)
    ensures r.Unexpected? ==> r.message == "unexpected " + [c] && r.rest == s[1..]
  {
    if Peek(s) != Some(c) then NoSymbol
    else if !doubled then Symbol([c], s[1..])
    else if Peek(s[1..]) != Some(c) then Unexpected("unexpected " + [c], s[1..])
    else Symbol([c, c], s[2..])
  }

  /** A character that a direct word takes as it is in the given quoting
      mode: a direct character other than the backslash. */
  predicate Literal(c: char, inQuote: bool)
  {
    IsDirect(Some(c), inQuote) && c != '\\'
  }

  predicate AllLiteral(w: seq<char>, inQuote: bool)
  {
    forall i :: 0 <= i < |w| ==> Literal(w[i], inQuote)
  }

  /** Where a word ends outside quotes: at the end of the input or at a
      separator. */
  predicate WordEnd(t: seq<char>)
  {
    t == [] || IsSeparator(t[0])
  }

  /** isDirect, case by case: outside quotes a direct word stops at white
      space, a quote, `#`, `;`, `&`, `|` or the end of the input; inside
      quotes only at a quote or the end of the input. */
  lemma DirectCharacters(c: char)
    ensures !IsDirect(None, false) && !IsDirect(None, true)
    ensures IsDirect(Some(c), false) <==> !Chars.IsSpace(c) && c !in "\"#;&|"
    ensures IsDirect(Some(c), true) <==> c != '"'
  {
  }

  /** A run of literal characters is copied into the token unchanged. */
  lemma {:induction false} LiteralPrefix(w: seq<char>, t: seq<char>, e: bool, q: bool, d: Draft, count: nat)
    requires AllLiteral(w, q)
    ensures DirectRun(Machine(w + t, e, q), d, count)
         == DirectRun(Machine(t, e, q), Draft(d.text + w, d.isWord), count + |w|)
  {
    if w != [] {
      assert (w + t)[0] == w[0];
      assert (w + t)[1..] == w[1..] + t;
      LiteralPrefix(w[1..], t, e, q, Draft(d.text + [w[0]], d.isWord), count + 1);
      assert d.text + [w[0]] + w[1..] == d.text + w;
    } else {
      assert w + t == t && d.text + w == d.text;
    }
  }

  /** A backslash and the character after it put the unescaped character
      into the token, whatever that character is, and clear `inEscape`. */
  lemma EscapeStep(c: char, t: seq<char>, e: bool, q: bool, d: Draft, count: nat)
    ensures DirectRun(Machine(['\\', c] + t, e, q), d, count)
         == DirectRun(Machine(t, false, q), Draft(d.text + [Chars.Unescape(c)], d.isWord), count + 1)
  {
    var s := ['\\', c] + t;
    assert s[0] == '\\' && s[1..][0] == c && s[1..][1..] == t;
  }

  /** A backslash at the end of the input raises `inEscape`, and the helper
      fails without setting the token's type. */
  lemma EscapeAtEnd(e: bool, q: bool, d: Draft, count: nat)
    ensures DirectRun(Machine(['\\'], e, q), d, count) == Scan(false, d, Machine([], true, q))
  {
    assert ['\\'][1..] == [];
  }

  /** A literal run followed by the end of a word: the helper succeeds and
      sets the token's type exactly when it took a character. */
  lemma LiteralRun(w: seq<char>, t: seq<char>, e: bool, q: bool, d: Draft)
    requires AllLiteral(w, q) && !IsDirect(Peek(t), q)
    ensures DirectWord(Machine(w + t, e, q), d)
         == if w == [] then Scan(false, d, Machine(t, e, q)) else Scan(true, Draft(d.text + w, true), Machine(t, e, q))
  {
    LiteralPrefix(w, t, e, q, d, 0);
  }

  /** nextWord stops, without change, at the end of a word. */
  lemma WordRunAtEnd(t: seq<char>, e: bool, d: Draft, result: bool)
    requires WordEnd(t)
    ensures WordRun(Machine(t, e, false), d, result) == Scan(result, d, Machine(t, e, false))
  {
  }

  /** A literal direct segment joins the word being read. */
  lemma WordRunDirect(w: seq<char>, t: seq<char>, e: bool, d: Draft, result: bool)
    requires w != [] && AllLiteral(w, false) && !IsDirect(Peek(t), false)
    ensures WordRun(Machine(w + t, e, false), d, result) == WordRun(Machine(t, e, false), Draft(d.text + w, true), true)
  {
    LiteralRun(w, t, e, false, d);
  }

  /** A closed quoted segment joins the word being read. */
  lemma WordRunQuoted(q: seq<char>, t: seq<char>, e: bool, d: Draft, result: bool)
    requires AllLiteral(q, true)
    ensures WordRun(Machine(['"'] + q + ['"'] + t, e, false), d, result)
         == WordRun(Machine(t, e, false), Draft(d.text + q, true), true)
  {
    var s := ['"'] + q + ['"'] + t;
    assert s[0] == '"' && s[1..] == q + (['"'] + t);
    assert DirectWord(Machine(s, e, false), d) == Scan(false, d, Machine(s, e, false));
    LiteralRun(q, ['"'] + t, e, true, d);
    assert (['"'] + t)[1..] == t;
    if q == [] {
      assert d.text + q == d.text;
    }
    assert QuoteWord(Machine(s, e, false), d) == Scan(true, Draft(d.text + q, true), Machine(t, e, false));
  }

  /** `a` is what remains of `b` after some characters were read. */
  predicate IsSuffix(a: seq<char>, b: seq<char>)
  {
    |a| <= |b| && a == b[|b| - |a|..]
  }

  lemma SuffixTransitive(a: seq<char>, b: seq<char>, c: seq<char>)
    requires IsSuffix(a, b) && IsSuffix(b, c)
    ensures IsSuffix(a, c)
  {
    assert c[|c| - |b|..][|b| - |a|..] == c[|c| - |a|..];
  }

  /** A character absent from the input is absent from what remains. */
  lemma SuffixAvoids(a: seq<char>, b: seq<char>, c: char)
    requires IsSuffix(a, b) && c !in b
    ensures c !in a
  {
    forall i | 0 <= i < |a|
      ensures a[i] != c
    {
      assert a[i] == b[|b| - |a| + i];
    }
  }

  lemma {:induction false} SkipSpaceSuffix(s: seq<char>)
    ensures IsSuffix(Chars.SkipSpace(s), s)
  {
    if s != [] && Chars.IsSpace(s[0]) {
      SkipSpaceSuffix(s[1..]);
      SuffixTransitive(Chars.SkipSpace(s), s[1..], s);
    }
  }

  lemma {:induction false} LineRestSuffix(s: seq<char>)
    ensures IsSuffix(LineRest(s), s)
  {
    if s != [] && s[0] != '\n' {
      LineRestSuffix(s[1..]);
      SuffixTransitive(LineRest(s), s[1..], s);
    }
  }

  /** The direct-word loop only reads from the front of the input. */
  lemma {:induction false} DirectRunSuffix(m: Machine, d: Draft, count: nat)
    ensures IsSuffix(DirectRun(m, d, count).m.rest, m.rest)
    decreases |m.rest|, 1
  {
    if IsDirect(Peek(m.rest), m.inQuote) {
      if m.rest[0] != '\\' {
        PlainCharSuffix(m, d, count);
      } else if |m.rest| >= 2 {
        EscapedCharSuffix(m, d, count);
      } else {
        LoneBackslash(m, d, count);
      }
    }
  }

  /** A backslash that ends the input ends the run with nothing left. */
  lemma LoneBackslash(m: Machine, d: Draft, count: nat)
    requires m.rest == ['\\']
    ensures DirectRun(m, d, count).m.rest == []
  {
  }

  /** The step of DirectRunSuffix over an ordinary character. */
  lemma {:induction false} PlainCharSuffix(m: Machine, d: Draft, count: nat)
    requires IsDirect(Peek(m.rest), m.inQuote) && m.rest[0] != '\\'
    ensures IsSuffix(DirectRun(m, d, count).m.rest, m.rest)
    decreases |m.rest|, 0
  {
    DirectStep(m, d, count);
    var next := m.(rest := m.rest[1..]);
    var d' := d.(text := d.text + [m.rest[0]]);
    DirectRunSuffix(next, d', count + 1);
    SuffixTransitive(DirectRun(next, d', count + 1).m.rest, m.rest[1..], m.rest);
  }

  /** The step of DirectRunSuffix over a backslash and the character it
      escapes. */
  lemma {:induction false} EscapedCharSuffix(m: Machine, d: Draft, count: nat)
    requires IsDirect(Peek(m.rest), m.inQuote) && m.rest[0] == '\\' && |m.rest| >= 2
    ensures IsSuffix(DirectRun(m, d, count).m.rest, m.rest)
    decreases |m.rest|, 0
  {
    EscapedStep(m, d, count);
    var next := Machine(m.rest[2..], false, m.inQuote);
    var d' := d.(text := d.text + [Chars.Unescape(m.rest[1])]);
    DirectRunSuffix(next, d', count + 1);
    SuffixTransitive(DirectRun(next, d', count + 1).m.rest, m.rest[2..], m.rest);
  }

  lemma QuoteWordSuffix(m: Machine, d: Draft)
    ensures IsSuffix(QuoteWord(m, d).m.rest, m.rest)
  {
    if Peek(m.rest) == Some('"') {
      var inner := m.(rest := m.rest[1..], inQuote := true);
      DirectRunSuffix(inner, d, 0);
      var s := DirectRun(inner, d, 0);
      SuffixTransitive(s.m.rest, inner.rest, m.rest);
      if Peek(s.m.rest) == Some('"') {
        SuffixTransitive(s.m.rest[1..], s.m.rest, m.rest);
      }
    }
  }

  lemma {:induction false} WordRunSuffix(m: Machine, d: Draft, result: bool)
    ensures IsSuffix(WordRun(m, d, result).m.rest, m.rest)
    decreases |m.rest|
  {
    var r := WordRun(m, d, result).m.rest;
    var s := DirectWord(m, d);
    DirectRunSuffix(m, d, 0);
    if s.found {
      WordRunSuffix(s.m, s.draft, true);
      SuffixTransitive(r, s.m.rest, m.rest);
    } else {
      var q := QuoteWord(s.m, s.draft);
      QuoteWordSuffix(s.m, s.draft);
      SuffixTransitive(q.m.rest, s.m.rest, m.rest);
      if q.found {
        WordRunSuffix(q.m, q.draft, true);
        SuffixTransitive(r, q.m.rest, m.rest);
      }
    }
  }

  lemma OperatorSuffix(s: seq<char>, c: char, doubled: bool)
    ensures var r := Operator(s, c, doubled); !r.NoSymbol? ==> IsSuffix(r.rest, s)
  {
    if Peek(s) == Some(c) {
      assert s[1..] == s[|s| - |s[1..]|..];
      if doubled && Peek(s[1..]) == Some(c) {
        assert s[2..] == s[|s| - |s[2..]|..];
      }
    }
  }

  /** Without a backslash in the input the escape flag never changes, and
      without a quote the quote flag never changes. */
  lemma {:induction false} PlainDirectRun(m: Machine, d: Draft, count: nat)
    requires '\\' !in m.rest
    ensures DirectRun(m, d, count).m.inEscape == m.inEscape
    decreases |m.rest|
  {
    if IsDirect(Peek(m.rest), m.inQuote) {
      assert m.rest[0] != '\\';
      PlainDirectRun(m.(rest := m.rest[1..]), d.(text := d.text + [m.rest[0]]), count + 1);
    }
  }

  lemma {:induction false} PlainWordRun(m: Machine, d: Draft, result: bool)
    requires '\\' !in m.rest && '"' !in m.rest
    ensures WordRun(m, d, result).m.inEscape == m.inEscape
    ensures WordRun(m, d, result).m.inQuote == m.inQuote
    decreases |m.rest|
  {
    var s := DirectWord(m, d);
    PlainDirectRun(m, d, 0);
    DirectRunSuffix(m, d, 0);
    SuffixAvoids(s.m.rest, m.rest, '\\');
    SuffixAvoids(s.m.rest, m.rest, '"');
    if s.found {
      PlainWordRun(s.m, s.draft, true);
    } else {
      assert QuoteWord(s.m, s.draft) == Scan(false, s.draft, s.m);
    }
  }
}
