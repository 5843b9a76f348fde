# rshell in Dafny

A model of the core of rshell, a small command shell written in C++. Two
generations of the program's logic are modelled. Each is modelled as written,
and the two are not harmonised.

- **The linear design** (`rshell/`):
  - a tokenizer;
  - a parser that builds a chain of Initial, Sequential, Conjunctive and
    Disjunctive nodes;
  - the four `shouldExecuteAfter` predicates;
  - a driver that walks the chain, skipping nodes and handling `exit`;
  - the argument vector its POSIX executor builds for `execvp`.
- **The tree design** (`src/`):
  - a second tokenizer;
  - a one-pass parser into a command tree, driven by a current-slot pointer
    and a stack of scopes;
  - the `execute` of the sequence, pipe and redirection nodes against an
    abstract executor;
  - the `test` and `exit` builtins;
  - the chain driver `src/Execution.cpp` left over from the linear design.

Every imperative part of the source is a Dafny class or method, proved
against a pure specification function:

- the tokenizers' cursor and flags;
- the parsers' slot, scope stack and chain;
- the drivers' loops;
- the executor's streams, stream set and process log;
- the argv construction.

Lemmas then prove the source's promises about those functions:

- the lexing behaviour;
- the parsers' round trips, error cases and scope balance;
- the drivers' skip rule and exit handling;
- the stream set being balanced;
- the pipe wiring;
- the redirection scoping.

Modules, file by file:

| file | module | models |
|---|---|---|
| wrappers.dfy | Wrappers | `Option`, `Result` |
| chars.dfy | Chars | `unescape`, the `std::ws` whitespace skip |
| numbers.dfy | Numbers | the digit prefix read by `std::stoi` / `std::atoi`, 32-bit range and wrap |
| scanner.dfy | Scanner | the character machine the two tokenizers share: direct runs, escapes, quoted runs, words, comments, operators |
| tokens.dfy | Tokens | the token kinds of the tree design (Word, Sequence, Conjunction, Disjunction, None), plus OpenScope and CloseScope, which the parser uses |
| lexer.dfy | Lexer | `src/Tokenizer.cpp`: the pure lexer, and the `Tokenizer` class proved against it |
| lexer_properties.dfy | LexerProperties | what the `src/` lexer produces for blanks, comments, operators, words, quotes and escapes |
| quoting.dfy | Quoting | when the `src/` lexer ends valid: an automaton over the text that tracks quotes, escapes and comments, and its agreement with the lexer's flags |
| rshell_tokens.dfy | RshellTokens | the token kinds of the linear design |
| rshell_lexer.dfy | RshellLexer | `rshell/Tokenizer.cpp`, which skips at most one comment |
| rshell_lexer_properties.dfy | RshellLexerProperties | the older lexer's behaviour, and its agreement with the newer one on input whose comments run to the end of the line |
| linear_command.dfy | LinearCommand | the chain nodes and the four `shouldExecuteAfter` predicates |
| linear_parser.dfy | LinearParser | `rshell/Parser.cpp` |
| linear_parser_properties.dfy | LinearParserProperties | chain shape, errors, and a round trip from chains to tokens |
| linear_walk.dfy | LinearWalk | the skip loop both chain drivers share, with an abstract executor |
| rshell_execution.dfy | RshellExecution | `rshell/Execution.cpp` (exit code by `stoi`) |
| chain_execution.dfy | ChainExecution | `src/Execution.cpp` (exit code by `atoi`) |
| test_builtin.dfy | TestBuiltin | `src/TestBuiltinCommand.cpp` over a `stat` oracle |
| exit_builtin.dfy | ExitBuiltin | `src/ExitBuiltinCommand.cpp` |
| tree.dfy | CommandTree | the command tree; paths into it (the parser's slots) and `At`/`Put` on them |
| tree_parser.dfy | TreeParser | `src/Parser.cpp`: step functions, consistency of slot and scope stack, the `Parser` class |
| tree_parser_properties.dfy | TreeParserProperties | round trip from trees to tokens, error cases, scope depth, re-applying a parser |
| tree_run.dfy | TreeRun | the specification of running a tree against the executor's state |
| tree_run_properties.dfy | TreeRunProperties | the stream set is balanced, sequences run in order, pipes wire their stages, redirections are scoped |
| tree_execution.dfy | TreeExecution | the executor as a class, and the node `execute` methods proved against `TreeRun.Exec` |
| rshell_argv.dfy | RshellArgv | `toCString`, `toCStrings`, `toArgv` and the `char*` array of `rshell/PosixExecutor.cpp` |

## How the model reads the code

**Exceptions are values.**
- A `throw` in the tokenizers and parsers is an `Err`/`Failed` carrying the
  message.
- The `int` thrown by `rshell/Execution.cpp` and the `ExitException` of the
  tree design are the `Terminated` outcome and the `Exited` status.
- A `runtime_error` in the tree nodes is `Failed(message)`.
- Calling `execute` on a null child, which is undefined behaviour in C++, is
  the `Crashed` status.

**The executor is abstract.**
- Its state is the current input and output streams, the set of open stream
  ids, the resources it has created (file streams and pipes), and the log of
  the processes it spawned, each with its streams and wait mode.
- A stream is named by the position at which it was created.
- The code of a waited-for process comes from an oracle (`World.answer`),
  indexed by the spawn's position in the log.
- Continue returns 0 without waiting, as `src/PosixExecutor.cpp:80-82` does.
- Whether `creat` can open a path for output is an oracle too (`World.creates`). When it cannot, the output file stream's constructor throws "unable to open output file" (`src/PosixExecutorOutputFileStream.cpp:27-36`) before the redirection inserts or sets anything. The executor's `createOutputFileStream` is not part of this model; the model takes it to construct that stream class.

**Integers.**
- `int` is 32-bit: results of `stoi` outside `[-2^31, 2^31-1]` are
  conversion failures.
- `atoi` is modelled as glibc's `strtol`, then truncated to 32 bits
  (`WrapInt`).

**Where the code and the design description differ, the model follows the
code:**
- `SequentialCommand::execute` calls each child's `execute(executor)`
  without a wait mode (`src/SequentialCommand.cpp:25-33`). The declaration of
  the tree `Command::execute` is not part of this model. The model infers
  that the default is Wait, the default the executor's own `execute`
  declares at `src/PosixExecutor.hpp:62`.
- The tree `Parser` constructor (`src/Parser.cpp:34-37`) does not initialise
  `_isRootSequence`, and no declaration of that member is part of this model.
  `TreeParser.Parser.constructor` assumes it starts false. The first apply in
  the Findings row rests on that assumption.
- A pipe ignores the caller's wait mode (`PipeIgnoresMode`).
- The builtins behave the same in either mode.
- `src/Execution.cpp` converts with `atoi`, which never throws. Its warning
  branch (lines 80-86) is therefore unreachable, and a non-number gives 0
  silently.
- `unescape` maps `e` to the character `'3'`, not to ESC.

## Model

| member | source | states |
|---|---|---|
| Chars.Unescape | src/Tokenizer.cpp:32-49 | a→BEL, e→'3', n→LF, r→CR, t→TAB; every other character maps to itself, and a character changes exactly when it is one of those five |
| Chars.SkipSpace | src/Tokenizer.cpp:113-115 | the whitespace skip: the result is a suffix no longer than the input, starting with a non-space; input that does not start with a space is unchanged |
| Numbers.ReadInteger | src/Execution.cpp:78 | the number `strtol` reads before any range check: nothing without a digit after the blanks and sign; its properties are stated through `StoI` and `AtoI` |
| Numbers.Digits | rshell/Execution.cpp:48 | the longest all-digit prefix of the text: the character after it, if any, is not a digit |
| Numbers.StoI | rshell/Execution.cpp:48 | `std::stoi` succeeds exactly when a digit prefix (after blanks and a sign) is read and its value fits in 32 bits, and then yields that value |
| Numbers.WrapInt | src/Execution.cpp:78 | the truncation to `int`: in range, and congruent to the value modulo 2^32 |
| Numbers.AtoI | src/Execution.cpp:78 | `std::atoi` is 0 on text with no number, agrees with `stoi` wherever `stoi` succeeds, and is always in `int` range |
| Numbers.NatString | src/ExitBuiltinCommand.cpp:35 | the decimal text of a number is non-empty and all digits |
| Numbers.ValueOfNatString | src/ExitBuiltinCommand.cpp:35 | reading back the decimal text of n gives n |
| Numbers.ReadIntString | src/ExitBuiltinCommand.cpp:35 | the signed decimal text of any integer reads back as that integer |
| Numbers.StoIRoundTrip | src/ExitBuiltinCommand.cpp:35 | `stoi` of the decimal text of every 32-bit integer gives that integer |
| Numbers.OutOfIntRange | src/Execution.cpp:76-86 | a 64-bit value outside `int` range makes `stoi` fail, while `atoi` gives it truncated to 32 bits |
| Numbers.NotANumber | src/Execution.cpp:76-86 | text whose first non-blank is not a sign or a digit makes `stoi` fail and gives `atoi` 0 |
| Numbers.TrailingTextIgnored | rshell/Execution.cpp:48 | text after the digits is ignored by both conversions |
| Scanner.DirectCharacters | src/Tokenizer.cpp:51-73 | outside quotes a word run continues exactly on a character that is not whitespace, `"`, `#`, `;`, `&` or `\|`; inside quotes, on any character but `"`; never at end of input |
| Scanner.DirectRun | src/Tokenizer.cpp:213-248 | `nextDirectWord` consumes only input, keeps the quote flag, stops before a non-direct character or at the end, reports success only if it read a character, and sets the escape flag only when the input ends in a backslash |
| Scanner.DirectStep | src/Tokenizer.cpp:220-237 | one character of a direct run: a backslash and the next character add the unescaped character; a lone backslash at the end sets the escape flag and ends the run without success; any other character is added as is |
| Scanner.EscapeStep | src/Tokenizer.cpp:220-233 | a backslash followed by a character adds `unescape` of that character to the word, inside and outside quotes |
| Scanner.EscapeAtEnd | src/Tokenizer.cpp:220-228 | a backslash at end of input leaves the escape flag set and yields no word |
| Scanner.LiteralPrefix | src/Tokenizer.cpp:213-248 | a run of plain direct characters is copied into the word unchanged |
| Scanner.LiteralRun | src/Tokenizer.cpp:213-248 | a plain run followed by a stopping character gives exactly that run as the word, and no word if the run is empty |
| Scanner.QuoteWord | src/Tokenizer.cpp:250-273 | with no `"` ahead nothing happens; a closed quote consumes input and clears the quote flag; an unclosed one consumes everything and leaves the quote flag set |
| Scanner.WordRun | src/Tokenizer.cpp:200-211 | `nextWord` consumes only input, keeps going while a direct or quoted segment is found, and on input that is not mid-escape or mid-quote stops only at a separator or the end |
| Scanner.WordRunAtEnd | src/Tokenizer.cpp:200-211 | at a separator or the end a word run changes nothing |
| Scanner.WordRunDirect | src/Tokenizer.cpp:200-211 | a plain direct segment is appended and the run continues |
| Scanner.WordRunQuoted | src/Tokenizer.cpp:200-211 | a closed quoted segment's contents are appended and the run continues, so segments concatenate into one word |
| Scanner.LineRest | src/Tokenizer.cpp:146 | `ignore` up to a newline consumes at least one character, and everything when there is no newline |
| Scanner.SkipComment | src/Tokenizer.cpp:137-149 | `ignoreComment` fires exactly when the next character is `#`, and then consumes input |
| Scanner.Operator | src/Tokenizer.cpp:151-198 | an operator is recognised exactly when its character is next; a doubled operator with a single character is the error "unexpected &" / "unexpected \|" after consuming that character; the token text is one or two copies of the character |
| Scanner.PlainDirectRun | src/Tokenizer.cpp:213-248 | input without a backslash never changes the escape flag in a direct run |
| Scanner.PlainWordRun | src/Tokenizer.cpp:200-211 | input without backslash or quote changes neither flag in a word run |
| Lexer.SkipBlanks | src/Tokenizer.cpp:110-116 | the loop of `next` skips whitespace and comments until the input is empty or starts with neither |
| Lexer.NextToken | src/Tokenizer.cpp:105-135 | a token other than None consumes input; `;`, `&&` and `\|\|` have exactly that text; the only errors are the lone operators; a None token is given only at the end of the input |
| Lexer.Lex | src/Tokenizer.cpp:91-103 | the loop of `apply`: tokens are stored until a None token, and an exception ends the run with those stored so far; `LexInvariants`, `Quoting.LexSettles` and the LexerProperties lemmas state what it computes |
| Lexer.Tokenize | src/Tokenizer.cpp:79-103 | a fresh tokenizer, both flags lowered, applied once; `Lexer.Tokenizer.Apply` is proved against it and `Quoting.BalancedValid` states when it ends valid |
| Lexer.LexInvariants | src/Tokenizer.cpp:91-103 | `apply` only appends tokens, never a None token, and without an error reads the whole input |
| Lexer.PlainNextToken | src/Tokenizer.cpp:105-135 | input without backslash or quote leaves both flags alone |
| Lexer.PlainLex | src/Tokenizer.cpp:91-103 | the same over a whole `apply` |
| Lexer.Tokenizer.constructor | src/Tokenizer.cpp:79-84 | a new tokenizer holds the input at position 0, no tokens and both flags clear |
| Lexer.Tokenizer.IsValid | src/Tokenizer.cpp:86-89 | valid exactly when neither the escape nor the quote flag is set |
| Lexer.Tokenizer.InScope | src/Tokenizer.hpp:63 | always false: the scope level is never updated |
| Lexer.Tokenizer.Apply | src/Tokenizer.cpp:91-103 | the tokens, the error and the final cursor and flags are those of `Lex` from the tokenizer's state |
| Lexer.Tokenizer.Next | src/Tokenizer.cpp:105-135 | the token or error and the new state are those of `NextToken` |
| Lexer.Tokenizer.ReadToken | src/Tokenizer.cpp:118-120 | the dispatch after the blanks: the result of `TokenAt`, a sequence token or what the later helpers give |
| Lexer.Tokenizer.ReadConjunction | src/Tokenizer.cpp:122-134 | once no `;` is found: an `&&` token, the `&` error, or what the later helpers give (`ConjunctionAt`) |
| Lexer.Tokenizer.ReadDisjunction | src/Tokenizer.cpp:126-134 | once no `&` is found either: an `\|\|` token, the `\|` error, or the word (`DisjunctionAt`) |
| Lexer.Tokenizer.SkipBlanksAndComments | src/Tokenizer.cpp:110-116 | the cursor ends at `SkipBlanks` of the rest, and more input remains exactly when the rest is non-empty |
| Lexer.Tokenizer.IgnoreComment | src/Tokenizer.cpp:137-149 | the result of `SkipComment`; the cursor stays put when there is no `#` |
| Lexer.Tokenizer.NextSequence | src/Tokenizer.cpp:151-162 | a `;` makes a Sequence token and is consumed; otherwise nothing changes |
| Lexer.Tokenizer.NextConjunction | src/Tokenizer.cpp:164-180 | `&&` makes a Conjunction token; a lone `&` is the error "unexpected &"; otherwise nothing changes |
| Lexer.Tokenizer.NextDisjunction | src/Tokenizer.cpp:182-198 | `\|\|` makes a Disjunction token; a lone `\|` is the error "unexpected \|"; otherwise nothing changes |
| Lexer.Tokenizer.NextWord | src/Tokenizer.cpp:200-211 | the word and the new cursor and flags are those of `ScanWord` |
| Lexer.Tokenizer.NextDirectWord | src/Tokenizer.cpp:213-248 | the result of `DirectWord` |
| Lexer.Tokenizer.DirectCharacter | src/Tokenizer.cpp:219-240 | one pass of the loop of `nextDirectWord` either advances the cursor with the run continuing from the new state, or ends the run as `DirectRun` does |
| Lexer.Tokenizer.NextQuoteWord | src/Tokenizer.cpp:250-273 | the result of `QuoteWord` |
| LexerProperties.WordTokens | src/Tokenizer.cpp:200-211 | one Word token per word, in order |
| LexerProperties.SkipSpaceOfBlanks | src/Tokenizer.cpp:113-115 | blanks before the input are skipped |
| LexerProperties.LineRestOfComment | src/Tokenizer.cpp:146 | a comment is skipped up to and including its newline |
| LexerProperties.WordStart | src/Tokenizer.cpp:118-134 | input starting with a non-separator is read as a word |
| LexerProperties.LexStep | src/Tokenizer.cpp:91-103 | `apply` appends the token `next` gives and carries on from the state after it |
| LexerProperties.BlanksSkipped | src/Tokenizer.cpp:110-116 | leading blanks change neither the next token nor the whole result |
| LexerProperties.CommentSkipped | src/Tokenizer.cpp:110-116 | a comment up to a newline changes neither the next token nor the whole result |
| LexerProperties.CommentAtEnd | src/Tokenizer.cpp:137-149 | a comment that runs to the end of the input gives no token and no error |
| LexerProperties.OperatorTokens | src/Tokenizer.cpp:151-198 | `;`, `&&` and `\|\|` give Sequence ";", Conjunction "&&" and Disjunction "\|\|" and consume exactly those characters |
| LexerProperties.LoneOperators | src/Tokenizer.cpp:164-198 | `&` or `\|` not doubled gives "unexpected &" / "unexpected \|" |
| LexerProperties.PlainWordToken | src/Tokenizer.cpp:200-248 | a plain word followed by a word end is one Word token with exactly its text |
| LexerProperties.LexFirstWord | src/Tokenizer.cpp:91-103 | a plain word followed by a space is lexed first and the rest follows |
| LexerProperties.LexLastWord | src/Tokenizer.cpp:91-103 | a plain word at the end is the last token, and no error is given |
| LexerProperties.LexUnwordsCons | src/Tokenizer.cpp:91-103 | the inductive step of `LexUnwords` |
| LexerProperties.LexUnwords | src/Tokenizer.cpp:91-103 | plain words joined by spaces lex back into exactly those words |
| LexerProperties.TokenizeUnwords | src/Tokenizer.cpp:91-103 | the same from a fresh tokenizer |
| LexerProperties.EndOfInput | src/Tokenizer.cpp:91-103 | empty input adds no tokens and gives no error |
| LexerProperties.SingleWord | src/Tokenizer.cpp:91-103 | input that is one word gives exactly that Word token |
| LexerProperties.AdjacentSegments | src/Tokenizer.cpp:200-211 | `d1"q"d2` lexes to the single Word `d1 q d2`, so `a"b"c` gives "abc" |
| LexerProperties.SegmentsWord | src/Tokenizer.cpp:250-273 | the same at the level of one word scan |
| LexerProperties.EscapeInWord | src/Tokenizer.cpp:220-233 | a backslash and a character inside a word give the unescaped character in the Word |
| LexerProperties.EscapedWord | src/Tokenizer.cpp:220-233 | the same at the level of one word scan |
| LexerProperties.TrailingBackslash | src/Tokenizer.cpp:220-233 | a plain word followed by a final backslash yields no token and leaves the escape flag set |
| LexerProperties.QuotedBackslashWord | src/Tokenizer.cpp:200-273 | the word scan of `d"q"` followed by a final backslash holds `d q`, reports a word and leaves the escape flag set |
| LexerProperties.QuotedThenBackslash | src/Tokenizer.cpp:200-233 | once a quoted segment has been read, a final backslash no longer loses the word: `d"q"` and a backslash give the one Word `d q`, with the escape flag left set |
| LexerProperties.UnterminatedQuote | src/Tokenizer.cpp:259-266 | a missing closing quote leaves the quote flag set; the quoted text so far is still the Word |
| LexerProperties.CommentEndsWord | src/Tokenizer.cpp:51-73 | a `#` ends a word and starts a comment |
| LexerProperties.PlainInputValid | src/Tokenizer.cpp:86-89 | input without backslash or quote always leaves the tokenizer valid |
| Quoting.ModeOf | src/Tokenizer.cpp:86-89 | the automaton mode the two flags stand for: plain exactly when both are lowered, and never a comment |
| Quoting.DirectRunSettles | src/Tokenizer.cpp:213-248 | a direct run reads its characters as the automaton does: what remains to be read, from the mode the new flags stand for, ends where the whole input did |
| Quoting.QuoteWordSettles | src/Tokenizer.cpp:250-273 | the same for a quoted segment: the opening quote enters quoted text, the closing quote leaves it |
| Quoting.WordRunSettles | src/Tokenizer.cpp:200-211 | the same for a whole word |
| Quoting.SkipSpaceSettles | src/Tokenizer.cpp:113-115 | blanks are plain text: skipping them does not change where the automaton ends |
| Quoting.CommentSettles | src/Tokenizer.cpp:137-149 | a comment skipped to its line feed returns to plain text; one that runs to the end of the input ends closed, as plain text does |
| Quoting.SkipBlanksSettles | src/Tokenizer.cpp:110-116 | skipping blanks and comments keeps whether the remaining text is balanced |
| Quoting.NextTokenSettles | src/Tokenizer.cpp:105-135 | one `next` keeps whether the remaining text, read from the flags' mode, is balanced; an exception leaves both flags lowered |
| Quoting.LexSettles | src/Tokenizer.cpp:91-103 | a run without an exception ends with both flags lowered exactly when the text was balanced; a run cut short by an exception ends with both lowered |
| Quoting.BalancedValid | src/Tokenizer.cpp:86-103 | `isValid()` after `apply()`: balanced input always leaves both flags lowered, whatever quotes, escapes and comments it holds; conversely, a run without an exception leaves both lowered only over balanced input |
| Quoting.CutShort | src/Tokenizer.cpp:164-180 | the converse needs the run to end without an exception: `& "` is unbalanced, yet the lone `&` stops the run with both flags lowered |
| RshellLexer.AfterComment | rshell/Tokenizer.cpp:65 | the single `ignoreComment` of `next` skips a line exactly when a `#` is next, and changes nothing otherwise |
| RshellLexer.NextToken | rshell/Tokenizer.cpp:58-84 | a token other than None consumes input; the operator texts are exact; the only errors are the lone operators |
| RshellLexer.Lex | rshell/Tokenizer.cpp:47-56 | the loop of the older `apply`, as `Lexer.Lex`; `LexInvariants` and `RshellLexerProperties.LexAgreement` state what it computes |
| RshellLexer.Tokenize | rshell/Tokenizer.cpp:37-56 | a fresh older tokenizer applied once; `RshellLexer.Tokenizer.Apply` is proved against it and `RshellLexerProperties.TokenizeAgreement` relates it to `Lexer.Tokenize` |
| RshellLexer.LexInvariants | rshell/Tokenizer.cpp:47-56 | `apply` only appends tokens and never a None token |
| RshellLexer.Tokenizer.constructor | rshell/Tokenizer.cpp:37-40 | a new tokenizer holds the input at position 0, no tokens and both flags clear |
| RshellLexer.Tokenizer.IsValid | rshell/Tokenizer.cpp:42-45 | valid exactly when neither flag is set |
| RshellLexer.Tokenizer.Apply | rshell/Tokenizer.cpp:47-56 | the result of the older `Lex` from the tokenizer's state |
| RshellLexer.Tokenizer.Next | rshell/Tokenizer.cpp:58-84 | the result of the older `NextToken` |
| RshellLexer.Tokenizer.ReadToken | rshell/Tokenizer.cpp:67-69 | the dispatch after the comment: the result of `TokenAt`, a sequence token or what the later helpers give |
| RshellLexer.Tokenizer.ReadConjunction | rshell/Tokenizer.cpp:71-83 | once no `;` is found: an `&&` token, the `&` error, or what the later helpers give (`ConjunctionAt`) |
| RshellLexer.Tokenizer.ReadDisjunction | rshell/Tokenizer.cpp:75-83 | once no `&` is found either: an `\|\|` token, the `\|` error, or the word (`DisjunctionAt`) |
| RshellLexer.Tokenizer.SkipWhiteSpace | rshell/Tokenizer.cpp:61-63 | the cursor ends after the leading whitespace, and more input remains exactly when the rest is non-empty |
| RshellLexer.Tokenizer.IgnoreComment | rshell/Tokenizer.cpp:86-95 | the result of `SkipComment`; the cursor stays put when there is no `#` |
| RshellLexer.Tokenizer.NextSequence | rshell/Tokenizer.cpp:97-106 | a `;` makes a Sequence token; otherwise nothing changes |
| RshellLexer.Tokenizer.NextConjunction | rshell/Tokenizer.cpp:108-122 | `&&` makes a Conjunction token; a lone `&` is an error; otherwise nothing changes |
| RshellLexer.Tokenizer.NextDisjunction | rshell/Tokenizer.cpp:124-138 | `\|\|` makes a Disjunction token; a lone `\|` is an error; otherwise nothing changes |
| RshellLexer.Tokenizer.NextWord | rshell/Tokenizer.cpp:140-148 | the result of `ScanWord` |
| RshellLexer.Tokenizer.NextDirectWord | rshell/Tokenizer.cpp:150-200 | the result of `DirectWord` |
| RshellLexer.Tokenizer.DirectCharacter | rshell/Tokenizer.cpp:174-195 | one pass of the loop of `nextDirectWord`, as `DirectRun` takes it |
| RshellLexer.Tokenizer.NextQuoteWord | rshell/Tokenizer.cpp:202-222 | the result of `QuoteWord` |
| RshellLexerProperties.Upgrade | rshell/Tokenizer.cpp:58-84 | an older token seen as a newer one keeps its text |
| RshellLexerProperties.UpgradeAll | rshell/Tokenizer.cpp:47-56 | the same, token by token |
| RshellLexerProperties.SkipToComment | rshell/Tokenizer.cpp:61-65 | blanks, then one comment line, are skipped |
| RshellLexerProperties.NothingAt | rshell/Tokenizer.cpp:67-83 | at whitespace, `#` or the end, the dispatch gives a None token |
| RshellLexerProperties.CommentThenBlank | rshell/Tokenizer.cpp:58-95 | a comment line followed by whitespace, a second comment or the end makes `next` give None, so `apply` stops there with the rest unread |
| RshellLexerProperties.CommentAtEnd | rshell/Tokenizer.cpp:86-95 | a comment that runs to the end gives no token and no error |
| RshellLexerProperties.SkipAgreement | rshell/Tokenizer.cpp:58-84 | on input whose comments do not continue past a newline, one skip of whitespace and one comment reach where the newer lexer's skip loop does |
| RshellLexerProperties.TokenAtAgreement | rshell/Tokenizer.cpp:67-83 | the two dispatches give the same token from the same state |
| RshellLexerProperties.NextTokenAgreement | rshell/Tokenizer.cpp:58-84 | on such input the two `next` functions agree |
| RshellLexerProperties.UpgradeAppend | rshell/Tokenizer.cpp:47-56 | upgrading distributes over appending a token |
| RshellLexerProperties.LexAgreement | rshell/Tokenizer.cpp:47-56 | on such input the two `apply` loops give the same tokens, error and final state |
| RshellLexerProperties.TokenizeAgreement | rshell/Tokenizer.cpp:37-56 | the same from a fresh tokenizer |
| RshellLexerProperties.OperatorTokens | rshell/Tokenizer.cpp:97-138 | `;`, `&&` and `\|\|` give their tokens and consume exactly those characters |
| RshellLexerProperties.LoneOperators | rshell/Tokenizer.cpp:108-138 | a lone `&` or `\|` gives "unexpected &" / "unexpected \|" |
| RshellLexerProperties.TrailingBackslash | rshell/Tokenizer.cpp:176-182 | a plain word followed by a final backslash yields no token and leaves the escape flag set |
| RshellLexerProperties.QuotedThenBackslash | rshell/Tokenizer.cpp:140-182 | once a quoted segment has been read, a final backslash no longer loses the word: `d"q"` and a backslash give the one Word `d q`, with the escape flag left set |
| RshellLexerProperties.UnterminatedQuote | rshell/Tokenizer.cpp:202-222 | a missing closing quote leaves the quote flag set and stores the text after the quote as one Word, whatever that text holds besides quotes and backslashes (comments and line feeds included) |
| LinearCommand.InitialShouldExecuteAfter | rshell/InitialCommand.cpp:13-17 | the head of a chain runs after nothing |
| LinearCommand.SequentialShouldExecuteAfter | rshell/SequentialCommand.cpp:13-17 | a `;` node runs after anything |
| LinearCommand.ConjunctiveShouldExecuteAfter | rshell/ConjunctiveCommand.cpp:13-17 | an `&&` node runs after code 0 |
| LinearCommand.DisjunctiveShouldExecuteAfter | rshell/DisjunctiveCommand.cpp:13-17 | an `\|\|` node runs after a non-zero code |
| LinearCommand.PredicatesIgnorePrevious | rshell/ConjunctiveCommand.cpp:13-17 | none of the four predicates looks at the previous node; Initial is always false, Sequential always true, Conjunctive true exactly on code 0, Disjunctive exactly on a non-zero code |
| LinearCommand.DisjunctionNegatesConjunction | rshell/DisjunctiveCommand.cpp:13-17 | for every code the Disjunctive predicate is the negation of the Conjunctive one |
| LinearParser.LinkOf | rshell/Parser.cpp:45-56 | the node class each connective token appends: Sequential, Conjunctive, Disjunctive |
| LinearParser.Step | rshell/Parser.cpp:30-59 | one iteration of `apply`'s loop; `StepWellFormed`, `ProgramFills`, `ConnectiveStep` and the error lemmas state what it does |
| LinearParser.Run | rshell/Parser.cpp:29-60 | the loop over the tokens, stopping at the first exception; `RunWellFormed`, `RunAppend` and `RunStep` state what it does |
| LinearParser.Parse | rshell/Parser.cpp:24-63 | `apply`, with the empty chain for the null pointer; `ParseShape`, `ParseRender` and `RenderInjective` state what it computes |
| LinearParser.Started | rshell/Parser.cpp:26-33 | the first token of an empty chain creates the Initial head with an empty program; a started chain is kept |
| LinearParser.WithLast | rshell/Parser.cpp:39-44 | writing the current node changes only the last one |
| LinearParser.Parser.constructor | rshell/Parser.cpp:19-22 | the parser holds its tokens |
| LinearParser.Parser.Apply | rshell/Parser.cpp:24-63 | the result of `Parse` of the tokens |
| LinearParserProperties.StepWellFormed | rshell/Parser.cpp:29-60 | a token fails exactly when the current node has no program and the token is not a Word, or has one and the token is None; otherwise the chain stays well formed and a connective grows it by one |
| LinearParserProperties.RunWellFormed | rshell/Parser.cpp:29-60 | the whole loop keeps the chain well formed and makes it one longer than its start for each connective |
| LinearParserProperties.ParseShape | rshell/Parser.cpp:24-63 | no tokens give no chain; a successful parse of tokens is a well formed chain, headed by Initial, of length 1 plus the number of connectives |
| LinearParserProperties.Words | rshell/Parser.cpp:42-44 | one Word token per word |
| LinearParserProperties.RunAppend | rshell/Parser.cpp:29-60 | the loop over two token lists is the loop over the first, then the second |
| LinearParserProperties.RunStep | rshell/Parser.cpp:29-60 | one step of the loop |
| LinearParserProperties.ReplaceLast | rshell/Parser.cpp:39-44 | writing the current node replaces exactly the last one |
| LinearParserProperties.ReplaceOnly | rshell/Parser.cpp:39-44 | the same for the one-node chain |
| LinearParserProperties.ArgumentsFill | rshell/Parser.cpp:42-44 | words after a node's program are appended to its arguments in order |
| LinearParserProperties.ProgramFills | rshell/Parser.cpp:35-44 | the first word of a node becomes its program, the later ones its arguments |
| LinearParserProperties.ConnectiveStep | rshell/Parser.cpp:45-56 | a connective after a complete node appends one empty node of its link |
| LinearParserProperties.FollowerFills | rshell/Parser.cpp:35-56 | a connective and words build one more node |
| LinearParserProperties.NodeFills | rshell/Parser.cpp:29-60 | the tokens of a node extend the chain by exactly that node |
| LinearParserProperties.ParseRender | rshell/Parser.cpp:24-63 | every chain the parser can build is parsed back from its tokens |
| LinearParserProperties.RenderInjective | rshell/Parser.cpp:24-63 | distinct such chains have distinct tokens |
| LinearParserProperties.MustStartWithWord | rshell/Parser.cpp:35-38 | tokens starting with anything but a Word fail with "command must start with word" |
| LinearParserProperties.DoubledConnective | rshell/Parser.cpp:35-38 | a non-Word right after a connective fails the same way |
| LinearParserProperties.UnexpectedToken | rshell/Parser.cpp:57-59 | a None token after a node's program fails with "unexpected token" |
| LinearParserProperties.TrailingConnective | rshell/Parser.cpp:29-62 | a trailing connective leaves a final node with an empty program; there is no end-of-input check |
| LinearParserProperties.EmptyWord | rshell/Parser.cpp:35-41 | an empty word leaves the program empty, so the next word becomes the program |
| LinearParserProperties.ThreeNodes | rshell/Parser.cpp:24-63 | `a x && b \|\| c` parses to Initial a [x], Conjunctive b, Disjunctive c |
| LinearWalk.Executor.constructor | rshell/Execution.cpp:13-19 | an executor with its answers and an empty log |
| LinearWalk.Executor.Execute | rshell/Execution.cpp:36 | running a node logs it and returns the answer for that position in the log |
| LinearWalk.Walk | rshell/Execution.cpp:25-38 | the loop of `execute` from one position: a node whose predicate rejects the last code is skipped, `exit` ends the walk through `handleExit`, any other node runs; `WalkBounded`, `WalkCode` and `WalkSkips` state what it computes |
| LinearWalk.WalkFromHead | rshell/Execution.cpp:21-41 | the whole of `execute`: from the head with code 0 and no previous node |
| LinearWalk.BoundedAfterRun | rshell/Execution.cpp:25-38 | the step of `WalkBounded` for a node that runs |
| LinearWalk.WalkBounded | rshell/Execution.cpp:21-41 | the nodes run are in order, each run once, each logged as itself, and none after a terminating `exit` |
| LinearWalk.WalkCode | rshell/Execution.cpp:36-40 | the result is the code of the last node run, or the starting code when none runs |
| LinearWalk.GapsAfterSkip | rshell/Execution.cpp:27-30 | the step of `WalkSkips` for a skipped node |
| LinearWalk.GapsAfterRun | rshell/Execution.cpp:27-37 | the step of `WalkSkips` for a node that runs |
| LinearWalk.WalkSkips | rshell/Execution.cpp:27-37 | a node between two that run was skipped exactly because its predicate refused the code of the last node run, which a skipped node does not change |
| LinearWalk.HeadRuns | rshell/Execution.cpp:24-28 | the head always runs, or, if it is `exit`, terminates at once |
| LinearWalk.SequentialRuns | rshell/Execution.cpp:27-30 | a node after `;` is never skipped |
| LinearWalk.PairHead | rshell/Execution.cpp:25-38 | a pair runs its head first |
| LinearWalk.PairTail | rshell/Execution.cpp:27-37 | the second node of a pair is skipped, terminates or runs, by its predicate and program |
| LinearWalk.ConjunctionRuns | rshell/Execution.cpp:27-30 | in `a && b`, b runs exactly when a gave 0; the result is the last code |
| LinearWalk.DisjunctionRuns | rshell/Execution.cpp:27-30 | in `a \|\| b`, b runs exactly when a gave non-zero; the result is the last code |
| LinearWalk.SequenceThenExit | rshell/Execution.cpp:32-34 | an `exit` after `;` terminates with its code after the first node |
| LinearWalk.SkippedExit | rshell/Execution.cpp:27-34 | a skipped `exit` does not terminate |
| RshellExecution.HandleExit | rshell/Execution.cpp:43-55 | the exit code is always an `int` |
| RshellExecution.HandleExitCodes | rshell/Execution.cpp:43-55 | no arguments give 0; otherwise `stoi` of the first argument, 0 when it fails; later arguments are ignored |
| RshellExecution.ExitAfterSequence | rshell/Execution.cpp:32-34 | `a ; exit 3` runs a and terminates with 3 |
| RshellExecution.Execution.constructor | rshell/Execution.cpp:13-15 | the driver holds its executor |
| RshellExecution.Execution.Create | rshell/Execution.cpp:13-19 | a null executor is refused with "null executor in Execution"; otherwise a new driver holds it |
| RshellExecution.Execution.Execute | rshell/Execution.cpp:21-41 | the outcome and the executor's log are those of the walk from the head |
| ChainExecution.HandleExit | src/Execution.cpp:70-92 | the exit code is always an `int` |
| ChainExecution.HandleExitCodes | src/Execution.cpp:70-92 | no arguments give 0; an `int` gives itself; a larger 64-bit value is truncated; a non-number gives 0 |
| ChainExecution.DriversAgreeOnExit | src/Execution.cpp:70-92 | where `stoi` succeeds or no number is read, the two drivers compute the same exit code |
| ChainExecution.DriversDisagreePastInt | src/Execution.cpp:76-80 | past `int` range the older driver exits with 0 and this one with the truncated value: `exit 4294967297` exits with 1 |
| ChainExecution.Execution.constructor | src/Execution.cpp:25-31 | the driver holds its executor |
| ChainExecution.Execution.Create | src/Execution.cpp:25-31 | a null executor is refused with "null executor in Execution" |
| ChainExecution.Execution.Execute | src/Execution.cpp:40-68 | the outcome and the log are those of the walk, with `atoi` for `exit` |
| TestBuiltin.WellShaped | src/TestBuiltinCommand.cpp:30-39 | the argument shape each spelling accepts: `[` takes three arguments ending in `]`, `test` takes two |
| TestBuiltin.Passes | src/TestBuiltinCommand.cpp:47-63 | whether an existing file passes a flag: any file for `-e`, a regular file for `-f`, a directory for `-d` |
| TestBuiltin.Test | src/TestBuiltinCommand.cpp:28-72 | the code is 0 or 1, and 0 exactly when "(True)" is printed |
| TestBuiltin.UsageExactlyWhenMisshaped | src/TestBuiltinCommand.cpp:30-39 | usage is printed, and 1 returned, exactly when `[` lacks three arguments ending in `]` or `test` lacks exactly two |
| TestBuiltin.MissingPathIsFalse | src/TestBuiltinCommand.cpp:41-45 | a failed stat prints "(False)" and returns 1 whatever the flag |
| TestBuiltin.FlagDecides | src/TestBuiltinCommand.cpp:47-71 | on an existing path, `-e` is true, `-f` true exactly for a regular file, `-d` exactly for a directory; any other flag prints an error and returns 1 |
| TestBuiltin.BracketIsTest | src/TestBuiltinCommand.cpp:30-39 | `[ flag path ]` decides as `test flag path` |
| ExitBuiltin.Execute | src/ExitBuiltinCommand.cpp:27-49 | the code is an `int`; the warning appears only with code 0 |
| ExitBuiltin.ExitCodes | src/ExitBuiltinCommand.cpp:29-44 | no arguments give 0; an `int` gives itself; a failed conversion gives 0 with the warning; only the first argument counts |
| ExitBuiltin.AgreesWithLinearExit | src/ExitBuiltinCommand.cpp:27-49 | the same code as the linear driver's `handleExit` |
| CommandTree.At | src/Parser.cpp:68-86 | `*_current`: what the slot at a path holds, Null where there is no such slot; `AtPut` and `PutAt` state how it reads `Put` |
| CommandTree.Put | src/Parser.cpp:74-80 | the write `*_current = …`: the tree with one slot overwritten; `AtPut`, `PutPut`, `PutKeepsShape` and `PutBelow` state what it changes |
| CommandTree.AtPut | src/Parser.cpp:62-99 | writing a slot and reading it back gives what was written |
| CommandTree.SlotConcat | src/Parser.cpp:130-147 | a path below a slot is a slot of the subtree |
| CommandTree.PutConcat | src/Parser.cpp:130-147 | writing below a slot is writing the slot's subtree |
| CommandTree.PutPut | src/Parser.cpp:62-99 | the second write to a slot wins |
| CommandTree.PutKeepsShape | src/Parser.cpp:101-128 | writing below a node keeps its kind and its number of elements |
| CommandTree.PutBelow | src/Parser.cpp:168-190 | writing below a slot changes that slot's subtree only there |
| CommandTree.PutAt | src/Parser.cpp:192-204 | writing back what a slot holds changes nothing |
| CommandTree.PutElement | src/Parser.cpp:122-127 | writing element k of a sequence is writing that sequence with element k replaced |
| CommandTree.PutSecondary | src/Parser.cpp:130-147 | writing a node's secondary is writing that node with its secondary replaced |
| TreeParser.KindOf | src/Parser.cpp:68-81 | "exit" makes the Exit builtin, "test" and "[" the Test builtin, anything else an ordinary executable |
| TreeParser.Start | src/Parser.cpp:41-44 | `apply` starts from an empty root with the current slot at the root and no scopes, which is consistent |
| TreeParser.WordStep | src/Parser.cpp:62-99 | `parseWord`: a word fills an empty slot with the leaf class it names, becomes the program or one more argument, and is an error in a non-executable node; `WordStepConsistent` and `LeafFills` state what it keeps and builds |
| TreeParser.WrapRoot | src/Parser.cpp:108-120 | the root moves into element 0 of a new root Sequential whose pair is pushed, and `_isRootSequence` is set |
| TreeParser.SequenceStep | src/Parser.cpp:101-128 | `parseSequence`: an empty element is appended to the innermost scope's sequence and becomes current; `SequenceStepConsistent` and `ItemsFill` state what it keeps and builds |
| TreeParser.ConjunctionStep | src/Parser.cpp:130-147 | `parseConjunction`: the current node becomes the primary of a new Conjunctive node whose secondary is current; an error on an empty slot |
| TreeParser.DisjunctionStep | src/Parser.cpp:149-166 | `parseDisjunction`, as the conjunction with a Disjunctive node |
| TreeParser.OpenScopeStep | src/Parser.cpp:168-190 | `parseOpenScope`: an empty slot receives a one-element Sequential whose pair is pushed; an error after a command |
| TreeParser.CloseScopeStep | src/Parser.cpp:192-204 | `parseCloseScope`: the top pair is popped and its saved slot becomes current; an error on an empty stack or one holding only the root's pair |
| TreeParser.TokenStep | src/Parser.cpp:47-57 | the switch of `apply` over the token type, a None token ignored |
| TreeParser.Halt | src/Parser.cpp:46-58 | the state the loop of `apply` leaves: `Run`'s final state when every token parses, otherwise the state before the token that threw |
| TreeParser.HaltFails | src/Parser.cpp:46-58 | a failed loop stops at its first failing token: the tokens before it parse to `Halt`'s state, and that token's step from there is the exception |
| TreeParser.Run | src/Parser.cpp:46-58 | the loop of `apply`, stopping at the first exception; `RunConsistent`, `RunAppend` and `RunDepth` state what it keeps |
| TreeParser.Parse | src/Parser.cpp:39-60 | `apply` on a fresh parser; `ParseRender`, `RenderInjective` and the error lemmas state what it computes |
| TreeParser.WordStepConsistent | src/Parser.cpp:62-99 | a word keeps the slot and scope bookkeeping consistent |
| TreeParser.ConjunctionStepConsistent | src/Parser.cpp:130-147 | so does `&&` |
| TreeParser.DisjunctionStepConsistent | src/Parser.cpp:149-166 | so does `\|\|` |
| TreeParser.OpenScopeStepConsistent | src/Parser.cpp:168-190 | so does `(` |
| TreeParser.CloseScopeStepConsistent | src/Parser.cpp:192-204 | so does `)` |
| TreeParser.AppendConsistent | src/Parser.cpp:122-127 | so does appending an element to the innermost scope |
| TreeParser.SequenceStepConsistent | src/Parser.cpp:101-128 | so does `;` |
| TreeParser.TokenStepConsistent | src/Parser.cpp:47-57 | so does every token |
| TreeParser.RunConsistent | src/Parser.cpp:46-58 | the whole loop keeps the current slot a slot of the root and every scope above it |
| TreeParser.Parser.constructor | src/Parser.cpp:34-37 | a new parser holds its tokens in the start state |
| TreeParser.Parser.Apply | src/Parser.cpp:39-60 | as written: the loop starts from the parser's own root-sequence flag, which `apply` does not reset; the fields left behind are `Halt`'s state, after an exception as well |
| TreeParser.Parser.ApplyFresh | src/Parser.cpp:39-60 | corrected: every apply starts from the empty state and gives `Parse` of the tokens; the fields left behind are `Halt`'s state from the empty state |
| TreeParser.Parser.ParseToken | src/Parser.cpp:48-56 | the state after one token is `TokenStep`'s, and its error is `TokenStep`'s error; a token that throws changes no field |
| TreeParser.Parser.ParseWord | src/Parser.cpp:62-99 | the state after a word is `WordStep`'s, and nothing changes on its error |
| TreeParser.Parser.ParseSequence | src/Parser.cpp:101-128 | the state after `;` is `SequenceStep`'s |
| TreeParser.Parser.NewRootSequence | src/Parser.cpp:108-120 | with no scope open, the root is wrapped as element 0 of a new root sequence |
| TreeParser.Parser.AppendElement | src/Parser.cpp:122-127 | one empty element is appended to the innermost scope and becomes the slot |
| TreeParser.Parser.ParseConjunction | src/Parser.cpp:130-147 | the state after `&&` is `ConjunctionStep`'s, and nothing changes on its error |
| TreeParser.Parser.ParseDisjunction | src/Parser.cpp:149-166 | the state after `\|\|` is `DisjunctionStep`'s, and nothing changes on its error |
| TreeParser.Parser.ParseOpenScope | src/Parser.cpp:168-190 | the state after `(` is `OpenScopeStep`'s, and nothing changes on its error |
| TreeParser.Parser.ParseCloseScope | src/Parser.cpp:192-204 | the state after `)` is `CloseScopeStep`'s, and nothing changes on its error |
| TreeParserProperties.Words | src/Parser.cpp:93-98 | one Word token per word |
| TreeParserProperties.RunAppend | src/Parser.cpp:46-58 | the loop over two token lists is the loop over the first, then the second |
| TreeParserProperties.RunCons | src/Parser.cpp:46-58 | one step of the loop |
| TreeParserProperties.RunThrough | src/Parser.cpp:46-58 | a successful prefix and step continue into the rest |
| TreeParserProperties.ArgumentsFill | src/Parser.cpp:93-98 | later words in a slot are appended to its arguments in input order |
| TreeParserProperties.LeafFills | src/Parser.cpp:62-99 | a leaf's tokens fill an empty slot with that leaf |
| TreeParserProperties.EnterStep | src/Parser.cpp:168-190 | `(` on an empty slot installs a one-element sequence, pushes the scope and the slot, and descends into element 0 |
| TreeParserProperties.LeaveStep | src/Parser.cpp:192-204 | `)` pops the scope and restores the saved slot |
| TreeParserProperties.ScopeFills | src/Parser.cpp:168-204 | a parenthesised sequence fills a slot with that sequence |
| TreeParserProperties.UnitFills | src/Parser.cpp:62-204 | a leaf or a scope fills a slot |
| TreeParserProperties.JoinStep | src/Parser.cpp:130-166 | a connective makes the slot's node the primary of a new Conjunctive or Disjunctive node, and moves the slot to its empty secondary |
| TreeParserProperties.JoinFills | src/Parser.cpp:130-166 | a connective chain fills a slot, nested to the right |
| TreeParserProperties.ChainFills | src/Parser.cpp:130-166 | a chain fills a slot |
| TreeParserProperties.ItemFills | src/Parser.cpp:62-204 | a sequence element fills a slot |
| TreeParserProperties.ElementSlot | src/Parser.cpp:122-127 | the new last element is a slot holding null |
| TreeParserProperties.AppendStep | src/Parser.cpp:122-127 | `;` inside a scope appends exactly one empty element and moves the slot there |
| TreeParserProperties.ItemHead | src/Parser.cpp:101-128 | an element fills the last slot of the innermost scope |
| TreeParserProperties.ItemsFill | src/Parser.cpp:101-128 | elements separated by `;` fill the innermost scope's sequence in order |
| TreeParserProperties.MoreItemsFill | src/Parser.cpp:101-128 | the same for two or more elements |
| TreeParserProperties.ParseRender | src/Parser.cpp:39-60 | every tree the parser can build is parsed back from its tokens, with the root-sequence flag set exactly for a top-level sequence |
| TreeParserProperties.RenderInjective | src/Parser.cpp:39-60 | distinct such trees have distinct tokens |
| TreeParserProperties.EmptyInput | src/Parser.cpp:42-44 | no tokens give a null tree |
| TreeParserProperties.RightNested | src/Parser.cpp:130-166 | `a && b \|\| c` parses to Conj(a, Disj(b, c)) |
| TreeParserProperties.Builtins | src/Parser.cpp:68-81 | `exit 3` is the Exit builtin; `[ -e f ]` is the Test builtin with its three arguments |
| TreeParserProperties.TrailingOperators | src/Parser.cpp:101-147 | a trailing `;` or `&&` leaves a null slot in the tree |
| TreeParserProperties.EnterAtStart | src/Parser.cpp:168-190 | `(` at the start opens the root scope |
| TreeParserProperties.ScopeOfA | src/Parser.cpp:168-190 | the state after `( a` |
| TreeParserProperties.UnclosedScope | src/Parser.cpp:168-190 | an unclosed scope still gives its sequence; there is no end-of-input check |
| TreeParserProperties.ConnectiveFirst | src/Parser.cpp:135-137 | `&&` or `\|\|` on an empty slot fails with "conjunction must follow command" / "disjunction must follow command" |
| TreeParserProperties.WordAfterScope | src/Parser.cpp:86-89 | a word after `)` fails with "word in non-executable command" |
| TreeParserProperties.ScopeAfterWord | src/Parser.cpp:173-175 | `(` after a word fails with "scope must not follow command" |
| TreeParserProperties.UnbalancedClose | src/Parser.cpp:197-199 | `)` with no scope open, or with only the implicit root sequence on the stack, fails with "unbalanced closing parenthesis" |
| TreeParserProperties.StepDepth | src/Parser.cpp:168-204 | `(` adds one scope, `)` removes one, every other token keeps the depth |
| TreeParserProperties.RunDepth | src/Parser.cpp:46-58 | along the loop the closes never outnumber the opens plus the starting depth, and the final depth is the starting depth plus opens minus closes |
| TreeParserProperties.ScopesNest | src/Parser.cpp:39-60 | in every successful parse each prefix has at least as many `(` as `)`, and the scopes left open are the difference |
| TreeParserProperties.FirstApply | src/Parser.cpp:39-60 | `( a ) ; b` parses to Sequential[Sequential[a], b] and sets the root-sequence flag |
| TreeParserProperties.SecondApply | src/Parser.cpp:39-60 | with that flag set, the same tokens fail with "unbalanced closing parenthesis" |
| TreeParserProperties.FailedApplySetsFlag | src/Parser.cpp:39-58 | a failed apply leaves the flag set too: `a ; )` throws at the `)` after the `;` set it, and the next apply then fails on `( a ) ; b` |
| TreeParserProperties.ReapplyFails | src/Parser.cpp:39-44 | the two together: applying a parser twice to `( a ) ; b` fails the second time |
| TreeParserProperties.ReapplyParser | src/Parser.cpp:39-60 | the `Parser` class as written gives the tree, then the error |
| TreeParserProperties.ReapplyFreshParser | src/Parser.cpp:39-60 | with the reset, both applies give the same tree |
| TreeRun.Exec | src/SequentialCommand.cpp:25-37 | `execute` of every modelled node: a null child crashes; each node's incomplete check throws its runtime_error with the executor unchanged; a failed `creat` throws "unable to open output file" before anything is inserted; sequences, pipes and redirections run through `RunAll`, `PipeRun` and the stream's open and close; `ExecKeeps`, the Incomplete lemmas, `SequentialRunsInOrder`, `PipeOfPrograms` and the redirection lemmas state what it computes |
| TreeRun.Leaf | src/PosixExecutor.cpp:40-112 | an executable spawns one process with the current streams and gives the oracle's code, or 0 without waiting under Continue; the builtins spawn nothing and give their own codes |
| TreeRun.RunAll | src/SequentialCommand.cpp:31-36 | the children run in order with the default wait mode; an exception stops the rest; the last child's result is returned |
| TreeRun.RunStages | src/PipeCommand.cpp:103-113 | each stage runs with its pair of pipes active; all but the last under Continue, the last under Wait, whose result is returned |
| TreeRun.PipeRun | src/PipeCommand.cpp:97-116 | one pipe between each two stages is created and inserted, the stages run, and the pipes are erased after every status |
| TreeRun.Activate | src/PipeCommand.cpp:57-68 | stage i reads from the pipe before it (none for the first) and writes to the pipe after it (none for the last) |
| TreeRun.OpenInput | src/InputRedirectionCommand.cpp:32-38 | the input file stream is created, inserted into the stream set and made current |
| TreeRun.OpenOutput | src/OutputRedirectionCommand.cpp:32-38 | the output file stream is created, inserted into the stream set and made current |
| TreeRun.Flatten | src/PipeCommand.cpp:84-95 | a pipe has at least two stages, each a part of the tree |
| TreeRun.OpenPipes | src/PipeCommand.cpp:37-47 | `count` pipe resources are created |
| TreeRun.PipeIds | src/PipeCommand.cpp:43-46 | the ids of the pipes are exactly the positions from the first pipe to the last |
| TreeRunProperties.OpenPipesFresh | src/PipeCommand.cpp:37-47 | the pipe set inserts exactly its new pipes into the stream set, none of which was in it |
| TreeRunProperties.ClosePipesKeeps | src/PipeCommand.cpp:49-55 | erasing the pipes restores the stream set |
| TreeRunProperties.CloseStreamKeeps | src/InputRedirectionCommand.cpp:40-42 | erasing a redirection's stream restores the stream set |
| TreeRunProperties.ExecKeeps | src/PipeCommand.cpp:37-55 | running any modelled command forgets nothing created or spawned, keeps the stream set within what was created, and on a normal return leaves the stream set as it was |
| TreeRunProperties.RunAllKeeps | src/SequentialCommand.cpp:32-34 | the same for the children of a sequence |
| TreeRunProperties.RunStagesKeeps | src/PipeCommand.cpp:104-113 | the same for the stages of a pipe |
| TreeRunProperties.IncompleteSequential | src/SequentialCommand.cpp:27-29 | an empty sequence fails with "incomplete SequentialCommand" before anything runs |
| TreeRunProperties.IncompletePipe | src/PipeCommand.cpp:79-81 | a null primary or secondary fails with "incomplete PipeCommand" before anything is created |
| TreeRunProperties.IncompleteInputRedirection | src/InputRedirectionCommand.cpp:28-30 | a null primary or empty path fails with "incomplete InputRedirectionCommand" before any stream is created |
| TreeRunProperties.IncompleteOutputRedirection | src/OutputRedirectionCommand.cpp:28-30 | a null primary or empty path fails with "incomplete OutputRedirectionCommand" before any stream is created |
| TreeRunProperties.RunAllSnoc | src/SequentialCommand.cpp:32-34 | a child appended to a sequence runs after the others, with Wait, unless an earlier one raised |
| TreeRunProperties.SequentialRunsInOrder | src/SequentialCommand.cpp:31-36 | a sequence runs its children in list order whatever their codes, its result is the last child's, and an exception stops the rest |
| TreeRunProperties.SequentialOfOne | src/SequentialCommand.cpp:31-36 | a one-element sequence is its child run with Wait |
| TreeRunProperties.ExitStopsSequence | src/SequentialCommand.cpp:32-34 | an `exit` first in a sequence raises its code and nothing after it runs |
| TreeRunProperties.PipeChain | src/PipeCommand.cpp:84-95 | the right-nested pipe of a list of stages |
| TreeRunProperties.FlattenPipeChain | src/PipeCommand.cpp:84-95 | flattening k nested pipes gives the k primaries in order, then the final secondary |
| TreeRunProperties.PipeChainOfFlatten | src/PipeCommand.cpp:84-95 | nesting the flattened stages gives the pipe back |
| TreeRunProperties.StageSpawns | src/PipeCommand.cpp:104-113 | the spawns the stages make, one per stage in order |
| TreeRunProperties.RunStagesPrograms | src/PipeCommand.cpp:57-68 | stages of programs each spawn once, stage 0 with no input, stage i after it reading pipe i-1, each but the last writing pipe i and running with Continue, the last with no output and Wait, whose code is the result |
| TreeRunProperties.PipeOfPrograms | src/PipeCommand.cpp:77-116 | a complete pipe of programs gives `Pipeline`, whatever the caller's wait mode: n-1 pipes created, its stages spawned so wired, the last stage's code, the stream set as it was and the input on the last pipe's read end |
| TreeRunProperties.PipeExec | src/PipeCommand.cpp:77-116 | a pipe with both children runs its flattened stages over fresh pipes (`PipeRun`) |
| TreeRunProperties.PipeOutcome | src/PipeCommand.cpp:97-116 | the stages of a pipe of programs, run over fresh pipes, give the reference `Pipeline` |
| TreeRunProperties.PipeModelled | src/PipeCommand.cpp:84-95 | a pipe whose stages are leaves is modelled |
| TreeRunProperties.PipeClosesPipes | src/PipeCommand.cpp:49-55 | whatever the status, none of a complete pipe's pipes is in the stream set when it returns |
| TreeRunProperties.RunStagesLeaves | src/PipeCommand.cpp:103-113 | stages that are leaves leave the stream set as it was, normal return or not |
| TreeRunProperties.PipeOfLeaves | src/PipeCommand.cpp:77-116 | a pipe of leaves gives back the stream set it started with, whatever the status |
| TreeRunProperties.InputRedirectionScoped | src/InputRedirectionCommand.cpp:26-44 | the primary runs with one new input file stream inserted and set, in the caller's mode; the result is its status; after a normal return the input is null, the stream set is as before and the output is untouched |
| TreeRunProperties.OutputRedirectionScoped | src/OutputRedirectionCommand.cpp:26-44 | when `creat` fails, the error "unable to open output file" with the executor unchanged; otherwise the same as for input, for the output stream, with the input untouched |
| TreeRunProperties.RedirectedInputProgram | src/InputRedirectionCommand.cpp:33-43 | `prog < path` creates one input file for the path, spawns prog reading it, and returns its code with the input reset |
| TreeRunProperties.RedirectedOutputProgram | src/OutputRedirectionCommand.cpp:33-43 | `prog > path` fails with "unable to open output file" and changes nothing when `creat` fails; otherwise it creates one output file, spawns prog writing it, and returns its code with the output reset |
| TreeRunProperties.BuiltinsKeepExecutor | src/ExitBuiltinCommand.cpp:27-49 | a builtin leaves the executor unchanged, behaves the same in either mode, and raises exactly when it is `exit` |
| TreeRunProperties.PipeIgnoresMode | src/PipeCommand.cpp:104-113 | a pipe behaves the same whatever the caller's wait mode |
| TreeExecution.Executor.constructor | src/PosixExecutor.hpp:29-63 | an executor with no streams set, an empty stream set and nothing created or spawned |
| TreeExecution.Executor.CreatePipe | src/PipeCommand.cpp:43-44 | a new pipe is created at the next position; nothing else changes |
| TreeExecution.Executor.CreateInputFileStream | src/InputRedirectionCommand.cpp:33 | a new input file stream for the path; nothing else changes |
| TreeExecution.Executor.CreateOutputFileStream | src/PosixExecutorOutputFileStream.cpp:27-36 | fails exactly when `creat` cannot open the path, with the error "unable to open output file" and nothing changed; otherwise a new output file stream for the path, and nothing else changes |
| TreeExecution.Executor.Insert | src/PipeCommand.cpp:45 | the stream set gains the id; nothing else changes |
| TreeExecution.Executor.Erase | src/PipeCommand.cpp:53 | the stream set loses the id; nothing else changes |
| TreeExecution.Executor.SetInputStream | src/PipeCommand.cpp:61-62 | only the input stream changes |
| TreeExecution.Executor.SetOutputStream | src/PipeCommand.cpp:66-67 | only the output stream changes |
| TreeExecution.Executor.Spawn | src/PosixExecutor.cpp:40-112 | one spawn with the current streams and the mode is logged; Continue returns 0, Wait the process's code |
| TreeExecution.Execute | src/SequentialCommand.cpp:25-37 | running any modelled command changes the executor exactly as `Exec` says and returns its status |
| TreeExecution.ExecuteSequential | src/SequentialCommand.cpp:25-37 | the loop over the children, as `Exec` of the sequence |
| TreeExecution.FlattenPipe | src/PipeCommand.cpp:84-95 | the loop builds exactly `Flatten` of the pipe |
| TreeExecution.ExecutePipe | src/PipeCommand.cpp:77-116 | the pipe node's execute, as `Exec` of the pipe |
| TreeExecution.CreatePipes | src/PipeCommand.cpp:37-47 | the pipe set's constructor: the pipes are the next positions, created and inserted |
| TreeExecution.ErasePipes | src/PipeCommand.cpp:49-55 | the pipe set's destructor: exactly its pipes leave the stream set |
| TreeExecution.ActivateStage | src/PipeCommand.cpp:57-68 | `activate` for stage i sets the input and output of `Activate` |
| TreeExecution.RunStagesOf | src/PipeCommand.cpp:104-113 | the stage loop, as `RunStages` |
| TreeExecution.ExecuteInputRedirection | src/InputRedirectionCommand.cpp:26-44 | the input redirection's execute, as `Exec` |
| TreeExecution.ExecuteOutputRedirection | src/OutputRedirectionCommand.cpp:26-44 | the output redirection's execute, as `Exec`: the incomplete check, the failed open at line 33 that throws before the insert, then insert, set, execute, reset and erase |
| RshellArgv.CString | rshell/PosixExecutor.cpp:16-22 | a C string has `size() + 1` characters: the string, then NUL |
| RshellArgv.Terminated | rshell/PosixExecutor.cpp:52-56 | what C reads from a character array: the prefix before the first NUL |
| RshellArgv.CStringRoundTrip | rshell/PosixExecutor.cpp:16-22 | a C string reads back as its string exactly when the string holds no NUL |
| RshellArgv.CStringReads | rshell/PosixExecutor.cpp:16-22 | a C string reads back as the string cut at its first NUL |
| RshellArgv.ArgvShape | rshell/PosixExecutor.cpp:35-42 | the vector has n + 2 entries: the program at 0, the arguments at 1..n in order, and null last, with no other null |
| RshellArgv.ExecStringsOf | rshell/PosixExecutor.cpp:52-56 | `execvp` reads the program and the arguments back, in order, from the vector |
| RshellArgv.ExecStringsOfArguments | rshell/PosixExecutor.cpp:24-33 | the same for the arguments' part |
| RshellArgv.ToCString | rshell/PosixExecutor.cpp:16-22 | a new array holding exactly the C string |
| RshellArgv.ToCStrings | rshell/PosixExecutor.cpp:24-33 | one new, distinct array per string, in order |
| RshellArgv.ToArgv | rshell/PosixExecutor.cpp:35-42 | the entries of `Argv`, each a new, distinct array, null last |
| RshellArgv.ArgvPointers | rshell/PosixExecutor.cpp:52-56 | the `char*` array lists exactly the owned entries in the same order |

## Left out

- TreeExecution.Executor.CreateInputFileStream: always succeeds. The input file stream's class and the executor's `createInputFileStream` are not part of this model, so no failure to open a file for reading is modelled; `TreeRun.OpenInput` and `TreeRun.Exec` follow it.
- TreeRun.Exec: an input redirection always opens its file, as `CreateInputFileStream` above; only the output redirection's failed open is modelled.
- Process and descriptor plumbing is not part of this model: `fork`, `execvp`, `waitpid`, `dup2`, `open` and `close` in `src/PosixExecutor.cpp`, `rshell/PosixExecutor.cpp` and the stream classes. A spawn is a logged call, and its code comes from an oracle. Wait and fork errors are not modelled.
- The pipeline's stages really run at the same time. Only the order of the spawn calls and their wait modes are modelled.
- The interactive loops of `src/Shell.cpp` and `rshell/Shell.cpp` are not part of this model: reading lines, the prompt, and catching exceptions at the top level.
- Console output is left out, except that the builtins return what they would print as values.
- `stat` is an oracle from a path to an optional file kind.
- The tree execution of Conjunctive and Disjunctive nodes is not part of this model, because no source for it is shown. The tree-execution members therefore require trees without those nodes (`Modelled`).
- `src/ExecutableCommand.cpp` is not part of this model. A leaf executable is one call to the executor's `execute`.
- Ownership is left out: the destructors of the drivers, the `unique_ptr` moves, and `_root.release()` in `src/Parser.cpp`.
- The chains of the linear design and the children of a sequence are sequences, not linked nodes.
- Numbers.StoI: locales are left out. Leading whitespace is the ASCII set, and no `0x` or other base is read.
- Numbers.AtoI: `atoi` outside the 64-bit range is undefined in C. It is modelled as glibc behaves: `strtol` saturates, then the value is truncated to 32 bits.
- C++ strings may hold NUL. `RshellArgv.ExecStringsOf` requires that none does; `CStringRoundTrip` states what happens when one does.
- A stream exception thrown between a redirection's insert and its erase leaves the stream in the set. The model keeps it there too, and only promises the balanced set on a normal return.
- TreeRunProperties.ExecKeeps: promises the balanced stream set only on a normal return, because a redirection's stream stays in the set after an exception. For a pipe, `PipeClosesPipes` states that the pipe set's pipes are gone after every status, and `PipeOfLeaves` that a pipe of leaves restores the set after every status.
- TreeRunProperties.ClosePipesKeeps: states balance only for a normal return of the stages; the erasure after an exception is stated by `PipeClosesPipes` and `PipeOfLeaves`.
- Scanner.DirectCharacters: the input is modelled as characters, not as the `char` bytes of the stream, and the model assumes `char` is signed. Where it is, `src/Tokenizer.cpp:219` passes `peek()` through `char`, so the byte 0xFF equals `EOF` and ends a direct run and the line's tokens; the model treats character 255 as an ordinary direct character. Where `char` is unsigned, `EOF` becomes 255 inside `isDirect`. Then `c == EOF` at `src/Tokenizer.cpp:58` is never true, end of input reads as a direct character, and a direct run does not stop at the end of the input. The model stops there, as the signed reading does.
- Lexer.Tokenizer.DirectCharacter: follows `Scanner.DirectCharacters`, so the signed-`char` stop at byte 0xFF is not modelled.
- RshellLexerProperties.TokenizeAgreement: holds for the model's character input only. Where `char` is signed, the two lexers part at byte 0xFF, because the older lambda keeps `peek()` as an `int` (`rshell/Tokenizer.cpp:155-156`). The model does not capture that divergence.
- The tree tokenizer never produces scope, pipe or redirect tokens, and its scope level is never updated. The parser's `(`/`)` cases are modelled over tokens given directly.
- The linear design's `Command.hpp` leftovers in `src/` are not modelled separately. `src/Execution.cpp` walks the same chain type as `rshell/Execution.cpp`.

## Findings

| source | as written | input that shows it | evidently intended | confidence | as-written member | corrected member |
|---|---|---|---|---|---|---|
| src/Parser.cpp:39-44 | `apply` resets the root, the current slot and the scope stack, but not `_isRootSequence` | apply one `Parser` twice to the tokens of `( a ) ; b`: the first gives Sequential[Sequential[a], b], the second fails with "unbalanced closing parenthesis" | every `apply` starts from the empty state and gives the same tree | not executed; latent, because `src/Shell.cpp:181` builds a new `Parser` for every line | TreeParserProperties.ReapplyParser | TreeParserProperties.ReapplyFreshParser |
