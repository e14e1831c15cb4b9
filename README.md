# lsh: a verified model of the shell's read–split–execute loop

lsh is a small shell written in C (`main.c`). It loops: print a prompt,
read one line from standard input, split it into words with `strtok`, and
either run a builtin (`cd`, `help`, `exit`) or launch the program named by
the first word. This project models that loop in Dafny and proves what
each step computes. All of it lives in `main.c`:

- `lsh_read_line`, the branch with a hand-grown buffer;
- `lsh_split_line` and the `strtok` calls it makes;
- the builtin table with `lsh_num_builtins`;
- `lsh_execute`, `lsh_cd`, `lsh_help` and `lsh_exit`;
- `lsh_loop`.

The modules follow the program's structure:

- `CString` (`cstring.dfy`): the C string conventions the code relies on.
  - The `'\0'` terminator.
  - The delimiter set `LSH_TOK_DELIM` (space, tab, CR, LF, BEL).
  - `CStr`, the string a NUL-terminated buffer denotes.
  - `StrCmp`, the comparison `strcmp` performs (ISO C11 section 7.24.4.2).
- `LineReader` (`line_reader.dfy`): `lsh_read_line` as a method.
  - It reads from an input `seq<char>` through a cursor into an `array<char>`.
  - The array starts at 1024 characters and is copied into one 1024 larger whenever it fills.
  - Its specification is `NextLine`, the characters before the first newline.
- `Tokenizer` (`tokenizer.dfy`): `lsh_split_line` as a method over the line's `array<char>`.
  - It fills an `array<Slot>` that starts at 64 slots, grows by 64 and is NULL-terminated.
  - `strtok` (ISO C11 section 7.24.5.8) is a method that takes the saved position as an explicit cursor.
  - The specification is `Tokens`, the maximal non-empty runs of non-delimiters.
  - `TokensIff` characterises `Tokens` independently: a line is its tokens separated by non-empty delimiter runs.
- `Builtins` (`builtins.dfy`): the builtin table, the handlers and `lsh_execute`.
  - `lsh_execute` is a method scanning the table with `strcmp`; its specification is `Dispatch`.
  - Handlers do not perform side effects; each returns the status and an `Effect` that names what it would do.
- `ShellLoop` (`shell_loop.dfy`): `lsh_loop` as a method with a `while` loop.
  - Each iteration calls `ReadLine`, `SplitLine` and `Execute`.
  - Its specification is `RunShell`: the session is the effects of the lines executed, in order, and why the loop stopped.

The input stream is a `seq<char>` in which each `char` stands for one byte
(0..255) that `getchar` returns; its end is EOF. When `lsh_read_line`
meets EOF the process exits with success, and the model ends the session
there with `EndOfStream`.

The line reader stores every character before the newline, including any
`'\0'` read from the input. `strtok` stops at the first `'\0'`. So the
words of a line are `Tokens(CStr(line))`, and nothing after an embedded
`'\0'` is tokenized. The model follows the code here; it does not treat the
line as free of `'\0'`.

## Model

| member | source | states |
|---|---|---|
| CString.CStr | main.c:194-195 | The C string in a buffer is a prefix with no `'\0'`, followed by `'\0'` when the buffer holds one |
| CString.CStrStopsAtNul | main.c:233 | A `'\0'` at index k cuts the string there, whatever follows it |
| CString.CStrOfTerminated | main.c:194-195 | A buffer holding t and then `'\0'` denotes exactly t |
| CString.CStrOfNulFree | main.c:194-195 | A buffer with no `'\0'` denotes all of itself |
| CString.StrCmp | main.c:145 | `strcmp` returns a sign in -1..1 |
| CString.StrCmpZeroIff | main.c:145 | `strcmp` returns 0 exactly when the two strings are equal (both directions) |
| CString.StrCmpAntisymmetric | main.c:145 | Swapping the operands of `strcmp` negates its result |
| LineReader.NextLine | main.c:187-198 | A line read leaves strictly less input behind |
| LineReader.NextLineIsLine | main.c:187-198 | A line t is read, leaving rest, exactly when the input is t, a newline, then rest, and t has no newline |
| LineReader.NextLineIsEnd | main.c:191-192 | The reader meets EOF before returning exactly when no newline remains |
| LineReader.GrowChars | main.c:202-204 | The larger buffer keeps every character already stored |
| LineReader.ReadLine | main.c:174-210 | EOF is reported exactly when no newline remains. Otherwise the buffer holds the characters before the newline with `'\0'` at their count, reading resumes right after the newline, and the capacity is the least multiple of 1024 above the count |
| Tokenizer.Tokens | main.c:233-250 | The words `strtok` returns one call after another; `TokensIff` states what they are |
| Tokenizer.RunLength | main.c:233 | The leading run of non-delimiters is maximal: all its characters are non-delimiters, and a delimiter or the end follows it |
| Tokenizer.TokensAreWords | main.c:216 | Every token is non-empty and holds no delimiter |
| Tokenizer.TokensSkipBlank | main.c:233 | Leading delimiters produce no token |
| Tokenizer.TokensWordFirst | main.c:233 | A word followed by a delimiter or the end is the first token |
| Tokenizer.TokensOfLayout | main.c:233-250 | Words separated by non-empty delimiter runs tokenize to exactly those words |
| Tokenizer.LayoutOfTokens | main.c:233-250 | Every line is its tokens separated by non-empty delimiter runs, with optional runs at both ends |
| Tokenizer.TokensIff | main.c:233-250 | `Tokens(s) == ts` exactly when s is the words ts laid out between delimiter runs (both directions) |
| Tokenizer.TokensEmptyIff | main.c:233-234 | A line has no tokens exactly when it is empty or all delimiters |
| Tokenizer.TokensAreFromLine | main.c:233-250 | Every character of every token comes from the line |
| Tokenizer.TokensExample | main.c:216 | `"  ls   -la\t/tmp  "` tokenizes to `["ls", "-la", "/tmp"]` |
| Tokenizer.ArgvOf | main.c:251 | The argument vector a slot array denotes: entry i is the text slot i points at, and the vector ends at the first NULL slot |
| Tokenizer.ArgvOfTerminated | main.c:251 | A slot array holding n tokens and NULL at index n denotes exactly those n tokens |
| Tokenizer.SkipDelims | main.c:233 | The first index at or after the cursor that is not a delimiter, or the terminator |
| Tokenizer.SpanToken | main.c:233 | The end of the run of non-delimiters that starts at the token |
| Tokenizer.StrTok | main.c:233 | With no token, the rest of the string is all delimiters, the line is unchanged and scanning stops at the terminator. With a token, only delimiters precede it from the cursor, it is a maximal non-empty run of non-delimiters and the first token of the rest of the string; a delimiter right after it becomes `'\0'` and nothing else changes; scanning resumes past that delimiter, or at the terminator |
| Tokenizer.SlotCapacityStep | main.c:236-239 | Counting one more token keeps the capacity the least multiple of 64 above the count, growing by 64 when the count reaches it |
| Tokenizer.GrowSlots | main.c:238-241 | The larger token array keeps every slot already stored |
| Tokenizer.PushSlot | main.c:235-247 | The token is appended after the stored ones; the array grows by 64 exactly when the count reaches its size |
| Tokenizer.ClearEndsChars | main.c:233-249 | The line with `'\0'` written at the token ends holds `'\0'` exactly where some token ends and the original character everywhere else |
| Tokenizer.RunsExtend | main.c:235 | A maximal run found after the cursor, past the end of every token stored so far, extends the stored runs in order |
| Tokenizer.PlaceNext | main.c:233-249 | After a `strtok` call the tokens so far, with the one it found, are maximal runs of the original line in order, and the line is the original with `'\0'` at each of their ends |
| Tokenizer.SplitStep | main.c:235-249 | One loop turn stores the token, keeps the capacity the least multiple of 64 above the count, moves the cursor forward unless no token remains, and keeps every slot stored so far a token of the line at its run |
| Tokenizer.SplitDone | main.c:251 | When `strtok` finds nothing more, the slots before the NULL are the tokens of the C string in order, at their runs, and the line is the original with `'\0'` at each token end |
| Tokenizer.SplitLine | main.c:222-253 | The token slots before index n are exactly `Tokens` of the line's C string, in order: each is a maximal run of non-delimiters of the original line and ends before the next one starts, so no two slots overlap. Slot n is NULL and n is below the capacity. The new line is the original with `'\0'` at the end of each token and no other change |
| Builtins.NumBuiltins | main.c:51-53 | There are three builtins, and the name and handler tables have that length |
| Builtins.LookupFrom | main.c:144-148 | Returns the first entry at or after i whose name equals the word, or none if no such entry exists |
| Builtins.Lookup | main.c:144-148 | A builtin is found exactly when the word is one of the names, and the entry found carries that name |
| Builtins.CdBuiltin | main.c:61-71 | `cd` continues. Without a directory it reports usage and changes nothing; with one it changes to `args[1]` |
| Builtins.HelpBuiltin | main.c:77-91 | `help` continues and lists the builtin names in table order |
| Builtins.ExitBuiltin | main.c:97-100 | `exit` returns 0 and does nothing else |
| Builtins.NamesDistinct | main.c:39-43 | The builtin names are pairwise distinct, so at most one entry matches a word |
| Builtins.LaunchProgram | main.c:105-128 | Launching continues with the whole argument vector |
| Builtins.RunBuiltin | main.c:146 | A builtin's handler returns 0 exactly when the builtin is `exit`, and `exit` does nothing else |
| Builtins.Dispatch | main.c:136-152 | An empty command continues with no effect; a first word that names builtin i runs handler i on all the words; any other first word launches that program with all the words |
| Builtins.Execute | main.c:136-152 | The table scan returns what `Dispatch` says: an empty command continues; otherwise the first matching builtin runs, else the program is launched |
| Builtins.DispatchStatus | main.c:136-152 | The status is 0 exactly when the first word is `exit`, whatever follows, and 1 otherwise |
| Builtins.DispatchCd | main.c:61-71 | `cd` alone reports usage; `cd d` changes to d; both continue |
| ShellLoop.Lines | main.c:187-198 | The lines `lsh_read_line` returns one call after another until EOF |
| ShellLoop.LinesCount | main.c:187-198 | There are exactly as many lines as newlines in the input |
| ShellLoop.LinesCoverInput | main.c:263-265 | The lines read, each with its newline, are a prefix of the input, and no newline remains after them |
| ShellLoop.RunLines | main.c:263-273 | A session executes at most one command per line, and every line when it ends at EOF |
| ShellLoop.RunShell | main.c:257-274 | The session of an input stream is the session of its lines |
| ShellLoop.CommandsPerNewline | main.c:263-273 | The shell executes at most one command per newline of the input, and exactly one per newline when it ends at EOF |
| ShellLoop.RunFirstLine | main.c:263-273 | The first line executes; the loop ends after it when its status is 0 and otherwise goes on with the next line |
| ShellLoop.StopsAtFirstExit | main.c:263-273 | The loop stops after the first line whose first word is `exit`, having executed exactly the lines up to it |
| ShellLoop.StoppedByExit | main.c:263-273 | A session that ended on a command ended after its last executed line, which is the first line whose first word is `exit` |
| ShellLoop.RunsToEndWithoutExit | main.c:263-273 | Without an `exit` line every line executes and the loop ends at EOF |
| ShellLoop.EffectsInOrder | main.c:263-273 | The i-th effect of a session is the effect of executing the i-th line |
| ShellLoop.BufferArgv | main.c:265-266 | A buffer holding line t and then `'\0'` splits into the words of t |
| ShellLoop.LinesAfterRead | main.c:265 | After one line is read, the lines from the old position are that line followed by the lines from the new one |
| ShellLoop.ReadEnd | main.c:191-192 | EOF at the loop's position ends the session with the effects so far |
| ShellLoop.ReadExecute | main.c:265-273 | Executing the line read either ends the session (status 0) or keeps the loop invariant at the next line |
| ShellLoop.Loop | main.c:257-274 | The loop's session is `RunShell` of the input |
| ShellLoop.ArgvOfWord | main.c:233-250 | A line made of one word splits into that word alone |
| ShellLoop.LinesStep | main.c:187-198 | A line, a newline and a rest give that line followed by the lines of the rest |
| ShellLoop.ExampleLines | main.c:187-198 | `"help\nexit\nls\n"` holds the lines `help`, `exit`, `ls` |
| ShellLoop.DispatchHelpLine | main.c:77-91 | The line `help` lists the builtins and continues |
| ShellLoop.DispatchExitLine | main.c:97-100 | The line `exit` returns 0 with no other effect |
| ShellLoop.HelpThenExitLines | main.c:263-273 | A line that continues and then a line that returns 0 give a session of those two effects that ends on the command |
| ShellLoop.HelpThenExitInput | main.c:263-273 | An input starting with two such lines runs those two and stops, whatever follows |
| ShellLoop.HelpThenExit | main.c:257-274 | The input `help`, `exit`, then anything lists the builtins, then ends the shell; no later line runs |

## Left out

- `lsh_launch` (main.c:105-128): fork, execvp and waitpid are process control. `Builtins.LaunchProgram` records the launch and returns 1. As written, the `do {` at main.c:122 is commented out, so `return 1;` at main.c:127 sits outside any function and the file does not compile. The wait loop is not modelled.
- `chdir`, `perror`, `fprintf` and `printf` (main.c:64-67, 80-88, 264): output and OS calls. `cd` records the directory it would change to, `help` records the names it lists, and the prompt is not modelled.
- The `LSH_USE_STD_GETLINE` branch (main.c:161-172): it wraps the library `getline`, whose behaviour is not part of this model.
- Allocation failure (main.c:180-184, 205-208, 228-231, 242-246): `malloc` and `realloc` are taken to succeed.
- `free` in `lsh_loop` (main.c:271-272) and `main` (main.c:276-287): no behaviour to state.
- `strtok`'s hidden static pointer is an explicit cursor that `SplitLine` passes back to `StrTok`.
- The slots that `malloc` and `realloc` leave uninitialised in the token array are NULL in the model. Only slots 0 to n are ever read, so this changes no result.
- The 32-bit `int` counters `bufsize` and `position` are unbounded integers; overflow on lines of over 2^31 characters or tokens is not modelled.
- A read error other than EOF is not modelled; `getchar` is taken to return a character or EOF.
- CString.StrCmp: returns -1, 0 or 1, where the C function may return any negative or positive value. Only the sign and the zero case are used.
- Tokenizer.Tokens, ShellLoop.Lines and ShellLoop.RunShell: carry no `ensures` of their own, to keep the proofs that use them small. What they mean is stated by `TokensIff`, `LinesCount`, `LinesCoverInput` and `CommandsPerNewline`.
- Builtins.Execute: takes the argument vector as a sequence of strings, the tokens before the NULL slot. `ShellLoop.Loop` builds it from the line and slot arrays with `ArgvOf`.
