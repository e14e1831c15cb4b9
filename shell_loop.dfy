/**
 * The main loop `lsh_loop`: prompt, read a line, split it, execute it, and
 * repeat while the status is non-zero. The process also ends, with success,
 * when the reader meets end of input.
 */
module ShellLoop {
  import opened CString
  import opened LineReader
  import opened Tokenizer
  import opened Builtins

  /** The argument vector the shell makes of a line read from the input. */
  function Argv(line: seq<char>): seq<seq<char>>
  {
    Tokens(CStr(line))
  }

  /** A line whose first word is `exit`. */
  predicate IsExitLine(line: seq<char>)
  {
    var args := Argv(line);
    |args| > 0 && args[0] == "exit"
  }

  /** The complete lines of the input, in order; characters after the last newline form no line. */
  function Lines(input: seq<char>): seq<seq<char>>
    decreases |input|
  {
    match NextLine(input)
    case EndOfInput => []
    case Line(t, rest) => [t] + Lines(rest)
  }

  /** There is one complete line per newline of the input. */
  lemma {:induction false} LinesCount(input: seq<char>)
    ensures |Lines(input)| == multiset(input)['\n']
    decreases |input|
  {
    match NextLine(input)
    case EndOfInput =>
      NextLineIsEnd(input);
    case Line(t, rest) =>
      NextLineIsLine(input, t, rest);
      LinesCount(rest);
      assert multiset(input) == multiset(t) + multiset(['\n']) + multiset(rest) by {
        assert input == t + ['\n'] + rest;
      }
  }

  /** Each line followed by its newline. */
  function JoinLines(lines: seq<seq<char>>): seq<char>
  {
    if lines == [] then [] else lines[0] + ['\n'] + JoinLines(lines[1..])
  }

  /** The input is its complete lines, each with its newline, then a tail with no newline. */
  lemma {:induction false} LinesCoverInput(input: seq<char>)
    ensures forall i :: 0 <= i < |Lines(input)| ==> '\n' !in Lines(input)[i]
    ensures JoinLines(Lines(input)) <= input
    ensures '\n' !in input[|JoinLines(Lines(input))|..]
    decreases |input|
  {
    match NextLine(input)
    case EndOfInput =>
      NextLineIsEnd(input);
    case Line(t, rest) =>
      NextLineIsLine(input, t, rest);
      LinesCoverInput(rest);
      var ls := Lines(input);
      assert ls == [t] + Lines(rest);
      assert ls[1..] == Lines(rest);
      assert JoinLines(ls) == t + ['\n'] + JoinLines(Lines(rest));
      var k := |t| + 1;
      assert input[k..] == rest;
      assert input[|JoinLines(ls)|..] == rest[|JoinLines(Lines(rest))|..];
  }

  /** Why the loop ended: the reader met end of input, or a command returned status 0. */
  datatype Stop = EndOfStream | ExitCommand

  /** One run of the shell: how it stopped, and the effect of each line it executed, in order. */
  datatype Session = Session(stop: Stop, effects: seq<Effect>)

  /**
   * The shell run on a sequence of complete lines: it executes lines in
   * order, at most one effect per line, and it reaches end of input only
   * after executing every line.
   */
  function RunLines(lines: seq<seq<char>>): (s: Session)
    ensures |s.effects| <= |lines|
    ensures s.stop == EndOfStream ==> |s.effects| == |lines|
  {
    if lines == [] then Session(EndOfStream, [])
    else
      var o := Dispatch(Argv(lines[0]));
      if o.status == 0 then Session(ExitCommand, [o.effect])
      else
        var later := RunLines(lines[1..]);
        Session(later.stop, [o.effect] + later.effects)
  }

  /** The shell run on a whole input stream. */
  function RunShell(input: seq<char>): Session
  {
    RunLines(Lines(input))
  }

  /** The shell executes at most one command per newline, and one per newline when it reaches end of input. */
  lemma CommandsPerNewline(input: seq<char>)
    ensures |RunShell(input).effects| <= multiset(input)['\n']
    ensures RunShell(input).stop == EndOfStream ==> |RunShell(input).effects| == multiset(input)['\n']
  {
    LinesCount(input);
  }

  /** Effects of lines executed earlier, before a session. */
  function Prepend(effects: seq<Effect>, s: Session): Session
  {
    Session(s.stop, effects + s.effects)
  }

  /** Running a non-empty list of lines: the first line executes, then the rest run unless it returned 0. */
  lemma RunFirstLine(t: seq<char>, rest: seq<seq<char>>)
    ensures var o := Dispatch(Argv(t));
      RunLines([t] + rest) == if o.status == 0 then Session(ExitCommand, [o.effect])
                              else Prepend([o.effect], RunLines(rest))
  {
    assert ([t] + rest)[0] == t && ([t] + rest)[1..] == rest;
  }

  /** The shell stops right after the first line whose first word is `exit`. */
  lemma {:induction false} StopsAtFirstExit(lines: seq<seq<char>>, k: nat)
    requires k < |lines| && IsExitLine(lines[k])
    requires forall j :: 0 <= j < k ==> !IsExitLine(lines[j])
    ensures RunLines(lines).stop == ExitCommand
    ensures |RunLines(lines).effects| == k + 1
  {
    DispatchStatus(Argv(lines[0]));
    if k > 0 {
      StopsAtFirstExit(lines[1..], k - 1);
    }
  }

  /** A session that ended on a command ended right after the first line whose first word is `exit`. */
  lemma {:induction false} StoppedByExit(lines: seq<seq<char>>)
    requires RunLines(lines).stop == ExitCommand
    ensures 0 < |RunLines(lines).effects| <= |lines|
    ensures IsExitLine(lines[|RunLines(lines).effects| - 1])
    ensures forall j :: 0 <= j < |RunLines(lines).effects| - 1 ==> !IsExitLine(lines[j])
  {
    var o := Dispatch(Argv(lines[0]));
    assert o.status == Terminate <==> IsExitLine(lines[0]) by { DispatchStatus(Argv(lines[0])); }
    if o.status != Terminate {
      var later := RunLines(lines[1..]);
      StoppedByExit(lines[1..]);
      assert RunLines(lines).effects == [o.effect] + later.effects;
      forall j | 0 <= j < |RunLines(lines).effects| - 1 ensures !IsExitLine(lines[j]) {
        if j > 0 {
          assert lines[j] == lines[1..][j - 1];
        }
      }
    }
  }

  /** Without an `exit` line the shell executes every line and stops at end of input. */
  lemma {:induction false} RunsToEndWithoutExit(lines: seq<seq<char>>)
    requires forall j :: 0 <= j < |lines| ==> !IsExitLine(lines[j])
    ensures RunLines(lines).stop == EndOfStream
    ensures |RunLines(lines).effects| == |lines|
  {
    if lines != [] {
      DispatchStatus(Argv(lines[0]));
      RunsToEndWithoutExit(lines[1..]);
    }
  }

  /** The i-th effect of a session is that of executing the i-th line. */
  lemma {:induction false} EffectsInOrder(lines: seq<seq<char>>, i: nat)
    requires i < |RunLines(lines).effects|
    ensures i < |lines| && RunLines(lines).effects[i] == Dispatch(Argv(lines[i])).effect
  {
    if lines != [] {
      assert lines == [lines[0]] + lines[1..];
      RunFirstLine(lines[0], lines[1..]);
      if i > 0 {
        EffectsInOrder(lines[1..], i - 1);
      }
    }
  }

  /** A buffer holding the line t before its terminator yields the argument vector of t. */
  lemma BufferArgv(buffer: seq<char>, len: nat, t: seq<char>)
    requires len < |buffer| && buffer[len] == Nul && buffer[..len] == t
    ensures Tokens(CStr(buffer)) == Argv(t)
  {
    CStrStopsAtNul(buffer, len);
  }

  /** After a line is read, the complete lines from the old position are that line and those from the new one. */
  lemma LinesAfterRead(input: seq<char>, at: nat, next: nat)
    requires at <= next <= |input|
    requires NextLine(input[at..]).Line? && input[next..] == NextLine(input[at..]).rest
    ensures Lines(input[at..]) == [NextLine(input[at..]).text] + Lines(input[next..])
  {
  }

  /** The loop's invariant: what is left of the session is the run of the lines from `at` on. */
  ghost predicate LoopState(input: seq<char>, at: nat, effects: seq<Effect>)
  {
    at <= |input| && RunShell(input) == Prepend(effects, RunLines(Lines(input[at..])))
  }

  /** End of input at the loop's position: the session ends with the effects so far. */
  lemma ReadEnd(input: seq<char>, at: nat, effects: seq<Effect>)
    requires LoopState(input, at, effects) && NextLine(input[at..]) == EndOfInput
    ensures RunShell(input) == Session(EndOfStream, effects)
  {
    assert effects + [] == effects;
  }

  /**
   * Executing the line read from `at`, which continues at `next`: status 0
   * ends the session after its effect; any other status leaves the loop's
   * invariant to hold at `next`.
   */
  lemma ReadExecute(input: seq<char>, at: nat, next: nat, effects: seq<Effect>, o: Outcome)
    requires LoopState(input, at, effects) && at <= next <= |input|
    requires NextLine(input[at..]).Line? && input[next..] == NextLine(input[at..]).rest
    requires o == Dispatch(Argv(NextLine(input[at..]).text))
    ensures o.status == 0 ==> RunShell(input) == Session(ExitCommand, effects + [o.effect])
    ensures o.status != 0 ==> LoopState(input, next, effects + [o.effect])
  {
    var t, rest := NextLine(input[at..]).text, Lines(input[next..]);
    LinesAfterRead(input, at, next);
    RunFirstLine(t, rest);
    if o.status != 0 {
      var later := RunLines(rest);
      assert effects + ([o.effect] + later.effects) == effects + [o.effect] + later.effects;
    }
  }

  /**
   * lsh_loop: do { read a line; split it; execute it } while (status).
   * Reading starts at the beginning of `input`; the prompt is output only.
   */
  method Loop(input: seq<char>) returns (session: Session)
    ensures session == RunShell(input)
  {
    var at := 0;
    var effects: seq<Effect> := [];
    while true
      invariant LoopState(input, at, effects)
      decreases |input| - at
    {
      var eof, line, len, next := ReadLine(input, at);
      if eof {
        // lsh_read_line exits the process with success
        ReadEnd(input, at, effects);
        return Session(EndOfStream, effects);
      }
      ghost var buffer := line[..];
      assert buffer[len] in buffer;
      var tokens, n := SplitLine(line);
      var args := ArgvOf(line[..], tokens[..]);
      BufferArgv(buffer, len, NextLine(input[at..]).text);
      var o := Execute(args);
      ReadExecute(input, at, next, effects, o);
      effects := effects + [o.effect];
      at := next;
      if o.status == 0 {
        return Session(ExitCommand, effects);
      }
    }
  }

  /** A line holding one word and nothing else has that word as its argument vector. */
  lemma ArgvOfWord(w: seq<char>)
    requires Word(w) && Nul !in w
    ensures Argv(w) == [w]
  {
    CStrOfNulFree(w);
    TokensOfLayout([[], []], [w]);
    assert Interleave([[], []], [w]) == w;
  }

  /** The complete line after which a stream continues with `rest`. */
  lemma LinesStep(input: seq<char>, t: seq<char>, rest: seq<char>)
    requires input == t + ['\n'] + rest && '\n' !in t
    ensures Lines(input) == [t] + Lines(rest)
  {
    NextLineIsLine(input, t, rest);
  }

  /** The input "help\nexit\nls\n" holds three complete lines. */
  lemma ExampleLines()
    ensures Lines("help\nexit\nls\n") == ["help", "exit", "ls"]
  {
    var s3: seq<char> := "ls" + ['\n'];
    var s2: seq<char> := "exit" + ['\n'] + s3;
    var s1: seq<char> := "help" + ['\n'] + s2;
    LinesStep(s3, "ls", []);
    LinesStep(s2, "exit", s3);
    LinesStep(s1, "help", s2);
    NextLineIsEnd([]);
    assert Lines([]) == [];
    assert Lines(s3) == ["ls"];
    assert Lines(s2) == ["exit", "ls"];
    assert Lines(s1) == ["help", "exit", "ls"];
    assert s1 == "help\nexit\nls\n";
  }

  /** `help` on its own line is not `exit`; it lists the builtins and keeps the shell running. */
  lemma DispatchHelpLine()
    ensures Dispatch(Argv("help")) == Outcome(Continue, ListBuiltins(BuiltinStr))
    ensures !IsExitLine("help")
  {
    ArgvOfWord("help");
    assert BuiltinStr[1] == "help";
    assert Lookup("help") == Some(1);
  }

  /** `exit` on its own line is an `exit` line; it stops the shell with no other effect. */
  lemma DispatchExitLine()
    ensures Dispatch(Argv("exit")) == Outcome(Terminate, Nothing)
    ensures IsExitLine("exit")
  {
    ArgvOfWord("exit");
    assert BuiltinStr[2] == "exit";
    assert Lookup("exit") == Some(2);
  }

  /** A line that is not `exit`, then one that is: the session is the effects of those two lines and ends on the command. */
  lemma HelpThenExitLines(lines: seq<seq<char>>)
    requires |lines| >= 2
    requires !IsExitLine(lines[0]) && IsExitLine(lines[1])
    ensures RunLines(lines).stop == ExitCommand
    ensures RunLines(lines).effects == [Dispatch(Argv(lines[0])).effect, Dispatch(Argv(lines[1])).effect]
  {
    var first, second := Dispatch(Argv(lines[0])), Dispatch(Argv(lines[1]));
    assert first.status != Terminate by { DispatchStatus(Argv(lines[0])); }
    assert second.status == Terminate by { DispatchStatus(Argv(lines[1])); }
    var rest := lines[1..];
    assert rest[0] == lines[1];
    assert RunLines(rest) == Session(ExitCommand, [second.effect]);
  }

  /** An input whose first line is not `exit` and whose second is runs those two lines and stops, whatever follows. */
  lemma HelpThenExitInput(h: seq<char>, e: seq<char>, rest: seq<char>)
    requires '\n' !in h && '\n' !in e
    requires !IsExitLine(h) && IsExitLine(e)
    ensures RunShell(h + "\n" + e + "\n" + rest) == Session(ExitCommand, [Dispatch(Argv(h)).effect, Dispatch(Argv(e)).effect])
  {
    var s2 := e + ['\n'] + rest;
    var s1 := h + ['\n'] + s2;
    LinesStep(s2, e, rest);
    LinesStep(s1, h, s2);
    HelpThenExitLines(Lines(s1));
    assert s1 == h + "\n" + e + "\n" + rest;
  }

  /** Whatever follows them, the lines `help` and `exit` list the builtins and end the shell after the second line. */
  lemma HelpThenExit(rest: seq<char>)
    ensures RunShell("help" + "\n" + "exit" + "\n" + rest) == Session(ExitCommand, [ListBuiltins(BuiltinStr), Nothing])
  {
    DispatchHelpLine();
    DispatchExitLine();
    HelpThenExitInput("help", "exit", rest);
  }
}
