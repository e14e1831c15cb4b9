/**
 * The builtin table and the dispatcher: `lsh_execute` scans the three-entry
 * table with `strcmp` and runs the first matching handler, or launches a
 * program. Every path returns 1 (keep looping) except the `exit` builtin,
 * which returns 0.
 *
 * Side effects are not performed here; each call reports the one it would
 * perform as an `Effect`.
 */
module Builtins {
  import opened CString

  /** The status `lsh_execute` returns: 1 keeps the shell looping, 0 ends it. */
  const Continue: int := 1
  const Terminate: int := 0

  /** The handlers of builtin_func, in table order. */
  datatype Builtin = Cd | Help | Exit

  /** builtin_str: the builtin names, parallel to BuiltinFunc. */
  const BuiltinStr: seq<seq<char>> := ["cd", "help", "exit"]

  /** builtin_func: the builtin handlers, parallel to BuiltinStr. */
  const BuiltinFunc: seq<Builtin> := [Cd, Help, Exit]

  /** The side effect of executing one command line. */
  datatype Effect =
    | Nothing                              // an empty command, or `exit`
    | CdUsage                              // `cd` without a directory: a usage diagnostic, no change
    | ChangeDir(path: seq<char>)           // `cd path`: chdir(path), with a diagnostic if it fails
    | ListBuiltins(names: seq<seq<char>>)  // `help`: the banner, listing these names in order
    | Launch(argv: seq<seq<char>>)         // any other command: fork, execvp(argv[0], argv), wait

  datatype Outcome = Outcome(status: int, effect: Effect)

  datatype Option<T> = None | Some(value: T)

  /** lsh_num_builtins: the number of entries of the table. */
  function NumBuiltins(): (n: nat)
    ensures n == |BuiltinStr| == |BuiltinFunc|
    ensures n == 3
  {
    |BuiltinStr|
  }

  /** The index of the first table entry, at or after i, whose name `strcmp` finds equal to `name`. */
  function LookupFrom(name: seq<char>, i: nat): (r: Option<nat>)
    requires i <= NumBuiltins()
    ensures r.Some? ==> i <= r.value < NumBuiltins() && BuiltinStr[r.value] == name
    ensures r.Some? ==> forall j :: i <= j < r.value ==> BuiltinStr[j] != name
    ensures r.None? ==> forall j :: i <= j < NumBuiltins() ==> BuiltinStr[j] != name
    decreases NumBuiltins() - i
  {
    if i == NumBuiltins() then None
    else if StrCmp(name, BuiltinStr[i]) == 0 then
      StrCmpZeroIff(name, BuiltinStr[i]);
      Some(i)
    else
      StrCmpZeroIff(name, BuiltinStr[i]);
      LookupFrom(name, i + 1)
  }

  /** The table lookup of lsh_execute: the first entry named `name`, if any. */
  function Lookup(name: seq<char>): (r: Option<nat>)
    ensures r.Some? <==> name in BuiltinStr
    ensures r.Some? ==> r.value < NumBuiltins() && BuiltinStr[r.value] == name
  {
    LookupFrom(name, 0)
  }

  /** lsh_cd: without args[1] a usage diagnostic and no directory change; otherwise chdir(args[1]). */
  function CdBuiltin(args: seq<seq<char>>): (o: Outcome)
    requires |args| >= 1
    ensures o.status == Continue
    ensures o.effect == CdUsage <==> |args| == 1
    ensures o.effect.ChangeDir? <==> |args| >= 2
    ensures o.effect.ChangeDir? ==> o.effect.path == args[1]
  {
    if |args| == 1 then Outcome(Continue, CdUsage) else Outcome(Continue, ChangeDir(args[1]))
  }

  /** lsh_help: prints the banner with the builtin names one per line, in table order. */
  method HelpBuiltin(args: seq<seq<char>>) returns (o: Outcome)
    ensures o.status == Continue
    ensures o.effect == ListBuiltins(BuiltinStr)
  {
    var listed: seq<seq<char>> := [];
    for i := 0 to NumBuiltins()
      invariant listed == BuiltinStr[..i]
    {
      listed := listed + [BuiltinStr[i]];
    }
    o := Outcome(Continue, ListBuiltins(listed));
  }

  /** lsh_exit: ignores its arguments and ends the shell. */
  function ExitBuiltin(args: seq<seq<char>>): (o: Outcome)
    ensures o.status == Terminate && o.effect == Nothing
  {
    Outcome(Terminate, Nothing)
  }

  /**
   * lsh_launch: runs the program args[0] with argument vector args in a child
   * process and waits for it. Process control is outside this model: the
   * call is recorded, and the shell always continues.
   */
  function LaunchProgram(args: seq<seq<char>>): (o: Outcome)
    ensures o.status == Continue && o.effect == Launch(args)
  {
    Outcome(Continue, Launch(args))
  }

  /** What calling a builtin's handler yields: only `exit` ends the shell, and it does nothing else. */
  function RunBuiltin(b: Builtin, args: seq<seq<char>>): (o: Outcome)
    requires |args| >= 1
    ensures o.status == Terminate <==> b == Exit
    ensures b == Exit ==> o.effect == Nothing
  {
    match b
    case Cd => CdBuiltin(args)
    case Help => Outcome(Continue, ListBuiltins(BuiltinStr))
    case Exit => ExitBuiltin(args)
  }

  /** No two builtins share a name, so the first entry named `name` is the only one. */
  lemma NamesDistinct()
    ensures forall i, j :: 0 <= i < j < NumBuiltins() ==> BuiltinStr[i] != BuiltinStr[j]
  {
    assert BuiltinStr[0] == "cd" && BuiltinStr[1] == "help" && BuiltinStr[2] == "exit";
    assert "cd"[0] != "help"[0] && "cd"[0] != "exit"[0] && "help"[0] != "exit"[0];
  }

  /**
   * The meaning of lsh_execute on the argument vector `args` (the tokens
   * before the NULL sentinel): an empty command continues with no effect; a
   * first word that names a builtin runs that builtin's handler; any other
   * first word launches the program with all the words.
   */
  function Dispatch(args: seq<seq<char>>): (o: Outcome)
    ensures |args| == 0 ==> o == Outcome(Continue, Nothing)
    ensures forall i :: 0 <= i < NumBuiltins() && |args| > 0 && BuiltinStr[i] == args[0] ==>
              o == RunBuiltin(BuiltinFunc[i], args)
    ensures |args| > 0 && args[0] !in BuiltinStr ==> o == Outcome(Continue, Launch(args))
  {
    if |args| == 0 then Outcome(Continue, Nothing)
    else match Lookup(args[0])
      case Some(i) => NamesDistinct(); RunBuiltin(BuiltinFunc[i], args)
      case None => LaunchProgram(args)
  }

  /**
   * lsh_execute: an empty command continues at once; otherwise the first
   * table entry whose name equals args[0] runs its handler, and if none
   * matches the program is launched.
   */
  method Execute(args: seq<seq<char>>) returns (o: Outcome)
    ensures o == Dispatch(args)
  {
    if |args| == 0 {
      return Outcome(Continue, Nothing);
    }
    for i := 0 to NumBuiltins()
      invariant LookupFrom(args[0], i) == Lookup(args[0])
    {
      if StrCmp(args[0], BuiltinStr[i]) == 0 {
        match BuiltinFunc[i] {
          case Cd => o := CdBuiltin(args);
          case Help => o := HelpBuiltin(args);
          case Exit => o := ExitBuiltin(args);
        }
        return;
      }
    }
    o := LaunchProgram(args);
  }

  /** The shell stops exactly on a command whose first word is `exit`, whatever follows; all else continues. */
  lemma DispatchStatus(args: seq<seq<char>>)
    ensures Dispatch(args).status == Terminate <==> |args| > 0 && args[0] == "exit"
    ensures Dispatch(args).status == Continue <==> !(|args| > 0 && args[0] == "exit")
  {
    if |args| > 0 {
      match Lookup(args[0])
      case Some(i) =>
        assert BuiltinStr[i] == args[0];
      case None =>
    }
  }

  /** `cd` without a directory changes nothing; with one it asks for exactly that directory. */
  lemma DispatchCd(args: seq<seq<char>>)
    requires |args| > 0 && args[0] == "cd"
    ensures Dispatch(args).status == Continue
    ensures |args| == 1 ==> Dispatch(args).effect == CdUsage
    ensures |args| >= 2 ==> Dispatch(args).effect == ChangeDir(args[1])
  {
    assert BuiltinStr[0] == "cd";
  }
}
