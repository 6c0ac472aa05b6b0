/**
 * The `run` command of the build scripts: `waf run <program> <args...>` builds the
 * project, then runs a program it built. The command line is split at the first
 * `run`, programs built by link tasks are registered by target name, and the
 * command to run is the program's path followed by its arguments, where an
 * argument with a space is shell-quoted.
 *
 * `os.path.isabs`, `os.path.relpath` and `pipes.quote` are taken as given
 * functions; starting the command (`subprocess.call`) is not modelled.
 */
module RunCommand {
  import opened Wrappers

  /** How `filter_arguments` splits the command line. */
  datatype ArgSplit =
    | NoRun                                                   // no "run": nothing to do
    | MissingProgram                                          // "run" is the last argument: IndexError
    | Split(kept: seq<string>, program: string, args: seq<string>)

  /** The position of the first "run", as `list.index` finds it. */
  function IndexOfRun(argv: seq<string>): (i: nat)
    requires "run" in argv
    ensures i < |argv| && argv[i] == "run" && "run" !in argv[..i]
  {
    if argv[0] == "run" then 0
    else
      assert argv == [argv[0]] + argv[1..];
      1 + IndexOfRun(argv[1..])
  }

  /** What `filter_arguments` makes of `argv`. */
  function SplitArguments(argv: seq<string>): (r: ArgSplit)
    ensures r.NoRun? <==> "run" !in argv
    ensures r.MissingProgram? <==> "run" in argv && IndexOfRun(argv) == |argv| - 1
    ensures r.Split? ==>
      && r.kept + [r.program] + r.args == argv
      && |r.kept| > 0 && r.kept[|r.kept| - 1] == "run" && "run" !in r.kept[..|r.kept| - 1]
  {
    if "run" !in argv then NoRun
    else
      var i := IndexOfRun(argv);
      if i + 1 >= |argv| then MissingProgram
      else
        assert argv[..i + 1] + [argv[i + 1]] + argv[i + 2..] == argv;
        assert argv[..i + 1][..i] == argv[..i];
        Split(argv[..i + 1], argv[i + 1], argv[i + 2..])
  }

  /** The split is the first "run", the name after it, and everything after that. */
  lemma SplitIsAtFirstRun(argv: seq<string>)
    requires "run" in argv && IndexOfRun(argv) + 1 < |argv|
    ensures var i := IndexOfRun(argv);
      SplitArguments(argv) == Split(argv[..i + 1], argv[i + 1], argv[i + 2..])
  {
  }

  /** `find_program`: the registered path of a program, or the name itself. */
  function FindProgram(programs: map<string, string>, name: string): (path: string)
    ensures name in programs ==> path == programs[name]
    ensures name !in programs ==> path == name
  {
    if name in programs then programs[name] else name
  }

  /** A build task generator, as far as `add_program_taskgen` looks at it. */
  datatype TaskGen = TaskGen(target: string, linkTask: Option<LinkTask>)

  /** A link task and the absolute paths of its outputs. */
  datatype LinkTask = LinkTask(outputs: seq<string>)

  /** What `add_program_taskgen` leaves in `programs`. */
  function Register(programs: map<string, string>, tgen: TaskGen): (r: map<string, string>)
    ensures r.Keys <= programs.Keys + {tgen.target}
    ensures forall n :: n in programs && n != tgen.target ==> n in r && r[n] == programs[n]
  {
    if tgen.linkTask.Some? && |tgen.linkTask.value.outputs| > 0
    then programs[tgen.target := tgen.linkTask.value.outputs[0]]
    else programs
  }

  /**
   * Registering a task generator with a link task that has outputs makes its target
   * find the first output; otherwise nothing changes; and no other name's lookup
   * ever changes.
   */
  lemma RegisterThenFind(programs: map<string, string>, tgen: TaskGen, name: string)
    ensures tgen.linkTask.Some? && |tgen.linkTask.value.outputs| > 0 ==>
      FindProgram(Register(programs, tgen), tgen.target) == tgen.linkTask.value.outputs[0]
      && Register(programs, tgen).Keys == programs.Keys + {tgen.target}
    ensures !(tgen.linkTask.Some? && |tgen.linkTask.value.outputs| > 0) ==> Register(programs, tgen) == programs
    ensures name != tgen.target ==>
      (name in Register(programs, tgen) <==> name in programs)
      && FindProgram(Register(programs, tgen), name) == FindProgram(programs, name)
  {
  }

  /** The arguments of `run`: each one with a space is replaced by its quoted form. */
  function QuoteArgs(args: seq<string>, quote: string -> string): (r: seq<string>)
    ensures |r| == |args|
    ensures forall k :: 0 <= k < |args| && ' ' !in args[k] ==> r[k] == args[k]
    ensures forall k :: 0 <= k < |args| && ' ' in args[k] ==> r[k] == quote(args[k])
  {
    seq(|args|, k requires 0 <= k < |args| => if ' ' !in args[k] then args[k] else quote(args[k]))
  }

  /** `" ".join(parts)`. */
  function Join(parts: seq<string>): (s: string)
  {
    if parts == [] then []
    else if |parts| == 1 then parts[0]
    else parts[0] + " " + Join(parts[1..])
  }

  /** `s.split(" ")`: the pieces between single spaces. */
  function SplitOnSpaces(s: string): (parts: seq<string>)
    ensures |parts| > 0
  {
    if s == [] then [[]]
    else
      var rest := SplitOnSpaces(s[1..]);
      if s[0] == ' ' then [[]] + rest else [[s[0]] + rest[0]] + rest[1..]
  }

  /** Joining with spaces undoes splitting at spaces. */
  lemma {:induction false} JoinSplit(s: string)
    ensures Join(SplitOnSpaces(s)) == s
  {
    if s != [] {
      var rest := SplitOnSpaces(s[1..]);
      JoinSplit(s[1..]);
      if s[0] != ' ' && |rest| > 1 {
        assert SplitOnSpaces(s)[1..] == rest[1..];
        assert Join(rest) == rest[0] + " " + Join(rest[1..]);
      }
    }
  }

  /** Splitting at spaces undoes joining when no part holds a space. */
  lemma {:induction false} SplitJoin(parts: seq<string>)
    requires |parts| > 0 && forall k :: 0 <= k < |parts| ==> ' ' !in parts[k]
    ensures SplitOnSpaces(Join(parts)) == parts
    decreases parts, 1
  {
    if |parts| == 1 {
      SplitWord(parts[0], []);
    } else {
      SplitJoin(parts[1..]);
      SplitWord(parts[0], Join(parts[1..]));
    }
  }

  /** A word without spaces followed by a space and `rest` splits into the word, then the pieces of `rest`. */
  lemma {:induction false} SplitWord(w: string, rest: string)
    requires ' ' !in w
    ensures rest == [] ==> SplitOnSpaces(w) == [w]
    ensures SplitOnSpaces(w + " " + rest) == [w] + SplitOnSpaces(rest)
    decreases w, 0
  {
    if w != [] {
      var s := w + " " + rest;
      assert s[0] == w[0] && s[1..] == w[1..] + " " + rest;
      assert w == [w[0]] + w[1..];
      SplitWord(w[1..], rest);
      var tail := SplitOnSpaces(s[1..]);
      assert tail == [w[1..]] + SplitOnSpaces(rest);
      assert SplitOnSpaces(s) == [[w[0]] + tail[0]] + tail[1..];
      if rest == [] {
        assert SplitOnSpaces(w[1..]) == [w[1..]];
      }
    } else {
      assert (" " + rest)[1..] == rest;
    }
  }

  /** `real_program` in `run`: the program's path, made relative when it is absolute. */
  function RealProgram(programs: map<string, string>, name: string,
                       isAbs: string -> bool, relPath: string -> string): (p: string)
    ensures isAbs(FindProgram(programs, name)) ==> p == relPath(FindProgram(programs, name))
    ensures !isAbs(FindProgram(programs, name)) ==> p == FindProgram(programs, name)
  {
    var found := FindProgram(programs, name);
    if isAbs(found) then relPath(found) else found
  }

  /**
   * The command `run` hands to the shell: the program followed by its arguments,
   * separated by single spaces. When neither the program nor any argument holds a
   * space, splitting the command at single spaces gives back the program and the
   * arguments.
   */
  lemma CommandShape(program: string, args: seq<string>, quote: string -> string)
    ensures var cmd := Join([program] + QuoteArgs(args, quote));
      && (args == [] ==> cmd == program)
      && (args != [] ==> cmd == program + " " + Join(QuoteArgs(args, quote)))
    ensures (' ' !in program && forall k :: 0 <= k < |args| ==> ' ' !in args[k]) ==>
      SplitOnSpaces(Join([program] + QuoteArgs(args, quote))) == [program] + args
  {
    var parts := [program] + QuoteArgs(args, quote);
    assert parts[1..] == QuoteArgs(args, quote);
    if ' ' !in program && (forall k :: 0 <= k < |args| ==> ' ' !in args[k]) {
      assert QuoteArgs(args, quote) == args;
      SplitJoin(parts);
    }
  }

  /** `sys.argv`, the list `filter_arguments` truncates in place. */
  class ArgVector {
    var items: seq<string>

    constructor (args: seq<string>)
      ensures items == args
    {
      items := args;
    }
  }

  datatype RunError = MissingProgramName | NoProgramGiven

  /** The `RunCommand` singleton: registered programs and the program to run with its arguments. */
  class RunCommand {
    var programs: map<string, string>
    var runProgram: Option<string>
    var runArgs: seq<string>
    var registered: bool

    constructor ()
      ensures programs == map[] && runProgram == None && runArgs == [] && !registered
    {
      programs := map[];
      runProgram := None;
      runArgs := [];
      registered := false;
    }

    /**
     * `filter_arguments`: with "run" on the command line, the name after the first
     * "run" is the program to run, everything after it its arguments, and the command
     * line is cut back to end at that "run". With "run" last, the lookup of the name
     * fails before anything changes.
     */
    method FilterArguments(argv: ArgVector) returns (outcome: Result<(), RunError>)
      modifies this, argv
      ensures programs == old(programs) && registered == old(registered)
      ensures match SplitArguments(old(argv.items))
        case NoRun =>
          outcome == Success(()) && argv.items == old(argv.items)
          && runProgram == old(runProgram) && runArgs == old(runArgs)
        case MissingProgram =>
          outcome == Failure(MissingProgramName) && argv.items == old(argv.items)
          && runProgram == old(runProgram) && runArgs == old(runArgs)
        case Split(kept, program, args) =>
          outcome == Success(()) && argv.items == kept
          && runProgram == Some(program) && runArgs == args
    {
      var args := argv.items;
      if "run" !in args {
        return Success(());
      }
      var runIdx := IndexOfRun(args);
      if runIdx + 1 >= |args| {
        return Failure(MissingProgramName);
      }
      runProgram := Some(args[runIdx + 1]);
      runArgs := args[runIdx + 2..];
      argv.items := args[..runIdx + 1];
      outcome := Success(());
    }

    /** `add_program_taskgen`: registers the first output of the link task under the target name. */
    method AddProgramTaskgen(tgen: TaskGen)
      modifies this
      ensures programs == Register(old(programs), tgen)
      ensures runProgram == old(runProgram) && runArgs == old(runArgs) && registered == old(registered)
    {
      if tgen.linkTask.Some? && |tgen.linkTask.value.outputs| > 0 {
        programs := programs[tgen.target := tgen.linkTask.value.outputs[0]];
      }
    }

    /**
     * The command `run` executes: the real program followed by the arguments, quoted
     * where they hold a space, joined by single spaces. Without a program name
     * (`run` never given) the path functions fail on `None`.
     */
    method Run(isAbs: string -> bool, relPath: string -> string, quote: string -> string)
      returns (cmd: Result<string, RunError>)
      ensures runProgram.None? ==> cmd == Failure(NoProgramGiven)
      ensures runProgram.Some? ==>
        cmd == Success(Join([RealProgram(programs, runProgram.value, isAbs, relPath)] + QuoteArgs(runArgs, quote)))
    {
      if runProgram.None? {
        return Failure(NoProgramGiven);
      }
      var realProgram := FindProgram(programs, runProgram.value);
      realProgram := if isAbs(realProgram) then relPath(realProgram) else realProgram;
      var args := QuoteArgs(runArgs, quote);
      var pArgs := [realProgram] + args;
      cmd := Success(Join(pArgs));
    }
  }
}
