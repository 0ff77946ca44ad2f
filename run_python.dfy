/**
 * The `RunPython` test method: which interpreter runs a discovered `run.py`,
 * the process launch it asks for, and how the process's fate becomes a verdict.
 */
module RunPython {
  import opened Wrappers
  import opened PyStr
  import opened Shebang

  /** The files this test method is for, as the suite runner enumerates them. */
  const Glob: string := "**/run.py"

  /** The interpreter assumed for a script that declares none. */
  const DefaultInterpreter: string := "python3"

  /** What every declared interpreter must contain. */
  const RequiredName: string := "python"

  /** A path as `pathlib` sees it: its anchor ("/" or "") and its components. */
  datatype Path = Path(anchor: string, parts: seq<string>)

  /** `path.name`: the final component, or "" when there is none. */
  function Name(p: Path): string {
    if p.parts == [] then "" else Last(p.parts)
  }

  /** `path.parent`: the path without its final component (itself when it has none). */
  function Parent(p: Path): Path {
    if p.parts == [] then p else Path(p.anchor, p.parts[..|p.parts| - 1])
  }

  /** The path that `name` denotes when resolved inside directory `dir`. */
  function Within(dir: Path, name: string): Path {
    Path(dir.anchor, dir.parts + [name])
  }

  /** The child process asked for: its argument vector and working directory.
      The timeout is handed to the process runner unchanged and is not part of it. */
  datatype Launch = Launch(argv: seq<string>, cwd: Path)

  /** How the child process ended, as the process runner reports it. */
  datatype Outcome =
    | Exited(code: int)  // the process ran to completion with this exit status
    | TimedOut           // the wait ran past the timeout; the runner killed the child
    | NotStarted         // the runner could not start the process (an `OSError`)

  /** Errors that `test` raises rather than returning a verdict. */
  datatype TestError =
    | InvalidInterpreter(interpreter: string)  // the assertion on the declared interpreter
    | LaunchError                              // the runner could not start the process

  /** `RunPython._choose_interpreter` on a file with these contents. */
  function ChooseInterpreter(contents: string): (r: Result<string, TestError>)
    ensures r.Ok? ==> IsSubstring(RequiredName, r.value)
    ensures !StartsWith(contents, Marker) ==> r == Ok(DefaultInterpreter)
    ensures StartsWith(contents, Marker) ==>
      var declared := FindShebangExecutable(contents).value;
      r == if IsSubstring(RequiredName, declared) then Ok(declared)
           else Err(InvalidInterpreter(declared))
  {
    match FindShebangExecutable(contents)
    case None =>
      assert OccursAt(RequiredName, DefaultInterpreter, 0);
      Ok(DefaultInterpreter)
    case Some(declared) =>
      ContainsIsSubstring(declared, RequiredName);
      if Contains(declared, RequiredName) then Ok(declared)
      else Err(InvalidInterpreter(declared))
  }

  /** The launch `test` asks for: the interpreter with the script's bare name,
      run from the script's own directory. */
  function Request(interpreter: string, path: Path): (req: Launch)
    ensures |req.argv| == 2 && req.argv[0] == interpreter
    ensures path.parts != [] ==> Within(req.cwd, req.argv[1]) == path
  {
    Launch([interpreter, Name(path)], Parent(path))
  }

  /** The verdict policy: a timeout counts as success, an exit counts as success
      exactly when its status is 0, and a process that could not start raises. */
  function Verdict(outcome: Outcome): (r: Result<bool, TestError>)
    ensures r == Ok(true) <==> outcome.TimedOut? || outcome == Exited(0)
    ensures r == Ok(false) <==> outcome.Exited? && outcome.code != 0
    ensures r.Err? <==> outcome.NotStarted?
  {
    match outcome
    case TimedOut => Ok(true)
    case Exited(code) => Ok(code == 0)
    case NotStarted => Err(LaunchError)
  }

  /** `RunPython.test` on the file at `path` with these contents, where `run`
      stands for the process runner and says how each launch ends. */
  function Test(contents: string, path: Path, run: Launch -> Outcome): (r: Result<bool, TestError>)
    ensures ChooseInterpreter(contents).Err? ==> r == Err(ChooseInterpreter(contents).error)
    ensures ChooseInterpreter(contents).Ok? ==>
      var outcome := run(Request(ChooseInterpreter(contents).value, path));
      && (r == Ok(true) <==> outcome.TimedOut? || outcome == Exited(0))
      && (r == Ok(false) <==> outcome.Exited? && outcome.code != 0)
      && (r == Err(LaunchError) <==> outcome.NotStarted?)
  {
    match ChooseInterpreter(contents)
    case Err(e) => Err(e)
    case Ok(interpreter) => Verdict(run(Request(interpreter, path)))
  }

  /** A configuration error is raised before anything is launched: the verdict
      does not depend on how a process would have ended. */
  lemma ConfigErrorLaunchesNothing(contents: string, path: Path,
                                   run1: Launch -> Outcome, run2: Launch -> Outcome)
    requires ChooseInterpreter(contents).Err?
    ensures Test(contents, path, run1) == Test(contents, path, run2)
    ensures Test(contents, path, run1).error.InvalidInterpreter?
  {
  }

  /** A declared interpreter containing "python" is used unchanged. */
  lemma DeclaredPythonKept(contents: string)
    requires FindShebangExecutable(contents).Some?
    requires IsSubstring(RequiredName, FindShebangExecutable(contents).value)
    ensures ChooseInterpreter(contents) == Ok(FindShebangExecutable(contents).value)
  {
  }

  /** A declared interpreter lacking "python" is a configuration error naming it. */
  lemma DeclaredOtherRejected(contents: string, declared: string)
    requires FindShebangExecutable(contents) == Some(declared)
    requires !IsSubstring(RequiredName, declared)
    ensures ChooseInterpreter(contents) == Err(InvalidInterpreter(declared))
  {
  }

  lemma BashDeclared(rest: string)
    ensures FindShebangExecutable("#!/bin/bash\n" + rest) == Some("/bin/bash")
  {
    assert "#!/bin/bash\n" + rest == Marker + "/bin/bash" + "\n" + rest;
    PathLine("/bin/bash", rest);
  }

  /** "#!/bin/bash" is a configuration error, not a failed test. */
  lemma BashRejected(rest: string)
    ensures ChooseInterpreter("#!/bin/bash\n" + rest) == Err(InvalidInterpreter("/bin/bash"))
  {
    BashDeclared(rest);
    BashIsNotPython();
    DeclaredOtherRejected("#!/bin/bash\n" + rest, "/bin/bash");
  }

  lemma BashIsNotPython()
    ensures !IsSubstring(RequiredName, "/bin/bash")
  {
    MissingCharNotSubstring(RequiredName, "/bin/bash", 'p');
  }

  /** "python3" is not only the default: an `env` line declaring python3 gives
      the same interpreter as no shebang at all. */
  lemma EnvPython3LooksLikeDefault(rest: string)
    ensures StartsWith("#!/usr/bin/env python3\n" + rest, Marker)
    ensures ChooseInterpreter("#!/usr/bin/env python3\n" + rest) == Ok(DefaultInterpreter)
  {
    ExampleEnv(rest);
    DefaultIsPython();
    DeclaredPythonKept("#!/usr/bin/env python3\n" + rest);
  }

  lemma DefaultIsPython()
    ensures IsSubstring(RequiredName, DefaultInterpreter)
  {
    assert OccursAt(RequiredName, DefaultInterpreter, 0);
  }

  /** A bare "#!" line declares the empty interpreter, which is rejected. */
  lemma BareMarkerRejected(rest: string)
    ensures ChooseInterpreter("#!\n" + rest) == Err(InvalidInterpreter(""))
  {
    BareMarker(rest);
    MissingCharNotSubstring(RequiredName, "", 'p');
    DeclaredOtherRejected("#!\n" + rest, "");
  }

  lemma OptionDeclared(rest: string)
    ensures FindShebangExecutable("#!/usr/bin/python3 -u\n" + rest) == Some("-u")
  {
    assert "#!/usr/bin/python3 -u\n" + rest
        == Marker + "/usr/bin/python3" + " " + "-u" + "\n" + rest;
    TwoWordLine("/usr/bin/python3", "-u", rest);
  }

  /** An option after the interpreter is taken for the interpreter: a script
      starting "#!/usr/bin/python3 -u" is rejected. */
  lemma OptionTakenForInterpreter(rest: string)
    ensures ChooseInterpreter("#!/usr/bin/python3 -u\n" + rest) == Err(InvalidInterpreter("-u"))
  {
    OptionDeclared(rest);
    MissingCharNotSubstring(RequiredName, "-u", 'p');
    DeclaredOtherRejected("#!/usr/bin/python3 -u\n" + rest, "-u");
  }
}
