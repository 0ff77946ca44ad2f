# sanity_test: a Dafny model of the run.py sanity harness

`sanity_test.py` finds every `run.py` under a directory and runs each one as a
child process. The run fails at the first script that does not succeed. This
project models the harness's decision rules and proves their properties:

- **Shebang inspection** (`Shebang.FindShebangExecutable`). Read the first line
  of a file. If it opens with `#!`, drop the marker, strip surrounding
  whitespace, split on single spaces and return the last piece. Otherwise no
  interpreter is declared. The Python string operations it relies on are
  modelled exactly in module `PyStr`:
  - `readline` in text mode, where `\n`, `\r` and `\r\n` all end the line and
    come back as `\n`;
  - `startswith`;
  - `strip()`, using Python's full `isspace` character set;
  - `split(' ')`, where runs of spaces give empty pieces;
  - `[-1]`;
  - the substring test `in`.
- **Interpreter choice** (`RunPython.ChooseInterpreter`). A declared
  interpreter must contain `"python"`, or the harness's assertion fails. This is
  a configuration error, not a failed test. With nothing declared, the
  interpreter is `"python3"`.
- **Launch request and verdict** (`RunPython.Request`, `RunPython.Verdict`,
  `RunPython.Test`). The child is started as `[interpreter, path.name]` in
  `path.parent`. A timeout counts as success. An exit counts as success exactly
  when its status is 0.
- **Suite loop** (`Suite.FindAndTestAll`). The discovered files are tested in
  enumeration order. The loop stops at the first file whose test returns False
  or raises.

The operating system is not modelled:
- A file's decoded text is a `string` argument.
- The discovered files are a `seq` argument.
- The process runner is a function `run: Launch -> Outcome`. It says how each
  requested launch ends: `Exited(code)`, `TimedOut` (the runner killed the child)
  or `NotStarted` (the runner raised `OSError`).

Consequences of the code as written, each proved:
- Only the last word of the shebang line counts. `#!/usr/bin/env python3` gives
  `python3` (`Shebang.ExampleEnv`). `#!/usr/bin/python3 -u` gives `-u`, so that
  script is rejected (`RunPython.OptionTakenForInterpreter`).
- A bare `#!` declares the empty interpreter, not none, and is rejected
  (`Shebang.BareMarker`, `RunPython.BareMarkerRejected`).
- `"python3"` does not mean "no shebang": an `env` line that declares `python3`
  gives the same interpreter (`RunPython.EnvPython3LooksLikeDefault`).

How the harness combines results:
- The loop stops at the first file whose test returns False or raises. The
  `assert` at sanity_test.py:67 raises, so no later file is run and no verdicts
  are combined.
- `#!/path/to/bin arg` yields the last word, `arg`, not the path
  (`Shebang.LastWordWins`).

## Model

| member | source | states |
|---|---|---|
| PyStr.IsSpace | sanity_test.py:19 | the characters `strip()` removes: Python's `isspace` set (tab, newline, vertical tab, form feed, carriage return, 0x1C-0x1F, space, 0x85, 0xA0 and the Unicode space separators); a predicate, used by the Strip contracts below |
| PyStr.StartsWith | sanity_test.py:18 | `startswith`: the prefix is no longer than the text and equals its first characters; a predicate, used by FirstLineMarker and FindShebangExecutable |
| PyStr.Last | sanity_test.py:19 | `[-1]` on a non-empty sequence; SplitLastToken states what it yields on split's result |
| PyStr.ReadLine | sanity_test.py:16-17 | the first line is the whole text when it holds no line break; otherwise it is the text before the first break followed by "\n" |
| PyStr.ReadLineOf | sanity_test.py:17 | for every line free of breaks, the first line of line + break + anything is line + "\n" |
| PyStr.LStrip | sanity_test.py:19 | the result is a suffix of the input with a non-space first character, and everything removed is whitespace |
| PyStr.RStrip | sanity_test.py:19 | the result is a prefix of the input with a non-space last character, and everything removed is whitespace |
| PyStr.Strip | sanity_test.py:19 | the result is a slice of the input with no whitespace at either end, and only whitespace lies outside it |
| PyStr.StripUnique | sanity_test.py:19 | that description of strip determines the result, so any two strips of the same text are equal |
| PyStr.StripTrimmed | sanity_test.py:19 | text with no whitespace at either end strips to itself |
| PyStr.StripAppendSpace | sanity_test.py:17-19 | appending a whitespace character, such as the newline readline keeps, never changes the stripped text |
| PyStr.Split | sanity_test.py:19 | split always gives at least one piece, so [-1] is defined |
| PyStr.JoinSplit | sanity_test.py:19 | no piece of s.split(sep) holds sep, and joining the pieces with sep gives back s |
| PyStr.SplitJoin | sanity_test.py:19 | splitting separator-free pieces joined by sep gives back exactly those pieces |
| PyStr.JoinLastToken | sanity_test.py:19 | the last of several separator-free pieces is the longest separator-free suffix of their join |
| PyStr.SplitLastToken | sanity_test.py:19 | s.split(sep)[-1] is the longest suffix of s without sep: it starts s or follows a sep |
| PyStr.LastTokenUnique | sanity_test.py:19 | a string has only one such last token |
| PyStr.Contains | sanity_test.py:36 | `'python' in interpreter`, searched from the left; characterised by ContainsIsSubstring |
| PyStr.ContainsIsSubstring | sanity_test.py:36 | the left-to-right search agrees with "needle occurs as a contiguous slice of hay", in both directions |
| PyStr.MissingCharNotSubstring | sanity_test.py:36 | a needle holding a character the haystack lacks does not occur in it |
| Shebang.FirstLineMarker | sanity_test.py:16-18 | the first line starts with "#!" exactly when the file does |
| Shebang.FindShebangExecutable | sanity_test.py:13-21 | None exactly when the file does not start with "#!"; otherwise the last space-separated word of the stripped first line after the marker |
| Shebang.FirstLineOnly | sanity_test.py:16-17 | nothing after the first line break affects the result |
| Shebang.InterpreterHasNoSpace | sanity_test.py:19 | a declared interpreter never holds a space |
| Shebang.ShebangIsLastWord | sanity_test.py:18-19 | any word that is the last token of the stripped line is the declared interpreter |
| Shebang.WordFacts | sanity_test.py:19 | helper for the example lemmas: a whitespace-free word holds no line break and no space, and has no whitespace at its ends |
| Shebang.DeclaredBy | sanity_test.py:16-19 | a one-line file "#!" + body, with body trimmed, declares the last word of body |
| Shebang.PlainPath | sanity_test.py:18-19 | "#!" followed by a single word declares that word |
| Shebang.LastWordWins | sanity_test.py:19 | "#!a b" declares b, not a |
| Shebang.PathLine | sanity_test.py:16-19 | "#!path", then a newline, then anything, declares path |
| Shebang.TwoWordLine | sanity_test.py:16-19 | "#!a b", then a newline, then anything, declares b |
| Shebang.ExampleFromTest | tests/test_shebang.py:6-14 | a file opening with "#!/usr/bin/mybin" and a newline declares "/usr/bin/mybin", whatever follows |
| Shebang.ExampleEnv | sanity_test.py:19 | "#!/usr/bin/env python3" declares "python3" |
| Shebang.BareMarker | sanity_test.py:18-19 | a bare "#!" line declares the empty interpreter rather than none |
| RunPython.ChooseInterpreter | sanity_test.py:31-42 | "python3" when the file does not start with "#!"; otherwise the declared interpreter if it contains "python", else a configuration error naming it; every accepted interpreter contains "python" |
| RunPython.DeclaredPythonKept | sanity_test.py:35-38 | a declared interpreter that contains "python" is returned unchanged |
| RunPython.DeclaredOtherRejected | sanity_test.py:36-37 | a declared interpreter without "python" is a configuration error that names it |
| RunPython.DefaultIsPython | sanity_test.py:42 | helper for the example lemmas: the default interpreter itself passes the "python" test |
| RunPython.BashDeclared | sanity_test.py:13-21 | "#!/bin/bash" declares "/bin/bash" |
| RunPython.BashIsNotPython | sanity_test.py:36 | helper for the example lemmas: "/bin/bash" does not contain "python" |
| RunPython.BashRejected | sanity_test.py:34-38 | a "#!/bin/bash" script is a configuration error, not a failed test |
| RunPython.EnvPython3LooksLikeDefault | sanity_test.py:34-42 | a file that does declare "#!/usr/bin/env python3" gets the same "python3" as a file with no shebang |
| RunPython.BareMarkerRejected | sanity_test.py:34-38 | a bare "#!" line is a configuration error for the empty interpreter |
| RunPython.OptionDeclared | sanity_test.py:19 | "#!/usr/bin/python3 -u" declares "-u" |
| RunPython.OptionTakenForInterpreter | sanity_test.py:34-38 | a script opening "#!/usr/bin/python3 -u" is rejected, naming "-u" |
| RunPython.Name | sanity_test.py:53 | `path.name`: the final component; with Parent it rebuilds the path, as Request's contract states |
| RunPython.Parent | sanity_test.py:53 | `path.parent`: the path without its final component; with Name it rebuilds the path, as Request's contract states |
| RunPython.Request | sanity_test.py:53-54 | the launch runs two arguments, the interpreter and a name that, resolved in the launch's working directory, is the file under test |
| RunPython.Verdict | sanity_test.py:52-60 | True exactly for a timeout or exit status 0; False exactly for a nonzero exit; an error exactly when the process could not start |
| RunPython.Test | sanity_test.py:44-60 | a configuration error is raised as is; otherwise the verdict of the requested launch's outcome, by the policy above |
| RunPython.ConfigErrorLaunchesNothing | sanity_test.py:36-37 | on a configuration error the result does not depend on any process outcome, and the error is the interpreter error |
| Suite.FindAndTestAll | sanity_test.py:63-68 | completes exactly when every file passes, and then every file was tested in order; otherwise it stops at file i, and files 0..i were tested, files before i passed, file i returned False or raised, and no later file was tested |

## Left out

- Opening and decoding a file: the model takes the decoded text. A missing file,
  a permission error and a decoding error are not modelled; they propagate in
  the source.
- `subprocess.run`: starting, waiting for and killing the child are the process
  runner's job. The model has a function from the requested launch to its
  outcome. The timeout's duration goes to the runner unchanged and is not
  modelled; only whether a timeout happened reaches the verdict.
- `str(path.parent)`: the working directory stays a path value and is not
  rendered as a string.
- `Path.glob` enumeration: the discovered files are given in enumeration order.
  The pattern `**/run.py` is recorded as `RunPython.Glob`, but glob matching is
  not modelled.
- The two `print` progress messages: output only. The `tested` result of
  `Suite.FindAndTestAll` lists the files whose "Testing the file" message is
  printed.
- The text of the assertion message `'Invalid python interpreter: ' + name`:
  the error carries the name only.
- Running Python with `-O`, which disables `assert`: the model assumes assertions
  are enabled, as the harness needs them both for the interpreter check and to
  stop the loop.
