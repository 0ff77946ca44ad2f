/** `find_shebang_executable`: the interpreter a script's `#!` line names. */
module Shebang {
  import opened Wrappers
  import opened PyStr

  /** The two characters that open a shebang line. */
  const Marker: string := "#!"

  /** The first line opens with the marker exactly when the file does:
      neither marker character is a line break. */
  lemma FirstLineMarker(contents: string)
    ensures StartsWith(ReadLine(contents), Marker) <==> StartsWith(contents, Marker)
  {
    if |contents| >= 2 && !IsLineBreak(contents[0]) && !IsLineBreak(contents[1]) {
      assert ReadLine(contents)[..2] == contents[..2];
    }
  }

  /** Reads the first line of the file; when it opens with "#!", drops the marker,
      strips surrounding whitespace, splits on single spaces and returns the last
      piece. Otherwise no interpreter is declared. */
  function FindShebangExecutable(contents: string): (r: Option<string>)
    ensures r.None? <==> !StartsWith(contents, Marker)
    ensures r.Some? ==> IsLastToken(r.value, Strip(ReadLine(contents)[2..]), ' ')
  {
    var firstLine := ReadLine(contents);
    FirstLineMarker(contents);
    if StartsWith(firstLine, Marker) then
      var words := Split(Strip(firstLine[2..]), ' ');
      SplitLastToken(Strip(firstLine[2..]), ' ');
      Some(Last(words))
    else
      None
  }

  /** Only the first line matters: whatever follows the first line break is
      never looked at. */
  lemma FirstLineOnly(line: string, brk: char, rest: string)
    requires NoBreak(line) && IsLineBreak(brk)
    ensures FindShebangExecutable(line + [brk] + rest) == FindShebangExecutable(line)
  {
    ReadLineOf(line, brk, rest);
    assert ReadLine(line) == line;
    var first := line + "\n";
    if |line| >= 2 {
      assert first[..2] == line[..2];
    } else if |line| == 1 {
      assert first[1] == '\n';
    }
    assert StartsWith(first, Marker) == StartsWith(line, Marker);
    if StartsWith(line, Marker) {
      assert (line + "\n")[2..] == line[2..] + "\n";
      StripAppendSpace(line[2..], '\n');
    }
  }

  /** A declared interpreter never holds a space: it is one piece of the line. */
  lemma InterpreterHasNoSpace(contents: string)
    requires FindShebangExecutable(contents).Some?
    ensures ' ' !in FindShebangExecutable(contents).value
  {
  }

  /** The result is exactly the last space-separated word of the stripped line:
      any word that ends the line and is preceded by a space (or starts it) is it. */
  lemma ShebangIsLastWord(contents: string, word: string)
    requires StartsWith(contents, Marker)
    requires IsLastToken(word, Strip(ReadLine(contents)[2..]), ' ')
    ensures FindShebangExecutable(contents) == Some(word)
  {
    LastTokenUnique(FindShebangExecutable(contents).value, word,
                    Strip(ReadLine(contents)[2..]), ' ');
  }

  /** A whitespace-free word holds neither a line break nor a space. */
  predicate Word(w: string) {
    |w| > 0 && forall i :: 0 <= i < |w| ==> !IsSpace(w[i])
  }

  lemma WordFacts(w: string)
    requires Word(w)
    ensures NoBreak(w) && ' ' !in w && Trimmed(w)
  {
    assert ' ' !in w by {
      forall i | 0 <= i < |w| ensures w[i] != ' ' { assert !IsSpace(w[i]); }
    }
  }

  /** A first line "#!" + `body` that ends the file, with `body` trimmed,
      declares the last word of `body`. */
  lemma DeclaredBy(body: string, word: string)
    requires NoBreak(body) && Trimmed(body) && IsLastToken(word, body, ' ')
    ensures FindShebangExecutable(Marker + body) == Some(word)
  {
    var contents := Marker + body;
    assert NoBreak(contents) by {
      forall i | 0 <= i < |contents| ensures !IsLineBreak(contents[i]) {
        if i >= 2 { assert contents[i] == body[i - 2]; }
      }
    }
    assert contents[..2] == Marker && contents[2..] == body;
    StripTrimmed(body);
    ShebangIsLastWord(contents, word);
  }

  /** A line "#!" followed by a whitespace-free path declares that path. */
  lemma PlainPath(path: string)
    requires Word(path)
    ensures FindShebangExecutable(Marker + path) == Some(path)
  {
    WordFacts(path);
    DeclaredBy(path, path);
  }

  /** "#!a b" declares `b`, the last word, not the program `a`: with `a` being
      "/usr/bin/env" this picks the interpreter, but with `b` being an option
      of `a` it picks the option. */
  lemma LastWordWins(a: string, b: string)
    requires Word(a) && Word(b)
    ensures FindShebangExecutable(Marker + a + " " + b) == Some(b)
  {
    WordFacts(a);
    WordFacts(b);
    var body := a + " " + b;
    assert Marker + a + " " + b == Marker + body;
    assert NoBreak(body) by {
      forall i | 0 <= i < |body| ensures !IsLineBreak(body[i]) {
        if i < |a| { assert body[i] == a[i]; }
        if i > |a| { assert body[i] == b[i - |a| - 1]; }
      }
    }
    assert body[0] == a[0] && body[|body| - 1] == b[|b| - 1];
    assert body[|body| - |b|..] == b;
    DeclaredBy(body, b);
  }

  /** A first line "#!" + `path`, with `path` a single word, declares `path`. */
  lemma PathLine(path: string, rest: string)
    requires Word(path)
    ensures FindShebangExecutable(Marker + path + "\n" + rest) == Some(path)
  {
    WordFacts(path);
    var line := Marker + path;
    assert NoBreak(line) by {
      forall i | 0 <= i < |line| ensures !IsLineBreak(line[i]) {
        if i >= 2 { assert line[i] == path[i - 2]; }
      }
    }
    assert Marker + path + "\n" + rest == line + ['\n'] + rest;
    FirstLineOnly(line, '\n', rest);
    PlainPath(path);
  }

  /** A first line "#!a b", with `a` and `b` single words, declares `b`. */
  lemma TwoWordLine(a: string, b: string, rest: string)
    requires Word(a) && Word(b)
    ensures FindShebangExecutable(Marker + a + " " + b + "\n" + rest) == Some(b)
  {
    WordFacts(a);
    WordFacts(b);
    var line := Marker + a + " " + b;
    assert NoBreak(line) by {
      forall i | 0 <= i < |line| ensures !IsLineBreak(line[i]) {
        if 2 <= i < 2 + |a| { assert line[i] == a[i - 2]; }
        if i > 2 + |a| { assert line[i] == b[i - 3 - |a|]; }
      }
    }
    assert Marker + a + " " + b + "\n" + rest == line + ['\n'] + rest;
    FirstLineOnly(line, '\n', rest);
    LastWordWins(a, b);
  }

  /** The file from the repository's own test (there followed by a blank line and
      two lines of code): the path on the first line, whatever comes after it. */
  lemma ExampleFromTest(rest: string)
    ensures FindShebangExecutable("#!/usr/bin/mybin\n" + rest) == Some("/usr/bin/mybin")
  {
    assert "#!/usr/bin/mybin\n" + rest == Marker + "/usr/bin/mybin" + "\n" + rest;
    PathLine("/usr/bin/mybin", rest);
  }

  /** An `env`-style line names the interpreter as its last word. */
  lemma ExampleEnv(rest: string)
    ensures FindShebangExecutable("#!/usr/bin/env python3\n" + rest) == Some("python3")
  {
    assert "#!/usr/bin/env python3\n" + rest
        == Marker + "/usr/bin/env" + " " + "python3" + "\n" + rest;
    TwoWordLine("/usr/bin/env", "python3", rest);
  }

  /** A bare marker declares the empty interpreter rather than none. */
  lemma BareMarker(rest: string)
    ensures FindShebangExecutable("#!\n" + rest) == Some("")
  {
    assert "#!\n" + rest == "#!" + ['\n'] + rest;
    FirstLineOnly("#!", '\n', rest);
    assert FindShebangExecutable("#!") == Some("");
  }
}
