/** `com.util.DockerRunner`: runs a submitted source file in a container
    for its language and returns everything the container printed, one
    line after the other, each ended by `\n`. The container is started
    with the file's directory mounted at `/app`. */
module DockerRunner {
  import opened JavaLang
  import opened JavaString
  import opened JavaPath

  datatype Language = Java | Python

  /** The language the two `equalsIgnoreCase` tests select, `java` first. */
  function Recognize(language: string): Option<Language>
  {
    if EqualsIgnoreCase(language, "java") then Some(Java)
    else if EqualsIgnoreCase(language, "python") then Some(Python)
    else None
  }

  const JavaImage: string := "tkoppine/java-runner"
  const PythonImage: string := "tkoppine/python-runner"

  /** The shell command for a Java file: compile it, then run the class
      named by the file name with every ".java" cut out of it. */
  function JavaCommand(fileName: string): string
  {
    "javac /app/" + fileName + " && java -cp /app " + RemoveAll(fileName, ".java")
  }

  /** The shell command for a Python file. A path without a name is printed
      as "null" by the concatenation. */
  function PythonCommand(fileName: Nullable): string
  {
    "python /app/" + Show(fileName)
  }

  /** The program and arguments given to `ProcessBuilder`: the directory is
      mounted at `/app` of a container removed after the run, and the
      command runs under `sh -c`. */
  function DockerArgs(absParent: string, image: string, command: string): seq<string>
  {
    ["docker", "run", "--rm", "-v", absParent + ":/app", image, "sh", "-c", command]
  }

  /** `path.toAbsolutePath()`: a relative path is taken from the working
      directory `cwd`. */
  function Absolute(cwd: string, path: string): string
  {
    if StartsWith(path, "/") then path else Resolve(cwd, path)
  }

  /** What the runner decides before it starts a process. */
  datatype Invocation = Invocation(image: string, command: string, argv: seq<string>)

  /** The part of `runContainer` before `pb.start()`. A `null` language
      fails on `equalsIgnoreCase`, a Java file whose path has no name fails
      on `getFileName().toString()`, any language other than Java and
      Python is refused, and a path without a parent fails when the mount
      is built: each of these throws, and `jdkMessage` stands for the
      message the JDK gives a `NullPointerException`. */
  function Prepare(language: Nullable, localFilePath: string, cwd: string, jdkMessage: Nullable): (r: Attempt<Invocation>)
    ensures r.Returned? ==>
      language.Some? && Recognize(language.value).Some? && Parent(localFilePath).Some? &&
      r.value.image == (if Recognize(language.value) == Some(Java) then JavaImage else PythonImage) &&
      r.value.argv == DockerArgs(Absolute(cwd, Parent(localFilePath).value), r.value.image, r.value.command)
    ensures language.Some? && Recognize(language.value).None? ==>
      r == Threw(RuntimeException(Some("Unsupported language: " + language.value)))
  {
    match language
    case None => Threw(RuntimeException(jdkMessage))
    case Some(lang) =>
      var fileName := FileName(localFilePath);
      var chosen: Attempt<(string, string)> :=
        match Recognize(lang)
        case Some(Java) =>
          if fileName.None? then Threw(RuntimeException(jdkMessage))
          else Returned((JavaImage, JavaCommand(fileName.value)))
        case Some(Python) => Returned((PythonImage, PythonCommand(fileName)))
        case None => Threw(RuntimeException(Some("Unsupported language: " + lang)));
      match chosen
      case Threw(e) => Threw(e)
      case Returned((image, command)) =>
        match Parent(localFilePath)
        case None => Threw(RuntimeException(jdkMessage))
        case Some(dir) => Returned(Invocation(image, command, DockerArgs(Absolute(cwd, dir), image, command)))
  }

  /** What happens once the invocation is prepared: `pb.start()` throws and
      no process exists; or the process prints some lines and ends, taking
      `executionTimeMs`; or reading from it or waiting for it throws. */
  datatype ProcessRun =
    | StartFailed(ex: Thrown)
    | Exited(lines: seq<string>, executionTimeMs: Long)
    | Failed(ex: Thrown)

  /** What the worker receives from the runner: the output and the time. */
  datatype ExecutionResponse = ExecutionResponse(output: string, executionTimeMs: Long)

  /** The `StringBuilder` after the loop has read `lines`: each line
      followed by `\n`. */
  function Accumulated(lines: seq<string>): string
  {
    if lines == [] then ""
    else Accumulated(lines[..|lines| - 1]) + lines[|lines| - 1] + [NewLine]
  }

  /** `runContainer` as a whole: the invocation is prepared, and only then
      does the process run. */
  function RunOutcome(language: Nullable, localFilePath: string, cwd: string, jdkMessage: Nullable,
                      process: ProcessRun): Attempt<ExecutionResponse>
  {
    match Prepare(language, localFilePath, cwd, jdkMessage)
    case Threw(e) => Threw(e)
    case Returned(_) =>
      match process
      case StartFailed(e) => Threw(e)
      case Failed(e) => Threw(e)
      case Exited(lines, ms) => Returned(ExecutionResponse(Accumulated(lines), ms))
  }

  /** The argument list of the container process that `runContainer`
      brings into existence: there is one exactly when the invocation is
      prepared and `pb.start()` does not throw. */
  function Started(language: Nullable, localFilePath: string, cwd: string, jdkMessage: Nullable,
                   process: ProcessRun): (r: Option<seq<string>>)
    ensures r.Some? <==> Prepare(language, localFilePath, cwd, jdkMessage).Returned? && !process.StartFailed?
    ensures r.Some? ==> r.value == Prepare(language, localFilePath, cwd, jdkMessage).value.argv
  {
    match Prepare(language, localFilePath, cwd, jdkMessage)
    case Threw(_) => None
    case Returned(invocation) => if process.StartFailed? then None else Some(invocation.argv)
  }

  /** The read loop: appends each line read and a `\n` to the output. */
  method CollectOutput(lines: seq<string>) returns (output: string)
    ensures output == Accumulated(lines)
  {
    output := "";
    var i := 0;
    while i < |lines|
      invariant 0 <= i <= |lines|
      invariant output == Accumulated(lines[..i])
    {
      assert lines[..i + 1][..i] == lines[..i];
      output := output + lines[i] + [NewLine];
      i := i + 1;
    }
    assert lines[..|lines|] == lines;
  }

  /** `runContainer(language, localFilePath)`. `launched` is the argument
      list of the process that was started, if one was: none is built
      unless the invocation could be prepared, and none exists when
      `pb.start()` throws. */
  method RunContainer(language: Nullable, localFilePath: string, cwd: string, jdkMessage: Nullable,
                      process: ProcessRun)
    returns (launched: Option<seq<string>>, r: Attempt<ExecutionResponse>)
    ensures launched.Some? <==> Prepare(language, localFilePath, cwd, jdkMessage).Returned? && !process.StartFailed?
    ensures launched.Some? ==> launched.value == Prepare(language, localFilePath, cwd, jdkMessage).value.argv
    ensures r == RunOutcome(language, localFilePath, cwd, jdkMessage, process)
  {
    var prepared := Prepare(language, localFilePath, cwd, jdkMessage);
    match prepared
    case Threw(e) =>
      launched, r := None, Threw(e);
    case Returned(invocation) =>
      match process
      case StartFailed(e) =>
        launched, r := None, Threw(e);
      case Failed(e) =>
        launched, r := Some(invocation.argv), Threw(e);
      case Exited(lines, ms) =>
        launched := Some(invocation.argv);
        var output := CollectOutput(lines);
        r := Returned(ExecutionResponse(output, ms));
  }

  // ---------------------------------------------------------------------
  // Properties
  // ---------------------------------------------------------------------

  /** The language test ignores case: it selects Java exactly for the
      spellings of "java" and Python exactly for those of "python". */
  lemma {:induction false} RecognizeMeaning(language: string)
    ensures Recognize(language) == Some(Java) <==> LowerAscii(language) == "java"
    ensures Recognize(language) == Some(Python) <==> LowerAscii(language) == "python"
  {
    EqualsIgnoreCaseLower(language, "java");
    EqualsIgnoreCaseLower(language, "python");
  }

  /** Any other language is refused with its name in the message, before
      a process is built, whatever the process would have done. */
  lemma {:induction false} UnsupportedLanguage(language: string, localFilePath: string, cwd: string, jdkMessage: Nullable,
                            process: ProcessRun)
    requires LowerAscii(language) != "java" && LowerAscii(language) != "python"
    ensures Prepare(Some(language), localFilePath, cwd, jdkMessage).Threw?
    ensures RunOutcome(Some(language), localFilePath, cwd, jdkMessage, process)
      == Threw(RuntimeException(Some("Unsupported language: " + language)))
  {
    RecognizeMeaning(language);
  }

  /** For a file `<stem>.java` whose stem holds no ".java", the command
      compiles the file and runs the class `<stem>`. */
  lemma {:induction false} JavaCommandOfSource(stem: string)
    requires !Contains(stem, ".java")
    ensures JavaCommand(stem + ".java") == "javac /app/" + stem + ".java" + " && java -cp /app " + stem
  {
    RemoveJavaExtension(stem);
    Regroup("javac /app/", stem, ".java", " && java -cp /app " + stem);
    Regroup("javac /app/", stem + ".java", " && java -cp /app ", stem);
  }

  /** Every ".java" of the file name is cut out of the class name, not only
      a trailing one: after the first, the rest of the name is scanned on. */
  lemma {:induction false} JavaCommandRemovesEveryExtension(a: string, b: string)
    requires !Contains(a, ".java")
    ensures JavaCommand(a + ".java" + b) == "javac /app/" + (a + ".java" + b) + " && java -cp /app " + (a + RemoveAll(b, ".java"))
  {
    RemoveJavaOccurrence(a, b);
  }

  /** A Java source `<stem>.java` in a directory: the Java image is run with
      the directory mounted, the command compiles the file and runs the
      class `<stem>`. */
  lemma {:induction false} JavaInvocation(language: string, dir: string, stem: string, cwd: string, jdkMessage: Nullable)
    requires LowerAscii(language) == "java"
    requires dir != "" && Normalize(dir) == dir
    requires Slash !in stem && !Contains(stem, ".java")
    ensures var command := "javac /app/" + stem + ".java" + " && java -cp /app " + stem;
      Prepare(Some(language), Resolve(dir, stem + ".java"), cwd, jdkMessage)
        == Returned(Invocation(JavaImage, command, DockerArgs(Absolute(cwd, dir), JavaImage, command)))
  {
    RecognizeMeaning(language);
    var fileName := stem + ".java";
    assert Slash !in fileName by {
      assert forall i :: 0 <= i < |stem| ==> fileName[i] == stem[i];
      assert fileName[|stem|..] == ".java";
      forall i | |stem| <= i < |fileName| ensures fileName[i] != Slash {
        assert fileName[i] == fileName[|stem|..][i - |stem|];
      }
    }
    ResolveNameAndParent(dir, fileName);
    JavaCommandOfSource(stem);
  }

  /** A Python file in a directory: the Python image runs it by its name. */
  lemma {:induction false} PythonInvocation(language: string, dir: string, fileName: string, cwd: string, jdkMessage: Nullable)
    requires LowerAscii(language) == "python"
    requires dir != "" && Normalize(dir) == dir
    requires fileName != "" && Slash !in fileName
    ensures var command := "python /app/" + fileName;
      Prepare(Some(language), Resolve(dir, fileName), cwd, jdkMessage)
        == Returned(Invocation(PythonImage, command, DockerArgs(Absolute(cwd, dir), PythonImage, command)))
  {
    RecognizeMeaning(language);
    ResolveNameAndParent(dir, fileName);
  }

  /** The number of `\n` characters in `s`. */
  function CountNewLines(s: string): nat
  {
    if s == [] then 0
    else CountNewLines(s[..|s| - 1]) + if s[|s| - 1] == NewLine then 1 else 0
  }

  lemma {:induction false} CountNewLinesAppend(s: string, line: string)
    requires NewLine !in line
    ensures CountNewLines(s + line) == CountNewLines(s)
    decreases |line|
  {
    if line != [] {
      var init := line[..|line| - 1];
      assert (s + line)[..|s + line| - 1] == s + init;
      assert line[|line| - 1] in line;
      CountNewLinesAppend(s, init);
    } else {
      assert s + line == s;
    }
  }

  /** The output is empty or ends with `\n`, and it holds one `\n` per line
      read (a line read never holds one itself). */
  lemma {:induction false} CapturedOutputShape(lines: seq<string>)
    requires forall i :: 0 <= i < |lines| ==> NewLine !in lines[i]
    ensures Accumulated(lines) == [] || Accumulated(lines)[|Accumulated(lines)| - 1] == NewLine
    ensures CountNewLines(Accumulated(lines)) == |lines|
  {
    if lines != [] {
      var init := lines[..|lines| - 1];
      CapturedOutputShape(init);
      var s := Accumulated(init) + lines[|lines| - 1];
      CountNewLinesAppend(Accumulated(init), lines[|lines| - 1]);
      assert (s + [NewLine])[..|s|] == s;
    }
  }

  lemma {:induction false} JoinOfCaptured(lines: seq<string>)
    ensures Join(lines + [""]) == Accumulated(lines)
  {
    if lines != [] {
      var init := lines[..|lines| - 1];
      var last := lines[|lines| - 1];
      assert lines == init + [last];
      JoinOfCaptured(init);
      JoinSnoc(lines, "");
      if init != [] {
        JoinSnoc(init, last);
        JoinSnoc(init, "");
      }
    }
  }

  /** Splitting the output on `\n` gives back the lines read, less the
      trailing empty ones; no line read gives the one empty string. */
  lemma {:induction false} SplitCapturedOutput(lines: seq<string>)
    requires forall i :: 0 <= i < |lines| ==> NewLine !in lines[i]
    ensures Split(Accumulated(lines)) == if lines == [] then [""] else DropTrailingEmpty(lines)
  {
    if lines != [] {
      var ps := lines + [""];
      var s := Accumulated(lines);
      assert forall i :: 0 <= i < |ps| ==> NewLine !in ps[i] by {
        forall i | 0 <= i < |ps| ensures NewLine !in ps[i] {
          if i < |lines| { assert ps[i] == lines[i]; }
        }
      }
      JoinOfCaptured(lines);
      PiecesOfJoin(ps);
      assert Pieces(s) == ps;
      CapturedOutputShape(lines);
      assert NewLine in s by { assert s[|s| - 1] == NewLine; }
      assert Split(s) == DropTrailingEmpty(ps);
      assert ps[..|ps| - 1] == lines;
      assert DropTrailingEmpty(ps) == DropTrailingEmpty(lines);
    }
  }
}
