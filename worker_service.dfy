/** `com.service.WorkerService`: the loop that takes job messages off the
    request queue, fetches each submitted file into a fresh temporary
    directory, runs it in a container and publishes one outcome text per
    message, deleting the request message only after a successful run and
    the downloaded file on every path that downloaded one.

    The collaborators (the queue, the object store, the file system, the
    JSON decoder, the container process) appear as the outcomes they give;
    the service's effects are kept as its state: the `publishResult` calls
    in order, the receipt handles of the deleted request messages, the
    argument lists of the containers started, and the directories and
    files it has on disk. */
module Service {
  import opened JavaLang
  import opened JavaString
  import opened JavaPath
  import JobModel
  import DockerRunner
  import WorkerCodec
  import Publishing

  /** One `publishResult(RESPONSE_QUEUE_URL, jobId, result)` call. */
  datatype Publication = Publication(jobId: Nullable, result: string)

  /** A message of the request queue. */
  datatype Delivery = Delivery(body: string, receiptHandle: string)

  /** What `objectMapper.readValue(body, JobMessage.class)` gives: a job
      with the three fields the body sets (the others stay `null`), `null`
      for the body `null`, or a `JsonProcessingException`. */
  datatype Decoding =
    | Decoded(jobId: Nullable, s3Key: Nullable, language: Nullable)
    | DecodedNull
    | Malformed(message: Nullable)

  /** What `downloadCode` may throw: an `IOException` or an unchecked
      exception. */
  type Fault = t: Thrown | !t.OtherChecked? witness IOException(None)

  /** What the collaborators do while one message is handled. */
  datatype Env = Env(
    tempNumber: nat,                  // the random number in the temporary directory's name
    createFault: Option<Fault>,       // creating that directory throws
    fetchFault: Option<Fault>,        // `s3Client.getObject` throws
    process: DockerRunner.ProcessRun, // what the container does
    ackFault: Option<Nullable>,       // `sqsClient.deleteMessage` throws (an unchecked exception)
    deleteFault: bool,                // `Files.deleteIfExists` throws (logged and dropped)
    jdkMessage: Nullable)             // the message of a `NullPointerException`

  /** A message together with what happens while it is handled. */
  datatype Arrival = Arrival(delivery: Delivery, env: Env)

  /** The fixed parts of the service: the decoder, the temporary-file
      directory of the JVM and its working directory. */
  datatype Config = Config(readValue: string -> Decoding, tmpdir: string, cwd: string)

  /** Everything the service has done so far. */
  datatype WorkerState = WorkerState(
    published: seq<Publication>,
    acknowledged: seq<string>,
    containers: seq<seq<string>>,
    dirs: set<string>,
    files: set<string>)

  /** The job id the outer handlers publish under. */
  const Unknown: Nullable := Some("unknown")

  // ---------------------------------------------------------------------
  // downloadCode
  // ---------------------------------------------------------------------

  /** The prefix `downloadCode` gives `Files.createTempDirectory`. */
  function TempPrefix(jobId: Nullable): string
  {
    "submission-" + Show(jobId) + "-"
  }

  /** The message `Files.createTempDirectory` gives a prefix holding `/`. */
  const InvalidPrefix: string := "Invalid prefix or suffix"

  /** What `downloadCode` leaves behind: the directory it created, if it
      got that far, and the local file or the exception. */
  datatype DownloadResult = DownloadResult(dir: Option<string>, file: Attempt<string>)

  /** `downloadCode(jobId, s3Key)`. The directory is named by the prefix
      and a random number, inside the temporary-file directory; a prefix
      holding `/` is refused before anything is created. The file takes the
      last name of the key and goes into that directory. A `null` key, or a
      key whose path has no name, throws a `NullPointerException`. */
  function Download(c: Config, jobId: Nullable, s3Key: Nullable, env: Env): (r: DownloadResult)
    ensures r.file.Threw? ==> !r.file.ex.OtherChecked?
    ensures r.file.Returned? ==> r.dir.Some?
    ensures r.dir.Some? ==> Slash !in TempPrefix(jobId) && env.createFault.None?
  {
    var prefix := TempPrefix(jobId);
    if Slash in prefix then DownloadResult(None, Threw(RuntimeException(Some(InvalidPrefix))))
    else if env.createFault.Some? then DownloadResult(None, Threw(env.createFault.value))
    else
      var dir := Resolve(Normalize(c.tmpdir), prefix + Digits(env.tempNumber));
      match s3Key
      case None => DownloadResult(Some(dir), Threw(RuntimeException(env.jdkMessage)))
      case Some(key) =>
        match FileName(key)
        case None => DownloadResult(Some(dir), Threw(RuntimeException(env.jdkMessage)))
        case Some(name) =>
          if env.fetchFault.Some? then DownloadResult(Some(dir), Threw(env.fetchFault.value))
          else DownloadResult(Some(dir), Returned(Resolve(dir, name)))
  }

  // ---------------------------------------------------------------------
  // One message, as a function of the state
  // ---------------------------------------------------------------------

  function Publish(s: WorkerState, jobId: Nullable, result: string): WorkerState
  {
    s.(published := s.published + [Publication(jobId, result)])
  }

  /** The text the outer handlers publish for an exception from the
      download: `IO Error: ` for an `IOException`, `Runtime Error: ` for an
      unchecked one. */
  function OuterText(ex: Thrown): string
  {
    if ex.IOException? then "IO Error: " + Show(ex.message) else "Runtime Error: " + Show(ex.message)
  }

  /** The part of the outer `try` after the download: run the container,
      publish under the job id, then delete the request message. A failing
      delete is an unchecked exception, published under "unknown". */
  function RunAndReply(c: Config, s: WorkerState, d: Delivery, env: Env,
                       jobId: Nullable, language: Nullable, file: string): WorkerState
  {
    var started := DockerRunner.Started(language, file, c.cwd, env.jdkMessage, env.process);
    var s1 := if started.Some? then s.(containers := s.containers + [started.value]) else s;
    match DockerRunner.RunOutcome(language, file, c.cwd, env.jdkMessage, env.process)
    case Threw(e) => Publish(s1, jobId, "Container Execution Error: " + Show(e.message))
    case Returned(response) =>
      var finalResult := WorkerCodec.SuccessEnvelope(jobId, response.executionTimeMs, WorkerCodec.ParseResult(response.output));
      var s2 := Publish(s1, jobId, finalResult);
      match env.ackFault
      case None => s2.(acknowledged := s2.acknowledged + [d.receiptHandle])
      case Some(m) => Publish(s2, Unknown, "Runtime Error: " + Show(m))
  }

  /** One pass of the `for` loop over the received messages, `finally`
      included. */
  function Handle(c: Config, s: WorkerState, d: Delivery, env: Env): WorkerState
  {
    match c.readValue(d.body)
    case Malformed(m) => Publish(s, Unknown, "JSON Processing Error: " + Show(m))
    case DecodedNull => Publish(s, Unknown, "Runtime Error: " + Show(env.jdkMessage))
    case Decoded(jobId, s3Key, language) =>
      var download := Download(c, jobId, s3Key, env);
      var s1 := if download.dir.Some? then s.(dirs := s.dirs + {download.dir.value}) else s;
      match download.file
      case Threw(ex) => Publish(s1, Unknown, OuterText(ex))
      case Returned(file) =>
        var s2 := RunAndReply(c, s1.(files := s1.files + {file}), d, env, jobId, language, file);
        if env.deleteFault then s2 else s2.(files := s2.files - {file})
  }

  /** The messages of one poll, handled in order. */
  function RunBatch(c: Config, s: WorkerState, batch: seq<Arrival>): WorkerState
  {
    if batch == [] then s
    else
      var last := batch[|batch| - 1];
      Handle(c, RunBatch(c, s, batch[..|batch| - 1]), last.delivery, last.env)
  }

  /** A sequence of polls, each handled as a batch; an empty poll does
      nothing. */
  function RunPolls(c: Config, s: WorkerState, polls: seq<seq<Arrival>>): WorkerState
  {
    if polls == [] then s
    else RunBatch(c, RunPolls(c, s, polls[..|polls| - 1]), polls[|polls| - 1])
  }

  // ---------------------------------------------------------------------
  // The service
  // ---------------------------------------------------------------------

  class WorkerService {
    const config: Config
    var published: seq<Publication>
    var acknowledged: seq<string>
    var containers: seq<seq<string>>
    var dirs: set<string>
    var files: set<string>

    function State(): WorkerState
      reads this
    {
      WorkerState(published, acknowledged, containers, dirs, files)
    }

    constructor (config: Config)
      ensures this.config == config
      ensures State() == WorkerState([], [], [], {}, {})
    {
      this.config := config;
      published, acknowledged, containers, dirs, files := [], [], [], {}, {};
    }

    method PublishResult(jobId: Nullable, result: string)
      modifies this
      ensures State() == Publish(old(State()), jobId, result)
    {
      published := published + [Publication(jobId, result)];
    }

    /** `downloadCode(jobId, s3Key)`: creates the directory and the file
      as `Download` says and returns the file. */
    method DownloadCode(jobId: Nullable, s3Key: Nullable, env: Env) returns (r: Attempt<string>)
      modifies this
      ensures r == Download(config, jobId, s3Key, env).file
      ensures var dl := Download(config, jobId, s3Key, env);
        State() == old(State()).(
          dirs := if dl.dir.Some? then old(dirs) + {dl.dir.value} else old(dirs),
          files := if dl.file.Returned? then old(files) + {dl.file.value} else old(files))
    {
      var prefix := TempPrefix(jobId);
      if Slash in prefix {
        return Threw(RuntimeException(Some(InvalidPrefix)));
      }
      if env.createFault.Some? {
        return Threw(env.createFault.value);
      }
      var tempDir := Resolve(Normalize(config.tmpdir), prefix + Digits(env.tempNumber));
      dirs := dirs + {tempDir};
      if s3Key.None? {
        return Threw(RuntimeException(env.jdkMessage));
      }
      var fileName := FileName(s3Key.value);
      if fileName.None? {
        return Threw(RuntimeException(env.jdkMessage));
      }
      var localFile := Resolve(tempDir, fileName.value);
      if env.fetchFault.Some? {
        return Threw(env.fetchFault.value);
      }
      files := files + {localFile};
      return Returned(localFile);
    }

    /** One pass of the loop over received messages: the outer `try` is
      the labelled block, each `catch` a `break` out of it, and the
      `finally` the statement after it. */
    method Process(d: Delivery, env: Env)
      modifies this
      ensures State() == Handle(config, old(State()), d, env)
    {
      var localFilePath: Option<string> := None;
      label outer: {
        var decoded := config.readValue(d.body);
        if decoded.Malformed? {
          PublishResult(Unknown, "JSON Processing Error: " + Show(decoded.message));
          break outer;
        }
        if decoded.DecodedNull? {
          PublishResult(Unknown, "Runtime Error: " + Show(env.jdkMessage));
          break outer;
        }
        var job := new JobModel.JobMessage.Empty();
        job.SetJobId(decoded.jobId);
        job.SetS3Key(decoded.s3Key);
        job.SetLanguage(decoded.language);
        var downloaded := DownloadCode(job.GetJobId(), job.GetS3Key(), env);
        if downloaded.Threw? {
          PublishResult(Unknown, OuterText(downloaded.ex));
          break outer;
        }
        localFilePath := Some(downloaded.value);
        Reply(d, env, job.GetJobId(), job.GetLanguage(), downloaded.value);
      }
      if localFilePath.Some? && !env.deleteFault {
        files := files - {localFilePath.value};
      }
    }

    /** The part of the outer `try` after the download: the inner `try`
      runs the container and builds the envelope, its `catch` publishes the
      failure and skips the rest; otherwise the envelope is published and
      the request message deleted. */
    method Reply(d: Delivery, env: Env, jobId: Nullable, language: Nullable, file: string)
      modifies this
      ensures State() == RunAndReply(config, old(State()), d, env, jobId, language, file)
    {
      var launched, run := DockerRunner.RunContainer(language, file, config.cwd, env.jdkMessage, env.process);
      if launched.Some? {
        containers := containers + [launched.value];
      }
      if run.Threw? {
        PublishResult(jobId, "Container Execution Error: " + Show(run.ex.message));
        return;
      }
      var parsedResult := WorkerCodec.ParseResult(run.value.output);
      var finalResult := WorkerCodec.SuccessEnvelope(jobId, run.value.executionTimeMs, parsedResult);
      PublishResult(jobId, finalResult);
      if env.ackFault.Some? {
        PublishResult(Unknown, "Runtime Error: " + Show(env.ackFault.value));
        return;
      }
      acknowledged := acknowledged + [d.receiptHandle];
    }

    /** `start()` over a finite sequence of polls: an empty poll is skipped,
      and the messages of a poll are handled one after the other. */
    method Start(polls: seq<seq<Arrival>>)
      modifies this
      ensures State() == RunPolls(config, old(State()), polls)
    {
      var p := 0;
      while p < |polls|
        invariant 0 <= p <= |polls|
        invariant State() == RunPolls(config, old(State()), polls[..p])
      {
        assert polls[..p + 1][..p] == polls[..p];
        var messages := polls[p];
        if messages == [] {
          p := p + 1;
          continue;
        }
        ghost var before := State();
        for i := 0 to |messages|
          invariant State() == RunBatch(config, before, messages[..i])
        {
          assert messages[..i + 1][..i] == messages[..i];
          Process(messages[i].delivery, messages[i].env);
        }
        assert messages[..|messages|] == messages;
        p := p + 1;
      }
      assert polls[..|polls|] == polls;
    }
  }

  // ---------------------------------------------------------------------
  // Where the file goes
  // ---------------------------------------------------------------------

  lemma {:induction false} TempNameHasNoSlash(jobId: Nullable, n: nat)
    requires Slash !in Show(jobId)
    ensures Slash !in TempPrefix(jobId) + Digits(n)
  {
    var name := TempPrefix(jobId) + Digits(n);
    var id := Show(jobId);
    forall i | 0 <= i < |name| ensures name[i] != Slash {
      if i < 11 {
        assert name[i] == "submission-"[i];
      } else if i < 11 + |id| {
        assert name[i] == id[i - 11];
      } else if i == 11 + |id| {
        assert name[i] == '-';
      } else {
        assert name[i] == Digits(n)[i - 12 - |id|];
        assert IsDigit(Digits(n)[i - 12 - |id|]);
      }
    }
  }

  /** For a job id without `/` and a key with a non-empty last name, when
      nothing fails: the directory is `submission-<jobId>-<number>` directly
      in the temporary-file directory, and the local file is the key's last
      name directly in that directory. */
  lemma {:induction false} DownloadLocation(c: Config, jobId: Nullable, key: string, name: string, env: Env)
    requires c.tmpdir != "" && Normalize(c.tmpdir) == c.tmpdir
    requires Slash !in Show(jobId)
    requires FileName(key) == Some(name) && name != ""
    requires env.createFault.None? && env.fetchFault.None?
    ensures var dirName := TempPrefix(jobId) + Digits(env.tempNumber);
      var dir := Resolve(c.tmpdir, dirName);
      Download(c, jobId, Some(key), env) == DownloadResult(Some(dir), Returned(Resolve(dir, name))) &&
      FileName(dir) == Some(dirName) && Parent(dir) == Some(c.tmpdir) &&
      FileName(Resolve(dir, name)) == Some(name) && Parent(Resolve(dir, name)) == Some(dir)
  {
    var dirName := TempPrefix(jobId) + Digits(env.tempNumber);
    TempNameHasNoSlash(jobId, env.tempNumber);
    assert Slash !in TempPrefix(jobId) by {
      forall i | 0 <= i < |TempPrefix(jobId)| ensures TempPrefix(jobId)[i] != Slash {
        assert TempPrefix(jobId)[i] == dirName[i];
      }
    }
    var dir := Resolve(c.tmpdir, dirName);
    DownloadWithoutFaults(c, jobId, key, name, env);
    ResolveNameAndParent(c.tmpdir, dirName);
    assert dir != "" by { assert |dir| >= |dirName| > 0; }
    ResolveNameAndParent(dir, name);
  }

  lemma {:induction false} DownloadWithoutFaults(c: Config, jobId: Nullable, key: string, name: string, env: Env)
    requires Slash !in TempPrefix(jobId)
    requires FileName(key) == Some(name)
    requires env.createFault.None? && env.fetchFault.None?
    ensures var dir := Resolve(Normalize(c.tmpdir), TempPrefix(jobId) + Digits(env.tempNumber));
      Download(c, jobId, Some(key), env) == DownloadResult(Some(dir), Returned(Resolve(dir, name)))
  {
  }

  /** A job id holding `/` makes the prefix invalid: nothing is created and
      an unchecked exception is published under "unknown". */
  lemma {:induction false} JobIdWithSlash(c: Config, s: WorkerState, d: Delivery, env: Env,
                       jobId: Nullable, s3Key: Nullable, language: Nullable)
    requires c.readValue(d.body) == Decoded(jobId, s3Key, language)
    requires Slash in Show(jobId)
    ensures Handle(c, s, d, env) ==
      s.(published := s.published + [Publication(Unknown, "Runtime Error: " + InvalidPrefix)])
  {
    PrefixWithSlash(jobId);
    RefusedDownload(c, s, d, env, jobId, s3Key, language);
  }

  lemma {:induction false} PrefixWithSlash(jobId: Nullable)
    requires Slash in Show(jobId)
    ensures Slash in TempPrefix(jobId)
  {
    var k :| 0 <= k < |Show(jobId)| && Show(jobId)[k] == Slash;
    assert TempPrefix(jobId)[11 + k] == Slash;
  }

  /** A download refused before any directory exists: only the outer
      handler's text is published. */
  lemma {:induction false} RefusedDownload(c: Config, s: WorkerState, d: Delivery, env: Env,
                                           jobId: Nullable, s3Key: Nullable, language: Nullable)
    requires c.readValue(d.body) == Decoded(jobId, s3Key, language)
    requires Slash in TempPrefix(jobId)
    ensures Handle(c, s, d, env) == Publish(s, Unknown, OuterText(RuntimeException(Some(InvalidPrefix))))
  {
    assert Download(c, jobId, s3Key, env) == DownloadResult(None, Threw(RuntimeException(Some(InvalidPrefix))));
  }

  // ---------------------------------------------------------------------
  // The branches of one message
  // ---------------------------------------------------------------------

  /** A body that does not decode: one `JSON Processing Error` under
      "unknown", and nothing else. */
  lemma {:induction false} MalformedBranch(c: Config, s: WorkerState, d: Delivery, env: Env, message: Nullable)
    requires c.readValue(d.body) == Malformed(message)
    ensures Handle(c, s, d, env) ==
      s.(published := s.published + [Publication(Unknown, "JSON Processing Error: " + Show(message))])
  {
  }

  /** A body that decodes to the JSON literal `null`: `job.getJobId()`
      throws a `NullPointerException`, and the outer handler publishes one
      `Runtime Error` with its message under "unknown", and nothing else. */
  lemma {:induction false} DecodedNullBranch(c: Config, s: WorkerState, d: Delivery, env: Env)
    requires c.readValue(d.body) == DecodedNull
    ensures Handle(c, s, d, env) ==
      s.(published := s.published + [Publication(Unknown, "Runtime Error: " + Show(env.jdkMessage))])
  {
  }

  /** A failing download: one `IO Error` or `Runtime Error`, by the
      exception's family, under "unknown"; no container, no delete, and the
      local file, never assigned, is not removed. */
  lemma {:induction false} DownloadFailureBranch(c: Config, s: WorkerState, d: Delivery, env: Env,
                              jobId: Nullable, s3Key: Nullable, language: Nullable, ex: Thrown)
    requires c.readValue(d.body) == Decoded(jobId, s3Key, language)
    requires Download(c, jobId, s3Key, env).file == Threw(ex)
    ensures var s' := Handle(c, s, d, env);
      var text := (if ex.IOException? then "IO Error: " else "Runtime Error: ") + Show(ex.message);
      s'.published == s.published + [Publication(Unknown, text)] &&
      s'.acknowledged == s.acknowledged && s'.containers == s.containers && s'.files == s.files
  {
  }

  /** A failing run: one `Container Execution Error` with the exception's
      message under the job's own id; the request message is not deleted,
      and the downloaded file is removed unless removing it fails. */
  lemma {:induction false} ContainerFailureBranch(c: Config, s: WorkerState, d: Delivery, env: Env,
                               jobId: Nullable, s3Key: Nullable, language: Nullable, file: string, e: Thrown)
    requires c.readValue(d.body) == Decoded(jobId, s3Key, language)
    requires Download(c, jobId, s3Key, env).file == Returned(file)
    requires DockerRunner.RunOutcome(language, file, c.cwd, env.jdkMessage, env.process) == Threw(e)
    ensures var s' := Handle(c, s, d, env);
      s'.published == s.published + [Publication(jobId, "Container Execution Error: " + Show(e.message))] &&
      s'.acknowledged == s.acknowledged &&
      s'.containers == s.containers + (
        var prepared := DockerRunner.Prepare(language, file, c.cwd, env.jdkMessage);
        if prepared.Returned? && !env.process.StartFailed? then [prepared.value.argv] else []) &&
      s'.files == if env.deleteFault then s.files + {file} else s.files - {file}
  {
    var s1 := Downloaded(c, s, jobId, s3Key, env, file);
    HandleAfterDownload(c, s, d, env, jobId, s3Key, language, file);
    RepliedFailure(c, s1, d, env, jobId, language, file, e);
  }

  /** An unsupported language: the error names the language, and no
      container is started. */
  lemma {:induction false} UnsupportedLanguageBranch(c: Config, s: WorkerState, d: Delivery, env: Env,
                                  jobId: Nullable, s3Key: Nullable, language: string, file: string)
    requires c.readValue(d.body) == Decoded(jobId, s3Key, Some(language))
    requires Download(c, jobId, s3Key, env).file == Returned(file)
    requires LowerAscii(language) != "java" && LowerAscii(language) != "python"
    ensures var s' := Handle(c, s, d, env);
      s'.published == s.published + [Publication(jobId, "Container Execution Error: " + ("Unsupported language: " + language))] &&
      s'.containers == s.containers && s'.acknowledged == s.acknowledged
  {
    DockerRunner.UnsupportedLanguage(language, file, c.cwd, env.jdkMessage, env.process);
    ContainerFailureBranch(c, s, d, env, jobId, s3Key, Some(language), file,
                           RuntimeException(Some("Unsupported language: " + language)));
  }

  /** A successful run: the envelope of the parsed output is published under
      the job id, then the request message is deleted; when deleting fails
      the message stays and a second text goes out under "unknown". The
      container started is the one the runner prepared. */
  lemma {:induction false} SuccessBranch(c: Config, s: WorkerState, d: Delivery, env: Env,
                      jobId: Nullable, s3Key: Nullable, language: Nullable, file: string,
                      response: DockerRunner.ExecutionResponse)
    requires c.readValue(d.body) == Decoded(jobId, s3Key, language)
    requires Download(c, jobId, s3Key, env).file == Returned(file)
    requires DockerRunner.RunOutcome(language, file, c.cwd, env.jdkMessage, env.process) == Returned(response)
    ensures var s' := Handle(c, s, d, env);
      var text := WorkerCodec.SuccessEnvelope(jobId, response.executionTimeMs, WorkerCodec.ParseResult(response.output));
      (env.ackFault.None? ==>
        s'.published == s.published + [Publication(jobId, text)] &&
        s'.acknowledged == s.acknowledged + [d.receiptHandle]) &&
      (env.ackFault.Some? ==>
        s'.published == s.published + [Publication(jobId, text), Publication(Unknown, "Runtime Error: " + Show(env.ackFault.value))] &&
        s'.acknowledged == s.acknowledged) &&
      DockerRunner.Prepare(language, file, c.cwd, env.jdkMessage).Returned? &&
      s'.containers == s.containers + [DockerRunner.Prepare(language, file, c.cwd, env.jdkMessage).value.argv] &&
      s'.files == if env.deleteFault then s.files + {file} else s.files - {file}
  {
    SuccessReplies(c, s, d, env, jobId, s3Key, language, file, response);
    SuccessEffects(c, s, d, env, jobId, s3Key, language, file, response);
  }

  /** The texts published and the delete of a successful run. */
  lemma {:induction false} SuccessReplies(c: Config, s: WorkerState, d: Delivery, env: Env,
                       jobId: Nullable, s3Key: Nullable, language: Nullable, file: string,
                       response: DockerRunner.ExecutionResponse)
    requires c.readValue(d.body) == Decoded(jobId, s3Key, language)
    requires Download(c, jobId, s3Key, env).file == Returned(file)
    requires DockerRunner.RunOutcome(language, file, c.cwd, env.jdkMessage, env.process) == Returned(response)
    ensures var s' := Handle(c, s, d, env);
      var text := WorkerCodec.SuccessEnvelope(jobId, response.executionTimeMs, WorkerCodec.ParseResult(response.output));
      (env.ackFault.None? ==>
        s'.published == s.published + [Publication(jobId, text)] &&
        s'.acknowledged == s.acknowledged + [d.receiptHandle]) &&
      (env.ackFault.Some? ==>
        s'.published == s.published + [Publication(jobId, text), Publication(Unknown, "Runtime Error: " + Show(env.ackFault.value))] &&
        s'.acknowledged == s.acknowledged)
  {
    var s1 := Downloaded(c, s, jobId, s3Key, env, file);
    HandleAfterDownload(c, s, d, env, jobId, s3Key, language, file);
    RepliedRun(c, s1, d, env, jobId, language, file, response);
  }

  /** The container started and the file left by a successful run. */
  lemma {:induction false} SuccessEffects(c: Config, s: WorkerState, d: Delivery, env: Env,
                       jobId: Nullable, s3Key: Nullable, language: Nullable, file: string,
                       response: DockerRunner.ExecutionResponse)
    requires c.readValue(d.body) == Decoded(jobId, s3Key, language)
    requires Download(c, jobId, s3Key, env).file == Returned(file)
    requires DockerRunner.RunOutcome(language, file, c.cwd, env.jdkMessage, env.process) == Returned(response)
    ensures var s' := Handle(c, s, d, env);
      DockerRunner.Prepare(language, file, c.cwd, env.jdkMessage).Returned? &&
      s'.containers == s.containers + [DockerRunner.Prepare(language, file, c.cwd, env.jdkMessage).value.argv] &&
      s'.files == if env.deleteFault then s.files + {file} else s.files - {file}
  {
    var s1 := Downloaded(c, s, jobId, s3Key, env, file);
    HandleAfterDownload(c, s, d, env, jobId, s3Key, language, file);
    RepliedRun(c, s1, d, env, jobId, language, file, response);
  }

  /** The state once the download has returned `file`: its directory and
      the file are on disk. */
  function Downloaded(c: Config, s: WorkerState, jobId: Nullable, s3Key: Nullable, env: Env, file: string): (r: WorkerState)
    ensures r.published == s.published && r.acknowledged == s.acknowledged && r.containers == s.containers
    ensures r.files == s.files + {file}
  {
    var dl := Download(c, jobId, s3Key, env);
    var s1 := if dl.dir.Some? then s.(dirs := s.dirs + {dl.dir.value}) else s;
    s1.(files := s1.files + {file})
  }

  /** Once the file is downloaded, a pass of the loop is the reply to the
      run followed by the `finally` clause's removal of the file. */
  lemma {:induction false} HandleAfterDownload(c: Config, s: WorkerState, d: Delivery, env: Env,
                                               jobId: Nullable, s3Key: Nullable, language: Nullable, file: string)
    requires c.readValue(d.body) == Decoded(jobId, s3Key, language)
    requires Download(c, jobId, s3Key, env).file == Returned(file)
    ensures var s2 := RunAndReply(c, Downloaded(c, s, jobId, s3Key, env, file), d, env, jobId, language, file);
      Handle(c, s, d, env) == if env.deleteFault then s2 else s2.(files := s2.files - {file})
  {
  }

  /** After a run that threw, the reply publishes the container error under
      the job id, deletes nothing and touches nothing on disk; a container
      is recorded when the process was started. */
  lemma {:induction false} RepliedFailure(c: Config, s: WorkerState, d: Delivery, env: Env,
                                          jobId: Nullable, language: Nullable, file: string, e: Thrown)
    requires DockerRunner.RunOutcome(language, file, c.cwd, env.jdkMessage, env.process) == Threw(e)
    ensures var s' := RunAndReply(c, s, d, env, jobId, language, file);
      var prepared := DockerRunner.Prepare(language, file, c.cwd, env.jdkMessage);
      s'.published == s.published + [Publication(jobId, "Container Execution Error: " + Show(e.message))] &&
      s'.acknowledged == s.acknowledged &&
      s'.containers == s.containers + (if prepared.Returned? && !env.process.StartFailed? then [prepared.value.argv] else []) &&
      s'.dirs == s.dirs && s'.files == s.files
  {
  }

  /** After a run that returned, the reply publishes the envelope, deletes
      the request message unless that fails, and touches nothing on disk. */
  lemma {:induction false} RepliedRun(c: Config, s: WorkerState, d: Delivery, env: Env,
                                      jobId: Nullable, language: Nullable, file: string,
                                      response: DockerRunner.ExecutionResponse)
    requires DockerRunner.RunOutcome(language, file, c.cwd, env.jdkMessage, env.process) == Returned(response)
    ensures var s' := RunAndReply(c, s, d, env, jobId, language, file);
      var text := WorkerCodec.SuccessEnvelope(jobId, response.executionTimeMs, WorkerCodec.ParseResult(response.output));
      var prepared := DockerRunner.Prepare(language, file, c.cwd, env.jdkMessage);
      prepared.Returned? &&
      s'.containers == s.containers + [prepared.value.argv] &&
      s'.published == s.published + [Publication(jobId, text)] +
        (if env.ackFault.Some? then [Publication(Unknown, "Runtime Error: " + Show(env.ackFault.value))] else []) &&
      s'.acknowledged == s.acknowledged + (if env.ackFault.None? then [d.receiptHandle] else []) &&
      s'.dirs == s.dirs && s'.files == s.files
  {
  }

  // ---------------------------------------------------------------------
  // What holds on every path
  // ---------------------------------------------------------------------

  /** The run of a message succeeded: it decoded, its file was fetched and
      the container's output came back. */
  predicate Succeeded(c: Config, d: Delivery, env: Env)
  {
    match c.readValue(d.body)
    case Decoded(jobId, s3Key, language) =>
      var dl := Download(c, jobId, s3Key, env);
      dl.file.Returned? &&
      DockerRunner.RunOutcome(language, dl.file.value, c.cwd, env.jdkMessage, env.process).Returned?
    case _ => false
  }

  /** Every message is answered: one text is published, or two exactly when
      the run succeeded and deleting the request message failed. The
      request message is deleted exactly when the run succeeded and the
      delete went through, and then the text published just before is
      under the job's id. At most one container is started. Earlier
      effects stay as they were, no directory is removed, and no file is
      left behind unless removing it failed. */
  lemma {:induction false} HandleInvariants(c: Config, s: WorkerState, d: Delivery, env: Env)
    ensures var s' := Handle(c, s, d, env);
      s.published < s'.published && s.acknowledged <= s'.acknowledged && s.containers <= s'.containers &&
      (|s'.published| == |s.published| + 2 <==> Succeeded(c, d, env) && env.ackFault.Some?) &&
      |s'.published| <= |s.published| + 2 &&
      (s'.acknowledged != s.acknowledged <==> Succeeded(c, d, env) && env.ackFault.None?) &&
      (s'.acknowledged != s.acknowledged ==>
        s'.acknowledged == s.acknowledged + [d.receiptHandle] &&
        |s'.published| == |s.published| + 1 &&
        s'.published[|s.published|].jobId == c.readValue(d.body).jobId) &&
      |s'.containers| <= |s.containers| + 1 &&
      s.dirs <= s'.dirs &&
      (!env.deleteFault ==> s'.files <= s.files)
  {
    match c.readValue(d.body)
    case Malformed(m) =>
    case DecodedNull =>
    case Decoded(jobId, s3Key, language) =>
      var dl := Download(c, jobId, s3Key, env);
      match dl.file
      case Threw(ex) =>
      case Returned(file) =>
        match DockerRunner.RunOutcome(language, file, c.cwd, env.jdkMessage, env.process)
        case Threw(e) =>
          ContainerFailureBranch(c, s, d, env, jobId, s3Key, language, file, e);
        case Returned(response) =>
          SuccessBranch(c, s, d, env, jobId, s3Key, language, file, response);
  }

  // ---------------------------------------------------------------------
  // Batches and polls
  // ---------------------------------------------------------------------

  /** Handling two batches one after the other is handling them joined. */
  lemma {:induction false} RunBatchAppend(c: Config, s: WorkerState, a: seq<Arrival>, b: seq<Arrival>)
    ensures RunBatch(c, s, a + b) == RunBatch(c, RunBatch(c, s, a), b)
    decreases |b|
  {
    if b == [] {
      assert a + b == a;
    } else {
      assert (a + b)[..|a + b| - 1] == a + b[..|b| - 1];
      RunBatchAppend(c, s, a, b[..|b| - 1]);
    }
  }

  /** All the messages of a sequence of polls, in order. */
  function Flatten(polls: seq<seq<Arrival>>): seq<Arrival>
  {
    if polls == [] then [] else Flatten(polls[..|polls| - 1]) + polls[|polls| - 1]
  }

  /** How the messages were grouped into polls makes no difference: the
      polls do what their messages, handled in order, do. In particular
      empty polls change nothing. */
  lemma {:induction false} RunPollsFlatten(c: Config, s: WorkerState, polls: seq<seq<Arrival>>)
    ensures RunPolls(c, s, polls) == RunBatch(c, s, Flatten(polls))
  {
    if polls != [] {
      RunPollsFlatten(c, s, polls[..|polls| - 1]);
      RunBatchAppend(c, s, Flatten(polls[..|polls| - 1]), polls[|polls| - 1]);
    }
  }

  /** Over a batch: every message gets at least one and at most two
      published texts, at most one request message is deleted per message
      and each deleted one came from the batch, earlier effects stay, and
      when no removal fails no downloaded file is left behind. */
  lemma {:induction false} BatchInvariants(c: Config, s: WorkerState, batch: seq<Arrival>)
    ensures BatchBounds(s, RunBatch(c, s, batch), batch)
  {
    if batch != [] {
      var init := batch[..|batch| - 1];
      var last := batch[|batch| - 1];
      BatchInvariants(c, s, init);
      var mid := RunBatch(c, s, init);
      HandleStep(c, mid, last.delivery, last.env);
      BatchStep(s, mid, Handle(c, mid, last.delivery, last.env), init, last);
      assert init + [last] == batch;
    }
  }

  /** From `s` to `s'` over `batch`: earlier effects stay, every message
      has at least one and at most two published texts, at most one
      request message is deleted per message and each deleted one came from
      the batch, and when no removal fails no downloaded file is left. */
  predicate BatchBounds(s: WorkerState, s': WorkerState, batch: seq<Arrival>)
  {
    s.published <= s'.published && s.acknowledged <= s'.acknowledged &&
    |s.published| + |batch| <= |s'.published| <= |s.published| + 2 * |batch| &&
    |s'.acknowledged| <= |s.acknowledged| + |batch| &&
    (forall k :: |s.acknowledged| <= k < |s'.acknowledged| ==>
      exists a :: a in batch && a.delivery.receiptHandle == s'.acknowledged[k]) &&
    ((forall a :: a in batch ==> !a.env.deleteFault) ==> s'.files <= s.files)
  }

  /** The part of `HandleInvariants` a batch adds up. */
  lemma {:induction false} HandleStep(c: Config, s: WorkerState, d: Delivery, env: Env)
    ensures var s' := Handle(c, s, d, env);
      s.published < s'.published && |s'.published| <= |s.published| + 2 &&
      s.acknowledged <= s'.acknowledged &&
      (s'.acknowledged != s.acknowledged ==> s'.acknowledged == s.acknowledged + [d.receiptHandle]) &&
      (!env.deleteFault ==> s'.files <= s.files)
  {
    HandleInvariants(c, s, d, env);
  }

  /** One more message, handled as `HandleInvariants` says, keeps the
      bounds of the batch. */
  lemma {:induction false} BatchStep(s: WorkerState, mid: WorkerState, s2: WorkerState, init: seq<Arrival>, last: Arrival)
    requires BatchBounds(s, mid, init)
    requires mid.published < s2.published && |s2.published| <= |mid.published| + 2
    requires mid.acknowledged <= s2.acknowledged
    requires s2.acknowledged != mid.acknowledged ==> s2.acknowledged == mid.acknowledged + [last.delivery.receiptHandle]
    requires !last.env.deleteFault ==> s2.files <= mid.files
    ensures BatchBounds(s, s2, init + [last])
  {
    var batch := init + [last];
    assert last in batch;
    assert forall a :: a in init ==> a in batch;
    forall k | |s.acknowledged| <= k < |s2.acknowledged|
      ensures exists a :: a in batch && a.delivery.receiptHandle == s2.acknowledged[k]
    {
      if k < |mid.acknowledged| {
        assert s2.acknowledged[k] == mid.acknowledged[k];
      } else {
        assert s2.acknowledged[k] == last.delivery.receiptHandle;
      }
    }
  }

  /** Polls that bring no message change nothing. */
  lemma {:induction false} EmptyPollsChangeNothing(c: Config, s: WorkerState, polls: seq<seq<Arrival>>)
    requires forall i :: 0 <= i < |polls| ==> polls[i] == []
    ensures RunPolls(c, s, polls) == s
  {
    if polls != [] {
      EmptyPollsChangeNothing(c, s, polls[..|polls| - 1]);
    }
  }

  // ---------------------------------------------------------------------
  // What reaches the response queue
  // ---------------------------------------------------------------------

  /** The `publishResult(RESPONSE_QUEUE_URL, jobId, result)` calls behind a
      log of publications; `transport(k)` is what the queue makes of the
      k-th send. */
  function ResponseCalls(queueUrl: string, pubs: seq<Publication>, transport: nat -> Publishing.Transport): (r: seq<Publishing.Call>)
    ensures |r| == |pubs|
    ensures forall k :: 0 <= k < |r| ==> r[k].queueUrl == queueUrl && r[k].jobId == pubs[k].jobId && r[k].result == Some(pubs[k].result)
  {
    seq(|pubs|, k requires 0 <= k < |pubs| => Publishing.Call(queueUrl, pubs[k].jobId, Some(pubs[k].result), transport(k)))
  }

  /** A batch puts at most two messages per request on the response queue,
      all of them to the response queue: at most two `publishResult` calls
      per message, each sending at most one message. */
  lemma {:induction false} BatchDeliveries(c: Config, s: WorkerState, batch: seq<Arrival>, queueUrl: string,
                                           serialize: Publishing.ResultMessage -> Publishing.Serialization,
                                           transport: nat -> Publishing.Transport)
    ensures var delivered := Publishing.Deliveries(serialize, ResponseCalls(queueUrl, RunBatch(c, s, batch).published, transport));
      |delivered| <= |s.published| + 2 * |batch| &&
      forall r :: r in delivered ==> r.queueUrl == queueUrl
  {
    var calls := ResponseCalls(queueUrl, RunBatch(c, s, batch).published, transport);
    BatchInvariants(c, s, batch);
    Publishing.DeliveriesBound(serialize, calls);
    forall r | r in Publishing.Deliveries(serialize, calls) ensures r.queueUrl == queueUrl {
      var call :| call in calls && call.transport.Accepted? && Publishing.SendAttempt(serialize, call) == Some(r);
    }
  }
}
