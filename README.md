# coding_platform_worker, modelled in Dafny

The worker of the coding platform takes job messages off a request queue.
Each message names a job id, the storage key of a submitted source file and
a language. For each message the worker:

1. decodes the body into a `JobMessage`;
2. downloads the file into a fresh temporary directory named
   `submission-<jobId>-<number>`;
3. runs it in a container for its language (`tkoppine/java-runner` compiles
   and runs a Java class, `tkoppine/python-runner` runs a Python script);
4. turns the container's output into a result text: what follows `RESULT:`
   on the first line that starts with it, or else an error object
   `{"status":"error","message":"..."}` built from the first output line;
5. publishes an envelope `{"jobId":"...","executionTimeMs":N,"result":...}`
   to the response queue through `ResultPublisher`;
6. deletes the request message;
7. removes the downloaded file.

Every failure is published as a prefixed text: `JSON Processing Error: `,
`IO Error: ` or `Runtime Error: ` under the job id "unknown", or
`Container Execution Error: ` under the job's own id. Only a run that
reached step 5 deletes its request message.

The project has these modules:

- `JavaLang` (`java_lang.dfy`): `null`-able strings, how `+` prints them,
  exception families, `long`.
- `JavaString` (`java_string.dfy`): the `String` operations the code uses,
  with Java's semantics. This covers `split("\n")` with its dropped
  trailing empty strings, `replace`, `startsWith`, `equalsIgnoreCase` and
  `Long.toString`.
- `JavaPath` (`java_path.dfy`): Unix `Path.of`, `getFileName`,
  `getParent` and `resolve`, on the path's text.
- `JobModel` (`job_message.dfy`): the `JobMessage` bean, as a class.
- `Publishing` (`result_publisher.dfy`): `ResultPublisher`, as a class.
  Its state is the requests sent and the requests delivered.
- `DockerRunner` (`docker_runner.dfy`): language selection, the
  `docker run` argument list and the output-collecting loop.
- `WorkerCodec` (`worker_codec.dfy`): `parseResult`, `summarizeError` and
  the success envelope, with readers that take each text apart again.
- `Service` (`worker_service.dfy`): `WorkerService`, as a class.

`Service.Handle` is a function giving the effect of one message on the
worker's state. That state is:

- the `publishResult` calls made, in order;
- the receipt handles of the deleted request messages;
- the argument lists of the containers started;
- the directories and files on disk.

`Process` is the method for one message. It uses a labelled block for the
outer `try`, `break` for each `catch`, and the statement after the block
for `finally`. `Process` is proved equal to `Handle`. `Start` is proved
equal to `RunPolls`, the function for a finite run of polls.
`BatchDeliveries` joins the worker's log of `publishResult` calls to the
publisher's model: a batch puts at most two messages per request message on
the response queue.

The collaborators appear as the outcomes they give the worker: the queue,
the object store, the file system, the JSON library and the container
process. Each message comes with its own outcomes, an `Env`. The decoder,
the temporary-file directory and the working directory are fixed per
service, a `Config`. A collaborator's outcome is never computed by the
model.

Where the code and the system's design description disagree, the model
follows the code:

- The design says an empty output gives the message "Unknown error". The
  code gives the empty message, because `"".split("\n")` is `[""]`. Only an
  output made of `\n` alone gives "Unknown error".
- The design puts a time limit on the container and a timeout marker in the
  output. The code has no time limit.
- The design removes the scratch directory on every path. The code deletes
  only the downloaded file, and never the directory.
- The design tags a failed retrieval with the job's id. The code publishes
  it under "unknown", as `IO Error: ` or `Runtime Error: `.
- The design does not delete the request message when the output carries
  no result line. The code deletes it after any run that returned, since
  the error object is published on the success path.
- When deleting the request message fails, the code publishes a second
  text, `Runtime Error: ...`, under "unknown".
- `DockerRunner.runContainer` is declared to return a `String`.
  `WorkerService` and its tests use `DockerRunner.ExecutionResponse(output,
  executionTimeMs)`. The model follows the caller: the runner returns the
  output and a time, and the time is an input.

## Model

| member | source | states |
|---|---|---|
| JavaLang.Show | src/main/java/com/service/WorkerService.java:81 | how `+` prints a `String` reference: `null` as "null", any other as itself; no contract of its own, used by `ToString`, `PythonCommand`, `SuccessEnvelope` and the published error texts |
| JobModel.JobMessage.Empty | src/main/java/com/model/JobMessage.java:8-9 | a job built by the no-argument constructor has all three fields `null` |
| JobModel.JobMessage.constructor | src/main/java/com/model/JobMessage.java:11-15 | the getters give back the three constructor arguments |
| JobModel.JobMessage.SetJobId | src/main/java/com/model/JobMessage.java:21-23 | the job id becomes the argument; the key and the language are unchanged |
| JobModel.JobMessage.SetS3Key | src/main/java/com/model/JobMessage.java:29-31 | the key becomes the argument; the job id and the language are unchanged |
| JobModel.JobMessage.SetLanguage | src/main/java/com/model/JobMessage.java:37-39 | the language becomes the argument; the job id and the key are unchanged |
| JobModel.JobMessage.GetJobId | src/main/java/com/model/JobMessage.java:17-19 | `getJobId()` reads the field; no contract of its own, the constructor's and setters' contracts are stated through it |
| JobModel.JobMessage.GetS3Key | src/main/java/com/model/JobMessage.java:25-27 | `getS3Key()` reads the field; no contract of its own, the constructor's and setters' contracts are stated through it |
| JobModel.JobMessage.GetLanguage | src/main/java/com/model/JobMessage.java:33-35 | `getLanguage()` reads the field; no contract of its own, the constructor's and setters' contracts are stated through it |
| JobModel.JobMessage.ToString | src/main/java/com/model/JobMessage.java:41-48 | the description text; no contract of its own, `ToStringRoundTrip` reads the fields back |
| JobModel.ToStringRoundTrip | src/main/java/com/model/JobMessage.java:41-48 | when no field text holds a single quote, the three field texts (with `null` printed as "null") can be read back out of `toString()` |
| Publishing.SendAttempt | src/main/java/com/util/ResultPublisher.java:20-28 | a request is sent exactly when the message of the call's own job id and result serializes; it goes to the call's queue with the serialized text as body |
| Publishing.ResultPublisher.constructor | src/main/java/com/util/ResultPublisher.java:15-18 | a new publisher keeps its serializer and has sent nothing |
| Publishing.ResultPublisher.PublishResult | src/main/java/com/util/ResultPublisher.java:20-36 | a serialization failure sends nothing; otherwise one request with that text goes to the given queue, and it is delivered unless the queue client throws; no failure reaches the caller |
| Publishing.Deliveries | src/main/java/com/util/ResultPublisher.java:20-36 | the messages a sequence of calls puts on the queue; no contract of its own, bounded by `DeliveriesBound` and tied to `PublishResult` by its contract |
| Publishing.DeliveriesBound | src/main/java/com/util/ResultPublisher.java:20-36 | a sequence of calls delivers at most one message per call, and each delivered message is the serialized message of an accepted call |
| DockerRunner.Recognize | src/main/java/com/util/DockerRunner.java:18-27 | the two `equalsIgnoreCase` tests, "java" first; no contract of its own, its meaning is stated by `RecognizeMeaning` |
| DockerRunner.JavaCommand | src/main/java/com/util/DockerRunner.java:20-21 | the compile-and-run command for a file name; no contract of its own, stated for `<stem>.java` by `JavaCommandOfSource` |
| DockerRunner.PythonCommand | src/main/java/com/util/DockerRunner.java:24 | the command `python /app/<name>`, with a missing name printed as "null"; no contract of its own, used by `PythonInvocation` |
| DockerRunner.DockerArgs | src/main/java/com/util/DockerRunner.java:29-33 | the program and arguments given to `ProcessBuilder`; no contract of its own, used by `Prepare`'s contract and the invocation lemmas |
| DockerRunner.Absolute | src/main/java/com/util/DockerRunner.java:31 | `parentDir.toAbsolutePath()`: an absolute path is kept and a relative one is resolved against the working directory; no contract of its own, used by `Prepare`'s contract and the invocation lemmas |
| DockerRunner.Prepare | src/main/java/com/util/DockerRunner.java:12-33 | a prepared invocation has a non-null recognized language and a path with a parent, runs the image of that language and mounts the absolute parent under `DockerArgs`; any other non-null language throws `Unsupported language: <language>` |
| DockerRunner.Accumulated | src/main/java/com/util/DockerRunner.java:38-43 | the text the read loop builds; no contract of its own, the loop is proved against it by `CollectOutput` and its shape by `CapturedOutputShape` and `SplitCapturedOutput` |
| DockerRunner.RunOutcome | src/main/java/com/util/DockerRunner.java:11-47 | the result of `runContainer`; no contract of its own, it is the specification `RunContainer` is proved against |
| DockerRunner.Started | src/main/java/com/util/DockerRunner.java:29-36 | there is a process exactly when the invocation is prepared and `pb.start()` does not throw, and it has the prepared argument list |
| DockerRunner.CollectOutput | src/main/java/com/util/DockerRunner.java:38-43 | the read loop's output is each line read followed by `\n`, in order |
| DockerRunner.RunContainer | src/main/java/com/util/DockerRunner.java:11-47 | a process exists exactly when the language, the file name and the parent directory allow the argument list to be built and `pb.start()` does not throw, and it has that argument list; the result is `RunOutcome`: the collected output and time, or the exception |
| DockerRunner.RecognizeMeaning | src/main/java/com/util/DockerRunner.java:18-27 | Java is selected exactly for the spellings of "java" in any ASCII case, Python exactly for those of "python" |
| DockerRunner.UnsupportedLanguage | src/main/java/com/util/DockerRunner.java:25-27 | any other language throws `Unsupported language: <language>` before a process exists, whatever the process would do |
| DockerRunner.JavaCommandOfSource | src/main/java/com/util/DockerRunner.java:20-21 | for `<stem>.java` the command compiles that file under `/app` and runs class `<stem>` |
| DockerRunner.JavaCommandRemovesEveryExtension | src/main/java/com/util/DockerRunner.java:20-21 | for a file name `<a>.java<b>` with no ".java" in `<a>`, the class run is `<a>` followed by `<b>` with every ".java" removed |
| DockerRunner.JavaInvocation | src/main/java/com/util/DockerRunner.java:12-33 | a Java file in a directory runs the Java image with that directory, made absolute, mounted at `/app`, under `sh -c` with the compile-and-run command |
| DockerRunner.PythonInvocation | src/main/java/com/util/DockerRunner.java:12-33 | a Python file in a directory runs the Python image with the directory mounted and the command `python /app/<name>` |
| DockerRunner.CapturedOutputShape | src/main/java/com/util/DockerRunner.java:38-46 | the output is empty or ends with `\n`, and holds exactly one `\n` per line read |
| DockerRunner.SplitCapturedOutput | src/main/java/com/util/DockerRunner.java:38-46 | splitting the output on `\n` gives back the lines read, less trailing empty ones, or `[""]` when none was read |
| JavaString.Split | src/main/java/com/service/WorkerService.java:124 | `split("\n")`; no contract of its own, its properties are `SplitEmptyIff`, `SplitHead`, `SplitJoin` and `SplitLinesHaveNoNewLine` |
| JavaString.ReplaceChar | src/main/java/com/service/WorkerService.java:138 | the same length, each `from` character turned into `to` and every other character kept |
| JavaString.RemoveAll | src/main/java/com/util/DockerRunner.java:21 | `replace(target, "")` never lengthens the text; its effect is stated by `RemoveAllAbsent`, `RemoveJavaOccurrence` and `RemoveJavaExtension` |
| JavaString.EqualsIgnoreCase | src/main/java/com/util/DockerRunner.java:18 | `equalsIgnoreCase` with ASCII folding; no contract of its own, stated by `EqualsIgnoreCaseLower` |
| JavaString.LongToString | src/main/java/com/service/WorkerService.java:82 | the text of a `long` is non-empty and made of digits and a minus sign; `LongRoundTrip` reads it back |
| JavaString.StartsWith | src/main/java/com/service/WorkerService.java:125 | `line.startsWith("RESULT:")`; no contract of its own, used by `FirstResultLine`'s contract and `ParseResultFound` |
| JavaString.Pieces | src/main/java/com/service/WorkerService.java:124 | cutting at every `\n` gives at least one piece, no piece holds `\n`, and joining them with `\n` gives the text back |
| JavaString.DropTrailingEmpty | src/main/java/com/service/WorkerService.java:124 | the result is a prefix of the pieces that does not end in an empty string, and only empty strings were dropped |
| JavaString.SplitJoin | src/main/java/com/service/WorkerService.java:124 | joining what `split("\n")` gives with `\n` is the text without its trailing `\n` characters |
| JavaString.SplitLinesHaveNoNewLine | src/main/java/com/service/WorkerService.java:124 | no string `split("\n")` gives holds a `\n` |
| JavaString.SplitEmptyIff | src/main/java/com/service/WorkerService.java:136-137 | `split("\n")` gives no string exactly when the text is non-empty and made of `\n` only |
| JavaString.SplitHead | src/main/java/com/service/WorkerService.java:136-138 | when `split("\n")` gives a string, the first is the text's first line |
| JavaString.ReplaceCharConcat | src/main/java/com/service/WorkerService.java:138 | replacing a character in a concatenation is replacing it in each part |
| JavaString.LongRoundTrip | src/main/java/com/service/WorkerService.java:82 | the decimal text of every `long` reads back as that `long` |
| JavaString.EqualsIgnoreCaseLower | src/main/java/com/util/DockerRunner.java:18 | against a lower-case word, `equalsIgnoreCase` holds exactly when the text in lower case is that word |
| JavaString.RemoveAllAbsent | src/main/java/com/util/DockerRunner.java:21 | `replace(target, "")` leaves a text without the target unchanged |
| JavaString.RemoveJavaExtension | src/main/java/com/util/DockerRunner.java:21 | `replace(".java", "")` on `<stem>.java` gives `<stem>` when the stem holds no ".java" |
| JavaString.RemoveJavaOccurrence | src/main/java/com/util/DockerRunner.java:21 | after a text holding no ".java", an occurrence of ".java" is cut out and the rest is scanned on: `replace(".java", "")` of `<a>.java<b>` is `<a>` followed by the removal applied to `<b>` |
| JavaString.RemoveEveryJavaExample | src/main/java/com/util/DockerRunner.java:21 | `A.javaB.java` loses both occurrences and gives `AB` |
| JavaPath.FileName | src/main/java/com/service/WorkerService.java:147 | the name of a path holds no `/`; `FileNameOfName` and `FileNameOfLastComponent` say which name it is |
| JavaPath.Normalize | src/main/java/com/service/WorkerService.java:147 | the text of `Path.of`: runs of `/` collapsed and a trailing `/` dropped except for the root; no contract of its own, used by `FileName`, `Parent` and `ResolveNameAndParent` |
| JavaPath.Parent | src/main/java/com/util/DockerRunner.java:13 | `getParent()` as text; no contract of its own, stated by `ResolveNameAndParent` |
| JavaPath.Resolve | src/main/java/com/service/WorkerService.java:149 | `resolve(name)` as text; no contract of its own, stated by `ResolveNameAndParent` |
| JavaPath.LastComponent | src/main/java/com/service/WorkerService.java:147 | the last component holds no `/`, is a suffix of the path, and is preceded by `/` when shorter than it |
| JavaPath.FileNameOfName | src/main/java/com/service/WorkerService.java:147 | a key without `/` is its own file name |
| JavaPath.FileNameOfLastComponent | src/main/java/com/service/WorkerService.java:147 | the file name of `<prefix>/<name>` is `<name>` |
| JavaPath.ResolveNameAndParent | src/main/java/com/service/WorkerService.java:149 | a name resolved in a directory has that name as file name and that directory as parent |
| WorkerCodec.ParseResult | src/main/java/com/service/WorkerService.java:123-133 | the result is either the rest of a line of the split output after `RESULT:` or the error object around the summary; `ParseResultFound` and `ParseResultNotFound` say which |
| WorkerCodec.ErrorPayload | src/main/java/com/service/WorkerService.java:129-132 | the error object around a message; no contract of its own, `ErrorPayloadRoundTrip` reads the message back |
| WorkerCodec.SuccessEnvelope | src/main/java/com/service/WorkerService.java:80-84 | the envelope of a successful run; no contract of its own, `EnvelopeRoundTrip` reads its three parts back |
| WorkerCodec.FirstResultLine | src/main/java/com/service/WorkerService.java:124-127 | the index found starts with `RESULT:` unless it is past the end, and no earlier line does |
| WorkerCodec.SummarizeError | src/main/java/com/service/WorkerService.java:135-141 | the summary holds no double quote |
| WorkerCodec.SummarizeErrorMeaning | src/main/java/com/service/WorkerService.java:135-141 | "Unknown error" exactly for a non-empty output of `\n` alone; otherwise the first line with double quotes turned into single quotes |
| WorkerCodec.ParseResultFound | src/main/java/com/service/WorkerService.java:123-128 | when line k is the first to start with `RESULT:`, the result is that line after the prefix |
| WorkerCodec.ParseResultNotFound | src/main/java/com/service/WorkerService.java:129-132 | when no line starts with `RESULT:`, the result is the error object around the summary |
| WorkerCodec.ErrorPayloadRoundTrip | src/main/java/com/service/WorkerService.java:129-132 | the message can be read back out of the error object |
| WorkerCodec.EnvelopeRoundTrip | src/main/java/com/service/WorkerService.java:80-84 | the job id, the time and the parsed result can be read back out of the envelope when the job id holds no double quote |
| WorkerCodec.TimeAndResultRoundTrip | src/main/java/com/service/WorkerService.java:82-84 | the time and the parsed result can be read back from the envelope's tail |
| WorkerCodec.ParseCapturedOutput | src/main/java/com/service/WorkerService.java:123-133 | on output the runner collected, the result comes from the first line read that starts with `RESULT:`, else it is the error object |
| WorkerCodec.SummarizeCapturedOutput | src/main/java/com/service/WorkerService.java:135-141 | on collected output, no line read gives the empty summary, and a non-empty line read makes the summary the first line read, quotes turned |
| WorkerCodec.TwoLineError | src/main/java/com/service/WorkerService.java:123-141 | a two-line output without result line gives the error object around its first line, quotes turned |
| WorkerCodec.ResultLineExample | src/test/java/com/service/WorkerServiceTest.java:92 | the test's output `RESULT:{"success":true}` parses to `{"success":true}` |
| WorkerCodec.SuccessEnvelopeExample | src/test/java/com/service/WorkerServiceTest.java:92-108 | the envelope for that test carries "job-123", 100 and `{"success":true}` |
| WorkerCodec.ErrorOutputExample | src/test/java/com/service/WorkerServiceTest.java:136-155 | the test's error output gives the error object with message `Error 'message'` |
| Service.TempPrefix | src/main/java/com/service/WorkerService.java:145 | the prefix `submission-<jobId>-`; no contract of its own, used by `TempNameHasNoSlash` and `PrefixWithSlash` |
| Service.OuterText | src/main/java/com/service/WorkerService.java:103-108 | the text of the outer handlers by exception family; no contract of its own, used by `DownloadFailureBranch` |
| Service.RunAndReply | src/main/java/com/service/WorkerService.java:73-97 | the inner `try`, the publish and the delete; no contract of its own, stated by `RepliedRun` and `ContainerFailureBranch`, and `Reply` is proved against it |
| Service.Handle | src/main/java/com/service/WorkerService.java:65-118 | one pass of the `for` loop, `finally` included; no contract of its own, stated by the branch lemmas and `HandleInvariants`, and `Process` is proved against it |
| Service.RunBatch | src/main/java/com/service/WorkerService.java:65-119 | the messages of one poll handled in order; no contract of its own, stated by `RunBatchAppend` and `BatchInvariants` |
| Service.RunPolls | src/main/java/com/service/WorkerService.java:53-120 | a finite run of polls; no contract of its own, stated by `RunPollsFlatten` and `EmptyPollsChangeNothing`, and `Start` is proved against it |
| Service.Download | src/main/java/com/service/WorkerService.java:143-159 | a returned file implies a created directory; a directory is created only for a prefix without `/` and when creating does not fail; only `IOException`s and unchecked exceptions escape |
| Service.TempNameHasNoSlash | src/main/java/com/service/WorkerService.java:145 | for a job id without `/` the directory name holds no `/` |
| Service.DownloadLocation | src/main/java/com/service/WorkerService.java:143-158 | without faults the directory is `submission-<jobId>-<n>` directly in the temporary-file directory, and the file is the key's last name directly in it |
| Service.DownloadWithoutFaults | src/main/java/com/service/WorkerService.java:145-158 | without faults the download returns the key's last name resolved in the new directory |
| Service.JobIdWithSlash | src/main/java/com/service/WorkerService.java:143-145 | a job id with `/` publishes exactly `Runtime Error: Invalid prefix or suffix` under "unknown" and changes nothing else |
| Service.PrefixWithSlash | src/main/java/com/service/WorkerService.java:145 | a job id holding `/` gives a directory prefix holding `/` |
| Service.RefusedDownload | src/main/java/com/service/WorkerService.java:143-145 | a refused prefix publishes only the outer handler's text for the exception under "unknown" |
| Service.MalformedBranch | src/main/java/com/service/WorkerService.java:99-102 | an undecodable body publishes one `JSON Processing Error` under "unknown" and changes nothing else |
| Service.DecodedNullBranch | src/main/java/com/service/WorkerService.java:105-107 | a body that decodes to `null` makes `job.getJobId()` throw; one `Runtime Error` with that exception's message is published under "unknown" and nothing else changes |
| Service.DownloadFailureBranch | src/main/java/com/service/WorkerService.java:103-108 | a failed download publishes one `IO Error` or `Runtime Error` under "unknown", by exception family; nothing is run, deleted or removed |
| Service.ContainerFailureBranch | src/main/java/com/service/WorkerService.java:85-90 | a failed run publishes one `Container Execution Error` with the message under the job id; the request stays; a container is recorded only when the invocation was prepared and `pb.start()` did not throw; the file is removed unless removal fails |
| Service.UnsupportedLanguageBranch | src/main/java/com/service/WorkerService.java:74-90 | an unsupported language publishes `Container Execution Error: Unsupported language: <language>` under the job id and starts no container |
| Service.SuccessBranch | src/main/java/com/service/WorkerService.java:92-97 | a returned run publishes the envelope under the job id and deletes the request; a failed delete keeps it and adds a `Runtime Error` under "unknown"; the prepared container was started |
| Service.RepliedFailure | src/main/java/com/service/WorkerService.java:85-90 | after a run that threw, one `Container Execution Error` under the job id, no delete, nothing on disk changed, and a container recorded exactly when the invocation was prepared and `pb.start()` did not throw |
| Service.Downloaded | src/main/java/com/service/WorkerService.java:71 | once the download returns a file, that file is on disk and nothing is published, deleted or started |
| Service.RepliedRun | src/main/java/com/service/WorkerService.java:74-97 | after a returned run the prepared container is recorded, the envelope is published under the job id, the request is deleted or a `Runtime Error` follows under "unknown", and nothing on disk changes |
| Service.HandleInvariants | src/main/java/com/service/WorkerService.java:65-118 | every message publishes one text, or two exactly when the run succeeded and the delete failed; a request is deleted exactly when the run succeeded and the delete went through, right after a publish under the job id; at most one container; earlier effects kept; no file left unless removal failed |
| Service.RunBatchAppend | src/main/java/com/service/WorkerService.java:65-119 | handling two batches in turn is handling them joined |
| Service.RunPollsFlatten | src/main/java/com/service/WorkerService.java:53-120 | polls have the effect of all their messages handled in order |
| Service.EmptyPollsChangeNothing | src/main/java/com/service/WorkerService.java:61-63 | polls that bring no message change nothing |
| Service.BatchInvariants | src/main/java/com/service/WorkerService.java:65-119 | a batch publishes between one and two texts per message, deletes at most one request per message and only requests of the batch, and leaves no file when no removal fails |
| Service.ResponseCalls | src/main/java/com/service/WorkerService.java:92 | one `publishResult(RESPONSE_QUEUE_URL, jobId, result)` call per publication, in order, with its job id, result and queue |
| Service.BatchDeliveries | src/main/java/com/service/WorkerService.java:65-119 | a batch puts at most two messages per request message on the queue, all of them on the response queue |
| Service.WorkerService.constructor | src/main/java/com/service/WorkerService.java:35-42 | a new service has done nothing |
| Service.WorkerService.PublishResult | src/main/java/com/service/WorkerService.java:92 | one `publishResult` call is added to the log |
| Service.WorkerService.DownloadCode | src/main/java/com/service/WorkerService.java:143-159 | returns the download's file or exception, and records exactly the directory and file it created |
| Service.WorkerService.Reply | src/main/java/com/service/WorkerService.java:73-97 | the new state is `RunAndReply` of the old: the container run, the failure or envelope published, the request deleted |
| Service.WorkerService.Process | src/main/java/com/service/WorkerService.java:65-118 | the new state is `Handle` of the old state: decode, download, run, publish, delete, remove the file |
| Service.WorkerService.Start | src/main/java/com/service/WorkerService.java:50-121 | the new state is `RunPolls` of the old: empty polls skipped, each poll's messages handled in order |

## Left out

- `startListening` and its thread, and `Thread.interrupt`: the model has no concurrency.
- `Start`: the endless `while (true)` loop is modelled over a finite sequence of polls.
- `Start`: an exception from `receiveMessage` (WorkerService.java:54-59), which sits outside every `try` and so ends `start()`, is not modelled; every poll yields its messages.
- The queue's long poll, `maxNumberOfMessages` and `waitTimeSeconds`: a poll's messages are an input.
- The queue URLs and the bucket name: they only address collaborators.
- Console and error-stream logging, including the `Received Job: ` line.
- Jackson: decoding is a function of the body given to the service, and serialization is a function given to the publisher.
- The S3 transfer: a download outcome is an input. A file partly written before the fetch failed is not recorded.
- `Files.createTempDirectory`: its random number is an input, its permissions and retries are not modelled, and its failures are inputs.
- `Service.Download`: a NUL character in a job id or key (`InvalidPathException`) is not modelled.
- Process spawning, `redirectErrorStream` and `waitFor`: whether `pb.start()` throws, the process's lines and time, or the exception from reading or waiting, are an input. Its exit code is ignored, as in the code.
- The execution time: `runContainer` as declared returns no time, so the time is an input.
- `Publishing.ResultPublisher.PublishResult`: SDK exceptions other than `SqsException` are not modelled. The code lets them reach the worker's handlers; when they come from a publish inside an outer `catch` no handler is left, so they leave `start()` and end the worker.
- `JavaString.EqualsIgnoreCase` folds ASCII letters only. This is exact for "java" and "python", which hold no letter that case-folds from outside ASCII.
- The messages the JDK gives a `NullPointerException` are an input, `jdkMessage`.
- `DockerRunner.Absolute`: `toAbsolutePath` takes the working directory as a parameter.
