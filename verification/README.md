# container-cover greeter, modelled in Dafny

The repository is a tiny Go command, `cmd/app`, plus the integration test
that builds it in a container, runs it, and optionally copies Go coverage
data back to the host. This project models both pieces of logic in it:

- **Greeter** (`greeter.dfy`): the program resolves a subject name from the
  argument vector (the first argument after the program name, verbatim, or
  `"World"`), prints `Hello, <name>!` and a newline, and exits with status 1
  when `fmt.Printf` returns a write error (0 otherwise). Writing is a `WriteStatus` parameter:
  `Written`, or `Failed(accepted)` after the writer took some characters.
  `ParseGreeting` is the inverse of the formatting and is used to state that
  the output identifies the subject.
- **Coverage** (`coverage.dfy`): the test's coverage switches. A non-empty
  `COVER_CONTAINER_DIR` turns on the `COVER_INSTRUMENT=1` build argument, the
  `GOCOVERDIR` variable and an anonymous volume at that directory; coverage
  is copied back only when `COVER_HOST_DIR` is non-empty as well, with a
  relative host directory placed under the repository root.
- **TarCopy** (`tar_copy.dfy`): the loop of `copyFromContainer` over the tar
  stream. When the copied path is a directory, an entry is accepted only if
  its name equals the directory's basename or starts with `basename + "/"`,
  and the basename is cut off. Only directory and regular-file entries are
  handled. The first error ends the loop, and reaching the end of the stream
  is success. The fold `Fold` is written for any loop body; `CopyEntries`
  uses it with `ProcessEntry`, and the method `CopyLoop` is the imperative
  loop proved equal to it.
- **Results** (`results.dfy`): `Option` and `Result`, shared by the others.

Inputs the program reads from the world are parameters: the argument vector,
the outcome of the write, the two environment values, whether `stat` reports
the container path as a directory and then the `path.Base` of that path (`Source`), the decoded tar entries (`seq<Next>`, whose
end stands for `io.EOF`), and whether each host filesystem step succeeds
(`ioOk`).

## Model

| member | source | states |
|---|---|---|
| Greeter.ResolveName | cmd/app/main.go:9-12 | with fewer than two entries in the argument vector the subject is "World"; otherwise it is exactly the entry at index 1, untrimmed |
| Greeter.Greeting | cmd/app/main.go:13 | the printed line is "Hello, " then the subject then "!\n", and is 9 characters longer than the subject |
| Greeter.ExitCode | cmd/app/main.go:14-16 | the exit status is 0 exactly when the write succeeded and 1 exactly when it failed |
| Greeter.Run | cmd/app/main.go:8-17 | standard output is always a prefix of the greeting of the resolved subject, all of it on a successful write and as many characters as the writer accepted (at most the whole line) on a failed one; status 0 iff the write succeeded, 1 iff it failed |
| Greeter.ParseGreetingOfGreeting | cmd/app/main.go:13 | reading the subject back out of a printed line gives the subject it was printed for |
| Greeter.GreetingOfParseGreeting | cmd/app/main.go:13 | any line that reads back as a subject is the greeting of that subject, so the format has no other shapes |
| Greeter.GreetingInjective | cmd/app/main.go:13 | two subjects print the same line iff they are equal |
| Greeter.EmptyArgumentGreeting | cmd/app/main.go:10-13 | an empty argument is used as is and prints "Hello, !\n" with status 0 |
| Greeter.TestScenarios | cmd/app/main_test.go:36-53 | no argument prints "Hello, World!\n" and "Test" prints "Hello, Test!\n", each with status 0 |
| Greeter.ExtraArgumentIgnored | cmd/app/main.go:10-11 | "Test" followed by "Extra" still prints "Hello, Test!\n" with status 0 |
| Greeter.RunGreetsFirstArgument | cmd/app/main.go:9-13 | for any program name and any argument list after it, a successful run greets the first argument, or "World" when the list is empty |
| Greeter.RunIgnoresLaterArguments | cmd/app/main.go:10-11 | two argument vectors with the same entry at index 1 give the same output and status, whatever follows |
| Greeter.RunOutputNamesSubject | cmd/app/main.go:8-17 | the output of a successful run reads back as exactly the resolved subject: nothing else of the input reaches it |
| Greeter.DefaultIndistinguishableFromExplicit | cmd/app/main.go:9-11 | running with no argument and running with the argument "World" cannot be told apart |
| Greeter.SuccessMeansWholeGreeting | cmd/app/main.go:13-16 | status 0 implies the complete greeting of the resolved subject is on standard output |
| Coverage.Settings | cmd/app/main_test.go:79-90 | instrumentation build argument "1", GOCOVERDIR and a volume mount are all present iff the container cover dir is non-empty; there is at most one mount; GOCOVERDIR and the mount target equal that directory; no other keys are set |
| Coverage.SettingsAreCoherent | cmd/app/main_test.go:79-90 | for every value, instrumented build, GOCOVERDIR and the mount come together and the mount sits where GOCOVERDIR points |
| Coverage.IsAbs | cmd/app/main_test.go:147 | a host directory counts as absolute iff it is non-empty and starts with "/" |
| Coverage.PlanCopy | cmd/app/main_test.go:137-152 | coverage is copied iff both directory values are non-empty; the source is the container dir; an absolute host dir is used as given and a relative one under the root |
| Coverage.CopyOnlyFromInstrumented | cmd/app/main_test.go:137-145 | whenever coverage is copied, the container was instrumented, GOCOVERDIR named the copied directory, and a volume was mounted there |
| Coverage.HostDirAloneCopiesNothing | cmd/app/main_test.go:137-140 | with an empty container cover dir nothing is copied, whatever the host dir, and the build is not instrumented |
| TarCopy.HasPrefix | cmd/app/main_test.go:202 | the prefix test agrees with the sequence-prefix relation, and the prefix followed by the remainder rebuilds the string |
| TarCopy.BelongsTo | cmd/app/main_test.go:202 | an entry belongs iff its name starts with the basename and what follows is empty or begins with "/" |
| TarCopy.CutPrefix | cmd/app/main_test.go:205 | when the prefix is present, prefix plus result is the input; otherwise the input is returned unchanged |
| TarCopy.Relocate | cmd/app/main_test.go:201-207 | from a non-directory the name passes unchanged; from a directory the entry is accepted iff it equals the basename or starts with basename + "/", the accepted result with the basename put back is the original name and is empty or starts with "/", and a refusal carries the name and basename |
| TarCopy.Dispatch | cmd/app/main_test.go:209-237 | only the directory and regular-file type flags succeed, giving a directory step resp. a file step for the same name; any other flag is an unexpected-type error carrying name and flag |
| TarCopy.ProcessEntry | cmd/app/main_test.go:194-238 | a reader error is returned as such; a header outside the copied directory is refused with NotInDirectory before its type is looked at; otherwise an unsupported type flag is UnexpectedType under the stored name; otherwise a failed filesystem step is IoFailed and a successful one is processed; a success is the directory step for a directory entry and the file step for a regular file, named with the basename cut off when copying a directory and unchanged otherwise |
| TarCopy.Fold | cmd/app/main_test.go:193-241 | the loop performs at most one step per item; returning nil means every item was performed; an error is the result of processing the item right after the performed ones |
| TarCopy.CopyEntries | cmd/app/main_test.go:193-241 | the copy returns nil iff every tar item is processed without error; an error is the one of the item right after the performed steps |
| TarCopy.FoldCompletesPrefix | cmd/app/main_test.go:193-239 | the i-th performed step is the result of processing the i-th item, for every performed step |
| TarCopy.FoldSucceedsIffAllProcessed | cmd/app/main_test.go:193-241 | the loop returns nil iff every item of the stream is processed without error |
| TarCopy.CopyLoop | cmd/app/main_test.go:193-241 | the imperative loop that breaks at end of stream and returns at the first error computes exactly the fold |
| TarCopy.CopyFromContainer | cmd/app/main_test.go:185-241 | the copy of a container path gives the fold's report and returns nil iff every tar item is processed without error |
| TarCopy.FoldStopsAtFirstError | cmd/app/main_test.go:198-199 | once processing has failed, items later in the stream change neither the steps performed nor the error |
| TarCopy.FoldContinuesAfterSuccess | cmd/app/main_test.go:193-241 | after a prefix that copies cleanly, the copy of the whole stream is those steps followed by the copy of the rest |
| TarCopy.CleanCopyIffAllAccepted | cmd/app/main_test.go:201-237 | a directory copy returns nil iff every item is a directory or regular-file header belonging to the directory whose step, under its name without the basename, succeeds |
| TarCopy.ProcessedIffAccepted | cmd/app/main_test.go:201-237 | under a directory one item is processed iff it is accepted and its step under the stripped name succeeds |
| TarCopy.ProcessedIffAcceptedNotDirectory | cmd/app/main_test.go:201-237 | when the copied path is not a directory, one item is processed iff it is a directory or regular-file header and the step under its unchanged name succeeds |
| TarCopy.DirectoryStoresStrippedNames | cmd/app/main_test.go:201-237 | every step a directory copy performs is for a directory or regular-file header belonging to the directory, named with the basename cut off, a directory step for a directory entry and a file step for a regular file |
| TarCopy.RelocateRoundTrip | cmd/app/main_test.go:202-205 | basename + rest is accepted iff rest is empty or starts with "/", and is then stored as rest |
| TarCopy.SiblingRejected | cmd/app/main_test.go:202-204 | a name that is the basename followed by any character other than "/" (such as "covdata2" for "covdata") is refused |
| TarCopy.NotDirectoryKeepsNames | cmd/app/main_test.go:201-207 | when the copied path is not a directory, every performed step is for a directory or regular-file header: a directory step for a directory entry and a file step for a regular file, under the entry's name unchanged |

## Left out

- Writing to standard output and `os.Exit`: the write's outcome is the `WriteStatus` parameter and the exit status is a field of the result.
- Greeter.Run: `Failed` stands for a write error that `fmt.Printf` returns to `main`; a write to a standard output whose pipe reader has gone away (EPIPE) makes the Go runtime end the process by SIGPIPE inside the write, unless SIGPIPE is ignored or handled, so that run has no exit status 1, and this is not modelled. Arguments are modelled as Unicode text: an `os.Args[1]` that is not valid UTF-8, which Go passes through verbatim, has no Dafny `string` and is not modelled.
- Greeter.Run: characters stand for the UTF-8 bytes Go writes, so on a failed write the model's partial output is counted in characters, not bytes; a failed write that reports every character as accepted keeps the whole greeting.
- Building, starting, waiting for, stopping and reading the logs of the container (`runContainer`'s request, `stopContainer`, `assertContainerLog`) and `createDockerProvider`: calls into Docker and testcontainers.
- The Docker `CopyFromContainer` call, `os.MkdirAll` of the host directory, and the errors they return before the loop starts.
- Tar decoding: entries arrive decoded; a `ReadError` item stands for any error of the reader other than `io.EOF`, and the end of the sequence is `io.EOF`.
- Host filesystem effects and file modes: `ioOk` says whether the step for an entry succeeds; for a regular file the parent `MkdirAll`, `OpenFile` and `io.Copy` are one `WriteFile` step with one error.
- TarCopy.ProcessEntry: whether a step succeeds is a fixed function of the step alone, so it cannot depend on the entry's position, on earlier steps (a file already sitting where a later directory must go) or on the entry's data (a truncated body met by `io.Copy`); TarCopy.FoldContinuesAfterSuccess and TarCopy.CleanCopyIffAllAccepted hold under that simplification.
- `filepath.Clean`, `filepath.Join`, `filepath.Abs`, `path.Base`, and `runtime.Caller` and the `filepath` calls in `getRootDir`: steps and the `UnexpectedType` and `IoFailed` errors carry the entry name after the basename is cut off and before cleaning, where the source's messages print the cleaned name; the root directory is the `rootDir` parameter of `PlanCopy`; the basename is a field of `Source`; a relative host directory is recorded as `UnderRoot(root, dir)` rather than resolved, so the error of `filepath.Abs` is not modelled.
- Coverage.PlanCopy: `filepath.IsAbs` is taken with Unix rules (a leading "/"); Windows drive-letter and UNC paths are not modelled.
- Reading the environment variables: their values are parameters.
- Coverage.CopyOnlyFromInstrumented: `COVER_CONTAINER_DIR` is read twice, once when the container is requested and once when coverage is copied; the lemma assumes both reads see the same value.
- The test's log message (`t.Logf`) and the `require` failure paths, which only stop the test.
