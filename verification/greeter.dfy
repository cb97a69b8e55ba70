/**
  The greeter executable: it picks a subject name from the argument vector,
  prints "Hello, <name>!" followed by a newline, and exits with status 1 when
  fmt.Printf returns a write error. Writing to standard output is modelled by a WriteStatus
  parameter; the process exit is the exitCode field of the Outcome.
*/
module Greeter {
  import opened Results

  /** Subject used when nothing follows the program name. */
  const DefaultName: string := "World"

  /** The fixed text around the subject in the printed line. */
  const Prefix: string := "Hello, "
  const Suffix: string := "!\n"

  /** Exit statuses: 0 is the implicit status of a normal return from main. */
  const ExitSuccess: int := 0
  const ExitFailure: int := 1

  /**
    The subject name chosen from the full argument vector (program name at
    index 0): the first argument after the program name, verbatim, or the
    default when there is none. Later arguments are never looked at.
  */
  function ResolveName(args: seq<string>): (name: string)
    ensures |args| < 2 ==> name == DefaultName
    ensures |args| >= 2 ==> name == args[1]
  {
    if |args| > 1 then args[1] else DefaultName
  }

  /** The line the program writes for a given subject. */
  function Greeting(name: string): (line: string)
    ensures |line| == |Prefix| + |name| + |Suffix|
    ensures Prefix <= line
    ensures line[|Prefix|..|line| - |Suffix|] == name
    ensures line[|line| - |Suffix|..] == Suffix
  {
    Prefix + name + Suffix
  }

  /**
    Reads a subject back out of a printed line: the inverse of Greeting,
    None for any text that Greeting cannot produce.
  */
  function ParseGreeting(line: string): (r: Option<string>)
    ensures r.Some? <==> |line| >= |Prefix| + |Suffix| && Prefix <= line && line[|line| - |Suffix|..] == Suffix
    ensures r.Some? ==> |r.value| == |line| - |Prefix| - |Suffix|
  {
    if |line| >= |Prefix| + |Suffix| && Prefix <= line && line[|line| - |Suffix|..] == Suffix
    then Some(line[|Prefix|..|line| - |Suffix|])
    else None
  }

  /** Exit status chosen from whether the write reported an error. */
  function ExitCode(writeOk: bool): (code: int)
    ensures code == ExitSuccess <==> writeOk
    ensures code == ExitFailure <==> !writeOk
  {
    if writeOk then ExitSuccess else ExitFailure
  }

  /**
    What the write to standard output reported: success, or an error after
    the writer accepted some number of characters.
  */
  datatype WriteStatus = Written | Failed(accepted: nat)

  /** What an observer of one run sees: standard output and the exit status. */
  datatype Outcome = Outcome(stdout: string, exitCode: int)

  /** One run of the program on the argument vector `args`. */
  function Run(args: seq<string>, status: WriteStatus): (o: Outcome)
    ensures o.stdout <= Greeting(ResolveName(args))
    ensures status.Written? ==> o.stdout == Greeting(ResolveName(args))
    ensures o.exitCode == ExitSuccess <==> status.Written?
    ensures o.exitCode == ExitFailure <==> status.Failed?
    ensures status.Failed? ==> |o.stdout| == if status.accepted < |Greeting(ResolveName(args))| then status.accepted else |Greeting(ResolveName(args))|
  {
    var line := Greeting(ResolveName(args));
    match status
    case Written => Outcome(line, ExitCode(true))
    case Failed(n) => Outcome(line[..if n < |line| then n else |line|], ExitCode(false))
  }

  /** Parsing a printed line gives back exactly the subject it was built from. */
  lemma ParseGreetingOfGreeting(name: string)
    ensures ParseGreeting(Greeting(name)) == Some(name)
  {
  }

  /** Every line ParseGreeting accepts is the greeting of the subject it returns. */
  lemma GreetingOfParseGreeting(line: string)
    ensures ParseGreeting(line).Some? ==> Greeting(ParseGreeting(line).value) == line
  {
    if ParseGreeting(line).Some? {
      var n := |line|;
      var name := ParseGreeting(line).value;
      assert line == line[..|Prefix|] + line[|Prefix|..n - |Suffix|] + line[n - |Suffix|..];
      assert line[..|Prefix|] == Prefix;
    }
  }

  /** Distinct subjects print distinct lines, so the output identifies the subject. */
  lemma GreetingInjective(a: string, b: string)
    ensures Greeting(a) == Greeting(b) <==> a == b
  {
    if Greeting(a) == Greeting(b) {
      ParseGreetingOfGreeting(a);
      ParseGreetingOfGreeting(b);
    }
  }

  /** An empty subject is printed as is, with nothing between the comma-space and the bang. */
  lemma EmptyArgumentGreeting(program: string)
    ensures Run([program, ""], Written) == Outcome("Hello, !\n", ExitSuccess)
  {
  }

  /** The two runs of the integration tests: no argument, and the single argument "Test". */
  lemma TestScenarios(program: string)
    ensures Run([program], Written) == Outcome("Hello, World!\n", ExitSuccess)
    ensures Run([program, "Test"], Written) == Outcome("Hello, Test!\n", ExitSuccess)
  {
    assert Greeting(DefaultName) == "Hello, World!\n";
    assert Greeting("Test") == "Hello, Test!\n";
  }

  /** An argument after "Test" is not looked at: the run still greets "Test". */
  lemma ExtraArgumentIgnored(program: string)
    ensures Run([program, "Test", "Extra"], Written) == Outcome("Hello, Test!\n", ExitSuccess)
  {
    assert Greeting("Test") == "Hello, Test!\n";
  }

  /**
    Stated over the arguments that follow the program name: the line printed
    on a successful write greets the first of them, or the default when there
    are none, whatever the program name is.
  */
  lemma RunGreetsFirstArgument(program: string, cmd: seq<string>)
    ensures Run([program] + cmd, Written).stdout
         == Greeting(if |cmd| == 0 then DefaultName else cmd[0])
  {
    if |cmd| > 0 {
      assert ([program] + cmd)[1] == cmd[0];
    }
  }

  /** Two argument vectors that agree at index 1 give the same run, whatever follows. */
  lemma RunIgnoresLaterArguments(a: seq<string>, b: seq<string>, status: WriteStatus)
    requires |a| >= 2 && |b| >= 2 && a[1] == b[1]
    ensures Run(a, status) == Run(b, status)
  {
  }

  /**
    A successful run's output is a greeting, and reading it back recovers the
    resolved subject: nothing but ResolveName(args) reaches standard output.
  */
  lemma RunOutputNamesSubject(args: seq<string>)
    ensures ParseGreeting(Run(args, Written).stdout) == Some(ResolveName(args))
  {
    ParseGreetingOfGreeting(ResolveName(args));
  }

  /**
    The default is not marked in the output: running without an argument and
    running with the argument "World" cannot be told apart.
  */
  lemma DefaultIndistinguishableFromExplicit(program: string, status: WriteStatus)
    ensures Run([program], status) == Run([program, DefaultName], status)
  {
  }

  /** Exit status 0 is reported only when the whole greeting reached standard output. */
  lemma SuccessMeansWholeGreeting(args: seq<string>, status: WriteStatus)
    ensures Run(args, status).exitCode == ExitSuccess ==> ParseGreeting(Run(args, status).stdout) == Some(ResolveName(args))
  {
    if Run(args, status).exitCode == ExitSuccess {
      RunOutputNamesSubject(args);
    }
  }
}
