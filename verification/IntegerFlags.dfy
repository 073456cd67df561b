/** Flag numbers that are integers below 2^53 in magnitude: what the two languages promise of them, and what follows. */
module IntegerFlags {
  import opened Wrappers
  import opened ShellText
  import opened OutputText
  import opened BackupArgs
  import opened BackupParser
  import opened CommandRoundTrip

  function IntegerText(n: int): string {
    if n < 0 then "-" + Decimal(-n) else Decimal(n)
  }

  predicate Safe(n: int) {
    -0x20_0000_0000_0000 < n < 0x20_0000_0000_0000
  }

  /** `strconv.FormatFloat(v, 'f', -1, 64)` and `String(v)` print such a number as its digits, and `Number` reads
      them. */
  ghost predicate Standard(num: Numerals) {
    forall n: int | Safe(n) ::
      num.goText(n as real) == IntegerText(n) && num.jsText(n as real) == IntegerText(n)
          && num.jsRead(IntegerText(n)) == Some(n as real)
  }

  predicate SafeInteger(x: real) {
    x == x.Floor as real && Safe(x.Floor)
  }

  predicate IntegerNumbers(flags: FlagMap) {
    forall key | key in flags && flags[key].NumberFlag? :: SafeInteger(flags[key].n)
  }

  lemma SafeIntegerText(num: Numerals, x: real)
    requires Standard(num) && SafeInteger(x)
    ensures num.goText(x) == num.jsText(x) == IntegerText(x.Floor) && num.jsRead(num.jsText(x)) == Some(x)
  {
    var n := x.Floor;
    assert num.goText(n as real) == IntegerText(n);
  }

  lemma IntegerIsPrintable(n: int)
    ensures Printable(IntegerText(n))
  {
    DecimalValue(if n < 0 then -n else n);
    NoBackslash(IntegerText(n));
  }

  lemma IntegersAreLawful(num: Numerals, flags: FlagMap)
    requires Standard(num) && IntegerNumbers(flags)
    ensures Lawful(num, flags) && NumbersAgree(num, flags)
  {
    forall key | key in flags && flags[key].NumberFlag?
      ensures LawfulNumber(num, flags[key].n) && num.goText(flags[key].n) == num.jsText(flags[key].n) {
      SafeIntegerText(num, flags[key].n);
      IntegerIsPrintable(flags[key].n.Floor);
    }
  }

  /** With integer flag numbers, the preview is the command that runs exactly when no list holds an empty or
      non-string item. */
  lemma PreviewEqualsExecutionForIntegers(num: Numerals, task: Task)
    requires Standard(num) && IntegerNumbers(JsonObject(task.extraFlags)) && BackendArgs(num, task).Success?
    ensures PreviewArgs(num, task) == BackendArgs(num, task).value <==>
            Filled(task.sourcePaths) && Filled(task.excludes) && Filled(task.tags)
  {
    IntegersAreLawful(num, JsonObject(task.extraFlags));
    PreviewEqualsExecution(num, task);
  }

  /** With integer flag numbers, the printed backup line parses to the task exactly when the task is recoverable. */
  lemma BackupLineRoundTripForIntegers(num: Numerals, repo: Option<Repository>, task: Task)
    requires Standard(num) && IntegerNumbers(Shown(task).extraFlags)
    ensures ParsedCommand(num, CommandPreview(repo, PreviewArgs(num, task))) == Success(Shown(task))
            <==> Recoverable(num, Shown(task))
  {
    IntegersAreLawful(num, Shown(task).extraFlags);
    BackupLineRoundTrip(num, repo, task);
  }
}
