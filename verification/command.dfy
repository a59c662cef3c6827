/**
  The `print` command in front of the renderer: the prefix test that decides
  whether the command handles an input, the parameter-count check, and the
  processing of an already-split command against the rows the database
  returns for the named table.
 */
module PrintCommand {
  import opened Numerals
  import opened Table

  /** A result or the message of the IllegalArgumentException raised instead. */
  datatype Result<T> = Success(value: T) | Failure(error: string)

  datatype Outcome = Pass | Fail(error: string)

  const COMMAND_PREFIX: string := "print "

  const PARAMETER_COUNT_MESSAGE: string := "incorrect number of parameters. Expected 1, but is "

  /** The command handles exactly the inputs that start with "print " (the space included). */
  predicate CanProcess(command: string)
  {
    |COMMAND_PREFIX| <= |command| && command[..|COMMAND_PREFIX|] == COMMAND_PREFIX
  }

  /** Every input made of the prefix and anything after it is handled. */
  lemma CanProcessPrefixed(rest: string)
    ensures CanProcess(COMMAND_PREFIX + rest)
  {
    assert (COMMAND_PREFIX + rest)[..|COMMAND_PREFIX|] == COMMAND_PREFIX;
  }

  /** A handled input is the prefix followed by the rest of it. */
  lemma CanProcessOnlyPrefixed(command: string)
    requires CanProcess(command)
    ensures command == COMMAND_PREFIX + command[|COMMAND_PREFIX|..]
  {
    assert command == command[..|COMMAND_PREFIX|] + command[|COMMAND_PREFIX|..];
  }

  /**
    The split command must be exactly the command word and one table name;
    otherwise the failure message ends with the number of parameters given,
    which is one less than the number of tokens, written the way Java writes
    an int (no leading zero, no "-0") and reading back as that number.
   */
  function ValidateCommandLength(tokens: seq<string>): (o: Outcome)
    ensures o.Pass? <==> |tokens| == 2
    ensures o.Fail? ==>
              && |PARAMETER_COUNT_MESSAGE| < |o.error|
              && o.error[..|PARAMETER_COUNT_MESSAGE|] == PARAMETER_COUNT_MESSAGE
              && IsCanonicalNumeral(o.error[|PARAMETER_COUNT_MESSAGE|..])
              && ParseInt(o.error[|PARAMETER_COUNT_MESSAGE|..]) == |tokens| - 1
  {
    if |tokens| != 2 then
      var count := IntToString(|tokens| - 1);
      var message := PARAMETER_COUNT_MESSAGE + count;
      assert message[..|PARAMETER_COUNT_MESSAGE|] == PARAMETER_COUNT_MESSAGE;
      assert message[|PARAMETER_COUNT_MESSAGE|..] == count;
      ParseIntToString(|tokens| - 1);
      Fail(message)
    else
      Pass
  }

  /**
    Processing a split command: a wrong parameter count fails before anything
    is fetched or rendered; otherwise the table named by the second token is
    fetched and rendered. `fetch` stands for the database returning the rows
    of a table (none for a table that does not exist).
   */
  function Process(tokens: seq<string>, fetch: string -> seq<DataSet>): (r: Result<string>)
    requires |tokens| == 2 ==> Renderable(fetch(tokens[1]))
    ensures r.Failure? <==> |tokens| != 2
    ensures r.Failure? ==> ValidateCommandLength(tokens) == Fail(r.error)
    ensures r.Success? ==> r.value == TableString(tokens[1], fetch(tokens[1]))
  {
    match ValidateCommandLength(tokens)
    case Fail(message) => Failure(message)
    case Pass => Success(TableString(tokens[1], fetch(tokens[1])))
  }
}
