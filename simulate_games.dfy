// The command line of the simulator (scripts/simulate-games.js): the
// argument parser and the validation of its options. Reading the batch file,
// running the simulation and printing are not part of this model.

module SimulateGames {
  import opened Wrappers
  import Text

  /**
   * The value `Number(text)` gives, as far as validation cares: an integer,
   * or anything else (NaN, a fraction, an infinity).
   */
  datatype JsNumber = Integer(value: int) | NotInteger

  /**
   * `Number(text)` for the argument after a flag; None is a missing argument
   * (`undefined`, which gives NaN). The empty string is 0; an optional minus
   * sign followed by decimal digits is that integer; any other text counts
   * as not an integer.
   */
  function ToNumber(text: Option<string>): (n: JsNumber)
    ensures text.None? ==> n == NotInteger
    ensures text == Some("") ==> n == Integer(0)
    ensures text.Some? && |text.value| > 0 && Text.AllDigits(text.value) ==> n == Integer(Text.DigitsValue(text.value))
  {
    match text
    case None => NotInteger
    case Some(s) =>
      if Text.AllDigits(s) then Integer(Text.DigitsValue(s))
      else if |s| > 1 && s[0] == '-' && Text.AllDigits(s[1..]) then Integer(0 - Text.DigitsValue(s[1..]))
      else NotInteger
  }

  /** Reading back the rendering of a count gives the count. */
  lemma ToNumberOfRendering(n: nat)
    ensures ToNumber(Some(Text.NatToString(n))) == Integer(n)
  {
    Text.NatToStringRoundTrip(n);
  }

  /**
   * The options record. `games` is None while no `--games` was given (the
   * source's null); a string option is None when it is null or undefined.
   */
  datatype Options = Options(
    games: Option<JsNumber>, seed: Option<string>, json: bool, out: Option<string>,
    verbose: bool, maxTurns: JsNumber, batch: Option<string>, help: bool)

  /** The options before any argument is read. */
  function DefaultOptions(): Options
  {
    Options(None, None, false, None, false, Integer(200), Some("data/batches/batch.json"), false)
  }

  /** The flags that take the next argument as their value. */
  datatype ValueFlag = GamesFlag | SeedFlag | OutFlag | MaxTurnsFlag | BatchFlag

  /** The value flag an argument names, if any. */
  function ValueFlagOf(arg: string): Option<ValueFlag>
  {
    if arg == "--games" then Some(GamesFlag)
    else if arg == "--seed" then Some(SeedFlag)
    else if arg == "--out" then Some(OutFlag)
    else if arg == "--max-turns" then Some(MaxTurnsFlag)
    else if arg == "--batch" then Some(BatchFlag)
    else None
  }

  /** Every flag the parser knows. */
  predicate IsKnownFlag(arg: string)
  {
    arg == "--help" || arg == "-h" || arg == "--json" || arg == "--verbose" || ValueFlagOf(arg).Some?
  }

  /** The options after a value flag with the given value (None when the flag was the last argument). */
  function SetValue(o: Options, flag: ValueFlag, value: Option<string>): Options
  {
    match flag
    case GamesFlag => o.(games := Some(ToNumber(value)))
    case SeedFlag => o.(seed := value)
    case OutFlag => o.(out := value)
    case MaxTurnsFlag => o.(maxTurns := ToNumber(value))
    case BatchFlag => o.(batch := value)
  }

  /** A value flag given twice keeps only the second value; the other options are untouched. */
  lemma SetValueOverrides(o: Options, flag: ValueFlag, a: Option<string>, b: Option<string>)
    ensures SetValue(SetValue(o, flag, a), flag, b) == SetValue(o, flag, b)
    ensures SetValue(o, flag, a).json == o.json && SetValue(o, flag, a).verbose == o.verbose
    ensures SetValue(o, flag, a).help == o.help
  {
  }

  /** The argument after position i, or None past the end. */
  function After(args: seq<string>, i: nat): Option<string>
  {
    if i + 1 < |args| then Some(args[i + 1]) else None
  }

  /**
   * `parseArgs` from position i with the options read so far: `--help` or
   * `-h` returns at once with `help` set; `--json` and `--verbose` set
   * their flag; a value flag takes the next argument and skips it; anything
   * else is an error.
   */
  function Parse(args: seq<string>, i: nat, o: Options): Result<Options>
    decreases |args| - i
  {
    if i >= |args| then Success(o)
    else
      var arg := args[i];
      if arg == "--help" || arg == "-h" then Success(o.(help := true))
      else if arg == "--json" then Parse(args, i + 1, o.(json := true))
      else if arg == "--verbose" then Parse(args, i + 1, o.(verbose := true))
      else if ValueFlagOf(arg).Some? then Parse(args, i + 2, SetValue(o, ValueFlagOf(arg).value, After(args, i)))
      else Failure("Unknown argument: " + arg)
  }

  /** `parseArgs(argv)`. */
  function ParseArgs(args: seq<string>): Result<Options>
  {
    Parse(args, 0, DefaultOptions())
  }

  /** The loop of `parseArgs`. */
  method ParseArgsLoop(args: seq<string>) returns (r: Result<Options>)
    ensures r == ParseArgs(args)
  {
    var options := DefaultOptions();
    var i := 0;
    var outcome: Option<Result<Options>> := None;
    while i < |args| && outcome.None?
      invariant outcome.None? ==> Parse(args, i, options) == ParseArgs(args)
      invariant outcome.Some? ==> outcome.value == ParseArgs(args)
      decreases |args| - i, if outcome.None? then 1 else 0
    {
      var arg := args[i];
      if arg == "--help" || arg == "-h" {
        outcome := Some(Success(options.(help := true)));
      } else if arg == "--json" {
        options := options.(json := true);
        i := i + 1;
      } else if arg == "--verbose" {
        options := options.(verbose := true);
        i := i + 1;
      } else if ValueFlagOf(arg).Some? {
        var value := if i + 1 < |args| then Some(args[i + 1]) else None;
        options := SetValue(options, ValueFlagOf(arg).value, value);
        i := i + 2;
      } else {
        outcome := Some(Failure("Unknown argument: " + arg));
      }
    }
    r := if outcome.Some? then outcome.value else Success(options);
  }

  /** No arguments give the defaults. */
  lemma NoArgumentsGiveDefaults()
    ensures ParseArgs([]) == Success(DefaultOptions())
    ensures DefaultOptions().games.None? && DefaultOptions().seed.None? && DefaultOptions().maxTurns == Integer(200)
    ensures !DefaultOptions().json && !DefaultOptions().verbose && DefaultOptions().out.None?
  {
  }

  /** `--help` (or `-h`) ends parsing: whatever follows, even an unknown argument, is ignored. */
  lemma HelpIgnoresTheRest(args: seq<string>, i: nat, o: Options)
    requires i < |args| && (args[i] == "--help" || args[i] == "-h")
    ensures Parse(args, i, o) == Success(o.(help := true))
  {
  }

  /** An argument the parser does not know is an error naming it. */
  lemma UnknownArgumentFails(args: seq<string>, i: nat, o: Options)
    requires i < |args| && !IsKnownFlag(args[i])
    ensures Parse(args, i, o) == Failure("Unknown argument: " + args[i])
  {
  }

  /** A value flag repeated right after its value: the later value wins. */
  lemma LaterValueWins(args: seq<string>, i: nat, o: Options)
    requires i + 3 < |args| && ValueFlagOf(args[i]).Some? && args[i + 2] == args[i]
    ensures Parse(args, i, o) == Parse(args, i + 4, SetValue(o, ValueFlagOf(args[i]).value, Some(args[i + 3])))
  {
    var flag := ValueFlagOf(args[i]).value;
    assert !(args[i] == "--help" || args[i] == "-h" || args[i] == "--json" || args[i] == "--verbose");
    assert Parse(args, i, o) == Parse(args, i + 2, SetValue(o, flag, Some(args[i + 1])));
    assert Parse(args, i + 2, SetValue(o, flag, Some(args[i + 1])))
        == Parse(args, i + 4, SetValue(SetValue(o, flag, Some(args[i + 1])), flag, Some(args[i + 3])));
    SetValueOverrides(o, flag, Some(args[i + 1]), Some(args[i + 3]));
  }

  /** The errors `validateOptions` throws. */
  datatype OptionError = InvalidGames | InvalidMaxTurns | MissingBatch | OutWithoutJson

  /** A positive integer, as `Number.isInteger(x) && x > 0` reads it. */
  predicate PositiveInteger(n: JsNumber)
  {
    n.Integer? && n.value > 0
  }

  /**
   * `validateOptions`: the first failed check, in the source's order, or
   * None when the options are usable.
   */
  function ValidateOptions(o: Options): (e: Option<OptionError>)
    ensures e.None? <==> o.games.Some? && PositiveInteger(o.games.value) && PositiveInteger(o.maxTurns)
                         && o.batch.Some? && o.batch.value != "" && (o.out.Some? && o.out.value != "" ==> o.json)
    ensures e == Some(InvalidGames) <==> o.games.None? || !PositiveInteger(o.games.value)
  {
    if o.games.None? || !PositiveInteger(o.games.value) then Some(InvalidGames)
    else if !PositiveInteger(o.maxTurns) then Some(InvalidMaxTurns)
    else if o.batch.None? || o.batch.value == "" then Some(MissingBatch)
    else if o.out.Some? && o.out.value != "" && !o.json then Some(OutWithoutJson)
    else None
  }

  /** `--games` is required: the defaults alone do not validate. */
  lemma GamesRequired()
    ensures ValidateOptions(DefaultOptions()) == Some(InvalidGames)
  {
  }

  /** A positive count of games rendered in decimal is all the command line needs. */
  lemma GamesCountSuffices(n: nat)
    requires n > 0
    ensures ParseArgs(["--games", Text.NatToString(n)]).Success?
    ensures ValidateOptions(ParseArgs(["--games", Text.NatToString(n)]).value) == None
  {
    var args := ["--games", Text.NatToString(n)];
    ToNumberOfRendering(n);
    assert ValueFlagOf(args[0]) == Some(GamesFlag);
    assert Parse(args, 0, DefaultOptions()) == Parse(args, 2, SetValue(DefaultOptions(), GamesFlag, Some(args[1])));
  }
}
