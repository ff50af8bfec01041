/**
 * The command line of the system-test program: which test groups the
 * arguments select, as a set of flag bits, and the program's own exit codes.
 */
module Program {

  const FlagTest: bv32 := 0x01
  const FlagGpio: bv32 := 0x02
  const FlagSpi: bv32 := 0x04
  const FlagI2c: bv32 := 0x08
  /** "all" selects the three bus tests, not the interactive test and not the application. */
  const FlagAll: bv32 := FlagGpio | FlagSpi | FlagI2c
  const FlagApp: bv32 := 0x10

  /** The flags one argument contributes; an unknown argument is ignored (only logged). */
  function ArgFlags(arg: string): bv32
  {
    if arg == "test" then FlagTest
    else if arg == "gpio" then FlagGpio
    else if arg == "spi" then FlagSpi
    else if arg == "i2c" then FlagI2c
    else if arg == "all" then FlagAll
    else if arg == "app" then FlagApp
    else 0
  }

  /** The flags of a run of arguments, OR-ed in order. */
  function Collect(args: seq<string>): bv32
  {
    if |args| == 0 then 0 else Collect(args[..|args| - 1]) | ArgFlags(args[|args| - 1])
  }

  /** The arguments after the program name (none when even that is missing). */
  function Options(argv: seq<string>): seq<string>
  {
    if |argv| == 0 then [] else argv[1..]
  }

  /**
   * Reference definition: a bit is set exactly when some argument asks for
   * it, whatever the order and however often.
   */
  function Selected(args: set<string>): bv32
  {
    (if "test" in args then FlagTest else 0)
    | (if "gpio" in args || "all" in args then FlagGpio else 0)
    | (if "spi" in args || "all" in args then FlagSpi else 0)
    | (if "i2c" in args || "all" in args then FlagI2c else 0)
    | (if "app" in args then FlagApp else 0)
  }

  /** The elements of a sequence. */
  function Elements(args: seq<string>): (s: set<string>)
    ensures forall a :: a in s <==> a in args
  {
    set a | a in args
  }

  /**
   * `parseArgs(argc, argv)`: OR-s the flags of `argv[1]`, ..., `argv[argc - 1]`,
   * each looked up by the comparison chain `ArgFlags`.
   */
  method ParseArgs(argv: seq<string>) returns (flags: bv32)
    ensures flags == Collect(Options(argv))
  {
    flags := 0;
    if |argv| == 0 { return; }
    var i := 1;
    while i < |argv|
      invariant 1 <= i <= |argv|
      invariant flags == Collect(argv[1..i])
    {
      CollectStep(argv, i);
      flags := flags | ArgFlags(argv[i]);
      i := i + 1;
    }
    assert argv[1..i] == argv[1..];
  }

  lemma CollectStep(argv: seq<string>, i: nat)
    requires 1 <= i < |argv|
    ensures Collect(argv[1..i + 1]) == Collect(argv[1..i]) | ArgFlags(argv[i])
  {
    assert argv[1..i + 1][..i - 1] == argv[1..i];
  }

  lemma SelectedAdd(args: set<string>, a: string)
    ensures Selected(args + {a}) == Selected(args) | ArgFlags(a)
  {
    if a == "test" {} else if a == "gpio" {} else if a == "spi" {} else if a == "i2c" {}
    else if a == "all" {} else if a == "app" {
    } else {
      assert forall k :: k in ["test", "gpio", "spi", "i2c", "all", "app"] ==> (k in args + {a} <==> k in args);
    }
  }

  /** The parsed flags are those of the set of arguments given. */
  lemma {:induction false} CollectSelected(args: seq<string>)
    ensures Collect(args) == Selected(Elements(args))
  {
    if |args| == 0 {
      assert Elements(args) == {};
    } else {
      var init, last := args[..|args| - 1], args[|args| - 1];
      CollectSelected(init);
      assert Elements(args) == Elements(init) + {last};
      SelectedAdd(Elements(init), last);
    }
  }

  /** Order and repetition of the arguments do not matter. */
  lemma OrderAndRepetitionIrrelevant(a: seq<string>, b: seq<string>)
    requires forall x :: x in a <==> x in b
    ensures Collect(a) == Collect(b)
  {
    CollectSelected(a);
    CollectSelected(b);
    assert Elements(a) == Elements(b);
  }

  /** Each known argument sets its own bit; "all" sets GPIO, SPI and I2C (0x0E) but not TEST or APP. */
  lemma KnownArguments()
    ensures ArgFlags("test") == 0x01 && ArgFlags("gpio") == 0x02 && ArgFlags("spi") == 0x04
    ensures ArgFlags("i2c") == 0x08 && ArgFlags("app") == 0x10
    ensures ArgFlags("all") == 0x0E && ArgFlags("all") & (FlagTest | FlagApp) == 0
  {
  }

  /** An unknown argument leaves the flags unchanged, and no bit outside 0x1F is ever set. */
  lemma FlagsBounded(args: seq<string>, unknown: string)
    requires ArgFlags(unknown) == 0
    ensures Collect(args + [unknown]) == Collect(args)
    ensures Collect(args) & !0x1F == 0
  {
    assert (args + [unknown])[..|args|] == args;
    CollectSelected(args);
  }

  /** The program name `argv[0]` is never looked at. */
  lemma ProgramNameIgnored(name1: string, name2: string, args: seq<string>)
    ensures Collect(Options([name1] + args)) == Collect(Options([name2] + args)) == Collect(args)
  {
    assert ([name1] + args)[1..] == args;
    assert ([name2] + args)[1..] == args;
  }

  // ---------------------------------------------------------------------
  // Exit codes
  // ---------------------------------------------------------------------

  const ExitOk: int := 0
  const ExitError: int := 1
  /** First code of the program's own range; 0 and 1 are the conventional ones. */
  const ExitBegin: int := 79
  const ExitRpihalInitError: int := ExitBegin
  const ExitUserAbort: int := ExitBegin + 1
  const ExitModelDetectFailed: int := ExitBegin + 2
  /** One past the last code defined. */
  const ExitEnd: int := ExitBegin + 3
  /** Upper end of the range free of reserved meanings. */
  const ExitMax: int := 113

  /** The program's own exit codes. */
  function CustomExitCodes(): (codes: seq<int>)
    ensures forall i :: 0 <= i < |codes| ==> ExitBegin <= codes[i] < ExitEnd <= ExitMax
    ensures forall i, j :: 0 <= i < j < |codes| ==> codes[i] < codes[j]
  {
    [ExitRpihalInitError, ExitUserAbort, ExitModelDetectFailed]
  }
}
