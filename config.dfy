/** `Config`: the list of image paths, or a request for the help text. */
module Cli {
  import opened Wrappers
  import opened Paths

  datatype Config = Config(imagePaths: seq<Path>, printHelp: bool)

  const NotEnoughArguments: string :=
    "Not enough arguments.  Provide at least one path to an image file to read."

  predicate IsHelpFlag(arg: string) {
    arg == "-h" || arg == "--help"
  }

  /**
   * `Config::new` over the whole argument vector, program name first. No
   * argument after the program name is an error; a first argument `-h` or
   * `--help` asks for help and nothing else; otherwise every argument after the
   * program name is a path, in order (a later `-h` is a path like any other).
   */
  function NewConfig(args: seq<string>): (r: Result<Config, string>)
    ensures r.Err? <==> |args| < 2
    ensures r.Err? ==> r.error == NotEnoughArguments
    ensures r.Ok? ==> (r.value.printHelp <==> IsHelpFlag(args[1]))
    ensures r.Ok? && r.value.printHelp ==> r.value.imagePaths == []
    ensures r.Ok? && !r.value.printHelp ==> r.value.imagePaths == args[1..]
  {
    if |args| < 2 then Err(NotEnoughArguments)
    else if IsHelpFlag(args[1]) then Ok(Config([], true))
    else Ok(Config(args[1..], false))
  }

  /** `Config::from_strings`: the strings as paths, in order, never a help request. */
  function FromStrings(strings: seq<string>): (c: Config)
    ensures c.imagePaths == strings && !c.printHelp
  {
    Config(strings, false)
  }

  /** Without a help flag first, parsing the arguments is `from_strings` on all but the program name. */
  lemma NewConfigIsFromStrings(args: seq<string>)
    requires |args| >= 2 && !IsHelpFlag(args[1])
    ensures NewConfig(args) == Ok(FromStrings(args[1..]))
  {
  }
}
