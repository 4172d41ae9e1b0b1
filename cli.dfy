/**
 * The script's entry point `main`: choose the input source from the
 * command-line arguments, fill a fresh calendar from it, and hand the
 * calendar over to be written to `my.ics`.
 */
module Cli {
  import opened Wrappers
  import opened Timestamp
  import opened Events

  /** The one flag the script knows: read events from a file. */
  const FileFlag: string := "-f"

  /** Where the event lines come from. */
  datatype Mode = Interactive | FromFile(name: string)

  /** Why a run ends without writing the calendar. */
  datatype RunError =
    | MissingFileName       // "-f" with nothing after it
    | InvalidFlag           // a first argument other than "-f"
    | FileNotFound(name: string)  // `open` raises
    | EndOfInput            // standard input ends before the empty line: `input()` raises

  /**
   * The decision `main` takes on `sys.argv[1:]`: no arguments means typed
   * input; "-f" and a name means that file, and anything after the name is
   * ignored; "-f" alone and any other first argument are errors.
   */
  function Dispatch(args: seq<string>): (r: Result<Mode, RunError>)
    ensures r == Success(Interactive) <==> args == []
    ensures (r.Success? && r.value.FromFile?) <==> |args| >= 2 && args[0] == FileFlag
    ensures r.Success? && r.value.FromFile? ==> r.value.name == args[1]
    ensures r == Failure(MissingFileName) <==> args == [FileFlag]
    ensures r == Failure(InvalidFlag) <==> args != [] && args[0] != FileFlag
    ensures r.Failure? ==> r.error == MissingFileName || r.error == InvalidFlag
  {
    if args != [] then
      if args[0] == FileFlag then
        if |args| >= 2 then Success(FromFile(args[1])) else Failure(MissingFileName)
      else Failure(InvalidFlag)
    else Success(Interactive)
  }

  /** The shortest arguments that select `m`. */
  function CommandLine(m: Mode): seq<string> {
    match m
    case Interactive => []
    case FromFile(name) => [FileFlag, name]
  }

  /**
   * Every mode is reachable: its own arguments select it, and a file
   * mode keeps being selected whatever arguments follow the name.
   */
  lemma DispatchCommandLine(m: Mode, extra: seq<string>)
    requires m.Interactive? ==> extra == []
    ensures Dispatch(CommandLine(m) + extra) == Success(m)
  {
    match m
    case Interactive =>
      assert CommandLine(m) + extra == [];
    case FromFile(name) =>
      var args := CommandLine(m) + extra;
      assert args[0] == FileFlag && args[1] == name;
  }

  /**
   * `main`. `files` stands for the file system (a file's lines), `typed` for
   * the lines standard input delivers, and `dates` for what the clock reads
   * as each line is handled. On success the result holds the events written
   * to `my.ics`; `log` is what `add_event` printed.
   */
  method Run(args: seq<string>, files: map<string, seq<string>>, typed: seq<string>, dates: seq<Date>)
    returns (r: Result<multiset<Event>, RunError>, log: seq<string>)
    requires |typed| <= |dates|
    requires forall name :: name in files ==> |files[name]| <= |dates|
    ensures Dispatch(args).Failure? ==> r == Failure(Dispatch(args).error) && log == []
    ensures Dispatch(args) == Success(Interactive) ==>
      log == Log(UntilSentinel(typed), dates)
      && r == (if Sentinel in typed then Success(Collected(UntilSentinel(typed), dates)) else Failure(EndOfInput))
    ensures Dispatch(args).Success? && Dispatch(args).value.FromFile? && args[1] in files ==>
      r == Success(Collected(files[args[1]], dates)) && log == Log(StripAll(files[args[1]]), dates)
    ensures Dispatch(args).Success? && Dispatch(args).value.FromFile? && args[1] !in files ==>
      r == Failure(FileNotFound(args[1])) && log == []
  {
    var cal := new Calendar();
    log := [];
    if args != [] {
      if args[0] == FileFlag {
        if |args| >= 2 {
          var filename := args[1];
          var found;
          found, log := FillCalendarFile(filename, files, cal, dates);
          if !found {
            r := Failure(FileNotFound(filename));
            return;
          }
          StrippingKeepsEvents(files[filename], dates);
          assert cal.events == Collected(files[filename], dates);
        } else {
          r := Failure(MissingFileName);
          return;
        }
      } else {
        r := Failure(InvalidFlag);
        return;
      }
    } else {
      var stopped;
      log, stopped := FillCalendarUser(typed, cal, dates);
      assert cal.events == Collected(UntilSentinel(typed), dates);
      if !stopped {
        r := Failure(EndOfInput);
        return;
      }
    }
    r := Success(cal.events);
  }
}
