/** Argument checking of the /soak sub-commands (SoakCommand.java): every
    sub-command runs only for the console, and each one checks its
    arguments before it schedules a task. */
module Command {
  import opened Workflow

  /** Who issued the command. */
  datatype Source = ConsoleSource | OtherSource

  /** A parsed sub-command with its arguments. */
  datatype Invocation =
    | Install(ids: seq<string>)
    | Update
    | Remove(ids: seq<string>)
    | Search(query: string)

  /** Why a command was rejected; nothing is scheduled then. */
  datatype CommandError =
    | PermissionDenied(message: string)
    | IllegalArgument(message: string)

  datatype Result = Scheduled(task: Task) | Rejected(error: CommandError)

  /** Java's String.length(): UTF-16 code units, two for a character
      outside the Basic Multilingual Plane. */
  function Utf16Length(s: string): (r: nat)
    ensures |s| <= r <= 2 * |s|
  {
    if s == [] then 0 else Utf16Length(s[..|s| - 1]) + (if s[|s| - 1] as int > 0xFFFF then 2 else 1)
  }

  const MinQueryLength := 3

  /** The sub-command's own argument check and what it schedules. */
  function Handle(inv: Invocation): Result
  {
    match inv
    case Install(ids) => if |ids| == 0 then Rejected(IllegalArgument("No plugin IDs provided")) else Scheduled(InstallTask(ids))
    case Update => Scheduled(UpdateTask)
    case Remove(ids) => if |ids| == 0 then Rejected(IllegalArgument("No plugin IDs provided")) else Scheduled(RemoveTask(ids))
    case Search(q) =>
      if Utf16Length(q) < MinQueryLength then Rejected(IllegalArgument("Query must be at least 3 characters"))
      else Scheduled(SearchTask(q))
  }

  /** consoleOnly: the source is checked before the arguments are. */
  function Execute(src: Source, inv: Invocation): (r: Result)
    ensures src.OtherSource? ==> r == Rejected(PermissionDenied("Command only available on the console"))
    ensures src.ConsoleSource? ==> r == Handle(inv)
  {
    if !src.ConsoleSource? then Rejected(PermissionDenied("Command only available on the console"))
    else Handle(inv)
  }

  /** A command schedules a task exactly when it comes from the console and
      its arguments pass, and the scheduled task carries the arguments unchanged. */
  lemma ExecuteSchedules(src: Source, inv: Invocation)
    ensures Execute(src, inv).Scheduled? <==>
      src.ConsoleSource? &&
      match inv
      case Install(ids) => |ids| > 0
      case Update => true
      case Remove(ids) => |ids| > 0
      case Search(q) => Utf16Length(q) >= 3
    ensures Execute(src, inv).Scheduled? ==>
      match inv
      case Install(ids) => Execute(src, inv).task == InstallTask(ids)
      case Update => Execute(src, inv).task == UpdateTask
      case Remove(ids) => Execute(src, inv).task == RemoveTask(ids)
      case Search(q) => Execute(src, inv).task == SearchTask(q)
  {
  }

  /** A permission failure wins over every argument error. */
  lemma PermissionFirst(inv: Invocation)
    ensures Execute(OtherSource, inv).Rejected? && Execute(OtherSource, inv).error.PermissionDenied?
  {
  }

  /** A query of fewer than three characters is always rejected, and one of
      three or more always accepted; between the two, Java counts UTF-16
      units, so two characters outside the Basic Multilingual Plane pass. */
  lemma QueryLengthBounds(q: string)
    ensures |q| < 2 ==> Execute(ConsoleSource, Search(q)).Rejected?
    ensures |q| >= 3 ==> Execute(ConsoleSource, Search(q)) == Scheduled(SearchTask(q))
  {
  }

  lemma TwoWideCharactersPass()
    ensures Execute(ConsoleSource, Search(['\U{1F600}', '\U{1F600}'])).Scheduled?
  {
    var q := ['\U{1F600}', '\U{1F600}'];
    assert q[..1] == ['\U{1F600}'] && q[..1][..0] == [];
  }
}
