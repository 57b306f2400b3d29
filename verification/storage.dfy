/** The operating-system side of a download: the storage directory, the downloader
    subprocess and file removal. Only their observable outcomes are modelled. */
module Storage {
  import opened GoStrings
  import opened Settings

  /** What opening and listing BaseDir gives: no such directory, a directory that cannot
      be opened or listed, or its entry names in the order Readdirnames returns them. */
  datatype Listing = Absent | Unlistable | Names(names: seq<string>)

  /** What one run of the downloader leaves behind, as the caller sees it: the directory
      afterwards, the submatches of `[ffmpeg] Destination: ...` in its standard output
      (used by the older revision only), and the error `cmd.Output()` returns. */
  datatype ToolOutcome = ToolOutcome(dirAfter: Listing, destinations: seq<string>, err: Option<string>)

  /** os.Stat as the older revision reads it: the file exists, os.IsNotExist holds of the
      error, or some other error. */
  datatype StatResult = Exists | NotExist | StatFailed

  /** A directory entry that counts as the audio file for `id`: its name starts with the
      identifier and it is not the downloader's metadata side-car. */
  predicate IsOutputFile(name: string, id: string) {
    HasPrefix(name, id) && !HasSuffix(name, InfoSuffix)
  }

  /** The first entry in listing order that counts as the audio file for `id`, or "". */
  function FirstOutputFile(names: seq<string>, id: string): (r: string)
    ensures r == "" || (r in names && IsOutputFile(r, id))
  {
    if names == [] then ""
    else if IsOutputFile(names[0], id) then names[0]
    else FirstOutputFile(names[1..], id)
  }

  /** What FindOutputFile answers for a directory state: "" when the directory cannot be
      opened or listed. */
  function OutputFile(dir: Listing, id: string): string {
    match dir
    case Names(names) => FirstOutputFile(names, id)
    case _ => ""
  }

  /** FirstOutputFile is a first-match search: either nothing matches (and the answer is
      ""), or the answer is the earliest matching entry. */
  lemma {:induction false} FirstOutputFileIsFirstMatch(names: seq<string>, id: string)
    ensures var r := FirstOutputFile(names, id);
      (r == "" && forall k :: 0 <= k < |names| ==> !IsOutputFile(names[k], id)) ||
      (exists k :: 0 <= k < |names| && names[k] == r && IsOutputFile(r, id) &&
         forall j :: 0 <= j < k ==> !IsOutputFile(names[j], id))
  {
    if names != [] && !IsOutputFile(names[0], id) {
      var tail := names[1..];
      FirstOutputFileIsFirstMatch(tail, id);
      var r := FirstOutputFile(tail, id);
      if r != "" || exists k :: 0 <= k < |tail| && IsOutputFile(tail[k], id) {
        var k :| 0 <= k < |tail| && tail[k] == r && IsOutputFile(r, id) &&
          forall j :: 0 <= j < k ==> !IsOutputFile(tail[j], id);
        assert names[k + 1] == r;
        forall j | 0 <= j < k + 1
          ensures !IsOutputFile(names[j], id)
        {
          if j > 0 { assert names[j] == tail[j - 1]; }
        }
      } else {
        forall k | 0 <= k < |names|
          ensures !IsOutputFile(names[k], id)
        {
          if k > 0 { assert names[k] == tail[k - 1]; }
        }
      }
    }
  }

  /** The lookup never answers with a metadata side-car, and a non-empty answer is an
      entry of a listable directory that starts with the identifier. */
  lemma OutputFileIsAudio(dir: Listing, id: string)
    ensures !HasSuffix(OutputFile(dir, id), InfoSuffix)
    ensures OutputFile(dir, id) != "" ==>
              dir.Names? && OutputFile(dir, id) in dir.names && HasPrefix(OutputFile(dir, id), id)
  {
  }

  /** `names` without the entry that `path` (a path under BaseDir) names. */
  function Without(names: seq<string>, path: string): (r: seq<string>)
    ensures forall n :: n in r <==> n in names && BaseDir + n != path
  {
    if names == [] then []
    else if BaseDir + names[0] == path then Without(names[1..], path)
    else [names[0]] + Without(names[1..], path)
  }

  /** The directory after a successful os.RemoveAll(path). */
  function Removed(dir: Listing, path: string): Listing {
    match dir
    case Names(names) => Names(Without(names, path))
    case _ => dir
  }

  /** What os.Stat(path) reports for a directory state. */
  function StatOf(dir: Listing, path: string): StatResult {
    match dir
    case Absent => NotExist
    case Unlistable => StatFailed
    case Names(names) => if exists n :: n in names && BaseDir + n == path then Exists else NotExist
  }

  /** The host the service runs on: the current state of BaseDir, every command line handed
      to `sh -c` and every path handed to os.RemoveAll, in order. */
  class Host {
    var dir: Listing
    var commands: seq<string>
    var removals: seq<string>

    constructor (dir: Listing)
      ensures this.dir == dir && commands == [] && removals == []
    {
      this.dir := dir;
      commands := [];
      removals := [];
    }

    /** FindOutputFile: scan the listing of BaseDir and return the first entry that
        starts with `id` and is not a side-car; "" when there is none or the directory
        cannot be opened or listed. */
    method FindOutputFile(id: string) returns (name: string)
      ensures name == OutputFile(dir, id)
    {
      match dir {
        case Names(files) =>
          var i := 0;
          while i < |files|
            invariant 0 <= i <= |files|
            invariant FirstOutputFile(files[i..], id) == FirstOutputFile(files, id)
          {
            if HasPrefix(files[i], id) && !HasSuffix(files[i], InfoSuffix) {
              return files[i];
            }
            assert files[i..][1..] == files[i + 1..];
            i := i + 1;
          }
          return "";
        case _ =>
          return "";
      }
    }

    /** os.Stat(path). */
    method Stat(path: string) returns (r: StatResult)
      ensures r == StatOf(dir, path)
      ensures r == Exists ==> dir.Names? && exists n :: n in dir.names && BaseDir + n == path
    {
      r := StatOf(dir, path);
    }

    /** `sh -c command`: the downloader runs and leaves the directory as `outcome` says. */
    method Run(command: string, outcome: ToolOutcome) returns (err: Option<string>)
      modifies this
      ensures dir == outcome.dirAfter && err == outcome.err
      ensures commands == old(commands) + [command] && removals == old(removals)
    {
      commands := commands + [command];
      dir := outcome.dirAfter;
      err := outcome.err;
    }

    /** os.RemoveAll(path); `fails` is the operating system's answer. */
    method RemoveAll(path: string, fails: bool) returns (err: Option<string>)
      modifies this
      ensures err.Some? <==> fails
      ensures dir == if fails then old(dir) else Removed(old(dir), path)
      ensures commands == old(commands) && removals == old(removals) + [path]
    {
      removals := removals + [path];
      if fails {
        err := Some("remove " + path);
      } else {
        dir := Removed(dir, path);
        err := None;
      }
    }
  }
}
