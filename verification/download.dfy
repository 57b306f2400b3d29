/** DoDownload of the current revision: reuse an existing audio file when its format is
    acceptable, otherwise run the downloader, look again, and replace the stale file. */
module Download {
  import opened GoStrings
  import opened Settings
  import opened Storage

  /** The downloader's output template, quoted for the shell. */
  const OutputTemplate := "'" + BaseDir + "%(id)s.%(ext)s'"

  /** The fixed options: extract audio, write the metadata side-car, no progress bar, the
      best audio under 20 MB (falling back to the worst), and the output template. */
  const FormatOptions :=
    "-x --write-info-json --no-progress -f 'bestaudio[filesize<20M]/best[filesize<20M]/worstaudio/worst' -o "

  const BaseParams := FormatOptions + OutputTemplate

  /** The option that asks for conversion to `audioFormat`, absent when none is wanted. */
  function AudioFormatOption(audioFormat: string): string {
    if |audioFormat| > 0 then " --audio-format '" + audioFormat + "'" else ""
  }

  /** The downloader's parameters: the fixed options, then the conversion option. */
  function CommandParams(audioFormat: string): string {
    BaseParams + AudioFormatOption(audioFormat)
  }

  /** The shell command line DoDownload runs. */
  function DownloadCommand(id: string, audioFormat: string): string {
    CommandName + " " + CommandParams(audioFormat) + " -- " + id
  }

  /** An existing file is kept when no format was asked for or its name ends with it. */
  predicate Reusable(existing: string, audioFormat: string) {
    |existing| > 0 && (|audioFormat| == 0 || HasSuffix(existing, audioFormat))
  }

  /** The file name and error DoDownload returns, given the directory before the call and
      what the downloader leaves behind. */
  function DownloadResult(dir: Listing, id: string, audioFormat: string, tool: ToolOutcome)
    : (string, Option<string>)
  {
    var existing := OutputFile(dir, id);
    if Reusable(existing, audioFormat) then (existing, None)
    else (OutputFile(tool.dirAfter, id), tool.err)
  }

  /** The paths DoDownload hands to os.RemoveAll: the stale file, and only when the new
      lookup found something. */
  function StaleRemovals(stale: string, found: string): seq<string> {
    if |stale| > 0 && |found| > 0 then [BaseDir + stale] else []
  }

  /** The command line DoDownload assembles step by step: the fixed options, the
      conversion option when a format is wanted, then ` -- ` and the identifier. */
  method BuildCommand(id: string, audioFormat: string) returns (commandLine: string)
    ensures commandLine == DownloadCommand(id, audioFormat)
  {
    var commandParams := BaseParams;
    if |audioFormat| > 0 {
      commandParams := commandParams + (" --audio-format '" + audioFormat + "'");
    }
    commandLine := CommandName + " " + commandParams + " -- " + id;
  }

  /** DoDownload(id, audioFormat). The downloader's outcome and the answer of the removal
      are parameters; the returned command is always "". */
  method DoDownload(host: Host, id: string, audioFormat: string, tool: ToolOutcome, removeFails: bool)
    returns (filename: string, command: string, err: Option<string>)
    modifies host
    ensures (filename, err) == DownloadResult(old(host.dir), id, audioFormat, tool)
    ensures command == ""
    ensures Reusable(OutputFile(old(host.dir), id), audioFormat) ==>
              host.dir == old(host.dir) && host.commands == old(host.commands) &&
              host.removals == old(host.removals)
    ensures !Reusable(OutputFile(old(host.dir), id), audioFormat) ==>
              host.commands == old(host.commands) + [DownloadCommand(id, audioFormat)] &&
              host.removals == old(host.removals) + StaleRemovals(OutputFile(old(host.dir), id), filename) &&
              host.dir == if StaleRemovals(OutputFile(old(host.dir), id), filename) != [] && !removeFails
                          then Removed(tool.dirAfter, BaseDir + OutputFile(old(host.dir), id))
                          else tool.dirAfter
  {
    var fileToDeleteIfDownloadSucceed := "";
    var resultFilename := host.FindOutputFile(id);
    if |resultFilename| > 0 {
      if |audioFormat| == 0 || (|audioFormat| > 0 && HasSuffix(resultFilename, audioFormat)) {
        return resultFilename, "", None;
      }
      // the existing file has the wrong format: replace it if a new one appears
      fileToDeleteIfDownloadSucceed := BaseDir + resultFilename;
    }

    var commandLine := BuildCommand(id, audioFormat);
    err := host.Run(commandLine, tool);

    resultFilename := host.FindOutputFile(id);
    if |resultFilename| > 0 {
      if |fileToDeleteIfDownloadSucceed| > 0 {
        // a failed removal is only logged
        var _ := host.RemoveAll(fileToDeleteIfDownloadSucceed, removeFails);
      }
      return resultFilename, "", err;
    }
    return "", "", err;
  }

  /** The command starts with the tool name and the fixed options, ends with ` -- ` and
      the identifier, carries the conversion option right after the fixed options exactly
      when a format is wanted, and otherwise is the fixed options alone. */
  lemma CommandShape(id: string, audioFormat: string)
    ensures HasPrefix(DownloadCommand(id, audioFormat), CommandName + " " + BaseParams)
    ensures HasSuffix(DownloadCommand(id, audioFormat), " -- " + id)
    ensures |audioFormat| > 0 ==>
              OccursAt(DownloadCommand(id, audioFormat), " --audio-format '" + audioFormat + "'",
                       |CommandName| + 1 + |BaseParams|)
    ensures |audioFormat| == 0 ==>
              DownloadCommand(id, audioFormat) == CommandName + " " + BaseParams + " -- " + id
  {
    ShapeOf(CommandName, BaseParams, AudioFormatOption(audioFormat), id);
  }

  /** The layout of `name params option -- id`, for any name, fixed options and option. */
  lemma ShapeOf(name: string, params: string, option: string, id: string)
    ensures var c := name + " " + (params + option) + " -- " + id;
      HasPrefix(c, name + " " + params) && HasSuffix(c, " -- " + id) &&
      OccursAt(c, option, |name| + 1 + |params|) &&
      (option == [] ==> c == name + " " + params + " -- " + id)
  {
    var c := name + " " + (params + option) + " -- " + id;
    var k := |name| + 1 + |params|;
    assert c == (name + " " + params) + option + (" -- " + id);
    assert c[..k] == name + " " + params;
    assert c[k..k + |option|] == option;
    SuffixOfConcat((name + " " + params) + option, " -- " + id);
    if option == [] {
      assert (name + " " + params) + option == name + " " + params;
    }
  }

  /** For a fixed identifier the command determines the requested format. */
  lemma FormatRecoverable(id: string, f1: string, f2: string)
    requires DownloadCommand(id, f1) == DownloadCommand(id, f2)
    ensures f1 == f2
  {
    OptionBetween(CommandName, BaseParams, AudioFormatOption(f1), AudioFormatOption(f2), id);
    OptionInjective(f1, f2);
  }

  /** Between a known head and tail of equal length, the middle is determined. */
  lemma OptionBetween(name: string, params: string, o1: string, o2: string, id: string)
    requires name + " " + (params + o1) + " -- " + id == name + " " + (params + o2) + " -- " + id
    ensures o1 == o2
  {
    var k := |name| + 1 + |params|;
    var c1 := name + " " + (params + o1) + " -- " + id;
    var c2 := name + " " + (params + o2) + " -- " + id;
    assert |o1| == |o2|;
    assert c1 == (name + " " + params) + o1 + (" -- " + id);
    assert c2 == (name + " " + params) + o2 + (" -- " + id);
    assert o1 == c1[k..k + |o1|];
    assert o2 == c2[k..k + |o2|];
  }

  /** Distinct formats give distinct conversion options. */
  lemma OptionInjective(f1: string, f2: string)
    requires AudioFormatOption(f1) == AudioFormatOption(f2)
    ensures f1 == f2
  {
    var o1, o2 := AudioFormatOption(f1), AudioFormatOption(f2);
    if |f1| > 0 {
      var p := " --audio-format '";
      assert |o2| > 0;
      assert f1 == o1[|p|..|o1| - 1];
      assert f2 == o2[|p|..|o2| - 1];
    }
  }

  /** For a fixed format the command determines the identifier. */
  lemma IdRecoverable(i1: string, i2: string, audioFormat: string)
    requires DownloadCommand(i1, audioFormat) == DownloadCommand(i2, audioFormat)
    ensures i1 == i2
  {
    TailRecoverable(CommandName + " " + CommandParams(audioFormat) + " -- ", i1, i2);
  }

  /** What follows a known head is determined by the whole string. */
  lemma TailRecoverable(head: string, i1: string, i2: string)
    requires head + i1 == head + i2
    ensures i1 == i2
  {
    assert i1 == (head + i1)[|head|..];
  }

  /** When neither format holds a space, the command determines both the identifier and
      the format. Both front ends keep to that: parseArgs cuts its format at a space and
      the HTTP handler asks for "" or "mp3". */
  lemma SpaceFreeRequestsRecoverable(i1: string, f1: string, i2: string, f2: string)
    requires ' ' !in f1 && ' ' !in f2
    requires DownloadCommand(i1, f1) == DownloadCommand(i2, f2)
    ensures i1 == i2 && f1 == f2
  {
    Regroup(CommandName, BaseParams, AudioFormatOption(f1), i1);
    Regroup(CommandName, BaseParams, AudioFormatOption(f2), i2);
    SpaceFreeRequestsAfter(CommandName + " " + BaseParams, i1, f1, i2, f2);
  }

  /** `name params option -- id`, with the name and the fixed options taken together. */
  lemma Regroup(name: string, params: string, option: string, id: string)
    ensures name + " " + (params + option) + " -- " + id == (name + " " + params) + option + " -- " + id
  {
  }

  /** SpaceFreeRequestsRecoverable after any common head. */
  lemma SpaceFreeRequestsAfter(head: string, i1: string, f1: string, i2: string, f2: string)
    requires ' ' !in f1 && ' ' !in f2
    requires head + AudioFormatOption(f1) + " -- " + i1 == head + AudioFormatOption(f2) + " -- " + i2
    ensures i1 == i2 && f1 == f2
  {
    MarkerChar(head, f1, i1);
    MarkerChar(head, f2, i2);
    assert (f1 == []) == (f2 == []);
    if f1 != [] {
      var option, quote, separator := " --audio-format '", "'", " -- ";
      Regroup5(head, option, f1, quote, separator, i1);
      Regroup5(head, option, f2, quote, separator, i2);
      assert quote + separator == "' -- ";
      TailRecoverable(head + option, f1 + (quote + separator) + i1, f2 + (quote + separator) + i2);
      QuotedFormatRecoverable(f1, i1, f2, i2);
    } else {
      assert AudioFormatOption(f1) == AudioFormatOption(f2);
      TailRecoverable(head + AudioFormatOption(f1) + " -- ", i1, i2);
    }
  }

  /** `head (option format quote) separator id` regrouped around the format. */
  lemma Regroup5(head: string, option: string, format: string, quote: string, separator: string, id: string)
    ensures head + (option + format + quote) + separator + id
         == (head + option) + (format + (quote + separator) + id)
  {
  }

  /** `f' -- rest` determines a space-free `f` and the rest. */
  lemma QuotedFormatRecoverable(f1: string, r1: string, f2: string, r2: string)
    requires ' ' !in f1 && ' ' !in f2
    requires f1 + "' -- " + r1 == f2 + "' -- " + r2
    ensures f1 == f2 && r1 == r2
  {
    var t := f1 + "' -- " + r1;
    FirstSpace(f1, r1);
    FirstSpace(f2, r2);
    assert |f1| == |f2|;
    assert f1 == t[..|f1|] == f2;
    assert r1 == t[|f1| + 5..] == r2;
  }

  /** Three characters after the fixed options comes the `a` of `--audio-format` when a
      format is wanted, and otherwise the space before the identifier. */
  lemma MarkerChar(head: string, f: string, id: string)
    ensures var c := head + AudioFormatOption(f) + " -- " + id;
      |c| > |head| + 3 && c[|head| + 3] == if f == [] then ' ' else 'a'
  {
    var c := head + AudioFormatOption(f) + " -- " + id;
    if f == [] {
      assert c == head + (" -- " + id);
    } else {
      assert c == head + (" --audio-format '" + f + "' -- " + id);
    }
  }

  /** In `f' -- rest` with a space-free `f`, the first space comes right after the quote. */
  lemma FirstSpace(f: string, rest: string)
    requires ' ' !in f
    ensures var t := f + "' -- " + rest;
      |t| > |f| + 1 && t[|f| + 1] == ' ' && forall j :: 0 <= j <= |f| ==> t[j] != ' '
  {
    var t := f + "' -- " + rest;
    forall j | 0 <= j <= |f|
      ensures t[j] != ' '
    {
      if j < |f| {
        assert t[j] == f[j];
      }
    }
  }

  /** The command is one shell string, so a format with a space in it can make two
      different requests run the same line. Neither front end produces such a format:
      the ambiguity is in DoDownload's own arguments. */
  lemma CommandLineAmbiguous()
    ensures DownloadCommand("c", "a' -- b") == DownloadCommand("b' -- c", "a")
  {
    QuoteInFormat(CommandName + " " + BaseParams);
  }

  /** The two requests of CommandLineAmbiguous, after any common head. */
  lemma QuoteInFormat(head: string)
    ensures head + " --audio-format 'a' -- b'" + " -- " + "c"
         == head + " --audio-format 'a'" + " -- " + "b' -- c"
  {
    var t := " --audio-format 'a' -- b' -- c";
    assert head + " --audio-format 'a' -- b'" + " -- " + "c" == head + t;
    assert head + " --audio-format 'a'" + " -- " + "b' -- c" == head + t;
  }

  /** With an acceptable existing file the downloader's outcome does not matter: nothing
      is run and the existing name is returned without error. */
  lemma ReuseIgnoresTool(dir: Listing, id: string, audioFormat: string, t1: ToolOutcome, t2: ToolOutcome)
    requires Reusable(OutputFile(dir, id), audioFormat)
    ensures DownloadResult(dir, id, audioFormat, t1) == DownloadResult(dir, id, audioFormat, t2)
              == (OutputFile(dir, id), None)
  {
  }

  /** After a run, the error is the subprocess's own, and the name is "" or an audio entry
      of the new listing. */
  lemma AfterRun(dir: Listing, id: string, audioFormat: string, tool: ToolOutcome)
    requires !Reusable(OutputFile(dir, id), audioFormat)
    ensures DownloadResult(dir, id, audioFormat, tool).1 == tool.err
    ensures var name := DownloadResult(dir, id, audioFormat, tool).0;
      name == "" || (tool.dirAfter.Names? && name in tool.dirAfter.names && IsOutputFile(name, id))
  {
  }

  /** Nothing stops the lookup after the run from finding the stale file again: here the
      directory lists the old `.webm` ahead of the new `.mp3`, so DoDownload returns the
      old name and removes that very file, leaving the caller a name that no longer
      exists in the directory. */
  method StaleFileReturnedAndRemoved() returns (filename: string, err: Option<string>, remaining: Listing)
    ensures filename == "b8g1o8Ph7LQ.webm" && err == None
    ensures remaining == Names(["b8g1o8Ph7LQ.mp3"])
  {
    var id, webm, mp3 := "b8g1o8Ph7LQ", "b8g1o8Ph7LQ.webm", "b8g1o8Ph7LQ.mp3";
    assert webm[..|id|] == id && mp3[..|id|] == id;
    assert webm[|webm| - |InfoSuffix|..] != InfoSuffix && mp3[|mp3| - |InfoSuffix|..] != InfoSuffix;
    assert webm[|webm| - 3..] != "mp3";
    assert IsOutputFile(webm, id) && !HasSuffix(webm, "mp3");
    assert BaseDir + mp3 != BaseDir + webm;
    var host := new Host(Names([webm]));
    var tool := ToolOutcome(Names([webm, mp3]), [], None);
    var command;
    filename, command, err := DoDownload(host, id, "mp3", tool, false);
    remaining := host.dir;
    assert filename == webm;
    assert remaining.names == Without([webm, mp3], BaseDir + webm);
    assert [webm, mp3][1..] == [mp3] && [mp3][1..] == [];
    assert Without([mp3], BaseDir + webm) == [mp3] + Without([], BaseDir + webm);
  }

  /** A run that exits cleanly but leaves no audio file is not reported as a failure:
      DoDownload returns the empty name and no error. */
  method NoFileNoError(id: string) returns (filename: string, err: Option<string>)
    ensures filename == "" && err == None
  {
    var host := new Host(Absent);
    var command;
    filename, command, err := DoDownload(host, id, "", ToolOutcome(Names([]), [], None), false);
  }
}
