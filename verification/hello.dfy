/** The older single-file revision of the service: its own doDownload (skip when the
    metadata side-car exists, the file name taken from the downloader's output), the HTTP
    download handler and the bot loop. Its identifier extractor is the same text as the
    current one and is VideoId.ExtractVideoID. */
module Hello {
  import opened GoStrings
  import opened Settings
  import opened VideoId
  import opened Storage
  import opened Guard
  import opened Chat

  /** The fixed options of this revision: the worst audio, no size limit, no conversion. */
  const HelloOptions := "-x --write-info-json --no-progress -f 'worstaudio/worst' -o "

  const HelloTemplate := "'" + BaseDir + "%(id)s.%(ext)s'"

  /** Where the downloader writes the metadata side-car of `id`. */
  function InfoPath(id: string): string {
    BaseDir + id + InfoSuffix
  }

  /** The shell command line doDownload runs. */
  function HelloCommand(id: string): string {
    CommandName + " " + (HelloOptions + HelloTemplate + " -- " + id)
  }

  /** The last non-empty element, "" when there is none. */
  function LastNonEmptyOf(matches: seq<string>): (r: string)
    ensures r == "" || r in matches
  {
    if matches == [] then ""
    else if matches[|matches| - 1] != "" then matches[|matches| - 1]
    else LastNonEmptyOf(matches[..|matches| - 1])
  }

  /** LastNonEmptyOf is "" exactly when every element is empty, and otherwise an element
      after which all are empty. */
  lemma {:induction false} LastNonEmptyIsLast(matches: seq<string>)
    ensures LastNonEmptyOf(matches) == "" <==> forall k :: 0 <= k < |matches| ==> matches[k] == ""
    ensures LastNonEmptyOf(matches) != "" ==>
              exists k :: 0 <= k < |matches| && matches[k] == LastNonEmptyOf(matches) &&
                forall j :: k < j < |matches| ==> matches[j] == ""
  {
    if matches != [] && matches[|matches| - 1] == "" {
      var init := matches[..|matches| - 1];
      LastNonEmptyIsLast(init);
      if LastNonEmptyOf(init) != "" {
        var k :| 0 <= k < |init| && init[k] == LastNonEmptyOf(init) &&
          forall j :: k < j < |init| ==> init[j] == "";
        assert matches[k] == init[k];
        forall j | k < j < |matches|
          ensures matches[j] == ""
        {
          if j < |init| { assert matches[j] == init[j]; }
        }
      } else {
        forall j | 0 <= j < |matches|
          ensures matches[j] == ""
        {
          if j < |init| { assert matches[j] == init[j]; }
        }
      }
    }
  }

  /** What doDownload returns for a directory state and the downloader's outcome. */
  function HelloResult(dir: Listing, id: string, tool: ToolOutcome): (string, string, Option<string>) {
    if StatOf(dir, InfoPath(id)) == NotExist
    then (LastNonEmptyOf(tool.destinations), HelloCommand(id), tool.err)
    else ("", "", None)
  }

  /** doDownload(id): run the downloader only when os.Stat says the side-car does not
      exist (any other Stat error skips the run too), and take as file name the last
      non-empty submatch of the `[ffmpeg] Destination:` line. */
  method DoDownload(host: Host, id: string, tool: ToolOutcome)
    returns (filename: string, command: string, err: Option<string>)
    modifies host
    ensures (filename, command, err) == HelloResult(old(host.dir), id, tool)
    ensures StatOf(old(host.dir), InfoPath(id)) != NotExist ==> unchanged(host)
    ensures StatOf(old(host.dir), InfoPath(id)) == NotExist ==>
              host.dir == tool.dirAfter && host.removals == old(host.removals) &&
              host.commands == old(host.commands) + [HelloCommand(id)]
  {
    var infoFilename := BaseDir + id + InfoSuffix;
    var stat := host.Stat(infoFilename);
    if stat == NotExist {
      var filenameTemplate := HelloTemplate;
      var commandParams := HelloOptions + filenameTemplate + " -- " + id;
      command := CommandName + " " + commandParams;
      err := host.Run(command, tool);

      var matches := tool.destinations;
      var resultFilename := "";
      for i := 0 to |matches|
        invariant resultFilename == LastNonEmptyOf(matches[..i])
      {
        assert matches[..i + 1][..i] == matches[..i];
        if |matches[i]| > 0 {
          resultFilename := matches[i];
        }
      }
      assert matches[..|matches|] == matches;
      return resultFilename, command, err;
    }
    return "", "", None;
  }

  /** The answer of an HTTP handler: a status with a body, or a 302 redirect. */
  datatype Response = Response(status: nat, body: string) | Redirect(location: string)

  function CommandError(command: string, err: string): string {
    "Command " + command + " error: " + err
  }

  /** The response downloadHandle gives once doDownload has returned. */
  function DownloadResponse(result: (string, string, Option<string>)): Response {
    if result.2.Some? then Response(500, CommandError(result.1, result.2.value))
    else Redirect("/listen?v=" + result.0 + "&t=0")
  }

  /** downloadHandle. `queryV` is `r.URL.Query().Get("v")`. Bad requests are refused
      before the in-flight set is touched; an identifier in flight gets 429 and no
      download; otherwise the identifier is in flight while doDownload runs (`heldDuring`
      is the in-flight set at that point), and the host is changed as doDownload changes
      it. */
  method DownloadHandle(guard: InFlight, host: Host, parse: UriParser, httpMethod: string,
                        queryV: string, tool: ToolOutcome)
    returns (resp: Response, ghost heldDuring: set<string>)
    modifies guard, host
    ensures guard.ids == old(guard.ids)
    ensures var id := ExtractVideoID(parse, queryV);
      httpMethod == "GET" && queryV != "" && id != "" && id !in old(guard.ids) ==>
        heldDuring == old(guard.ids) + {id}
    ensures httpMethod != "GET" ==> resp == Response(405, "Make a GET request") && unchanged(host)
    ensures httpMethod == "GET" && queryV == "" ==>
              resp == Response(400, "Must specify 'v' parameter") && unchanged(host)
    ensures httpMethod == "GET" && queryV != "" && ExtractVideoID(parse, queryV) == "" ==>
              resp == Response(400, ParameterVInvalidMessage) && unchanged(host)
    ensures var id := ExtractVideoID(parse, queryV);
      httpMethod == "GET" && queryV != "" && id != "" && id in old(guard.ids) ==>
        resp == Response(429, BusyMessage(id)) && unchanged(host)
    ensures var id := ExtractVideoID(parse, queryV);
      httpMethod == "GET" && queryV != "" && id != "" && id !in old(guard.ids) ==>
        resp == DownloadResponse(HelloResult(old(host.dir), id, tool)) &&
        if StatOf(old(host.dir), InfoPath(id)) == NotExist
        then host.dir == tool.dirAfter && host.removals == old(host.removals) &&
             host.commands == old(host.commands) + [HelloCommand(id)]
        else unchanged(host)
  {
    if httpMethod != "GET" {
      return Response(405, "Make a GET request"), {};
    }
    if |queryV| == 0 {
      return Response(400, "Must specify 'v' parameter"), {};
    }
    var id := ExtractVideoID(parse, queryV);
    if |id| == 0 {
      return Response(400, ParameterVInvalidMessage), {};
    }
    var loaded := guard.LoadOrStore(id);
    if loaded {
      return Response(429, BusyMessage(id)), {};
    }
    heldDuring := guard.ids;
    var filename, command, err := DoDownload(host, id, tool);
    guard.Delete(id);
    if err.Some? {
      return Response(500, CommandError(command, err.value)), heldDuring;
    }
    return Redirect("/listen?v=" + filename + "&t=0"), heldDuring;
  }

  const HelloInfo := "Use this bot to get an audio from youtube videos"

  /** One update from the webhook channel (its Message may be nil), with what the
      downloader does if this update runs it. */
  datatype Update = Update(message: Option<Message>, tool: ToolOutcome)

  /** The updates this revision's bot loop answers: messages with /start, /info or /listen. */
  predicate Answerable(u: Update) {
    u.message.Some? && u.message.value.command in {"start", "info", "listen"}
  }

  /** The reply to a /listen message once doDownload has returned. */
  function ListenReply(listenBaseURL: string, result: (string, string, Option<string>)): string {
    if result.2.Some? then CommandError(result.1, result.2.value)
    else listenBaseURL + "?v=" + result.0 + "&t=0"
  }

  /** What stays fixed while the bot loop runs: the URL parser, the base URL of the
      replies, and the identifiers in flight (each handler restores the set). */
  datatype Env = Env(parse: UriParser, listenBaseURL: string, inFlight: set<string>)

  /** The effect of handling one update: what is sent, whether the loop stops there, the
      directory afterwards, and the command lines run. */
  datatype Handled = Handled(replies: seq<Outgoing>, stop: bool, dir: Listing, commands: seq<string>)

  /** The /listen case on a given directory: refuse an empty identifier or one in flight;
      otherwise wait, typing, doDownload's outcome, and a stop when it failed. */
  function HandleListen(env: Env, dir: Listing, args: string, tool: ToolOutcome): Handled {
    var id := ExtractVideoID(env.parse, args);
    if id == "" then Handled([Reply(ParameterVInvalidMessage)], false, dir, [])
    else if id in env.inFlight then Handled([Reply(BusyMessage(id))], false, dir, [])
    else
      var result := HelloResult(dir, id, tool);
      var ran := StatOf(dir, InfoPath(id)) == NotExist;
      Handled([Reply(WaitMessage), Typing, Reply(ListenReply(env.listenBaseURL, result))],
              result.2.Some?,
              if ran then tool.dirAfter else dir,
              if ran then [HelloCommand(id)] else [])
  }

  /** The switch of the bot loop on a given directory: nil messages and unknown commands
      get nothing, /start and /info the short help, /listen its handler. */
  function HandleUpdate(env: Env, dir: Listing, u: Update): Handled {
    if u.message.None? then Handled([], false, dir, [])
    else
      var m := u.message.value;
      if m.command == "start" || m.command == "info" then Handled([Reply(HelloInfo)], false, dir, [])
      else if m.command == "listen" then HandleListen(env, dir, m.arguments, u.tool)
      else Handled([], false, dir, [])
  }

  /** The loop stops at an update exactly when it is a /listen whose identifier is let
      through the guard and whose download returned an error. */
  lemma StopIsFailedDownload(env: Env, dir: Listing, u: Update)
    ensures HandleUpdate(env, dir, u).stop <==>
              u.message.Some? && u.message.value.command == "listen" &&
              var id := ExtractVideoID(env.parse, u.message.value.arguments);
              id != "" && id !in env.inFlight && HelloResult(dir, id, u.tool).2.Some?
  {
  }

  /** Everything sent so far, the directory, and the command lines run. */
  datatype Progress = Progress(sent: seq<Sent>, dir: Listing, commands: seq<string>)

  /** The first `n` updates handled in order, each on the directory the previous ones
      left behind. */
  function RunUpTo(env: Env, dir0: Listing, updates: seq<Update>, n: nat): Progress
    requires n <= |updates|
  {
    if n == 0 then Progress([], dir0, [])
    else
      var p := RunUpTo(env, dir0, updates, n - 1);
      var h := HandleUpdate(env, p.dir, updates[n - 1]);
      Progress(p.sent + Tagged(n - 1, h.replies), h.dir, p.commands + h.commands)
  }

  /** The turn of update `j`: handling it on the directory the updates before it left. */
  function Turn(env: Env, dir0: Listing, updates: seq<Update>, j: nat): Handled
    requires j < |updates|
  {
    HandleUpdate(env, RunUpTo(env, dir0, updates, j).dir, updates[j])
  }

  /** None of the first `n` updates stops the loop. */
  ghost predicate NoStopBefore(env: Env, dir0: Listing, updates: seq<Update>, n: nat)
    requires n <= |updates|
  {
    forall j :: 0 <= j < n ==> !Turn(env, dir0, updates, j).stop
  }

  /** A turn that does not stop extends the stretch without stops by one update. */
  lemma NoStopStep(env: Env, dir0: Listing, updates: seq<Update>, k: nat)
    requires k < |updates|
    ensures NoStopBefore(env, dir0, updates, k) && !Turn(env, dir0, updates, k).stop ==>
              NoStopBefore(env, dir0, updates, k + 1)
  {
  }

  /** A turn sends something exactly when the update is answerable, and /start and /info
      get the short help alone. */
  lemma RepliesIffAnswerable(env: Env, dir: Listing, u: Update)
    ensures HandleUpdate(env, dir, u).replies != [] <==> Answerable(u)
    ensures u.message.Some? && u.message.value.command in {"start", "info"} ==>
              HandleUpdate(env, dir, u).replies == [Reply(HelloInfo)]
  {
  }

  /** Only /start, /info and /listen messages among the first `n` updates get replies. */
  lemma {:induction false} RunRepliesAnswerable(env: Env, dir0: Listing, updates: seq<Update>, n: nat)
    requires n <= |updates|
    ensures forall s :: s in RunUpTo(env, dir0, updates, n).sent ==> s.update < n && Answerable(updates[s.update])
  {
    if n > 0 {
      RunRepliesAnswerable(env, dir0, updates, n - 1);
      var p := RunUpTo(env, dir0, updates, n - 1);
      var h := HandleUpdate(env, p.dir, updates[n - 1]);
      RepliesIffAnswerable(env, p.dir, updates[n - 1]);
      forall s | s in Tagged(n - 1, h.replies)
        ensures s.update == n - 1 && Answerable(updates[n - 1])
      {
        var i :| 0 <= i < |h.replies| && Tagged(n - 1, h.replies)[i] == s;
      }
    }
  }

  /** Each of the first `n` updates that is answerable gets a reply. */
  lemma {:induction false} RunAnswersEach(env: Env, dir0: Listing, updates: seq<Update>, n: nat)
    requires n <= |updates|
    ensures forall j :: 0 <= j < n && Answerable(updates[j]) ==>
              exists s :: s in RunUpTo(env, dir0, updates, n).sent && s.update == j
  {
    if n > 0 {
      RunAnswersEach(env, dir0, updates, n - 1);
      var p := RunUpTo(env, dir0, updates, n - 1);
      var h := HandleUpdate(env, p.dir, updates[n - 1]);
      var sent := RunUpTo(env, dir0, updates, n).sent;
      assert sent == p.sent + Tagged(n - 1, h.replies);
      RepliesIffAnswerable(env, p.dir, updates[n - 1]);
      if Answerable(updates[n - 1]) {
        assert Tagged(n - 1, h.replies)[0] == Sent(n - 1, h.replies[0]);
        assert Sent(n - 1, h.replies[0]) in sent;
      }
    }
  }

  /** Each /start and /info among the first `n` updates gets the short help. */
  lemma {:induction false} RunSendsHelp(env: Env, dir0: Listing, updates: seq<Update>, n: nat)
    requires n <= |updates|
    ensures forall j :: 0 <= j < n && updates[j].message.Some? &&
                        updates[j].message.value.command in {"start", "info"}
                        ==> Sent(j, Reply(HelloInfo)) in RunUpTo(env, dir0, updates, n).sent
  {
    if n > 0 {
      RunSendsHelp(env, dir0, updates, n - 1);
      var p := RunUpTo(env, dir0, updates, n - 1);
      var h := HandleUpdate(env, p.dir, updates[n - 1]);
      var sent := RunUpTo(env, dir0, updates, n).sent;
      assert sent == p.sent + Tagged(n - 1, h.replies);
      var u := updates[n - 1];
      if u.message.Some? && u.message.value.command in {"start", "info"} {
        RepliesIffAnswerable(env, p.dir, u);
        assert Tagged(n - 1, h.replies)[0] == Sent(n - 1, Reply(HelloInfo));
        assert sent[|p.sent|] == Sent(n - 1, Reply(HelloInfo));
      }
    }
  }

  /** When the loop stops at update `n - 1`, the last thing sent is the command error,
      in answer to that update. */
  lemma RunStopReply(env: Env, dir0: Listing, updates: seq<Update>, n: nat)
    requires 0 < n <= |updates| && Turn(env, dir0, updates, n - 1).stop
    ensures var sent := RunUpTo(env, dir0, updates, n).sent;
      |sent| > 0 && sent[|sent| - 1].update == n - 1 &&
      exists c, e :: sent[|sent| - 1].what == Reply(CommandError(c, e))
  {
    var p := RunUpTo(env, dir0, updates, n - 1);
    var h := HandleUpdate(env, p.dir, updates[n - 1]);
    var m := updates[n - 1].message.value;
    var id := ExtractVideoID(env.parse, m.arguments);
    var result := HelloResult(p.dir, id, updates[n - 1].tool);
    assert h.replies[|h.replies| - 1] == Reply(CommandError(result.1, result.2.value));
  }

  /** The /listen case of the bot loop: the whole argument goes through the extractor, an
      empty identifier or one in flight is refused, otherwise the identifier is in flight
      while doDownload runs (`heldDuring` is the in-flight set at that point). `stop` is
      set when the download failed, which ends the loop, and then the last reply is the
      error. */
  method ListenCase(guard: InFlight, host: Host, parse: UriParser, listenBaseURL: string,
                    args: string, tool: ToolOutcome)
    returns (replies: seq<Outgoing>, stop: bool, ghost heldDuring: set<string>)
    modifies guard, host
    ensures guard.ids == old(guard.ids)
    ensures var id := ExtractVideoID(parse, args);
      id != "" && id !in old(guard.ids) ==> heldDuring == old(guard.ids) + {id}
    ensures var h := HandleListen(Env(parse, listenBaseURL, old(guard.ids)), old(host.dir), args, tool);
      replies == h.replies && stop == h.stop && host.dir == h.dir &&
      host.commands == old(host.commands) + h.commands && host.removals == old(host.removals)
    ensures ExtractVideoID(parse, args) == "" ==>
              replies == [Reply(ParameterVInvalidMessage)] && !stop && unchanged(host)
    ensures var id := ExtractVideoID(parse, args);
      id != "" && id in old(guard.ids) ==>
        replies == [Reply(BusyMessage(id))] && !stop && unchanged(host)
    ensures var id := ExtractVideoID(parse, args);
      id != "" && id !in old(guard.ids) ==>
        var result := HelloResult(old(host.dir), id, tool);
        stop == result.2.Some? &&
        replies == [Reply(WaitMessage), Typing, Reply(ListenReply(listenBaseURL, result))] &&
        if StatOf(old(host.dir), InfoPath(id)) == NotExist
        then host.dir == tool.dirAfter && host.removals == old(host.removals) &&
             host.commands == old(host.commands) + [HelloCommand(id)]
        else unchanged(host)
  {
    var id := ExtractVideoID(parse, args);
    if |id| == 0 {
      return [Reply(ParameterVInvalidMessage)], false, {};
    }
    var loaded := guard.LoadOrStore(id);
    if loaded {
      return [Reply(BusyMessage(id))], false, {};
    }
    replies := [Reply(WaitMessage), Typing];
    heldDuring := guard.ids;
    var filename, command, err := DoDownload(host, id, tool);
    guard.Delete(id);
    if err.Some? {
      replies := replies + [Reply(CommandError(command, err.value))];
      return replies, true, heldDuring;
    }
    replies := replies + [Reply(listenBaseURL + "?v=" + filename + "&t=0")];
    stop := false;
  }

  /** One turn of the bot loop: the switch on the command of a non-nil message. */
  method AnswerUpdate(guard: InFlight, host: Host, parse: UriParser, listenBaseURL: string, update: Update)
    returns (replies: seq<Outgoing>, stop: bool)
    modifies guard, host
    ensures guard.ids == old(guard.ids)
    ensures var h := HandleUpdate(Env(parse, listenBaseURL, old(guard.ids)), old(host.dir), update);
      replies == h.replies && stop == h.stop && host.dir == h.dir &&
      host.commands == old(host.commands) + h.commands && host.removals == old(host.removals)
  {
    if update.message.None? {
      return [], false;
    }
    var m := update.message.value;
    if m.command == "start" || m.command == "info" {
      return [Reply(HelloInfo)], false;
    }
    if m.command == "listen" {
      ghost var heldDuring;
      replies, stop, heldDuring := ListenCase(guard, host, parse, listenBaseURL, m.arguments, update.tool);
      return;
    }
    return [], false;
  }

  /** The bot loop of this revision. /start and /info get the short help, /listen takes
      its whole argument as the identifier (no format), other messages get no answer.
      `consumed` is how many updates were taken from the channel: what was sent and done
      is RunUpTo of those, and they run up to and including the first update whose turn
      stops the loop (a failed download), or to the end when none does. */
  method ProcessTelegramUpdates(guard: InFlight, host: Host, parse: UriParser, listenBaseURL: string,
                                updates: seq<Update>)
    returns (sent: seq<Sent>, consumed: nat)
    modifies guard, host
    ensures guard.ids == old(guard.ids)
    ensures consumed <= |updates|
    ensures var p := RunUpTo(Env(parse, listenBaseURL, old(guard.ids)), old(host.dir), updates, consumed);
      sent == p.sent && host.dir == p.dir &&
      host.commands == old(host.commands) + p.commands && host.removals == old(host.removals)
    ensures consumed < |updates| ==>
              0 < consumed && Turn(Env(parse, listenBaseURL, old(guard.ids)), old(host.dir), updates, consumed - 1).stop
    ensures forall j :: 0 <= j < consumed - 1 ==>
              !Turn(Env(parse, listenBaseURL, old(guard.ids)), old(host.dir), updates, j).stop
    ensures forall s :: s in sent ==> s.update < consumed && Answerable(updates[s.update])
    ensures forall k :: 0 <= k < consumed && Answerable(updates[k]) ==> exists s :: s in sent && s.update == k
    ensures forall k :: 0 <= k < consumed && updates[k].message.Some? &&
                        updates[k].message.value.command in {"start", "info"}
                        ==> Sent(k, Reply(HelloInfo)) in sent
    ensures consumed < |updates| ==>
              |sent| > 0 && sent[|sent| - 1].update == consumed - 1 &&
              exists c, e :: sent[|sent| - 1].what == Reply(CommandError(c, e))
  {
    ghost var env := Env(parse, listenBaseURL, guard.ids);
    ghost var dir0 := host.dir;
    sent := [];
    consumed := 0;
    var failed := false;  // set where the source returns from the loop
    while consumed < |updates| && !failed
      invariant consumed <= |updates|
      invariant guard.ids == env.inFlight
      invariant var p := RunUpTo(env, dir0, updates, consumed);
        sent == p.sent && host.dir == p.dir &&
        host.commands == old(host.commands) + p.commands && host.removals == old(host.removals)
      invariant !failed ==> NoStopBefore(env, dir0, updates, consumed)
      invariant failed ==> 0 < consumed && NoStopBefore(env, dir0, updates, consumed - 1) &&
                           Turn(env, dir0, updates, consumed - 1).stop
    {
      var k := consumed;
      var update := updates[k];
      ghost var h := HandleUpdate(env, host.dir, update);
      var replies, stop := AnswerUpdate(guard, host, parse, listenBaseURL, update);
      assert stop == h.stop == Turn(env, dir0, updates, k).stop;
      NoStopStep(env, dir0, updates, k);
      sent := sent + Tagged(k, replies);
      failed := stop;
      consumed := consumed + 1;
    }
    assert env == Env(parse, listenBaseURL, old(guard.ids)) && dir0 == old(host.dir);
    if consumed < |updates| {
      assert Turn(Env(parse, listenBaseURL, old(guard.ids)), old(host.dir), updates, consumed - 1).stop;
      RunStopReply(env, dir0, updates, consumed);
    }
    RunRepliesAnswerable(env, dir0, updates, consumed);
    RunAnswersEach(env, dir0, updates, consumed);
    RunSendsHelp(env, dir0, updates, consumed);
  }
}
