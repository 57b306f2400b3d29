/** The chat-bot front end of the current revision: argument parsing, the listen handler
    with its in-flight bracket, and the loop over incoming updates. */
module Telegram {
  import opened GoStrings
  import opened Settings
  import opened VideoId
  import opened Storage
  import opened Guard
  import opened Download
  import opened Chat

  /** One update from the webhook channel (its Message may be nil), together with what the
      host answers while it is handled: the downloader's outcome and the removal's. */
  datatype Update = Update(message: Option<Message>, tool: ToolOutcome, removeFails: bool)

  /** What the switch in processTelegramUpdates decides to do with a message. */
  datatype Request = ShowInfo | Listen(id: string, audioFormat: string)

  /** The final reply of the listen handler for a download result. */
  function ResultReply(listenBaseURL: string, id: string, result: (string, Option<string>)): string {
    if result.1.Some? then "Cannot load a video with id " + id
    else listenBaseURL + "?v=" + result.0 + "&t=0"
  }

  /** parseArgs: the first two space-separated pieces, the second "" when there is no
      space. strings.Split never returns an empty slice, so the first branch is dead. */
  function ParseArgs(args: string): (string, string) {
    var splitted := Split(args, " ");
    if |splitted| == 0 then ("", "")
    else if |splitted| == 1 then (splitted[0], "")
    else (splitted[0], splitted[1])
  }

  /** parseArgs returns the text up to the first space, and the text between the first and
      the second space (or the end); without a space, the whole input and "". */
  lemma ParseArgsPieces(args: string)
    ensures !Contains(ParseArgs(args).0, " ") && !Contains(ParseArgs(args).1, " ")
    ensures !Contains(args, " ") ==> ParseArgs(args) == (args, "")
    ensures Contains(args, " ") ==>
              var (id, audioFormat) := ParseArgs(args);
              args == id + " " + audioFormat || HasPrefix(args, id + " " + audioFormat + " ")
  {
    AbsentFirstChar("", " ");
    match Index(args, " ")
    case None =>
    case Some(i) =>
      var id, rest := args[..i], args[i + 1..];
      SplitAt(args, " ", i);
      NothingBeforeIndex(args, " ", i);
      SecondPieceOf(id, rest);
      assert args == id + " " + rest;
      var f := ParseArgs(args).1;
      if rest != f {
        PrefixUnderHead(id + " ", rest, f + " ");
        assert id + " " + (f + " ") == id + " " + f + " ";
      }
  }

  /** A prefix stays a prefix under a common head. */
  lemma PrefixUnderHead(head: string, s: string, p: string)
    requires HasPrefix(s, p)
    ensures HasPrefix(head + s, head + p)
  {
    assert (head + s)[..|head + p|] == head + p;
  }

  /** Helper of ParseArgsPieces: the piece that follows the first space. */
  lemma SecondPieceOf(id: string, rest: string)
    requires !Contains(id, " ")
    requires Split(id + " " + rest, " ") == [id] + Split(rest, " ")
    ensures var (a, f) := ParseArgs(id + " " + rest);
      a == id && !Contains(f, " ") && (rest == f || HasPrefix(rest, f + " "))
  {
    match Index(rest, " ")
    case None =>
    case Some(j) =>
      SplitAt(rest, " ", j);
      NothingBeforeIndex(rest, " ", j);
      assert rest[..j + 1] == rest[..j] + " ";
  }

  /** The inverse direction: two space-free words joined by one space are read back as
      identifier and format. */
  lemma ParseArgsRoundTrip(id: string, audioFormat: string)
    requires !Contains(id, " ") && !Contains(audioFormat, " ")
    ensures ParseArgs(id + " " + audioFormat) == (id, audioFormat)
  {
    SecondPiece(id, audioFormat, audioFormat);
  }

  /** Whatever follows a second space is ignored: two space-free words, a space and
      anything are read back as identifier and format. */
  lemma ParseArgsIgnoresRest(id: string, audioFormat: string, rest: string)
    requires !Contains(id, " ") && !Contains(audioFormat, " ")
    ensures ParseArgs(id + " " + audioFormat + " " + rest) == (id, audioFormat)
  {
    var tail := audioFormat + " " + rest;
    assert tail[..|audioFormat| + 1] == audioFormat + " ";
    SecondPiece(id, audioFormat, tail);
    assert id + " " + audioFormat + " " + rest == id + " " + tail;
  }

  /** Helper of the two lemmas above: `id + " " + tail` with `tail` starting with the
      space-free `word` (and then ending or going on with a space). */
  lemma SecondPiece(id: string, word: string, tail: string)
    requires !Contains(id, " ") && !Contains(word, " ")
    requires tail == word || HasPrefix(tail, word + " ")
    ensures ParseArgs(id + " " + tail) == (id, word)
  {
    var args := id + " " + tail;
    assert HasPrefix(args, id + " ") by { assert args[..|id| + 1] == id + " "; }
    IndexAfterFreePrefix(args, id, ' ');
    SplitAt(args, " ", |id|);
    assert args[..|id|] == id;
    assert args[|id| + 1..] == tail;
    if tail == word {
      FirstPiece(tail, " ");
    } else {
      IndexAfterFreePrefix(tail, word, ' ');
      SplitAt(tail, " ", |word|);
      assert tail[..|word|] == word;
    }
  }

  /** Two /listen messages whose parsed arguments make DoDownload run the same command
      line asked for the same identifier and the same format: parseArgs never yields a
      format with a space, the only kind that can make command lines collide. */
  lemma ParsedRequestsRecoverable(parse: UriParser, a1: string, a2: string)
    ensures var (r1, f1) := ParseArgs(a1);
      var (r2, f2) := ParseArgs(a2);
      DownloadCommand(ExtractVideoID(parse, r1), f1) == DownloadCommand(ExtractVideoID(parse, r2), f2) ==>
        ExtractVideoID(parse, r1) == ExtractVideoID(parse, r2) && f1 == f2
  {
    var (r1, f1) := ParseArgs(a1);
    var (r2, f2) := ParseArgs(a2);
    ParseArgsPieces(a1);
    ParseArgsPieces(a2);
    NotContainedChar(f1, ' ');
    NotContainedChar(f2, ' ');
    if DownloadCommand(ExtractVideoID(parse, r1), f1) == DownloadCommand(ExtractVideoID(parse, r2), f2) {
      SpaceFreeRequestsRecoverable(ExtractVideoID(parse, r1), f1, ExtractVideoID(parse, r2), f2);
    }
  }

  /** Two spaces in a row give an empty format: `id  mp3` is read as ("id", ""). */
  lemma DoubleSpaceGivesEmptyFormat(args: string)
    requires args == "id  mp3"
    ensures ParseArgs(args) == ("id", "")
  {
    AbsentFirstChar("id", " ");
    AbsentFirstChar("", " ");
    assert args == "id" + " " + "" + " " + "mp3";
    ParseArgsIgnoresRest("id", "", "mp3");
  }

  /** The switch of processTelegramUpdates: /start and /info show the help text, /listen
      parses its arguments, anything else parses the whole message text. */
  function Dispatch(m: Message): Request {
    if m.command == "start" || m.command == "info" then ShowInfo
    else
      var (id, audioFormat) := ParseArgs(if m.command == "listen" then m.arguments else m.text);
      Listen(id, audioFormat)
  }

  /** What stays fixed while the bot loop runs: the URL parser, the base URL of the
      replies, and the identifiers in flight (each handler restores the set). */
  datatype Env = Env(parse: UriParser, listenBaseURL: string, inFlight: set<string>)

  /** The effect of handling one update: what is sent, the directory afterwards, the
      command lines run and the paths handed to the removal. */
  datatype Handled = Handled(replies: seq<Outgoing>, dir: Listing, commands: seq<string>,
                             removals: seq<string>)

  /** telegramListenHandle on a given directory: refuse an empty identifier or one in
      flight; otherwise wait, typing and the download's outcome, with the host changed as
      DoDownload changes it (nothing when the existing file is reused; otherwise the
      command, the removal of a stale file once a new one is found, and the directory the
      downloader leaves, less the stale file when its removal succeeds). */
  function HandleListen(env: Env, dir: Listing, rawId: string, audioFormat: string,
                        tool: ToolOutcome, removeFails: bool): Handled
  {
    var id := ExtractVideoID(env.parse, rawId);
    if id == "" then Handled([Reply(ParameterVInvalidMessage)], dir, [], [])
    else if id in env.inFlight then Handled([Reply(BusyMessage(id))], dir, [], [])
    else
      var replies := [Reply(WaitMessage), Typing,
                      Reply(ResultReply(env.listenBaseURL, id, DownloadResult(dir, id, audioFormat, tool)))];
      var stale := OutputFile(dir, id);
      if Reusable(stale, audioFormat) then Handled(replies, dir, [], [])
      else
        var removals := StaleRemovals(stale, OutputFile(tool.dirAfter, id));
        var dirAfter := if removals != [] && !removeFails then Removed(tool.dirAfter, BaseDir + stale)
                        else tool.dirAfter;
        Handled(replies, dirAfter, [DownloadCommand(id, audioFormat)], removals)
  }

  /** telegramListenHandle: extract the identifier, refuse an empty one, refuse one that
      is in flight, otherwise mark it in flight, download, unmark it, and report.
      `heldDuring` is the in-flight set while DoDownload runs: the earlier set and the
      identifier. */
  method ListenHandle(guard: InFlight, host: Host, parse: UriParser, listenBaseURL: string,
                      rawId: string, audioFormat: string, tool: ToolOutcome, removeFails: bool)
    returns (sent: seq<Outgoing>, ghost heldDuring: set<string>)
    modifies guard, host
    ensures guard.ids == old(guard.ids)
    ensures var h := HandleListen(Env(parse, listenBaseURL, old(guard.ids)), old(host.dir),
                                  rawId, audioFormat, tool, removeFails);
      sent == h.replies && host.dir == h.dir && host.commands == old(host.commands) + h.commands &&
      host.removals == old(host.removals) + h.removals
    ensures var id := ExtractVideoID(parse, rawId);
      id != "" && id !in old(guard.ids) ==> heldDuring == old(guard.ids) + {id}
    ensures ExtractVideoID(parse, rawId) == "" ==>
              sent == [Reply(ParameterVInvalidMessage)] && unchanged(host)
    ensures ExtractVideoID(parse, rawId) != "" && ExtractVideoID(parse, rawId) in old(guard.ids) ==>
              sent == [Reply(BusyMessage(ExtractVideoID(parse, rawId)))] && unchanged(host)
    ensures var id := ExtractVideoID(parse, rawId);
      id != "" && id !in old(guard.ids) ==>
        sent == [Reply(WaitMessage), Typing,
                 Reply(ResultReply(listenBaseURL, id, DownloadResult(old(host.dir), id, audioFormat, tool)))] &&
        var stale := OutputFile(old(host.dir), id);
        if Reusable(stale, audioFormat)
        then host.dir == old(host.dir) && host.commands == old(host.commands) &&
             host.removals == old(host.removals)
        else
          var removals := StaleRemovals(stale, OutputFile(tool.dirAfter, id));
          host.commands == old(host.commands) + [DownloadCommand(id, audioFormat)] &&
          host.removals == old(host.removals) + removals &&
          host.dir == if removals != [] && !removeFails then Removed(tool.dirAfter, BaseDir + stale)
                      else tool.dirAfter
  {
    var id := ExtractVideoID(parse, rawId);
    if |id| == 0 {
      return [Reply(ParameterVInvalidMessage)], {};
    }
    var loaded := guard.LoadOrStore(id);
    if loaded {
      return [Reply(BusyMessage(id))], {};
    }
    sent := [Reply(WaitMessage), Typing];
    heldDuring := guard.ids;
    var filename, command, err := DoDownload(host, id, audioFormat, tool, removeFails);
    guard.Delete(id);
    if err.Some? {
      sent := sent + [Reply("Cannot load a video with id " + id)];
      return;
    }
    sent := sent + [Reply(listenBaseURL + "?v=" + filename + "&t=0")];
  }

  /** The first thing sent in answer to a request while `inFlight` holds the identifiers
      being downloaded: the help text, the invalid-parameter message for an empty
      identifier, the busy message for one in flight, and otherwise the wait message. */
  function FirstAnswer(parse: UriParser, inFlight: set<string>, r: Request): Outgoing {
    match r
    case ShowInfo => Reply(Info)
    case Listen(rawId, _) =>
      var id := ExtractVideoID(parse, rawId);
      if id == "" then Reply(ParameterVInvalidMessage)
      else if id in inFlight then Reply(BusyMessage(id))
      else Reply(WaitMessage)
  }

  /** The switch of processTelegramUpdates on a given directory: nothing for an update
      without a message, the help text for /start and /info, and otherwise the listen
      handler on the parsed arguments. */
  function HandleUpdate(env: Env, dir: Listing, u: Update): Handled {
    if u.message.None? then Handled([], dir, [], [])
    else match Dispatch(u.message.value)
      case ShowInfo => Handled([Reply(Info)], dir, [], [])
      case Listen(rawId, audioFormat) => HandleListen(env, dir, rawId, audioFormat, u.tool, u.removeFails)
  }

  /** A handled update answers a message first with the answer its request calls for, and
      answers an update without a message with nothing. */
  lemma FirstReply(env: Env, dir: Listing, u: Update)
    ensures u.message.None? ==> HandleUpdate(env, dir, u).replies == []
    ensures u.message.Some? ==>
              var replies := HandleUpdate(env, dir, u).replies;
              |replies| > 0 && replies[0] == FirstAnswer(env.parse, env.inFlight, Dispatch(u.message.value))
  {
  }

  /** Everything sent so far, the directory, the command lines run and the removals. */
  datatype Progress = Progress(sent: seq<Sent>, dir: Listing, commands: seq<string>, removals: seq<string>)

  /** The first `n` updates handled in order by `turn`, each on the directory the previous
      ones left behind. */
  function RunWith(turn: (Listing, Update) -> Handled, dir0: Listing, updates: seq<Update>, n: nat): Progress
    requires n <= |updates|
  {
    if n == 0 then Progress([], dir0, [], [])
    else
      var p := RunWith(turn, dir0, updates, n - 1);
      var h := turn(p.dir, updates[n - 1]);
      Progress(p.sent + Tagged(n - 1, h.replies), h.dir, p.commands + h.commands, p.removals + h.removals)
  }

  /** The switch of processTelegramUpdates as a function of the directory and the update. */
  function Turns(env: Env): (Listing, Update) -> Handled {
    (dir: Listing, u: Update) => HandleUpdate(env, dir, u)
  }

  /** The first `n` updates handled in order by the switch of processTelegramUpdates. */
  function RunUpTo(env: Env, dir0: Listing, updates: seq<Update>, n: nat): Progress
    requires n <= |updates|
  {
    RunWith(Turns(env), dir0, updates, n)
  }

  /** One more update: when its turn, handled on the directory the earlier ones left,
      sends `out` and leaves `dir` after running `commands` and attempting `removals`,
      the run over one more update is the run so far extended by that. */
  lemma RunStep(env: Env, dir0: Listing, updates: seq<Update>, k: nat, out: seq<Outgoing>,
                dir: Listing, commands: seq<string>, removals: seq<string>)
    requires k < |updates|
    requires HandleUpdate(env, RunUpTo(env, dir0, updates, k).dir, updates[k]) == Handled(out, dir, commands, removals)
    ensures RunUpTo(env, dir0, updates, k + 1).sent == RunUpTo(env, dir0, updates, k).sent + Tagged(k, out)
    ensures RunUpTo(env, dir0, updates, k + 1).dir == dir
    ensures RunUpTo(env, dir0, updates, k + 1).commands == RunUpTo(env, dir0, updates, k).commands + commands
    ensures RunUpTo(env, dir0, updates, k + 1).removals == RunUpTo(env, dir0, updates, k).removals + removals
  {
  }

  /** Appending in two steps appends the concatenation. */
  lemma AppendRegroup(a: seq<string>, b: seq<string>, c: seq<string>)
    ensures a + (b + c) == (a + b) + c
  {
  }

  /** The first answer each message calls for while `inFlight` holds the identifiers being
      downloaded. */
  function Expected(parse: UriParser, inFlight: set<string>): Message -> Outgoing {
    (m: Message) => FirstAnswer(parse, inFlight, Dispatch(m))
  }

  /** `turn` answers an update without a message with nothing, and a message first with
      what `answer` gives. */
  ghost predicate AnswersFirst(turn: (Listing, Update) -> Handled, answer: Message -> Outgoing) {
    forall dir: Listing, u: Update ::
      && (u.message.None? ==> turn(dir, u).replies == [])
      && (u.message.Some? ==>
            |turn(dir, u).replies| > 0 && turn(dir, u).replies[0] == answer(u.message.value))
  }

  /** What has been achieved after the first `k` updates: replies only for those with a
      message, for each of them the first answer `answer` gives, and the replies in the
      order of the updates. */
  ghost predicate Answered(answer: Message -> Outgoing, updates: seq<Update>, sent: seq<Sent>, k: nat)
    requires k <= |updates|
  {
    && (forall s :: s in sent ==> s.update < k && updates[s.update].message.Some?)
    && (forall j :: 0 <= j < k && updates[j].message.Some? ==>
          Sent(j, answer(updates[j].message.value)) in sent)
    && (forall a, b :: 0 <= a < b < |sent| ==> sent[a].update <= sent[b].update)
  }

  /** Answering update `k` with a batch that is empty when it has no message and otherwise
      starts with the answer `answer` gives extends what has been achieved to `k + 1`. */
  lemma AnswerStep(answer: Message -> Outgoing, updates: seq<Update>, sent: seq<Sent>,
                   k: nat, out: seq<Outgoing>)
    requires k < |updates| && Answered(answer, updates, sent, k)
    requires updates[k].message.None? ==> out == []
    requires updates[k].message.Some? ==> |out| > 0 && out[0] == answer(updates[k].message.value)
    ensures Answered(answer, updates, sent + Tagged(k, out), k + 1)
  {
    var tagged := Tagged(k, out);
    var all := sent + tagged;
    if updates[k].message.Some? {
      assert Sent(k, out[0]) == tagged[0];
      assert Sent(k, out[0]) in all;
    } else {
      assert all == sent;
    }
    forall a, b | 0 <= a < b < |all|
      ensures all[a].update <= all[b].update
    {
      if b < |sent| {
      } else if a < |sent| {
        assert all[a] in sent;
      }
    }
  }

  /** A run of a turn function that answers each message first as `answer` gives answers
      only the messages, each with that answer, in channel order. */
  lemma {:induction false} RunWithAnswered(turn: (Listing, Update) -> Handled, answer: Message -> Outgoing,
                                           dir0: Listing, updates: seq<Update>, n: nat)
    requires n <= |updates| && AnswersFirst(turn, answer)
    ensures Answered(answer, updates, RunWith(turn, dir0, updates, n).sent, n)
  {
    if n > 0 {
      RunWithAnswered(turn, answer, dir0, updates, n - 1);
      var p := RunWith(turn, dir0, updates, n - 1);
      AnswerStep(answer, updates, p.sent, n - 1, turn(p.dir, updates[n - 1]).replies);
    }
  }

  /** Whatever the downloads do, a run over the first `n` updates answers only the
      messages, each with the first answer its request calls for, in channel order. */
  lemma RunAnswered(env: Env, dir0: Listing, updates: seq<Update>, n: nat)
    requires n <= |updates|
    ensures Answered(Expected(env.parse, env.inFlight), updates, RunUpTo(env, dir0, updates, n).sent, n)
  {
    forall dir: Listing, u: Update
      ensures u.message.None? ==> Turns(env)(dir, u).replies == []
      ensures u.message.Some? ==>
                |Turns(env)(dir, u).replies| > 0 &&
                Turns(env)(dir, u).replies[0] == Expected(env.parse, env.inFlight)(u.message.value)
    {
      FirstReply(env, dir, u);
    }
    RunWithAnswered(Turns(env), Expected(env.parse, env.inFlight), dir0, updates, n);
  }

  /** One turn of processTelegramUpdates: skip a nil message, otherwise the switch on its
      command. */
  method AnswerUpdate(guard: InFlight, host: Host, parse: UriParser, listenBaseURL: string, update: Update)
    returns (out: seq<Outgoing>)
    modifies guard, host
    ensures guard.ids == old(guard.ids)
    ensures out == HandleUpdate(Env(parse, listenBaseURL, old(guard.ids)), old(host.dir), update).replies
    ensures host.dir == HandleUpdate(Env(parse, listenBaseURL, old(guard.ids)), old(host.dir), update).dir
    ensures host.commands ==
              old(host.commands) + HandleUpdate(Env(parse, listenBaseURL, old(guard.ids)), old(host.dir), update).commands
    ensures host.removals ==
              old(host.removals) + HandleUpdate(Env(parse, listenBaseURL, old(guard.ids)), old(host.dir), update).removals
    ensures update.message.None? ==> out == []
    ensures update.message.Some? ==>
              |out| > 0 && out[0] == FirstAnswer(parse, old(guard.ids), Dispatch(update.message.value))
  {
    if update.message.None? {
      return [];
    }
    var m := update.message.value;
    ghost var heldDuring: set<string>;
    FirstReply(Env(parse, listenBaseURL, guard.ids), host.dir, update);
    if m.command == "start" {
      out := [Reply(Info)];
    } else if m.command == "info" {
      out := [Reply(Info)];
    } else if m.command == "listen" {
      var (id, audioFormat) := ParseArgs(m.arguments);
      out, heldDuring := ListenHandle(guard, host, parse, listenBaseURL, id, audioFormat,
                                      update.tool, update.removeFails);
    } else {
      var (id, audioFormat) := ParseArgs(m.text);
      out, heldDuring := ListenHandle(guard, host, parse, listenBaseURL, id, audioFormat,
                                      update.tool, update.removeFails);
    }
  }

  /** processTelegramUpdates over the updates received so far: what is sent and done is
      RunUpTo of all of them, with the in-flight set as it was at the start (each handler
      leaves it so). So nil messages are skipped, every other message gets the first
      answer its request calls for, replies are in channel order, and the in-flight set
      is the same at the end as at the start. */
  method ProcessTelegramUpdates(guard: InFlight, host: Host, parse: UriParser, listenBaseURL: string,
                                updates: seq<Update>)
    returns (sent: seq<Sent>)
    modifies guard, host
    ensures guard.ids == old(guard.ids)
    ensures sent == RunUpTo(Env(parse, listenBaseURL, old(guard.ids)), old(host.dir), updates, |updates|).sent
    ensures host.dir == RunUpTo(Env(parse, listenBaseURL, old(guard.ids)), old(host.dir), updates, |updates|).dir
    ensures host.commands ==
              old(host.commands) + RunUpTo(Env(parse, listenBaseURL, old(guard.ids)), old(host.dir), updates, |updates|).commands
    ensures host.removals ==
              old(host.removals) + RunUpTo(Env(parse, listenBaseURL, old(guard.ids)), old(host.dir), updates, |updates|).removals
    ensures forall s :: s in sent ==> s.update < |updates| && updates[s.update].message.Some?
    ensures forall k :: 0 <= k < |updates| && updates[k].message.Some? ==>
              Sent(k, FirstAnswer(parse, old(guard.ids), Dispatch(updates[k].message.value))) in sent
    ensures forall a, b :: 0 <= a < b < |sent| ==> sent[a].update <= sent[b].update
  {
    ghost var env := Env(parse, listenBaseURL, guard.ids);
    ghost var dir0 := host.dir;
    sent := [];
    var k := 0;
    while k < |updates|
      invariant 0 <= k <= |updates|
      invariant guard.ids == env.inFlight
      invariant sent == RunUpTo(env, dir0, updates, k).sent
      invariant host.dir == RunUpTo(env, dir0, updates, k).dir
      invariant host.commands == old(host.commands) + RunUpTo(env, dir0, updates, k).commands
      invariant host.removals == old(host.removals) + RunUpTo(env, dir0, updates, k).removals
    {
      assert Env(parse, listenBaseURL, guard.ids) == env;
      ghost var h := HandleUpdate(env, host.dir, updates[k]);
      var out := AnswerUpdate(guard, host, parse, listenBaseURL, updates[k]);
      RunStep(env, dir0, updates, k, h.replies, h.dir, h.commands, h.removals);
      AppendRegroup(old(host.commands), RunUpTo(env, dir0, updates, k).commands, h.commands);
      AppendRegroup(old(host.removals), RunUpTo(env, dir0, updates, k).removals, h.removals);
      sent := sent + Tagged(k, out);
      k := k + 1;
    }
    assert env == Env(parse, listenBaseURL, old(guard.ids)) && dir0 == old(host.dir);
    RunAnswered(env, dir0, updates, |updates|);
  }
}
