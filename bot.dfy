/**
  The chat-bot handlers of main.py: whitelist membership, the decision
  trees of `exposeHomeAssistant` and `hideHomeAssistant` over the outcomes
  of the tunnel calls, and the `helpCmd` reply built in a loop.
 */
module Bot {
  import opened Wrappers
  import opened Text
  import opened ConfigOptions
  import opened ConfigLoader
  import opened Ngrok

  /** `ConversationHandler.END` of the chat library. */
  const ConversationEnd: int := -1
  const StateBlacklisted: int := 0
  const StateWaitingForCommand: int := 1

  const MsgExposeFailed: string := "Problems with exposing HA"
  const MsgBackHidden: string := "Couldn't get ngrok link. HA is back hidden"
  const MsgLikelyExposed: string :=
    "Executed ngrok, although couldn't get ngrok link and couldn't terminate ngrok back. HA is likely exposed!"
  const MsgHidden: string := "Successfully hidden HA"
  const MsgHideFailed: string := "Problems with hiding HA"
  const InfinySuffix: string := "\nInfiny successfully updated!"

  /** The replies that tell the user the dashboard is hidden. */
  predicate ClaimsHidden(m: string) {
    m == MsgBackHidden || m == MsgHidden
  }

  /** The tunnel operations a handler invokes, in order. */
  datatype NgrokCall = RunCall | LinkQuery | StopCall | AdditionalCommandCall

  /**
    What a handler does: it raises before replying, or it returns the next
    conversation state after sending `messages` and invoking `calls`.
   */
  datatype HandlerResult = Raised | Done(state: int, messages: seq<string>, calls: seq<NgrokCall>)

  /**
    `isInWhiteList`: the decimal text of the id is one of the whitelist
    tokens, compared as text. While the whitelist is still `None` the `in`
    test raises (None here).
   */
  function IsInWhiteList(id: int, whitelist: Value): (r: Option<bool>)
    requires whitelist.NoneValue? || whitelist.ListValue?
    ensures r.None? <==> whitelist.NoneValue?
    ensures whitelist.ListValue? ==>
      (r.value <==> exists i :: 0 <= i < |whitelist.items| && whitelist.items[i] == DecimalText(id))
  {
    if whitelist.NoneValue? then None else Some(DecimalText(id) in whitelist.items)
  }

  /**
    A whitelist configured as trimmed ids separated by commas, with any
    whitespace around each comma and around the whole text, admits exactly
    the users whose decimal id is one of them.
   */
  lemma WhiteListFromConfigText(id: int, lead: string, tokens: seq<string>, pads: seq<(string, string)>, trail: string)
    requires |tokens| >= 1 && |pads| == |tokens| - 1
    requires AllSpace(lead) && SpacePads(pads) && AllSpace(trail)
    requires forall i :: 0 <= i < |tokens| ==> IsTrimmed(tokens[i]) && ',' !in tokens[i]
    ensures IsInWhiteList(id, ListValue(Convert2List(lead + PaddedJoin(tokens, pads) + trail)))
      == Some(DecimalText(id) in tokens)
  {
    Convert2ListPadded(lead, tokens, pads, trail);
  }

  /**
    A token with a leading zero, such as `007`, admits nobody: the test
    compares texts, and `str(id)` never starts with `0` before another
    digit, although `int()` reads the token as a number.
   */
  lemma LeadingZeroTokenAdmitsNobody(id: int, ds: string)
    requires |ds| >= 1 && AllDigits(ds)
    ensures IsInWhiteList(id, ListValue(["0" + ds])) == Some(false)
  {
    DecimalTextCanonical(id);
    assert DecimalText(id) != "0" + ds;
  }

  /** Every admitted id is the value `int()` reads from one of the tokens. */
  lemma WhiteListedIdReadsBack(id: int, items: seq<string>)
    requires IsInWhiteList(id, ListValue(items)) == Some(true)
    ensures exists i :: 0 <= i < |items| && Convert2Int(items[i]) == id
  {
    var i :| 0 <= i < |items| && items[i] == DecimalText(id);
    Convert2IntReadsBack(id);
  }

  /** One whitelist token admits at most one user. */
  lemma OneUserPerToken(a: int, b: int, token: string)
    requires IsInWhiteList(a, ListValue([token])) == Some(true)
    requires IsInWhiteList(b, ListValue([token])) == Some(true)
    ensures a == b
  {
    DecimalTextInjective(a, b);
  }

  predicate EndsWith(s: string, suffix: string) {
    |suffix| <= |s| && s[|s| - |suffix|..] == suffix
  }

  /** The success reply; the timeout is printed with `str()`. */
  function SuccessMessage(timeout: Value, additionalOk: bool): (r: string)
    ensures |r| > |MsgBackHidden| > |MsgHidden|
    ensures !ClaimsHidden(r)
  {
    "Successfully exposed HA for " + ValueText(timeout) + " minutes. HA will be hidden at (calculate yourself)."
    + (if additionalOk then InfinySuffix else "")
  }

  lemma SuccessMessageSuffix(timeout: Value, additionalOk: bool)
    ensures EndsWith(SuccessMessage(timeout, additionalOk), InfinySuffix) <==> additionalOk
  {
    var m := SuccessMessage(timeout, additionalOk);
    if !additionalOk {
      assert m[|m| - 1] == '.';
      assert InfinySuffix[|InfinySuffix| - 1] == '!';
    }
  }

  /**
    The decision tree of `exposeHomeAssistant` over the outcomes of
    `RunNgrok`, `GetNgrokLink`, `StopNgrok` and `RunAdditionalCommand`.
    "Hidden" is claimed only when `StopNgrok` answered True. That is a
    listing without the tagged tunnel, or no recorded process at all, in
    which case no listing is consulted (see `ExposeWithoutProcess`).
   */
  function ExposeDecision(access: Option<bool>, runOk: bool, link: string, stopResult: Emptiness,
                          additionalOk: bool, timeout: Value): (r: HandlerResult)
    ensures access.None? <==> r.Raised?
    ensures access == Some(false) ==> r == Done(ConversationEnd, [], [])
    ensures access == Some(true) ==> r.Done? && r.state == StateWaitingForCommand && |r.calls| >= 1 && r.calls[0] == RunCall
    ensures access == Some(true) && !runOk ==> r.messages == [MsgExposeFailed] && r.calls == [RunCall]
    ensures access == Some(true) && runOk && link == "" ==>
      && r.calls == [RunCall, LinkQuery, StopCall]
      && |r.messages| == 1
      && (stopResult.Truthy() ==> r.messages[0] == MsgBackHidden)
      && (!stopResult.Truthy() ==> r.messages[0] == MsgLikelyExposed)
    ensures access == Some(true) && runOk && link != "" ==>
      && r.calls == [RunCall, LinkQuery, AdditionalCommandCall]
      && |r.messages| == 2
      && r.messages[0] == SuccessMessage(timeout, additionalOk)
      && r.messages[1] == link
      && (EndsWith(r.messages[0], InfinySuffix) <==> additionalOk)
    ensures r.Done? && |r.messages| >= 1 && ClaimsHidden(r.messages[0]) ==>
      stopResult == ConfirmedEmpty && StopCall in r.calls
  {
    match access
    case None => Raised
    case Some(allowed) =>
      if !allowed then Done(ConversationEnd, [], [])
      else if !runOk then Done(StateWaitingForCommand, [MsgExposeFailed], [RunCall])
      else if |link| == 0 then
        Done(StateWaitingForCommand, [if stopResult.Truthy() then MsgBackHidden else MsgLikelyExposed],
             [RunCall, LinkQuery, StopCall])
      else
        SuccessMessageSuffix(timeout, additionalOk);
        Done(StateWaitingForCommand, [SuccessMessage(timeout, additionalOk), link],
             [RunCall, LinkQuery, AdditionalCommandCall])
  }

  /** The decision tree of `hideHomeAssistant` over the outcome of `StopNgrok`. */
  function HideDecision(access: Option<bool>, stopResult: Emptiness): (r: HandlerResult)
    ensures access.None? <==> r.Raised?
    ensures access == Some(false) ==> r == Done(ConversationEnd, [], [])
    ensures access == Some(true) ==>
      r.Done? && r.state == StateWaitingForCommand && r.calls == [StopCall] && |r.messages| == 1
    ensures access == Some(true) ==> (r.messages[0] == MsgHidden <==> stopResult.Truthy())
    ensures access == Some(true) && !stopResult.Truthy() ==> r.messages[0] == MsgHideFailed
    ensures access == Some(true) ==> (ClaimsHidden(r.messages[0]) <==> stopResult == ConfirmedEmpty)
  {
    match access
    case None => Raised
    case Some(allowed) =>
      if !allowed then Done(ConversationEnd, [], [])
      else Done(StateWaitingForCommand, [if stopResult.Truthy() then MsgHidden else MsgHideFailed], [StopCall])
  }

  /**
    With a recorded process, hiding is reported only when the provider's
    listing confirms that no tagged tunnel is left: a rejected request or an
    unusable body never reads as hidden.
   */
  lemma HideNeedsConfirmation(process: Option<Handle>, reply: HttpReply)
    requires process.Some? && EntriesAreObjects(RequestNgrokTunnels(reply))
    requires IsNgrokTunnelsEmpty(RequestNgrokTunnels(reply)) != ConfirmedEmpty
    ensures HideDecision(Some(true), StopResult(process, reply)).messages == [MsgHideFailed]
  {
  }

  /** With no recorded process the bot reports "hidden" without asking the provider. */
  lemma HideWithoutProcess(reply: HttpReply)
    ensures HideDecision(Some(true), StopResult(None, reply)).messages == [MsgHidden]
  {
  }

  /**
    The expose counterpart of `HideWithoutProcess`: off Windows and Linux
    `RunNgrok` starts nothing, so with no earlier process an empty link is
    reported as "back hidden" whatever the provider would answer.
   */
  lemma ExposeWithoutProcess(spawn: SpawnOutcome, reply: HttpReply, additionalOk: bool, timeout: Value)
    ensures
      var after := ProcessAfterRun(None, OtherPlatform, spawn);
      && after.None?
      && ExposeDecision(Some(true), RunSucceeds(OtherPlatform, spawn), "", StopResult(after, reply),
                        additionalOk, timeout).messages == [MsgBackHidden]
  {
  }

  /** The inputs of one `exposeHomeAssistant` call that stand for its I/O. */
  datatype ExposeEnv = ExposeEnv(
    platform: Platform,
    spawn: SpawnOutcome,
    linkReply: HttpReply,
    urlParseRaises: bool,
    stopReply: HttpReply,
    additionalRaises: bool)

  /**
    The tunnel I/O of one `exposeHomeAssistant` call: none for a user who
    is not admitted; otherwise the spawn attempt, then, when that succeeded,
    the link query and, for an empty link, the stop. The additional shell
    command is not part of this record.
   */
  function ExposeEvents(access: Option<bool>, platform: Platform, runOk: bool, link: string,
                        after: Option<Handle>): seq<IoEvent>
  {
    if access != Some(true) then []
    else if !runOk then RunEvents(platform)
    else RunEvents(platform) + [QueryEvent] + (if link == "" then StopEvents(after) else [])
  }

  /** `exposeHomeAssistant`, run against the recorded tunnel process. */
  method ExposeHomeAssistant(tables: ConfigTables, runner: NgrokProcess, userId: int, env: ExposeEnv)
    returns (res: HandlerResult)
    requires tables.Valid()
    requires EntriesAreObjects(RequestNgrokTunnels(env.stopReply))
    modifies runner
    ensures
      var access := IsInWhiteList(userId, tables.whitelist.value);
      var after := ProcessAfterRun(old(runner.process), env.platform, env.spawn);
      && res == ExposeDecision(access, RunSucceeds(env.platform, env.spawn),
                               GetNgrokLink(RequestNgrokTunnels(env.linkReply), env.urlParseRaises),
                               StopResult(after, env.stopReply),
                               RunAdditionalCommand(tables.cmdAdditional, env.additionalRaises),
                               tables.timeout.value)
      && runner.process == (if access == Some(true) then after else old(runner.process))
    ensures
      var access := IsInWhiteList(userId, tables.whitelist.value);
      var after := ProcessAfterRun(old(runner.process), env.platform, env.spawn);
      var link := GetNgrokLink(RequestNgrokTunnels(env.linkReply), env.urlParseRaises);
      runner.log == old(runner.log) + ExposeEvents(access, env.platform, RunSucceeds(env.platform, env.spawn), link, after)
    ensures IsInWhiteList(userId, tables.whitelist.value) != Some(true) ==> runner.log == old(runner.log)
  {
    var access := IsInWhiteList(userId, tables.whitelist.value);
    if access.None? {
      return Raised;
    }
    if !access.value {
      return Done(ConversationEnd, [], []);
    }
    ghost var log0 := runner.log;
    var success := runner.RunNgrok(env.platform, env.spawn);
    if !success {
      return Done(StateWaitingForCommand, [MsgExposeFailed], [RunCall]);
    }
    var link := GetNgrokLink(RequestNgrokTunnels(env.linkReply), env.urlParseRaises);
    runner.log := runner.log + [QueryEvent];
    ghost var log1 := runner.log;
    assert log1 == log0 + (RunEvents(env.platform) + [QueryEvent]) by {
      SeqAssociative(log0, RunEvents(env.platform), [QueryEvent]);
    }
    if |link| == 0 {
      var successTerminate := runner.StopNgrok(env.stopReply);
      SeqAssociative(log0, RunEvents(env.platform) + [QueryEvent], StopEvents(runner.process));
      assert runner.log == log0 + ExposeEvents(access, env.platform, true, link, runner.process);
      var reply := if successTerminate.Truthy() then MsgBackHidden else MsgLikelyExposed;
      return Done(StateWaitingForCommand, [reply], [RunCall, LinkQuery, StopCall]);
    }
    assert RunEvents(env.platform) + [QueryEvent] + [] == RunEvents(env.platform) + [QueryEvent];
    assert runner.log == log0 + ExposeEvents(access, env.platform, true, link, runner.process);
    var successAddCmd := RunAdditionalCommand(tables.cmdAdditional, env.additionalRaises);
    res := Done(StateWaitingForCommand, [SuccessMessage(tables.timeout.value, successAddCmd), link],
                [RunCall, LinkQuery, AdditionalCommandCall]);
  }

  /** `hideHomeAssistant`, run against the recorded tunnel process. */
  method HideHomeAssistant(tables: ConfigTables, runner: NgrokProcess, userId: int, stopReply: HttpReply)
    returns (res: HandlerResult)
    requires tables.Valid()
    requires EntriesAreObjects(RequestNgrokTunnels(stopReply))
    modifies runner
    ensures res == HideDecision(IsInWhiteList(userId, tables.whitelist.value), StopResult(old(runner.process), stopReply))
    ensures runner.process == old(runner.process)
    ensures IsInWhiteList(userId, tables.whitelist.value) != Some(true) ==> runner.log == old(runner.log)
    ensures IsInWhiteList(userId, tables.whitelist.value) == Some(true) ==>
      runner.log == old(runner.log) + StopEvents(old(runner.process))
    ensures old(runner.process).None? ==> runner.log == old(runner.log)
  {
    var access := IsInWhiteList(userId, tables.whitelist.value);
    if access.None? {
      return Raised;
    }
    if !access.value {
      return Done(ConversationEnd, [], []);
    }
    var success := runner.StopNgrok(stopReply);
    res := Done(StateWaitingForCommand, [if success.Truthy() then MsgHidden else MsgHideFailed], [StopCall]);
  }

  const HelpHeader: string := "You can use the following commands:"

  /** The `commands` table: command name and description, in insertion order. */
  const Commands: seq<(string, string)> := [
    ("help", "Shows this help message"),
    ("exposeha", "Exposes the Home Assistant web page to the internet and sends back the access link."
                 + " You can pass the number of minutes to keep HA exposed (default"),
    ("hideha", "Hides the Home Assistant web page from the internet."),
    ("reloadconfig", "Reloads the configuration file")
  ]

  function HelpEntry(command: (string, string)): string {
    "/" + command.0 + " - " + command.1
  }

  /** The help reply: the header, then one line per command of the table. */
  function HelpText(header: string, commands: seq<(string, string)>): (r: string)
    ensures |r| >= |header| && r[..|header|] == header
    ensures commands != [] ==> EndsWith(r, HelpEntry(commands[|commands| - 1]))
  {
    if commands == [] then header
    else HelpText(header, commands[..|commands| - 1]) + "\n" + HelpEntry(commands[|commands| - 1])
  }

  /** One entry per command, in table order. */
  function HelpEntries(commands: seq<(string, string)>): (r: seq<string>)
    ensures |r| == |commands|
    ensures forall i :: 0 <= i < |commands| ==> r[i] == HelpEntry(commands[i])
  {
    seq(|commands|, i requires 0 <= i < |commands| => HelpEntry(commands[i]))
  }

  /** The help reply is the header and the command entries joined by newlines. */
  lemma {:induction false} HelpTextJoin(header: string, commands: seq<(string, string)>)
    ensures HelpText(header, commands) == Join([header] + HelpEntries(commands), "\n")
  {
    if commands == [] {
      assert [header] + HelpEntries(commands) == [header];
    } else {
      var init := commands[..|commands| - 1];
      var last := HelpEntry(commands[|commands| - 1]);
      HelpTextJoin(header, init);
      assert [header] + HelpEntries(commands) == ([header] + HelpEntries(init)) + [last];
      JoinAppend([header] + HelpEntries(init), last, "\n");
    }
  }

  predicate OneLine(s: string) {
    '\n' !in s
  }

  predicate CommandsOneLine(commands: seq<(string, string)>) {
    forall i :: 0 <= i < |commands| ==> OneLine(commands[i].0) && OneLine(commands[i].1)
  }

  lemma HelpEntriesOneLine(header: string, commands: seq<(string, string)>)
    requires OneLine(header) && CommandsOneLine(commands)
    ensures forall i :: 0 <= i < |commands| + 1 ==> OneLine(([header] + HelpEntries(commands))[i])
  {
    var lines := [header] + HelpEntries(commands);
    forall i | 1 <= i < |lines|
      ensures OneLine(lines[i])
    {
      var c := commands[i - 1];
      assert lines[i] == "/" + c.0 + " - " + c.1;
    }
  }

  /**
    Read line by line, the help reply is the header followed by one
    `/<command> - <description>` line per command, in table order.
   */
  lemma HelpTextLines(header: string, commands: seq<(string, string)>)
    requires OneLine(header) && CommandsOneLine(commands)
    ensures Split(HelpText(header, commands), '\n') == [header] + HelpEntries(commands)
  {
    HelpTextJoin(header, commands);
    HelpEntriesOneLine(header, commands);
    SplitJoin([header] + HelpEntries(commands), '\n');
  }

  /** `helpCmd`: the reply is built by appending one line per command. */
  /** One more command extends the help text by its entry on a new line. */
  lemma HelpTextStep(header: string, commands: seq<(string, string)>, i: nat)
    requires i < |commands|
    ensures HelpText(header, commands[..i + 1]) == HelpText(header, commands[..i]) + "\n" + HelpEntry(commands[i])
  {
    assert commands[..i + 1][..i] == commands[..i];
  }

  method HelpCmd(tables: ConfigTables, userId: int) returns (res: HandlerResult)
    requires tables.Valid()
    ensures
      var access := IsInWhiteList(userId, tables.whitelist.value);
      && (access.None? <==> res.Raised?)
      && (access == Some(false) ==> res == Done(ConversationEnd, [], []))
      && (access == Some(true) ==> res == Done(StateWaitingForCommand, [HelpText(HelpHeader, Commands)], []))
  {
    var access := IsInWhiteList(userId, tables.whitelist.value);
    if access.None? {
      return Raised;
    }
    if !access.value {
      return Done(ConversationEnd, [], []);
    }
    var reply := HelpHeader;
    var i := 0;
    while i < |Commands|
      invariant 0 <= i <= |Commands|
      invariant reply == HelpText(HelpHeader, Commands[..i])
    {
      HelpTextStep(HelpHeader, Commands, i);
      reply := reply + "\n" + HelpEntry(Commands[i]);
      i := i + 1;
    }
    assert Commands[..i] == Commands;
    res := Done(StateWaitingForCommand, [reply], []);
  }
}
