/**
  The tunnel provider (ngrok.py): the two classifiers over the tunnel
  listing the provider's API returns, and the recorded tunnel process that
  `RunNgrok` and `StopNgrok` share. The HTTP request, the process spawn and
  the signals are outcomes handed in by the caller.
 */
module Ngrok {
  import opened Wrappers
  import opened Json
  import opened ConfigOptions

  /** The metadata tag that marks this deployment's tunnel. */
  const HaMetadata: string := "homeassistant"

  /** A parsed 200 response body (a JSON object), or None. */
  type Response = Option<map<string, Json>>

  /** What the `GET /tunnels` request returned: a status code and a JSON object body. */
  datatype HttpReply = HttpReply(status: int, body: map<string, Json>)

  /** `_requestNgrokTunnels`: any status other than 200 gives no response. */
  function RequestNgrokTunnels(reply: HttpReply): (r: Response)
    ensures r.None? <==> reply.status != 200
    ensures r.Some? ==> r.value == reply.body
  {
    if reply.status != 200 then None else Some(reply.body)
  }

  /**
    The tunnel list, when the response is truthy (present and non-empty),
    has a `tunnels` key, and that key holds a list.
   */
  function Tunnels(response: Response): Option<seq<Json>> {
    if response.None? || response.value == map[] || "tunnels" !in response.value || !response.value["tunnels"].JArr? then None
    else Some(response.value["tunnels"].items)
  }

  /** Entry `t` has a `metadata` key equal to `'homeassistant'`. */
  predicate IsHaTunnel(t: Json) {
    t.JObj? && "metadata" in t.fields && t.fields["metadata"] == JStr(HaMetadata)
  }

  /**
    Every tunnel entry is an object. On other entries the `in` test and the
    indexing of `IsNgrokTunnelsEmpty` either raise or test something else.
   */
  predicate EntriesAreObjects(response: Response) {
    match Tunnels(response)
    case None => true
    case Some(items) => forall i :: 0 <= i < |items| ==> items[i].JObj?
  }

  /**
    The three answers of `IsNgrokTunnelsEmpty`: None, True and False in
    Python. `StopNgrok` reuses True (`ConfirmedEmpty`) for "no recorded
    process", where no listing is consulted.
   */
  datatype Emptiness = Unknown | ConfirmedEmpty | NotEmpty {
    /** Python's truthiness of the answer: only True is truthy. */
    predicate Truthy() {
      ConfirmedEmpty?
    }
  }

  /** The entries tagged for this deployment, in their order. */
  function HaTunnels(items: seq<Json>): (r: seq<Json>)
    ensures forall x :: x in r ==> IsHaTunnel(x)
    ensures |r| == 0 <==> forall i :: 0 <= i < |items| ==> !IsHaTunnel(items[i])
    ensures multiset(r) <= multiset(items)
  {
    if items == [] then []
    else
      var rest := HaTunnels(items[1..]);
      assert items == [items[0]] + items[1..];
      if IsHaTunnel(items[0]) then [items[0]] + rest else rest
  }

  /**
    `IsNgrokTunnelsEmpty`: Unknown when there is no usable tunnel list,
    otherwise ConfirmedEmpty exactly when no entry carries this
    deployment's tag.
   */
  function IsNgrokTunnelsEmpty(response: Response): (r: Emptiness)
    requires EntriesAreObjects(response)
    ensures r == Unknown <==> Tunnels(response).None?
    ensures r == ConfirmedEmpty <==>
      Tunnels(response).Some? && forall i :: 0 <= i < |Tunnels(response).value| ==> !IsHaTunnel(Tunnels(response).value[i])
    ensures r == NotEmpty <==>
      Tunnels(response).Some? && exists i :: 0 <= i < |Tunnels(response).value| && IsHaTunnel(Tunnels(response).value[i])
  {
    match Tunnels(response)
    case None => Unknown
    case Some(items) => if |HaTunnels(items)| == 0 then ConfirmedEmpty else NotEmpty
  }

  /** Entry `t` is this deployment's tunnel and has a string `public_url`. */
  predicate HasLink(t: Json) {
    IsHaTunnel(t) && "public_url" in t.fields && t.fields["public_url"].JStr?
  }

  /** The first tunnel entry is this deployment's tunnel with a string `public_url`. */
  predicate FirstTunnelHasLink(response: Response) {
    Tunnels(response).Some? && |Tunnels(response).value| > 0 && HasLink(Tunnels(response).value[0])
  }

  /**
    `GetNgrokLink`: the `public_url` of the first tunnel entry when that
    entry is this deployment's tunnel and `urlparse` accepts the address,
    and '' in every other case. Only entry 0 is looked at. `urlParseRaises`
    says whether `urllib.parse.urlparse` raises on that address.
   */
  function GetNgrokLink(response: Response, urlParseRaises: bool): (link: string)
    ensures FirstTunnelHasLink(response) && !urlParseRaises ==>
      link == Tunnels(response).value[0].fields["public_url"].s
    ensures !FirstTunnelHasLink(response) || urlParseRaises ==> link == ""
  {
    if response.None?
      || response.value == map[]
      || "tunnels" !in response.value
      || !response.value["tunnels"].JArr?
      || |response.value["tunnels"].items| == 0
      || !response.value["tunnels"].items[0].JObj?
      || "metadata" !in response.value["tunnels"].items[0].fields
      || !response.value["tunnels"].items[0].fields["metadata"].JStr?
      || response.value["tunnels"].items[0].fields["metadata"].s != HaMetadata
      || "public_url" !in response.value["tunnels"].items[0].fields
      || !response.value["tunnels"].items[0].fields["public_url"].JStr?
      || urlParseRaises
    then ""
    else response.value["tunnels"].items[0].fields["public_url"].s
  }

  /** A non-200 status is never read as a confirmed answer nor as a link. */
  lemma RejectedRequestIsUnknown(reply: HttpReply, urlParseRaises: bool)
    requires reply.status != 200
    ensures IsNgrokTunnelsEmpty(RequestNgrokTunnels(reply)) == Unknown
    ensures GetNgrokLink(RequestNgrokTunnels(reply), urlParseRaises) == ""
  {
  }

  /** A non-empty link comes from a response that also says the tunnel is present. */
  lemma LinkImpliesNotEmpty(response: Response, urlParseRaises: bool)
    requires EntriesAreObjects(response)
    requires GetNgrokLink(response, urlParseRaises) != ""
    ensures IsNgrokTunnelsEmpty(response) == NotEmpty
  {
    assert IsHaTunnel(Tunnels(response).value[0]);
  }

  /**
    Only entry 0 is inspected by `GetNgrokLink`: with this deployment's
    tunnel further down the list, the link is '' while the listing says
    the tunnel is present.
   */
  lemma OnlyFirstEntryGivesLink(response: Response, urlParseRaises: bool, j: nat)
    requires EntriesAreObjects(response)
    requires Tunnels(response).Some? && 0 < j < |Tunnels(response).value|
    requires !IsHaTunnel(Tunnels(response).value[0])
    requires HasLink(Tunnels(response).value[j])
    ensures GetNgrokLink(response, urlParseRaises) == ""
    ensures IsNgrokTunnelsEmpty(response) == NotEmpty
  {
    assert IsHaTunnel(Tunnels(response).value[j]);
  }

  /** The emptiness answer does not depend on the order of the tunnel entries. */
  lemma EmptinessIgnoresOrder(r1: Response, r2: Response)
    requires EntriesAreObjects(r1) && EntriesAreObjects(r2)
    requires Tunnels(r1).Some? && Tunnels(r2).Some?
    requires multiset(Tunnels(r1).value) == multiset(Tunnels(r2).value)
    ensures IsNgrokTunnelsEmpty(r1) == IsNgrokTunnelsEmpty(r2)
  {
    var a, b := Tunnels(r1).value, Tunnels(r2).value;
    forall i | 0 <= i < |a| && IsHaTunnel(a[i])
      ensures exists j :: 0 <= j < |b| && IsHaTunnel(b[j])
    {
      assert a[i] in multiset(b);
      var j :| 0 <= j < |b| && b[j] == a[i];
    }
    forall j | 0 <= j < |b| && IsHaTunnel(b[j])
      ensures exists i :: 0 <= i < |a| && IsHaTunnel(a[i])
    {
      assert b[j] in multiset(a);
      var i :| 0 <= i < |a| && a[i] == b[j];
    }
  }

  /**
    `RunAdditionalCommand`: False only when building the command raises
    (`repr()` of a non-string value, or the formatting) or launching it
    raises; the command's exit status plays no part.
   */
  function RunAdditionalCommand(cmd: ConfigOption, buildOrLaunchRaises: bool): (ok: bool)
    reads cmd
    ensures ok <==> cmd.value.StrValue? && !buildOrLaunchRaises
  {
    match cmd.ReprText()
    case None => false
    case Some(_) => !buildOrLaunchRaises
  }

  /** The platform tests `Windows()` and `Linux()` of the source. */
  datatype Platform = Windows | Linux | OtherPlatform

  /** An opaque handle on a spawned tunnel process. */
  datatype Handle = Handle(pid: nat)

  /** What `subprocess.Popen` did: returned a handle, or raised. */
  datatype SpawnOutcome = Spawned(handle: Handle) | SpawnRaises

  /** The I/O the recorded process sees: spawns, termination signals, listing queries. */
  datatype IoEvent = SpawnEvent | SignalEvent(target: Handle) | QueryEvent

  /** What `RunNgrok` returns. */
  function RunSucceeds(platform: Platform, spawn: SpawnOutcome): bool {
    platform == OtherPlatform || spawn.Spawned?
  }

  /** The recorded process after `RunNgrok`. */
  function ProcessAfterRun(process: Option<Handle>, platform: Platform, spawn: SpawnOutcome): Option<Handle> {
    if platform != OtherPlatform && spawn.Spawned? then Some(spawn.handle) else process
  }

  /** What `StopNgrok` returns for the recorded process and the listing reply. */
  function StopResult(process: Option<Handle>, reply: HttpReply): Emptiness
    requires process.Some? ==> EntriesAreObjects(RequestNgrokTunnels(reply))
  {
    if process.None? then ConfirmedEmpty else IsNgrokTunnelsEmpty(RequestNgrokTunnels(reply))
  }

  /** The I/O `RunNgrok` performs: one spawn attempt on Windows and Linux, none elsewhere. */
  function RunEvents(platform: Platform): seq<IoEvent> {
    if platform == OtherPlatform then [] else [SpawnEvent]
  }

  /** The I/O `StopNgrok` performs: none without a recorded process, else a signal and a listing query. */
  function StopEvents(process: Option<Handle>): seq<IoEvent> {
    if process.None? then [] else [SignalEvent(process.value), QueryEvent]
  }

  /** The module-global `g_Process` and the operations that read and write it. */
  class NgrokProcess {
    var process: Option<Handle>
    ghost var log: seq<IoEvent>

    constructor ()
      ensures process == None && log == []
    {
      process := None;
      log := [];
    }

    /**
      `RunNgrok`: on Windows or Linux a successful spawn overwrites the
      recorded process without stopping the previous one; a spawn that
      raises leaves it and returns False. On any other platform nothing is
      spawned and True is returned. The timeout argument is not used.
     */
    method RunNgrok(platform: Platform, spawn: SpawnOutcome) returns (ok: bool)
      modifies this
      ensures ok == RunSucceeds(platform, spawn)
      ensures process == ProcessAfterRun(old(process), platform, spawn)
      ensures log == old(log) + RunEvents(platform)
      ensures platform == OtherPlatform ==> ok && process == old(process) && log == old(log)
      ensures platform != OtherPlatform ==> log == old(log) + [SpawnEvent]
      ensures platform != OtherPlatform && spawn.SpawnRaises? ==> !ok && process == old(process)
      ensures platform != OtherPlatform && spawn.Spawned? ==> ok && process == Some(spawn.handle)
    {
      if platform == OtherPlatform {
        return true;
      }
      log := log + [SpawnEvent];
      match spawn
      case SpawnRaises =>
        return false;
      case Spawned(h) =>
        process := Some(h);
        return true;
    }

    /**
      `StopNgrok`: with no recorded process, True without asking the
      provider. Otherwise the process (and its group) is signalled, any
      signal error is swallowed, and the listing decides the three-way
      answer. The recorded process is never cleared.
     */
    method StopNgrok(reply: HttpReply) returns (r: Emptiness)
      requires process.Some? ==> EntriesAreObjects(RequestNgrokTunnels(reply))
      modifies this
      ensures process == old(process)
      ensures r == StopResult(old(process), reply)
      ensures log == old(log) + StopEvents(old(process))
      ensures old(process).None? ==> r == ConfirmedEmpty && log == old(log)
      ensures old(process).Some? ==> r == IsNgrokTunnelsEmpty(RequestNgrokTunnels(reply))
      ensures old(process).Some? ==> log == old(log) + [SignalEvent(old(process).value), QueryEvent]
    {
      if process.None? {
        return ConfirmedEmpty;
      }
      log := log + [SignalEvent(process.value), QueryEvent];
      r := IsNgrokTunnelsEmpty(RequestNgrokTunnels(reply));
    }
  }
}
