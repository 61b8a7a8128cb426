/**
  The configuration loader of main.py (`processConfig` with its nested
  `processSection`) and the two option tables it fills. The `.ini` file
  arrives already parsed: a map from section name to that section's
  key/value pairs.
 */
module ConfigLoader {
  import opened Wrappers
  import opened ConfigOptions

  type Section = map<string, string>
  type ConfigFile = map<string, Section>

  /** The observable state of one option. */
  datatype OptionState = OptionState(key: string, mandatory: bool, kind: OptionType, value: Value)

  function StateOf(o: ConfigOption): OptionState
    reads o
  {
    OptionState(o.configKey, o.mandatory, o.kind, o.value)
  }

  /** The states of a table of options, in table order. */
  function Snapshot(options: seq<ConfigOption>): (r: seq<OptionState>)
    reads options
    ensures |r| == |options|
    ensures forall i :: 0 <= i < |options| ==> r[i] == StateOf(options[i])
  {
    if options == [] then [] else [StateOf(options[0])] + Snapshot(options[1..])
  }

  /** A table whose options hold the given states, one by one, has them as its snapshot. */
  lemma SnapshotIs(options: seq<ConfigOption>, states: seq<OptionState>)
    requires |states| == |options|
    requires forall j :: 0 <= j < |options| ==> StateOf(options[j]) == states[j]
    ensures Snapshot(options) == states
  {
  }

  predicate Distinct(options: seq<ConfigOption>) {
    forall i, j :: 0 <= i < j < |options| ==> options[i] != options[j]
  }

  /** A mandatory option whose key the section lacks. */
  predicate MissingMandatory(o: OptionState, section: Section) {
    o.mandatory && o.key !in section
  }

  /** One option after the loop body: converted from the section when its key is there. */
  function Applied(o: OptionState, section: Section): OptionState {
    if o.key in section then o.(value := Convert(o.kind, section[o.key])) else o
  }

  /** Where the loop stops: the first missing mandatory option, or the table's end. */
  function FirstMissing(opts: seq<OptionState>, section: Section): (k: nat)
    ensures k <= |opts|
    ensures forall i :: 0 <= i < k ==> !MissingMandatory(opts[i], section)
    ensures k < |opts| ==> MissingMandatory(opts[k], section)
  {
    if opts == [] then 0
    else if MissingMandatory(opts[0], section) then 0
    else 1 + FirstMissing(opts[1..], section)
  }

  /**
    `processSection` on option states: a missing section changes nothing
    and fails; otherwise options before the first missing mandatory one are
    updated from the section, the rest are untouched, and the result is
    True exactly when no mandatory option is missing.
   */
  function ApplySection(conf: ConfigFile, name: string, opts: seq<OptionState>): (r: (bool, seq<OptionState>))
    ensures |r.1| == |opts|
    ensures name !in conf ==> r == (false, opts)
  {
    if name !in conf then (false, opts)
    else
      var section := conf[name];
      var k := FirstMissing(opts, section);
      (k == |opts|, seq(|opts|, i requires 0 <= i < |opts| => if i < k then Applied(opts[i], section) else opts[i]))
  }

  /** The states `ApplySection` produces when it stops at index `i`, option by option. */
  lemma ApplySectionStopsAt(conf: ConfigFile, name: string, opts: seq<OptionState>, i: nat)
    requires name in conf && i == FirstMissing(opts, conf[name])
    ensures forall j :: 0 <= j < |opts| ==>
      ApplySection(conf, name, opts).1[j] == if j < i then Applied(opts[j], conf[name]) else opts[j]
  {
  }

  /**
    The loop returns at a missing mandatory key: no option after it is
    touched, whether or not its key is present.
   */
  lemma ApplySectionStopsAtMissing(conf: ConfigFile, name: string, opts: seq<OptionState>, j: nat, i: nat)
    requires name in conf && j < i < |opts|
    requires MissingMandatory(opts[j], conf[name])
    ensures ApplySection(conf, name, opts).1[i] == opts[i]
    ensures !ApplySection(conf, name, opts).0
  {
    assert FirstMissing(opts, conf[name]) <= j;
  }

  /** Keys, mandatory flags and kinds are never changed. */
  lemma ApplySectionKeepsKeys(conf: ConfigFile, name: string, opts: seq<OptionState>)
    ensures forall i :: 0 <= i < |opts| ==>
      var o := ApplySection(conf, name, opts).1[i];
      o.key == opts[i].key && o.mandatory == opts[i].mandatory && o.kind == opts[i].kind
  {
  }

  /** The section succeeds exactly when it exists and no mandatory key is missing from it. */
  lemma ApplySectionSucceeds(conf: ConfigFile, name: string, opts: seq<OptionState>)
    ensures ApplySection(conf, name, opts).0 <==>
      name in conf && forall i :: 0 <= i < |opts| ==> !MissingMandatory(opts[i], conf[name])
  {
    if name in conf {
      var k := FirstMissing(opts, conf[name]);
      if k < |opts| {
        assert MissingMandatory(opts[k], conf[name]);
      }
    }
  }

  /** An option whose key is present gets the converted raw text, unless an earlier mandatory key is missing. */
  lemma ApplySectionUpdates(conf: ConfigFile, name: string, opts: seq<OptionState>, i: nat)
    requires name in conf && i < |opts| && opts[i].key in conf[name]
    requires forall j :: 0 <= j < i ==> !MissingMandatory(opts[j], conf[name])
    ensures ApplySection(conf, name, opts).1[i].value == Convert(opts[i].kind, conf[name][opts[i].key])
  {
    var section := conf[name];
    var k := FirstMissing(opts, section);
    assert !MissingMandatory(opts[i], section);
    assert i < k;
    assert ApplySection(conf, name, opts).1[i] == Applied(opts[i], section);
  }

  /** A missing non-mandatory key leaves that option's value as it was. */
  lemma ApplySectionKeepsAbsent(conf: ConfigFile, name: string, opts: seq<OptionState>, i: nat)
    requires i < |opts|
    requires name in conf ==> opts[i].key !in conf[name]
    ensures ApplySection(conf, name, opts).1[i] == opts[i]
  {
  }

  predicate AllWellTyped(opts: seq<OptionState>) {
    forall i :: 0 <= i < |opts| ==> WellTyped(opts[i].kind, opts[i].value)
  }

  /** Values stay `None` or of their option's kind. */
  lemma ApplySectionWellTyped(conf: ConfigFile, name: string, opts: seq<OptionState>)
    requires AllWellTyped(opts)
    ensures AllWellTyped(ApplySection(conf, name, opts).1)
  {
  }

  /** Where the loop stops depends only on keys and mandatory flags. */
  lemma {:induction false} FirstMissingSameKeys(a: seq<OptionState>, b: seq<OptionState>, section: Section)
    requires |a| == |b|
    requires forall i :: 0 <= i < |a| ==> a[i].key == b[i].key && a[i].mandatory == b[i].mandatory
    ensures FirstMissing(a, section) == FirstMissing(b, section)
  {
    if a != [] {
      FirstMissingSameKeys(a[1..], b[1..], section);
    }
  }

  /** Loading the same section twice leaves the same result and states as loading it once. */
  lemma ApplySectionIdempotent(conf: ConfigFile, name: string, opts: seq<OptionState>)
    ensures ApplySection(conf, name, ApplySection(conf, name, opts).1) == ApplySection(conf, name, opts)
  {
    if name in conf {
      var section := conf[name];
      var once := ApplySection(conf, name, opts);
      ApplySectionKeepsKeys(conf, name, opts);
      FirstMissingSameKeys(opts, once.1, section);
      var twice := ApplySection(conf, name, once.1);
      assert twice.1 == once.1;
    }
  }

  /**
    `processSection`: walks the options in table order, calling `SetValue`
    on every option whose key the section has, and returns False at once
    on a missing mandatory key.
   */
  method ProcessSection(conf: ConfigFile, name: string, options: seq<ConfigOption>) returns (ok: bool)
    requires Distinct(options)
    modifies options
    ensures ok == ApplySection(conf, name, old(Snapshot(options))).0
    ensures Snapshot(options) == ApplySection(conf, name, old(Snapshot(options))).1
  {
    ghost var before := Snapshot(options);
    if name !in conf {
      return false;
    }
    var section := conf[name];
    ghost var k := FirstMissing(before, section);
    var i := 0;
    while i < |options|
      invariant 0 <= i <= k
      invariant forall j :: 0 <= j < |options| ==>
        StateOf(options[j]) == if j < i then Applied(before[j], section) else before[j]
    {
      var o := options[i];
      assert StateOf(o) == before[i];
      if o.configKey in section {
        o.SetValue(section[o.configKey]);
      } else if o.mandatory {
        assert MissingMandatory(before[i], section);
        ApplySectionStopsAt(conf, name, before, i);
        SnapshotIs(options, ApplySection(conf, name, before).1);
        return false;
      }
      assert i < k;
      i := i + 1;
    }
    ApplySectionStopsAt(conf, name, before, i);
    SnapshotIs(options, ApplySection(conf, name, before).1);
    ok := true;
  }

  /**
    The two option tables of main.py, `configMain` and `configHA`, as
    their constructor calls build them. `commandKind` is the converter of
    the `CommandNgrok` option.
   */
  class ConfigTables {
    const token: ConfigOption
    const whitelist: ConfigOption
    const command: ConfigOption
    const ngrokApi: ConfigOption
    const timeout: ConfigOption
    const cmdAdditional: ConfigOption

    /** `configMain`, in insertion order. */
    function MainTable(): seq<ConfigOption> {
      [token, whitelist]
    }

    /** `configHA`, in insertion order. */
    function HaTable(): seq<ConfigOption> {
      [command, ngrokApi, timeout, cmdAdditional]
    }

    ghost function Objects(): set<ConfigOption> {
      {token, whitelist, command, ngrokApi, timeout, cmdAdditional}
    }

    /** The six options are six different objects. */
    ghost predicate Separate() {
      && token != whitelist && token != command && token != ngrokApi && token != timeout && token != cmdAdditional
      && whitelist != command && whitelist != ngrokApi && whitelist != timeout && whitelist != cmdAdditional
      && command != ngrokApi && command != timeout && command != cmdAdditional
      && ngrokApi != timeout && ngrokApi != cmdAdditional
      && timeout != cmdAdditional
    }

    function MainStates(): seq<OptionState>
      reads token, whitelist
    {
      [StateOf(token), StateOf(whitelist)]
    }

    function HaStates(): seq<OptionState>
      reads command, ngrokApi, timeout, cmdAdditional
    {
      [StateOf(command), StateOf(ngrokApi), StateOf(timeout), StateOf(cmdAdditional)]
    }

    lemma SnapshotOfTables()
      ensures Snapshot(MainTable()) == MainStates()
      ensures Snapshot(HaTable()) == HaStates()
    {
    }

    /** The options are six objects, with the kinds the handlers rely on. */
    ghost predicate Shaped() {
      && Separate()
      && whitelist.kind == List
      && timeout.kind == Int
      && cmdAdditional.kind == Str
    }

    ghost predicate Valid()
      reads Objects()
      ensures Valid() ==> WellTyped(List, whitelist.value) && WellTyped(Int, timeout.value)
      ensures Valid() ==> WellTyped(Str, cmdAdditional.value)
    {
      assert MainStates()[1] == StateOf(whitelist);
      assert HaStates()[2] == StateOf(timeout) && HaStates()[3] == StateOf(cmdAdditional);
      Shaped() && AllWellTyped(MainStates()) && AllWellTyped(HaStates())
    }

    constructor (commandKind: OptionType)
      ensures Valid()
      ensures fresh(token) && fresh(whitelist) && fresh(command)
      ensures fresh(ngrokApi) && fresh(timeout) && fresh(cmdAdditional)
      ensures StateOf(token) == OptionState("BotToken", true, Str, NoneValue)
      ensures StateOf(whitelist) == OptionState("WhiteList", false, List, NoneValue)
      ensures StateOf(command) == OptionState("CommandNgrok", false, commandKind, NoneValue)
      ensures StateOf(ngrokApi) == OptionState("NgrokAPIKey", false, Str, NoneValue)
      ensures StateOf(timeout) == OptionState("DefaultTimeout", false, Int, NoneValue)
      ensures StateOf(cmdAdditional) == OptionState("CommandAdditional", false, Str, NoneValue)
    {
      token := new ConfigOption("BotToken", "", Str, true);
      whitelist := new ConfigOption("WhiteList", "", List, false);
      command := new ConfigOption("CommandNgrok", "", commandKind, false);
      ngrokApi := new ConfigOption("NgrokAPIKey", "", Str, false);
      timeout := new ConfigOption("DefaultTimeout", "10", Int, false);
      cmdAdditional := new ConfigOption("CommandAdditional", "", Str, false);
      new;
      assert Separate();
      assert forall i :: 0 <= i < |MainStates()| ==> MainStates()[i].value == NoneValue;
      assert forall i :: 0 <= i < |HaStates()| ==> HaStates()[i].value == NoneValue;
    }
  }

  /** `processSection(cnf, 'Main', configMain)`. */
  method ProcessMainSection(tables: ConfigTables, conf: ConfigFile) returns (ok: bool)
    requires tables.Shaped()
    modifies tables.token, tables.whitelist
    ensures ok == ApplySection(conf, "Main", old(tables.MainStates())).0
    ensures tables.MainStates() == ApplySection(conf, "Main", old(tables.MainStates())).1
  {
    tables.SnapshotOfTables();
    ok := ProcessSection(conf, "Main", tables.MainTable());
    tables.SnapshotOfTables();
  }

  /** `processSection(cnf, 'HA', configHA)`. */
  method ProcessHaSection(tables: ConfigTables, conf: ConfigFile) returns (ok: bool)
    requires tables.Shaped()
    modifies tables.command, tables.ngrokApi, tables.timeout, tables.cmdAdditional
    ensures ok == ApplySection(conf, "HA", old(tables.HaStates())).0
    ensures tables.HaStates() == ApplySection(conf, "HA", old(tables.HaStates())).1
  {
    tables.SnapshotOfTables();
    ok := ProcessSection(conf, "HA", tables.HaTable());
    tables.SnapshotOfTables();
  }

  /**
    `processConfig`: a file configparser fails to parse (None) fails with
    nothing changed; a file that cannot be opened parses as empty, so it
    reaches the sections and fails there. Otherwise both sections are processed, the HA section even
    when Main failed, and the result is the conjunction of the two.
   */
  method ProcessConfig(tables: ConfigTables, parsed: Option<ConfigFile>) returns (ok: bool)
    requires tables.Valid()
    modifies tables.Objects()
    ensures tables.Valid()
    ensures parsed.None? ==> !ok && unchanged(tables.Objects())
    ensures parsed.Some? ==>
      var main := ApplySection(parsed.value, "Main", old(tables.MainStates()));
      var ha := ApplySection(parsed.value, "HA", old(tables.HaStates()));
      && ok == (main.0 && ha.0)
      && tables.MainStates() == main.1
      && tables.HaStates() == ha.1
  {
    if parsed.None? {
      return false;
    }
    var retMain := ProcessMainSection(tables, parsed.value);
    var retHa := ProcessHaSection(tables, parsed.value);
    ok := retMain && retHa;
    ApplySectionWellTyped(parsed.value, "Main", old(tables.MainStates()));
    ApplySectionWellTyped(parsed.value, "HA", old(tables.HaStates()));
  }
}
