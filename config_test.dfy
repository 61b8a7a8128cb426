/**
  The configuration test script util/test_config_options.py: the same two
  option tables as the bot, except that the ngrok command is converted as
  a comma-separated list, filled by its own copy of `processSection`.
 */
module ConfigTest {
  import opened Wrappers
  import opened ConfigOptions
  import opened ConfigLoader

  /** The script's `configMain` before loading: every value `None`. */
  const TestMainStates: seq<OptionState> := [
    OptionState("BotToken", true, Str, NoneValue),
    OptionState("WhiteList", false, List, NoneValue)]

  /** The script's `configHA` before loading; the command has the list type. */
  const TestHaStates: seq<OptionState> := [
    OptionState("CommandNgrok", false, List, NoneValue),
    OptionState("NgrokAPIKey", false, Str, NoneValue),
    OptionState("DefaultTimeout", false, Int, NoneValue),
    OptionState("CommandAdditional", false, Str, NoneValue)]

  /** The script's module-level `configMain` and `configHA`. */
  method NewTestTables() returns (tables: ConfigTables)
    ensures tables.Valid()
    ensures fresh(tables.token) && fresh(tables.whitelist) && fresh(tables.command)
    ensures fresh(tables.ngrokApi) && fresh(tables.timeout) && fresh(tables.cmdAdditional)
    ensures tables.MainStates() == TestMainStates
    ensures tables.HaStates() == TestHaStates
  {
    tables := new ConfigTables(List);
  }

  /**
    `main`: a file configparser fails to parse (None) fails; otherwise both sections are loaded
    and the run succeeds exactly when both sections exist and Main holds
    the mandatory bot token. The command is read as a list, and a timeout
    absent from the file stays `None` rather than the declared default.
    Every option ends as the section loop leaves it, so a Main section
    without the bot token leaves the whitelist `None`.
   */
  method RunConfigTest(parsed: Option<ConfigFile>) returns (ok: bool, tables: ConfigTables)
    ensures tables.Valid()
    ensures parsed.Some? ==>
      && tables.MainStates() == ApplySection(parsed.value, "Main", TestMainStates).1
      && tables.HaStates() == ApplySection(parsed.value, "HA", TestHaStates).1
    ensures parsed.None? ==> tables.MainStates() == TestMainStates && tables.HaStates() == TestHaStates
    ensures parsed.Some? && "Main" in parsed.value && "BotToken" !in parsed.value["Main"] ==>
      tables.whitelist.value == NoneValue
    ensures ok <==>
      parsed.Some? && "Main" in parsed.value && "BotToken" in parsed.value["Main"] && "HA" in parsed.value
    ensures parsed.Some? && "HA" in parsed.value && "CommandNgrok" in parsed.value["HA"] ==>
      tables.command.value == ListValue(Convert2List(parsed.value["HA"]["CommandNgrok"]))
    ensures parsed.Some? && "HA" in parsed.value && "DefaultTimeout" !in parsed.value["HA"] ==>
      tables.timeout.value == NoneValue
  {
    tables := NewTestTables();
    ghost var main0 := tables.MainStates();
    ghost var ha0 := tables.HaStates();
    ok := ProcessConfig(tables, parsed);
    if parsed.Some? {
      var conf := parsed.value;
      ApplySectionSucceeds(conf, "Main", main0);
      ApplySectionSucceeds(conf, "HA", ha0);
      if "Main" in conf && "BotToken" !in conf["Main"] {
        assert MissingMandatory(main0[0], conf["Main"]);
        ApplySectionStopsAtMissing(conf, "Main", main0, 0, 1);
        assert tables.MainStates()[1] == StateOf(tables.whitelist);
      }
      if "HA" in conf {
        assert forall i :: 0 <= i < |ha0| ==> !MissingMandatory(ha0[i], conf["HA"]);
        if "CommandNgrok" in conf["HA"] {
          ApplySectionUpdates(conf, "HA", ha0, 0);
          assert tables.HaStates()[0] == StateOf(tables.command);
        }
        if "DefaultTimeout" !in conf["HA"] {
          ApplySectionKeepsAbsent(conf, "HA", ha0, 2);
          assert tables.HaStates()[2] == StateOf(tables.timeout);
        }
      }
    }
  }
}
