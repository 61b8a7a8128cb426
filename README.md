# hafrapybot in Dafny

A model of the core of hafrapybot. This Telegram bot lets whitelisted users
expose a Home Assistant dashboard to the internet through an ngrok tunnel and
hide it again. The model covers four parts.

- **Configuration options** (`config_options.py`):
  - the `str`, `int` and `list` converters;
  - `ConfigOption` with its constructor, which stores the result of
    `setValue` and so leaves every fresh option at `None`;
  - `__str__` and `__repr__`.
- **Tunnel provider** (`ngrok.py`):
  - `_requestNgrokTunnels` and its non-200 rule;
  - the classifiers `IsNgrokTunnelsEmpty` (three answers: None, True, False) and
    `GetNgrokLink` (only the first tunnel entry counts);
  - `RunAdditionalCommand`;
  - `RunNgrok` and `StopNgrok`, modelled as methods of a class holding the
    module-global `g_Process`.
- **Bot** (`main.py`):
  - the two option tables;
  - `processConfig` and its nested `processSection` loop, which stops at the
    first missing mandatory key;
  - the whitelist test, with `notInWhiteList`;
  - the decision trees of `exposeHomeAssistant` and `hideHomeAssistant`;
  - `helpCmd`, whose reply is built in a loop.
- **Config test script** (`util/test_config_options.py`): it loads the same
  tables, but converts the ngrok command as a comma-separated list.

The HTTP requests, the process spawns, the signals and the `urlparse` call are
not performed. Each appears as an input of the operation that uses it:
- an `HttpReply`, which holds a status code and a JSON object body;
- a `Platform`;
- a `SpawnOutcome`;
- a flag saying whether a call raises.

A parsed `.ini` file is a map from section name to a map of keys and values.
`None` stands for a file configparser fails to parse. configparser skips a
file it cannot open and gives an empty parse, so a missing file is the empty
map, and both sections then fail.

Modules, one per file:
- `Wrappers` (Option)
- `Text` (strip, split, join, decimal text)
- `ConfigOptions`
- `Json`
- `Ngrok`
- `ConfigLoader`
- `Bot`
- `ConfigTest`

## Model

| member | source | states |
|---|---|---|
| Text.Strip | config_options.py:18 | `str.strip()`: the result has no leading or trailing whitespace, is no longer than the input, and holds only characters of the input |
| Text.StripTrimmed | config_options.py:18 | `strip()` leaves a text without surrounding whitespace unchanged |
| Text.StripPadded | config_options.py:18 | stripping whitespace padding from around a trimmed text gives that text back |
| Text.Split | config_options.py:18 | `str.split(',')` gives one piece more than there are separators, and no piece contains the separator |
| Text.SplitJoin | config_options.py:18 | splitting a join of separator-free pieces gives the pieces back |
| Text.JoinSplit | config_options.py:18 | joining the pieces of a split gives the text back |
| Text.NatText | main.py:46 | `str(n)` of a non-negative number: decimal digits, starting with `0` exactly for 0, which is written `0` |
| Text.DecimalText | main.py:46 | `str(n)`: the text starts with `-` exactly for negative numbers, and the rest is decimal digits |
| Text.ParseDecimal | config_options.py:10 | the `int()` grammar on a stripped text: a parsed text is non-empty and has no surrounding whitespace, a negative value comes only from a leading `-`, and a digit string always parses to a non-negative number |
| Text.ParseDecimalText | config_options.py:10 | `int()` reads back the decimal text `str()` writes for every integer |
| Text.DecimalTextCanonical | main.py:46 | `str(n)` has no leading zero: after the optional `-` the first digit is `0` only for 0, and then the text is `0` |
| Text.ParseDecimalAccepts | config_options.py:10 | `int()` accepts a stripped text exactly when it is ASCII digits with an optional `+` or `-` in front |
| Text.ParseDecimalNonCanonical | config_options.py:10 | `int()` also reads non-canonical texts: a `+` or a leading `0` leaves the value unchanged, and a `-` negates it |
| Text.DigitsValueLeadingZero | config_options.py:10 | a leading `0` does not change the value of a digit string |
| Text.DecimalTextInjective | main.py:46 | different ids have different `str(id)` texts |
| ConfigOptions.Convert2Str | config_options.py:5-7 | `str()` of a text is the text itself and never fails |
| ConfigOptions.Convert2Int | config_options.py:9-11 | `int()` of the stripped text when it parses, and the fallback 0 when `int()` raises |
| ConfigOptions.Convert2IntFallback | config_options.py:9-11 | every text that is not a decimal literal, with any whitespace around it, converts to the fallback 0 |
| ConfigOptions.Convert2IntTrailingText | config_options.py:9-11 | a text with a non-digit after its first character, such as `10 min`, with any whitespace around it, converts to 0 |
| ConfigOptions.Convert2IntReadsBack | config_options.py:9-11 | `int()` reads back the value `str()` wrote |
| ConfigOptions.Convert2IntDecimalText | config_options.py:9-11 | `int()` of a whitespace-padded decimal text is that number |
| ConfigOptions.Convert2IntRejects | config_options.py:9-11 | a text without any digit gives the fallback 0 |
| ConfigOptions.Convert2List | config_options.py:17-19 | one token per comma plus one; every token is stripped and comma-free; the empty text gives `['']` |
| ConfigOptions.Convert2ListPieces | config_options.py:18 | token `i` is the `i`-th piece of the split at commas, stripped |
| ConfigOptions.Convert2ListNoComma | config_options.py:18 | a text without a comma gives one token: the stripped text |
| ConfigOptions.Convert2ListAtFirstComma | config_options.py:17-19 | the text before the first comma, stripped, is the first token, and the rest of the list comes from the rest of the text |
| ConfigOptions.Convert2ListPadded | config_options.py:17-19 | trimmed comma-free tokens joined by commas, with its own whitespace before and after each comma and around the whole text, come back exactly |
| ConfigOptions.Convert2ListJoin | config_options.py:17-19 | `list` undoes a plain `','.join` of trimmed comma-free tokens |
| ConfigOptions.Convert | config_options.py:26-30 | each option type selects its converter, and the result has that type |
| ConfigOptions.ConfigOption.constructor | config_options.py:33-37 | key, mandatory flag and type are stored; the value is `None` whatever the default, because `setValue` returns nothing |
| ConfigOptions.ConfigOption.SetValue | config_options.py:39-40 | the new value is the raw text converted by the option's type |
| ConfigOptions.ConfigOption.GetValue | config_options.py:42-43 | the stored value, which for a valid option is `None` or of the option's type |
| ConfigOptions.ValueText | config_options.py:45-46 | the `str()` of a value inside `__str__`: `None` for no value, the text itself for a string, the decimal text `str()` writes for an integer, which `int()` reads back to the number, and a bracketed text for a list |
| ConfigOptions.ConfigOption.ToString | config_options.py:45-46 | `__str__` is the key, then `*` exactly for mandatory options, then ` => ` and the value's `str()` |
| ConfigOptions.ConfigOption.ReprText | config_options.py:47-48 | `repr()` gives the stored text when the value is a string and raises otherwise |
| Ngrok.RequestNgrokTunnels | ngrok.py:7-16 | no response exactly when the status is not 200; otherwise the body |
| Ngrok.HaTunnels | ngrok.py:24 | the tagged entries: only tagged entries, none of them exactly when no entry is tagged, and a sub-multiset of the entries |
| Ngrok.IsNgrokTunnelsEmpty | ngrok.py:18-24 | None exactly when there is no usable tunnel list; True exactly when no entry has metadata `homeassistant`; False exactly when one does |
| Ngrok.GetNgrokLink | ngrok.py:26-44 | the `public_url` of entry 0 when that entry is the tagged tunnel with a string URL and `urlparse` accepts it; '' otherwise |
| Ngrok.RejectedRequestIsUnknown | ngrok.py:14-15 | a non-200 reply gives neither an emptiness answer nor a link |
| Ngrok.LinkImpliesNotEmpty | ngrok.py:18-44 | whenever a link is returned, the same listing says the tunnel is present |
| Ngrok.OnlyFirstEntryGivesLink | ngrok.py:26-38 | with the tagged tunnel later in the list than entry 0, there is no link although the tunnel is present |
| Ngrok.EmptinessIgnoresOrder | ngrok.py:24 | the emptiness answer depends only on the multiset of entries |
| Ngrok.RunAdditionalCommand | ngrok.py:47-52 | succeeds exactly when the option holds a string and neither formatting nor launching raises; the exit status is ignored |
| Ngrok.NgrokProcess.constructor | ngrok.py:5 | no process is recorded at start |
| Ngrok.NgrokProcess.RunNgrok | ngrok.py:54-66 | on Windows and Linux a spawn that succeeds replaces the recorded process without stopping the old one, and a spawn that raises gives False with nothing changed; on other platforms it returns True and does nothing; the I/O record gains the spawn exactly on Windows and Linux |
| Ngrok.NgrokProcess.StopNgrok | ngrok.py:68-82 | with no recorded process, True without any I/O; otherwise it signals the process, queries the listing and returns the three-way answer, and the I/O record gains the signal and the query in that order; the recorded process is kept |
| ConfigLoader.FirstMissing | main.py:148-153 | where the loop stops: no mandatory key is missing before that position, and the option at it is missing |
| ConfigLoader.ApplySection | main.py:142-155 | the option table keeps its length; a missing section fails and changes nothing |
| ConfigLoader.ApplySectionStopsAtMissing | main.py:151-153 | after a missing mandatory key the loop has returned False: no later option is touched, even one whose key is present |
| ConfigLoader.ApplySectionKeepsKeys | main.py:142-155 | loading a section never changes keys, mandatory flags or types |
| ConfigLoader.ApplySectionSucceeds | main.py:142-155 | a section succeeds exactly when it exists and holds every mandatory key |
| ConfigLoader.ApplySectionUpdates | main.py:148-150 | an option whose key is present gets the converted text when no earlier mandatory key is missing |
| ConfigLoader.ApplySectionKeepsAbsent | main.py:148-151 | an option whose key is absent keeps its value |
| ConfigLoader.ApplySectionWellTyped | main.py:148-150 | every value stays `None` or of its option's type |
| ConfigLoader.ApplySectionIdempotent | main.py:142-155 | loading the same section twice gives the same result as loading it once |
| ConfigLoader.ProcessSection | main.py:142-155 | the loop over the option table: its result and the new values are those of `ApplySection` on the old values |
| ConfigLoader.ConfigTables.constructor | main.py:31-40 | the six options of `configMain` and `configHA` with their keys, flags and types, all `None` |
| ConfigLoader.ProcessMainSection | main.py:157 | the Main table is loaded from the `Main` section |
| ConfigLoader.ProcessHaSection | main.py:158 | the HA table is loaded from the `HA` section |
| ConfigLoader.ProcessConfig | main.py:134-160 | a file configparser fails to parse fails and changes nothing; otherwise both sections are loaded, HA even after Main fails, and the result is the conjunction; the tables stay well typed |
| Bot.IsInWhiteList | main.py:45-46 | raises exactly when the whitelist is `None`; otherwise admits exactly the ids whose decimal text is a whitelist token |
| Bot.WhiteListFromConfigText | main.py:46 | a whitelist configured as comma-separated ids, with any whitespace around each comma and around the text, admits exactly the ids listed |
| Bot.WhiteListedIdReadsBack | main.py:46 | every admitted id is what `int()` reads from one of the tokens |
| Bot.OneUserPerToken | main.py:46 | one token admits at most one user |
| Bot.LeadingZeroTokenAdmitsNobody | main.py:46 | a token with a leading zero such as `007` admits nobody, because the test compares texts with `str(id)` |
| Bot.SuccessMessage | main.py:76-77 | the success reply is longer than, and so never equal to, either reply that claims the tunnel is hidden |
| Bot.SuccessMessageSuffix | main.py:76-77 | the success reply ends with the Infiny line exactly when the additional command succeeded |
| Bot.ExposeDecision | main.py:54-80 | raises on a `None` whitelist; a stranger ends the conversation with no calls; otherwise it gives the replies and the ngrok calls of each branch; "back hidden" when the stop answer is True and "likely exposed" otherwise; with a link, the success reply for the timeout's `str()` (`None` when no timeout was loaded) and then the link; "hidden" is claimed only when `StopNgrok` answered True |
| Bot.HideDecision | main.py:82-89 | one stop call; "Successfully hidden HA" exactly when the stop answer is True and "Problems with hiding HA" otherwise |
| Bot.HideNeedsConfirmation | main.py:86-87 | with a recorded process, a rejected or unusable listing is never reported as hidden |
| Bot.HideWithoutProcess | main.py:86-87 | with no recorded process, hiding is reported without asking the provider |
| Bot.ExposeWithoutProcess | main.py:58-69 | off Windows and Linux nothing is started, so with no earlier process an empty link is reported as "back hidden" whatever the provider answers |
| Bot.ExposeHomeAssistant | main.py:54-80 | the handler's result is the expose decision applied to the outcomes of its calls; the recorded process changes only for a whitelisted user; the I/O record gains nothing for a stranger; for a whitelisted user it gains the spawn (nothing off Windows and Linux), then, when the run succeeded, the link query, then for an empty link the stop's signal and listing query |
| Bot.HideHomeAssistant | main.py:82-89 | the handler's result is the hide decision on the stop answer; the recorded process is kept; the I/O record gains nothing for a stranger or when no process is recorded, and otherwise the signal and the listing query |
| Bot.HelpEntries | main.py:118-119 | one `/<command> - <description>` entry per command, in table order |
| Bot.HelpText | main.py:117-119 | the reply starts with the header and, for a non-empty table, ends with the entry of the last command |
| Bot.HelpTextStep | main.py:118-119 | each loop iteration appends a newline and the next command's entry |
| Bot.HelpTextJoin | main.py:117-119 | the reply is the header and the entries joined by newlines |
| Bot.HelpTextLines | main.py:117-119 | read line by line, the reply is the header followed by one line per command |
| Bot.HelpCmd | main.py:113-122 | the loop builds the help reply for the bot's command table; a stranger ends the conversation; a `None` whitelist raises |
| ConfigTest.NewTestTables | util/test_config_options.py:5-14 | the test's tables: as the bot's, but the command option has the list type |
| ConfigTest.RunConfigTest | util/test_config_options.py:16-42 | succeeds exactly when configparser parses the file, both sections exist and Main holds the bot token; every option ends as the section loop leaves the script's initial tables, so a Main section without the bot token leaves the whitelist `None`; the command becomes a list of stripped tokens; a missing timeout stays `None` |

## Left out

- `install_service.py` is not part of this model. It prompts for input
  (install_service.py:33, 60, 83), writes a service file, creates a symlink
  (install_service.py:65) and runs `systemctl enable` and `systemctl restart`
  (install_service.py:68, 70): all of it I/O.
- I/O is not performed. HTTP requests, process spawns, signals, the Telegram
  API and logging appear as inputs (replies, outcomes, raise flags) or not at
  all.
- `ConfigOptions.Convert`: the `command` type (`shlex.split`) is not
  modelled. Such an option keeps its raw text as `CommandValue`. Its display
  text in `ValueText`, and so `ToString` for such options, stands in for
  Python's list repr.
- `ConfigOptions.Convert2Int` reads only a sign and ASCII digits. It does not
  accept `_` digit separators or non-ASCII digits, which Python's `int()`
  accepts. Two differences go the other way:
  - It has no digit limit. Recent CPython's `int()` raises on a text of more
    than 4300 digits (`sys.int_max_str_digits`), so `_convert2int` gives 0
    where the model gives the number, for example for a very long
    `DefaultTimeout`.
  - It strips the whitespace of `str.isspace()`, which includes U+001C to
    U+001F. `int()` does not strip those, so a text such as `"\x1c5"` gives
    0 in Python and 5 here. Values that come from configparser have already
    been stripped of surrounding whitespace, so the bot does not reach this
    case.
- `_convert2float` is not modelled. No option uses the float type.
- `ConfigOptions.ValueText` does not reproduce `repr()`'s quoting and
  escaping of list items: it always uses single quotes, where Python
  switches to double quotes for an item containing `'`, and it escapes
  neither quotes, backslashes nor non-printable characters.
- `ConfigLoader.ProcessConfig` takes the parsed file as a map. It does not
  model configparser's parsing, its lower-casing of keys or its DEFAULT
  section.
- `ConfigLoader.ApplySection`: the section maps hold values after
  configparser's `%` interpolation (main.py:150). A value with a bare `%`
  makes that read raise `InterpolationSyntaxError`, which escapes
  `processConfig`; that error path is not modelled.
- `Bot.ExposeHomeAssistant`: the I/O record `log` does not include the
  additional shell command, whose launch is represented only by a raise
  flag.
- `Ngrok.IsNgrokTunnelsEmpty` requires every tunnel entry to be a JSON object.
  A non-object body, and non-object entries, are not modelled. On those,
  Python either raises or does a substring or list test.
- `Ngrok.RequestNgrokTunnels` does not model `requests` raising (network
  errors, or a body that is not JSON). In the bot such an exception escapes
  the handler.
- `Ngrok.GetNgrokLink`: `urlparse` is represented only by whether it raises,
  as a flag.
- `Ngrok.RunAdditionalCommand`: formatting and launching the shell command
  are represented only by whether they raise, as a flag.
- `Ngrok.NgrokProcess.RunNgrok`: the command list and the timeout are not
  inputs. The timeout is unused in the source. A command `None` makes
  `Popen` raise, which `SpawnRaises` covers.
- Exposure timers, concurrency between handlers, and the Telegram
  conversation wiring (`main`, `startCmd`, `notImplementedCmd`,
  `fallbackMsg`) are not modelled.
