# DomoticzPluginHelper, modelled in Dafny

This project models `DomoticzPluginHelper`, the helper that Domoticz Python plugins use for their boilerplate. It covers six parts:

- `parseCSV`, which turns comma-separated text into integers;
- `CheckParam`, which parses an integer parameter and falls back to a default;
- `WriteLog`, which routes a message by level;
- `DomoticzAPI`, as its request-building and response-acceptance rules;
- `getUserVar` and `saveUserVar`, which persist the plugin's `Internals` dictionary in the Domoticz user variable `<Name>-InternalVariables`;
- `__init__`.

The host is abstracted. Its configuration is a `Parameters` value. Its JSON control API is a script of `Response`s: each request the helper sends consumes the next one. What the helper writes to the host's Debug and Error logs, and through `WriteLog` to Status and Log, is a sequence of structured `Entry`s. Each format string that `DomoticzAPI`, `CheckParam` and `getUserVar` pass to the host's Debug and Error has its own `Message` constructor. A text handed to `WriteLog`, such as the two notices getUserVar writes through it, is a `Plain` message.

Module by module:

- `Text` holds the Python string primitives the core relies on: `str.strip`, `str.split`, `int()` on text and `str()` on an int. `str.strip()` removes every character `str.isspace()` accepts. `int()` skips a narrower set: it treats the ASCII separators U+001C–U+001F as part of the number and raises.
- `Csv` holds `parseCSV`. A while-loop method is proved equal to the function `CsvValues`, and the properties are lemmas about `CsvValues`.
- `Version` holds the `LooseVersion(...) >= LooseVersion("2.4.9")` test. A version is cut into number and text components, and the components are compared as Python 3 compares lists. That comparison raises where a number meets a text. On dotted decimal versions the test is proved to be the integer order.
- `Api` holds the two decision rules of `DomoticzAPI`: the Basic Authorization credentials (section 2 of RFC 7617) and the acceptance rule.
- `Logging` holds the sinks and `WriteLog`'s routing rule.
- `PluginHelper` holds the class `DomoticzPluginHelper`. Its fields are `internals`, `internalsDefaults`, `logLevel`, `statusSupported`, `debug`, the log, the requests sent and the replies still to come. Each method is proved equal to a function of the old state: `ApiCall`, `GetUserVarSpec`, `CreateMissing` or `SaveUserVarSpec`.
- `HelperProperties` states what getUserVar and saveUserVar promise, as lemmas about those functions. That includes the round trip: save, then read the stored value back.

`str(dict)` and `eval(text)` are the two halves of a `Codec` parameter. The round-trip lemma assumes that `eval` inverts `str` on the saved dictionary.

## Model

| member | source | states |
|---|---|---|
| Csv.ParseCSV | DomoticzPluginHelper.py:180-189 | the loop returns exactly `CsvValues`: the present values of `int(field.strip())` over the comma-separated fields, in order |
| Csv.ParsedAt | DomoticzPluginHelper.py:182-184 | the k-th parsed value comes from the k-th field |
| Csv.FieldValueStrips | DomoticzPluginHelper.py:184 | a field that `int()` accepts as it is gives the same integer once stripped |
| Csv.CsvValuesBound | DomoticzPluginHelper.py:182-188 | at most one integer per comma-separated field; the empty string gives `[]` |
| Csv.CsvValuesEmpty | DomoticzPluginHelper.py:182-188 | the result is empty if and only if no field parses as an integer |
| Csv.CsvValuesAllNumeric | DomoticzPluginHelper.py:182-188 | when every field parses, the result has one value per field, the i-th from the i-th field |
| Csv.CsvValuesConcat | DomoticzPluginHelper.py:182-188 | parsing `a + "," + b` gives the values of `a` followed by those of `b` |
| Csv.CsvValuesOfNumber | DomoticzPluginHelper.py:182-188 | `str(n)` is one field, and parsing it gives `[n]` |
| Csv.CsvValuesOfRender | DomoticzPluginHelper.py:180-189 | parsing `",".join(str(x) for x in xs)` gives back `xs` |
| Text.TrimSpec | DomoticzPluginHelper.py:184 | `strip()`, and the whitespace skipping of `int()` with its own narrower set, keep a contiguous slice of the text that neither starts nor ends with a character of that set, and every character removed before or after that slice is in the set |
| Text.TrimIdempotent | DomoticzPluginHelper.py:184 | stripping twice is stripping once, for either whitespace set |
| Text.Split | DomoticzPluginHelper.py:182 | `split(",")` gives at least one field, and no field holds a comma |
| Text.JoinSplit | DomoticzPluginHelper.py:182 | joining the fields of a split with the separator gives back the text |
| Text.SplitJoin | DomoticzPluginHelper.py:182 | splitting a join of separator-free fields gives back the fields |
| Text.ParseIntToString | DomoticzPluginHelper.py:87 | `int(str(n)) == n` for every integer |
| Text.ParseIntNeedsDigit | DomoticzPluginHelper.py:87 | `int()` accepts only text that contains a decimal digit |
| Text.ParseIntAfterStrip | DomoticzPluginHelper.py:184 | where `int(s)` succeeds, `int(s.strip())` gives the same integer |
| Text.StripAfterIntTrim | DomoticzPluginHelper.py:184 | when the text `int()` reads, after skipping its whitespace, neither starts nor ends with a character `strip()` removes, `strip()` gives that same text |
| Text.SeparatorPaddingNeedsStrip | DomoticzPluginHelper.py:184 | the converse fails: `int("\x1c5")` raises while `int("\x1c5".strip())` is 5, because U+001C–U+001F are whitespace to `strip()` but not to `int()` |
| PluginHelper.ParamOrDefault | DomoticzPluginHelper.py:86-92 | the parsed integer and no error when `int(value)` succeeds; otherwise `default` and exactly one error naming the parameter, its value and the default |
| PluginHelper.CheckParamAcceptsIntegers | DomoticzPluginHelper.py:86-87 | a decimal integer surrounded by whitespace that `int()` skips (ASCII space and `\t` to `\r`, and non-ASCII Unicode whitespace) is returned as it is, and nothing is logged |
| PluginHelper.CheckParamRejectsSeparatorPadding | DomoticzPluginHelper.py:86-91 | the value `"\x1c5"` gives `default` and one error naming the parameter, its value and the default |
| PluginHelper.CheckParamRejectsNonNumbers | DomoticzPluginHelper.py:86-91 | a value without a digit gives `default` and one error |
| PluginHelper.DomoticzPluginHelper.CheckParam | DomoticzPluginHelper.py:75-92 | returns `ParamOrDefault`'s value and appends exactly its error, if any, to the log |
| Logging.Route | DomoticzPluginHelper.py:170-177 | "Status" is always emitted; "Verbose" is emitted only when logLevel is "Verbose"; both go to Status if supported, else to Log; "Normal" goes to Log; any other level goes nowhere |
| Logging.Emitted | DomoticzPluginHelper.py:170-177 | at most one entry, on the chosen sink, and none exactly when no sink is chosen |
| Logging.VerboseShowsEverything | DomoticzPluginHelper.py:171 | with logLevel "Verbose", every message emitted under another logLevel is emitted, on the same sink |
| Logging.OnlyVerboseDependsOnLogLevel | DomoticzPluginHelper.py:171-177 | the routing of every level other than "Verbose" does not depend on logLevel |
| PluginHelper.DomoticzPluginHelper.WriteLog | DomoticzPluginHelper.py:170-177 | appends exactly what `Route` and `Emitted` choose, and nothing else |
| Api.MakeRequest | DomoticzPluginHelper.py:46-59 | the request goes to `http://address:port/json.htm?query`; it carries Authorization credentials if and only if a user name is configured, and they are the user-pass `user:password`; nothing is sent when that user-pass is not ASCII |
| Api.UserPassRoundTrip | DomoticzPluginHelper.py:54-55 | a user name without a colon and the password can be recovered from the user-pass |
| Api.Accept | DomoticzPluginHelper.py:61-73 | a result if and only if the reply is HTTP 200 whose JSON object has status "OK", and that result is the object; otherwise exactly one error: an HTTP error for a status other than 200, a call failure when the call raised |
| Api.AcceptAgreesWithAsWritten | DomoticzPluginHelper.py:61-73 | the corrected rule and the code as written log the same error everywhere, and return the same value except on a 200 body with no "status" that is not null |
| Api.AsWrittenAcceptsBodyWithoutStatus | DomoticzPluginHelper.py:63-64 | the code as written returns the 200 body `{"result": []}` as a result (while logging an error); the corrected rule returns none |
| PluginHelper.ApiCallOutcome | DomoticzPluginHelper.py:44-73 | a call leaves Internals alone; it yields a result if and only if the request can be sent, a reply comes and that reply is accepted; it logs one error exactly when there is no result; the query sent is the call's, with credentials exactly when a user name is set |
| PluginHelper.DomoticzPluginHelper.DomoticzAPI | DomoticzPluginHelper.py:44-73 | the method's result and new log, sent requests and remaining replies are those of `ApiCall` on the old state |
| PluginHelper.DomoticzPluginHelper.constructor | DomoticzPluginHelper.py:27-35 | Internals starts equal to the defaults; logLevel is "Verbose", statusSupported is true and debug is false |
| PluginHelper.FindUserVarFirst | DomoticzPluginHelper.py:119-124 | the value found is that of the first entry named `<Name>-InternalVariables` |
| PluginHelper.FindUserVarAbsent | DomoticzPluginHelper.py:119-125 | the variable is absent if and only if every entry names some other variable |
| PluginHelper.FindVariable | DomoticzPluginHelper.py:115-124 | the loop with its break finds exactly `LookupIn`: the value of the first matching entry, absence, or the entry on which the source raises |
| PluginHelper.Update | DomoticzPluginHelper.py:155 | `dict.update`: the keys are the old ones plus the parsed ones, every parsed key takes its parsed value and the other old keys keep theirs |
| PluginHelper.DomoticzPluginHelper.GetUserVar | DomoticzPluginHelper.py:111-162 | the new state, and whether the method raised, are those of `GetUserVarSpec` on the old state |
| PluginHelper.DomoticzPluginHelper.CreateMissingVariable | DomoticzPluginHelper.py:125-152 | the new state, and whether it raised, are those of `CreateMissing` on the old state |
| PluginHelper.DomoticzPluginHelper.SaveUserVar | DomoticzPluginHelper.py:164-168 | the new state is that of `SaveUserVarSpec` on the old state; Internals is unchanged |
| HelperProperties.ResultIsTruthy | DomoticzPluginHelper.py:113 | every result of the API is a non-empty dict, so `if variables:` holds for each result |
| HelperProperties.ReadFailureResets | DomoticzPluginHelper.py:159-162 | when the getuservariables call fails, Internals becomes the defaults, nothing raises, and two errors are logged: the call's own and "Cannot read the uservariable" last |
| HelperProperties.FoundVariableMerges | DomoticzPluginHelper.py:153-158 | a found value that evaluates to a dict is merged into Internals with `dict.update`; one that does not resets Internals to the defaults; no further request is sent |
| HelperProperties.MalformedListRaises | DomoticzPluginHelper.py:119-124 | an entry without "Name", or the match without "Value", makes getUserVar raise with Internals untouched |
| HelperProperties.UnusableVersionRaises | DomoticzPluginHelper.py:136-142 | an absent variable with a getversion answer whose dzvents_version is missing, not a non-empty text, or compares a text with a number makes getUserVar raise: Internals is untouched and no creation call is sent |
| HelperProperties.MissingVariableCreated | DomoticzPluginHelper.py:125-152 | an absent variable leads to three requests: getuservariables, getversion, and one creation call carrying `str(defaults)`. That call uses `adduservariable` if and only if the version lookup returned a dzvents_version of at least 2.4.9. Internals ends up equal to the defaults |
| HelperProperties.SaveWritesTheReadVariable | DomoticzPluginHelper.py:164-168 | saveUserVar sends one request: the update of `<Name>-InternalVariables`, the variable getUserVar reads, carrying `str(Internals)`; Internals is unchanged |
| HelperProperties.ReadStoredMerges | DomoticzPluginHelper.py:111-158 | when the host lists the variable with a text that evaluates to a dict, getUserVar merges that dict into Internals |
| HelperProperties.SaveThenGetRestores | DomoticzPluginHelper.py:111-168 | saveUserVar sends `str(Internals)`. A later getUserVar, from any state whose host answers with that text, merges the saved Internals into its own, provided `eval` inverts `str` on them. It gives back exactly the saved Internals when its own hold no other key |
| HelperProperties.RestartRestores | DomoticzPluginHelper.py:35-168 | a helper restarted with the defaults that reads the saved text gets the saved Internals back, when they cover every default key |
| Version.RunLengthSpec | DomoticzPluginHelper.py:142 | a run that `LooseVersion`'s pattern cuts out is made of characters of one class, and the next character is of another |
| Version.LooseComponentsOfDigits | DomoticzPluginHelper.py:142 | a leading run of digits becomes the first component, as its number |
| Version.LooseComponentsOfLetters | DomoticzPluginHelper.py:142 | a leading run of lower-case letters becomes the first component, as text |
| Version.LooseComponentsOfDot | DomoticzPluginHelper.py:142 | a dot is dropped from the components |
| Version.DottedComponents | DomoticzPluginHelper.py:142 | the components of dotted digit runs are their numbers, in order |
| Version.NumbersNeverRaise | DomoticzPluginHelper.py:142 | comparing a list of number components with a list of numbers never raises |
| Version.OnlyTextRaises | DomoticzPluginHelper.py:142 | the version test can raise only on a version that has a text component |
| Version.NumbersLess | DomoticzPluginHelper.py:142 | comparing two lists of number components is comparing the integers lexicographically |
| Version.DottedAtLeast | DomoticzPluginHelper.py:142 | on a dotted decimal version the test never raises, and it holds exactly when the version is not lexicographically older than the threshold |
| Version.FieldNumbers | DomoticzPluginHelper.py:142 | the fields give numbers exactly when every field is a run of digits, one number per field |
| Version.LexLessIrreflexive | DomoticzPluginHelper.py:142 | no version is older than itself |
| Version.LexLessTransitive | DomoticzPluginHelper.py:142 | "older than" is transitive |
| Version.LexLessTotal | DomoticzPluginHelper.py:142 | any two component lists are equal or ordered one way |
| Version.LexLessAsymmetric | DomoticzPluginHelper.py:142 | no two versions are each older than the other |
| Version.AtLeastMonotone | DomoticzPluginHelper.py:142 | a dotted decimal version no older than one that passes the test passes it too |
| Version.ComponentsOfJoin | DomoticzPluginHelper.py:142 | a version written as dotted digit runs has those runs' values as components |
| Version.AtThreshold | DomoticzPluginHelper.py:142 | 2.4.9 itself selects `adduservariable` |
| Version.NumericNotTextual | DomoticzPluginHelper.py:142 | 2.4.10 is later than 2.4.9: components compare as numbers |
| Version.BelowThreshold | DomoticzPluginHelper.py:142 | 2.4.8 keeps `saveuservariable`, without raising |
| Version.PrefixIsOlder | DomoticzPluginHelper.py:142 | 2.4 is older than 2.4.9 |
| Version.TextMeetsNumber | DomoticzPluginHelper.py:142 | every version written `a.b.x` with a.b equal to 2.4 makes the test raise, because the text 'x' meets the number 9 |
| Version.NumberDecidesFirst | DomoticzPluginHelper.py:142 | every version written `a.b.x` with a.b equal to 2.5 passes the test without raising |
| Version.TextAgainstNumberRaises | DomoticzPluginHelper.py:142 | "2.4.x" raises: its first difference from 2.4.9 pairs the text 'x' with the number 9 |
| Version.EarlierDifferenceDecides | DomoticzPluginHelper.py:142 | "2.5.x" passes: 5 against 4 decides before the text is reached |

## Left out

- DomoticzWrapper.py is not part of this model. It forwards calls and reads properties of a host object that is not visible here.
- `DomoticzWrapper.Debugging` is left out: it has no coherent behaviour to state. `values is int` never holds, and its `ShowAll` branch repeats the `ShowNone` test.
- `onStart`, `onStop` and `DumpConfigToLog` are left out. They only forward to the host's debugging switch and log.
- Real HTTP I/O is replaced by the script of replies. An exhausted script answers as a call that raised. `urlopen` raising `HTTPError` for a 4xx or 5xx status is modelled as `Raised`, so the error logged is then "Error calling", as in the source.
- URL quoting of the query (`parse.quote(..., safe="&=")`) is left out: a `Url` holds the query as given.
- Base64 is left out: a request carries the RFC 7617 user-pass, which the header sends base64-encoded.
- JSON decoding is left out: a reply carries the decoded value, or None where decoding fails.
- `str(dict)` and `eval(text)` are the `Codec` parameter. Python's repr and evaluation are not modelled. A stored value that is not text, or that `eval` rejects, counts as unreadable.
- Version.ClassOf: counts only ASCII `0`-`9` as digits. Python's `\d` in `LooseVersion`'s pattern also matches other Unicode decimal digits, which the model keeps as text.
- Text.ParseInt: covers only an optional sign and ASCII decimal digits, with whitespace around them. Python's `int()` also accepts underscores between digits and non-ASCII decimal digits. It also has no limit on the number of digits. CPython limits conversion between int and decimal text (`sys.get_int_max_str_digits()`, 4300 digits by default): `int()` raises on a longer digit string, so `CheckParam` would then fall back to the default and `parseCSV` would drop the field.
- Text.ParseIntToString: holds in CPython only for integers of at most 4300 digits, since `str()` raises on a larger one.
- Csv.CsvValuesOfRender: holds in CPython only when every integer has at most 4300 digits, for the same reason.
- Inputs that are not text: `CheckParam` gets its value as text. So the `TypeError` that a value such as `None` raises past the `except ValueError` is not modelled. Float values are not modelled either.
- The host's own filtering of Debug messages (the `debug` field and the host's debug level) is not modelled. Every Debug call is logged.
- `self.Status` and `self.Log`, which `WriteLog` calls, are defined neither by the helper nor in this repository. They are modelled as the two sinks `Status` and `Log`.
- An exception that escapes `getUserVar` is modelled as `raised` being true, with the state reached at that point. What the caller does with the exception is not modelled. The model raises in these cases:
  - an entry that is not a dict with "Name", or the match without "Value";
  - a "result" that is not a list, unless it is an empty dict or an empty string. A number, a bool or null is not iterable, and iterating a non-empty dict or string yields texts whose `["Name"]` raises;
  - a missing or unusable `dzvents_version`, including a version whose comparison with 2.4.9 pairs a text with a number.
- PluginHelper.DomoticzPluginHelper.DomoticzAPI: uses the corrected acceptance rule. The source and the design description disagree on a 200 reply without "status" (see Findings); the code as written is modelled by `Api.AcceptAsWritten`.
- PluginHelper.DomoticzPluginHelper.CreateMissingVariable: inherits the corrected acceptance rule. A 200 getversion reply without "status", such as `{"dzvents_version": "3.0"}`, therefore counts as no answer. The model logs "Unable to fetch" and sends `saveuservariable`. The source logs "Error calling", returns that body, tests its `dzvents_version` and can choose `adduservariable`.
- PluginHelper.DomoticzPluginHelper.GetUserVar: inherits the corrected acceptance rule. A 200 getuservariables reply without "status" therefore logs "Cannot read the uservariable" and resets Internals to the defaults. The source instead goes on to look the variable up in that body.

## Findings

| source | as written | input that shows it | evidently intended | confidence | as-written member | corrected member |
|---|---|---|---|---|---|---|
| DomoticzPluginHelper.py:63-72 | The decoded body is stored in `resultJson` before `resultJson["status"]` is read. When that read raises, the bare `except` logs "Error calling" and the method returns the unchecked body: the read raises when there is no "status" key, or when the body is a list, number or string | HTTP 200 with the body `{"result": []}` | Only a JSON object with status "OK" is a result; every other reply gives `None` | not executed | Api.AsWrittenAcceptsBodyWithoutStatus | Api.Accept |
