/**
 * DomoticzPluginHelper: CheckParam, WriteLog, DomoticzAPI and the
 * persisted-state routines getUserVar and saveUserVar over the Internals
 * dictionary. Each state-changing method is tied to a function of the old
 * state below; the lemmas state what the source promises about those
 * functions.
 */
module PluginHelper {
  import opened Wrappers
  import opened Json
  import opened Text
  import opened Version
  import opened Host
  import opened Logging
  import opened Api

  /** The persisted plugin state: a flat dictionary of scalar values. */
  type Internals = map<string, Json>

  /**
   * str(dict) and eval(text), which the source leaves to Python: render is
   * what a save stores, eval is None where eval raises or gives nothing
   * dict.update accepts (a dict, or an iterable of key/value pairs).
   */
  datatype Codec = Codec(render: Internals -> string, eval: string -> Option<Internals>)

  /** What no operation here changes: the host's parameters and the helper's settings. */
  datatype Setup = Setup(parameters: Parameters, defaults: Internals, logLevel: string, statusSupported: bool, codec: Codec)

  /** What the operations change: Internals, the log, the requests sent and the replies still to come. */
  datatype State = State(internals: Internals, log: seq<Entry>, sent: seq<Request>, replies: seq<Response>)

  // ---------------------------------------------------------------------
  // The API calls the helper issues

  const GetUserVariablesCall := "type=command&param=getuservariables"
  const GetVersionCall := "type=command&param=getversion"

  /** The user variable holding the persisted state: "<Name>-InternalVariables". */
  function VariableName(p: Parameters): string {
    p.name + "-InternalVariables"
  }

  function CreateCall(command: string, varname: string, value: string): string {
    "type=command&param=" + command + "&vname=" + varname + "&vtype=2&vvalue=" + value
  }

  function UpdateCall(varname: string, value: string): string {
    "type=command&param=updateuservariable&vname=" + varname + "&vtype=2&vvalue=" + value
  }

  /** The command that creates a user variable: 'adduservariable' from dzvents 2.4.9 on. */
  function CreationCommand(add: bool): string {
    if add then "adduservariable" else "saveuservariable"
  }

  function MissingVariable(varname: string): string {
    "User Variable " + varname + " does not exist. Creation requested"
  }

  const UseAddUserVariable := "Use 'adduservariable' instead of 'saveuservariable'"

  // ---------------------------------------------------------------------
  // DomoticzAPI

  function ErrorLine(error: Option<Message>): seq<Entry> {
    match error
    case Some(m) => [Entry(Error, m)]
    case None => []
  }

  /** The number of errors in a log. */
  function ErrorCount(log: seq<Entry>): nat {
    if |log| == 0 then 0
    else ErrorCount(log[..|log| - 1]) + (if log[|log| - 1].sink == Error then 1 else 0)
  }

  lemma {:induction false} ErrorCountAppend(a: seq<Entry>, b: seq<Entry>)
    ensures ErrorCount(a + b) == ErrorCount(a) + ErrorCount(b)
    decreases |b|
  {
    if |b| > 0 {
      var ab := a + b;
      assert ab[..|ab| - 1] == a + b[..|b| - 1];
      ErrorCountAppend(a, b[..|b| - 1]);
    } else {
      assert a + b == a;
    }
  }

  /** The state after one DomoticzAPI call, and its result. */
  datatype Called = Called(state: State, result: Option<Fields>)

  /**
   * DomoticzAPI(apiCall): announce the call, add the credentials when a
   * user name is configured, send, accept the reply or log why not. A
   * script with no reply left answers as an unreachable host does.
   */
  function ApiCall(p: Parameters, s: State, apiCall: string): Called {
    var url := Url(p.address, p.port, apiCall);
    var announced := s.log + [Entry(Debug, CallingApi(url))]
      + (if p.username != "" then [Entry(Debug, AddingAuthentication(p.username))] else []);
    match MakeRequest(p, apiCall)
    case None => Called(s.(log := announced + [Entry(Error, CallFailed(url))]), None)
    case Some(request) =>
      var response := if |s.replies| > 0 then s.replies[0] else Raised;
      var a := Accept(response, url);
      Called(State(s.internals, announced + ErrorLine(a.error), s.sent + [request],
                   if |s.replies| > 0 then s.replies[1..] else []),
             a.result)
  }

  /**
   * A call yields a result only for a sent request answered with HTTP 200
   * and status "OK"; otherwise it logs exactly one error. The Authorization
   * credentials go out exactly when a user name is configured.
   */
  lemma ApiCallOutcome(p: Parameters, s: State, apiCall: string)
    ensures var c := ApiCall(p, s, apiCall);
      && c.state.internals == s.internals
      && (c.result.Some? <==> MakeRequest(p, apiCall).Some? && |s.replies| > 0 && StatusOk(s.replies[0]))
      && (c.result.Some? ==> s.replies[0].body == Some(JObject(c.result.value)))
      && ErrorCount(c.state.log) == ErrorCount(s.log) + (if c.result.Some? then 0 else 1)
      && (MakeRequest(p, apiCall).None? ==> c.state.sent == s.sent)
      && (MakeRequest(p, apiCall).Some? ==>
            && c.state.sent == s.sent + [MakeRequest(p, apiCall).value]
            && c.state.sent[|s.sent|].url.query == apiCall
            && (c.state.sent[|s.sent|].authorization.Some? <==> p.username != ""))
  {
    var url := Url(p.address, p.port, apiCall);
    var debug := [Entry(Debug, CallingApi(url))]
      + (if p.username != "" then [Entry(Debug, AddingAuthentication(p.username))] else []);
    assert s.log + [Entry(Debug, CallingApi(url))]
      + (if p.username != "" then [Entry(Debug, AddingAuthentication(p.username))] else [])
      == s.log + debug;
    assert ErrorCount(debug) == 0 by {
      if p.username != "" {
        assert debug[..1] == [Entry(Debug, CallingApi(url))];
      }
    }
    ErrorCountAppend(s.log, debug);
    var c := ApiCall(p, s, apiCall);
    if MakeRequest(p, apiCall).None? {
      ErrorCountAppend(s.log + debug, [Entry(Error, CallFailed(url))]);
    } else {
      var response := if |s.replies| > 0 then s.replies[0] else Raised;
      ErrorCountAppend(s.log + debug, ErrorLine(Accept(response, url).error));
    }
  }

  // ---------------------------------------------------------------------
  // CheckParam

  /** CheckParam's result and the error it logs. */
  datatype Checked = Checked(param: int, error: Option<Message>)

  /** int(value) if that succeeds; otherwise default, with one error naming the parameter. */
  function ParamOrDefault(name: string, value: string, default: int): (c: Checked)
    ensures c.error.None? <==> ParseInt(value).Some?
    ensures ParseInt(value).Some? ==> c.param == ParseInt(value).value
    ensures ParseInt(value).None? ==> c.param == default && c.error == Some(InvalidParameter(name, value, default))
  {
    match ParseInt(value)
    case Some(v) => Checked(v, None)
    case None => Checked(default, Some(InvalidParameter(name, value, default)))
  }

  /** A decimal integer, with whitespace int() skips around it, is taken as it is and nothing is logged. */
  lemma CheckParamAcceptsIntegers(name: string, before: string, n: int, after: string, default: int)
    requires forall i :: 0 <= i < |before| ==> IsIntSpace(before[i])
    requires forall i :: 0 <= i < |after| ==> IsIntSpace(after[i])
    ensures ParamOrDefault(name, before + IntToString(n) + after, default) == Checked(n, None)
  {
    var r := IntToString(n);
    assert !IsIntSpace(r[0]) && !IsIntSpace(r[|r| - 1]);
    TrimPadded(before, r, after, IntBlanks);
    ParseIntToString(n);
    TrimUnpadded(r, IntBlanks);
  }

  /** A separator such as U+001C before the number makes int() raise: the default is used and one error logged. */
  lemma CheckParamRejectsSeparatorPadding(name: string, default: int)
    ensures ParamOrDefault(name, "\U{1c}5", default) == Checked(default, Some(InvalidParameter(name, "\U{1c}5", default)))
  {
  }

  /** A value without a digit falls back to default and logs one error. */
  lemma CheckParamRejectsNonNumbers(name: string, value: string, default: int)
    requires forall i :: 0 <= i < |value| ==> !IsDigit(value[i])
    ensures ParamOrDefault(name, value, default) == Checked(default, Some(InvalidParameter(name, value, default)))
  {
    if ParseInt(value).Some? {
      ParseIntNeedsDigit(value);
    }
  }

  // ---------------------------------------------------------------------
  // WriteLog

  function WriteLogSpec(c: Setup, s: State, message: string, level: string): State {
    s.(log := s.log + Emitted(Route(level, c.logLevel, c.statusSupported), message))
  }

  // ---------------------------------------------------------------------
  // getUserVar and saveUserVar

  /** An entry of the variable list that names varname. */
  predicate Names(item: Json, varname: string) {
    item.JObject? && "Name" in item.fields && item.fields["Name"] == JString(varname)
  }

  /** An entry of the variable list that names some other variable. */
  predicate NamesOther(item: Json, varname: string) {
    item.JObject? && "Name" in item.fields && item.fields["Name"] != JString(varname)
  }

  /** What the scan of variables["result"] finds: a value, nothing, or an entry it raises on. */
  datatype Lookup = Found(value: Json) | Absent | Malformed

  /** The scan over the entries: the first one named varname wins. */
  function FindUserVar(items: seq<Json>, varname: string): Lookup {
    if |items| == 0 then Absent
    else if !items[0].JObject? || "Name" !in items[0].fields then Malformed
    else if items[0].fields["Name"] == JString(varname) then
      if "Value" in items[0].fields then Found(items[0].fields["Value"]) else Malformed
    else FindUserVar(items[1..], varname)
  }

  /** The scan finds the value of entry k when k is the first entry named varname. */
  lemma {:induction false} FindUserVarFirst(items: seq<Json>, varname: string, k: nat)
    requires k < |items|
    requires forall j :: 0 <= j < k ==> NamesOther(items[j], varname)
    requires Names(items[k], varname) && "Value" in items[k].fields
    ensures FindUserVar(items, varname) == Found(items[k].fields["Value"])
  {
    if k > 0 {
      FindUserVarFirst(items[1..], varname, k - 1);
    }
  }

  /** The scan finds nothing exactly when every entry names some other variable. */
  lemma {:induction false} FindUserVarAbsent(items: seq<Json>, varname: string)
    ensures FindUserVar(items, varname) == Absent <==>
      forall j :: 0 <= j < |items| ==> NamesOther(items[j], varname)
  {
    if |items| > 0 {
      FindUserVarAbsent(items[1..], varname);
      assert forall j :: 1 <= j < |items| ==> items[j] == items[1..][j - 1];
    }
  }

  /**
   * The lookup over a getuservariables result: no "result" key means no
   * variable; iterating anything but a list raises at its first element.
   */
  function LookupIn(variables: Fields, varname: string): Lookup {
    if "result" !in variables then Absent
    else match variables["result"]
      case JArray(items) => FindUserVar(items, varname)
      case JObject(keys) => if |keys| == 0 then Absent else Malformed
      case JString(chars) => if |chars| == 0 then Absent else Malformed
      case _ => Malformed
  }

  /** dict.update: old keys stay, every parsed key takes its parsed value. */
  function Update(internals: Internals, parsed: Internals): (r: Internals)
    ensures r.Keys == internals.Keys + parsed.Keys
    ensures forall k :: k in parsed ==> r[k] == parsed[k]
    ensures forall k :: k in internals && k !in parsed ==> r[k] == internals[k]
  {
    internals + parsed
  }

  /** eval(valuestring), which raises unless the stored value is a text that evaluates to a dict. */
  function Decoded(codec: Codec, value: Json): Option<Internals> {
    match value
    case JString(text) => codec.eval(text)
    case _ => None
  }

  /** Internals after reading a stored value: merged in, or reset to the defaults when it cannot be read. */
  function Restored(c: Setup, internals: Internals, value: Json): Internals {
    match Decoded(c.codec, value)
    case Some(parsed) => Update(internals, parsed)
    case None => c.defaults
  }

  /** What the version lookup decides: no answer, the command to use, or a raise. */
  datatype VersionCheck = Unavailable | Known(add: bool) | VersionRaises

  /**
   * domoticzInfo and LooseVersion(domoticzInfo["dzvents_version"]) >= "2.4.9":
   * an empty answer short-circuits; a missing key, a version that is not a
   * non-empty text, or a comparison of a number with a text raises.
   */
  function CheckVersion(info: Option<Fields>): VersionCheck {
    match info
    case None => Unavailable
    case Some(fields) =>
      if |fields| == 0 then Known(false)
      else if "dzvents_version" in fields && fields["dzvents_version"].JString? && fields["dzvents_version"].s != "" then
        match LooseAtLeast(fields["dzvents_version"].s, AddUserVariableSince)
        case Some(add) => Known(add)
        case None => VersionRaises
      else VersionRaises
  }

  /** The state after getUserVar, and whether it raised (Internals then untouched). */
  datatype Step = Step(state: State, raised: bool)

  /** The getuservariables call that getUserVar starts with. */
  function VariablesCall(c: Setup, s: State): Called {
    ApiCall(c.parameters, s, GetUserVariablesCall)
  }

  /** The getversion call made, after the notice, when the variable is absent. */
  function VersionCall(c: Setup, s: State): Called {
    ApiCall(c.parameters, WriteLogSpec(c, s, MissingVariable(VariableName(c.parameters)), "Verbose"), GetVersionCall)
  }

  /** Issue the creation call carrying the defaults, then reset Internals to the defaults. */
  function Create(c: Setup, s: State, add: bool): Step {
    var created := ApiCall(c.parameters, s,
      CreateCall(CreationCommand(add), VariableName(c.parameters), c.codec.render(c.defaults)));
    Step(created.state.(internals := c.defaults), false)
  }

  /** The variable is absent: notice, version lookup, creation call, reset to the defaults. */
  function CreateMissing(c: Setup, s: State): Step {
    var second := VersionCall(c, s);
    var s3 := second.state;
    match CheckVersion(second.result)
    case VersionRaises => Step(s3, true)
    case Unavailable => Create(c, s3.(log := s3.log + [Entry(Error, VersionUnavailable)]), false)
    case Known(add) => Create(c, if add then WriteLogSpec(c, s3, UseAddUserVariable, "Verbose") else s3, add)
  }

  function GetUserVarSpec(c: Setup, s: State): Step {
    var first := VariablesCall(c, s);
    var s1 := first.state;
    if first.result.Some? && |first.result.value| > 0 then
      match LookupIn(first.result.value, VariableName(c.parameters))
      case Malformed => Step(s1, true)
      case Found(value) => Step(s1.(internals := Restored(c, s1.internals, value)), false)
      case Absent => CreateMissing(c, s1)
    else
      Step(s1.(log := s1.log + [Entry(Error, UserVarUnreadable)], internals := c.defaults), false)
  }

  function SaveUserVarSpec(c: Setup, s: State): State {
    ApiCall(c.parameters, s, UpdateCall(VariableName(c.parameters), c.codec.render(s.internals))).state
  }

  /**
   * getUserVar's search of variables["result"] for varname: stop at the
   * first entry with that name; an entry that is not a dict with a "Name"
   * (or the match without a "Value") raises.
   */
  method FindVariable(variables: Fields, varname: string) returns (lookup: Lookup)
    ensures lookup == LookupIn(variables, varname)
  {
    var noVar := true;
    var valuestring := JString("");
    if "result" in variables {
      var result := variables["result"];
      if result.JArray? {
        var items := result.items;
        var i := 0;
        while i < |items|
          invariant 0 <= i <= |items|
          invariant FindUserVar(items[i..], varname) == FindUserVar(items, varname)
        {
          var variable := items[i];
          if !variable.JObject? || "Name" !in variable.fields {
            return Malformed;
          }
          if variable.fields["Name"] == JString(varname) {
            if "Value" !in variable.fields {
              return Malformed;
            }
            valuestring := variable.fields["Value"];
            noVar := false;
            break;
          }
          assert items[i..][1..] == items[i + 1..];
          i := i + 1;
        }
      } else if !((result.JObject? && |result.fields| == 0) || (result.JString? && |result.s| == 0)) {
        // iterating anything but a list raises at its first element, or at once
        return Malformed;
      }
    }
    lookup := if noVar then Absent else Found(valuestring);
  }

  // ---------------------------------------------------------------------
  // The helper object

  class DomoticzPluginHelper {
    const parameters: Parameters
    const codec: Codec
    var debug: bool
    var logLevel: string
    var statusSupported: bool
    var internalsDefaults: Internals
    var internals: Internals
    // what the helper writes to the host's log, the requests it sends, and
    // the host's replies still to come
    var log: seq<Entry>
    var sent: seq<Request>
    var replies: seq<Response>

    function Configuration(): Setup
      reads this
    {
      Setup(parameters, internalsDefaults, logLevel, statusSupported, codec)
    }

    function Snapshot(): State
      reads this
    {
      State(internals, log, sent, replies)
    }

    /** __init__: Internals starts as a copy of the defaults. */
    constructor (parameters: Parameters, internalsDefaults: Internals, codec: Codec, replies: seq<Response>)
      ensures this.parameters == parameters
      ensures !debug && logLevel == "Verbose" && statusSupported
      ensures this.internalsDefaults == internalsDefaults
      ensures internals == internalsDefaults
      ensures log == [] && sent == [] && this.replies == replies
    {
      this.parameters := parameters;
      this.codec := codec;
      debug := false;
      logLevel := "Verbose";
      statusSupported := true;
      this.internalsDefaults := internalsDefaults;
      internals := internalsDefaults;
      log := [];
      sent := [];
      this.replies := replies;
    }

    method DomoticzAPI(apiCall: string) returns (resultJson: Option<Fields>)
      modifies this`log, this`sent, this`replies
      ensures Called(Snapshot(), resultJson) == ApiCall(parameters, old(Snapshot()), apiCall)
    {
      resultJson := None;
      var url := Url(parameters.address, parameters.port, apiCall);
      log := log + [Entry(Debug, CallingApi(url))];
      if parameters.username != "" {
        log := log + [Entry(Debug, AddingAuthentication(parameters.username))];
      }
      var request := MakeRequest(parameters, apiCall);
      if request.None? {
        log := log + [Entry(Error, CallFailed(url))];
        return;
      }
      sent := sent + [request.value];
      var response := Raised;
      if |replies| > 0 {
        response := replies[0];
        replies := replies[1..];
      }
      var acceptance := Accept(response, url);
      if acceptance.error.Some? {
        log := log + [Entry(Error, acceptance.error.value)];
      }
      resultJson := acceptance.result;
    }

    method CheckParam(name: string, value: string, default: int) returns (param: int)
      modifies this`log
      ensures param == ParamOrDefault(name, value, default).param
      ensures log == old(log) + ErrorLine(ParamOrDefault(name, value, default).error)
    {
      var parsed := ParseInt(value);
      if parsed.Some? {
        param := parsed.value;
      } else {
        param := default;
        log := log + [Entry(Error, InvalidParameter(name, value, default))];
      }
    }

    method WriteLog(message: string, level: string := "Normal")
      modifies this`log
      ensures log == old(log) + Emitted(Route(level, logLevel, statusSupported), message)
    {
      if (logLevel == "Verbose" && level == "Verbose") || level == "Status" {
        if statusSupported {
          log := log + [Entry(Status, Plain(message))];
        } else {
          log := log + [Entry(Log, Plain(message))];
        }
      } else if level == "Normal" {
        log := log + [Entry(Log, Plain(message))];
      }
    }

    method GetUserVar() returns (raised: bool)
      modifies this`internals, this`log, this`sent, this`replies
      ensures Step(Snapshot(), raised) == GetUserVarSpec(Configuration(), old(Snapshot()))
    {
      raised := false;
      var variables := DomoticzAPI(GetUserVariablesCall);
      if variables.Some? && |variables.value| > 0 {
        var varname := VariableName(parameters);
        var lookup := FindVariable(variables.value, varname);
        match lookup {
          case Malformed =>
            raised := true;
          case Absent =>
            raised := CreateMissingVariable();
          case Found(valuestring) =>
            var parsed := Decoded(codec, valuestring);
            if parsed.Some? {
              internals := internals + parsed.value;
            } else {
              internals := internalsDefaults;
            }
        }
      } else {
        log := log + [Entry(Error, UserVarUnreadable)];
        internals := internalsDefaults;
      }
    }

    /** The branch of getUserVar taken when the variable does not exist yet. */
    method CreateMissingVariable() returns (raised: bool)
      modifies this`internals, this`log, this`sent, this`replies
      ensures Step(Snapshot(), raised) == CreateMissing(Configuration(), old(Snapshot()))
    {
      raised := false;
      var varname := VariableName(parameters);
      WriteLog(MissingVariable(varname), "Verbose");
      var parameter := "saveuservariable";
      var domoticzInfo := DomoticzAPI(GetVersionCall);
      assert Called(Snapshot(), domoticzInfo) == VersionCall(Configuration(), old(Snapshot()));
      if domoticzInfo.None? {
        log := log + [Entry(Error, VersionUnavailable)];
      } else if |domoticzInfo.value| > 0 {
        var info := domoticzInfo.value;
        if "dzvents_version" !in info || !info["dzvents_version"].JString? || info["dzvents_version"].s == "" {
          // the key lookup or LooseVersion raises
          assert CheckVersion(domoticzInfo) == VersionRaises;
          raised := true;
          return;
        }
        var atLeast := LooseAtLeast(info["dzvents_version"].s, AddUserVariableSince);
        if atLeast.None? {
          // the comparison pairs a number with a text
          assert CheckVersion(domoticzInfo) == VersionRaises;
          raised := true;
          return;
        }
        assert CheckVersion(domoticzInfo) == Known(atLeast.value);
        if atLeast.value {
          WriteLog(UseAddUserVariable, "Verbose");
          parameter := "adduservariable";
        }
      }
      var _ := DomoticzAPI(CreateCall(parameter, varname, codec.render(internalsDefaults)));
      internals := internalsDefaults;
    }

    method SaveUserVar()
      modifies this`log, this`sent, this`replies
      ensures Snapshot() == SaveUserVarSpec(Configuration(), old(Snapshot()))
    {
      var varname := VariableName(parameters);
      var _ := DomoticzAPI(UpdateCall(varname, codec.render(internals)));
    }
  }
}
