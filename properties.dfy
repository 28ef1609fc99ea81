/**
 * What getUserVar and saveUserVar promise, stated over their specification
 * functions: the three ways a read ends, the variable a save writes, and the
 * round trip through a host that stores what it is sent.
 */
module HelperProperties {
  import opened Wrappers
  import opened Json
  import opened Version
  import opened Host
  import opened Logging
  import opened Api
  import opened PluginHelper

  /** The credentials, if any, can be sent: every request of the helper goes out. */
  predicate CanAuthenticate(p: Parameters) {
    p.username == "" || IsAscii(UserPass(p))
  }

  /** A result of the API is a dict with a "status" key, so Python treats it as true. */
  lemma ResultIsTruthy(p: Parameters, s: State, apiCall: string)
    ensures var r := ApiCall(p, s, apiCall).result;
      r.Some? ==> "status" in r.value && |r.value| > 0
  {
  }

  /** The getuservariables call fails: Internals is reset to the defaults and one more error is logged. */
  lemma ReadFailureResets(c: Setup, s: State)
    requires VariablesCall(c, s).result.None?
    ensures var r := GetUserVarSpec(c, s);
      && !r.raised
      && r.state.internals == c.defaults
      && r.state.log[|r.state.log| - 1] == Entry(Error, UserVarUnreadable)
      && ErrorCount(r.state.log) == ErrorCount(s.log) + 2
  {
    var first := VariablesCall(c, s);
    ApiCallOutcome(c.parameters, s, GetUserVariablesCall);
    ErrorCountAppend(first.state.log, [Entry(Error, UserVarUnreadable)]);
  }

  /**
   * The variable is found: its parsed value is merged into Internals with
   * dict.update semantics, or Internals is reset to the defaults when the
   * value does not parse; no further call is made.
   */
  lemma FoundVariableMerges(c: Setup, s: State, variables: Fields, value: Json)
    requires VariablesCall(c, s).result == Some(variables)
    requires LookupIn(variables, VariableName(c.parameters)) == Found(value)
    ensures var r := GetUserVarSpec(c, s);
      && !r.raised
      && r.state.sent == VariablesCall(c, s).state.sent
      && (Decoded(c.codec, value).Some? ==> r.state.internals == Update(s.internals, Decoded(c.codec, value).value))
      && (Decoded(c.codec, value).None? ==> r.state.internals == c.defaults)
  {
  }

  /** An entry getUserVar cannot read makes it raise with Internals untouched. */
  lemma MalformedListRaises(c: Setup, s: State, variables: Fields)
    requires VariablesCall(c, s).result == Some(variables)
    requires LookupIn(variables, VariableName(c.parameters)) == Malformed
    ensures var r := GetUserVarSpec(c, s);
      r.raised && r.state.internals == s.internals
  {
  }

  /**
   * The variable is absent and the getversion answer has no usable
   * dzvents_version (missing, not a non-empty text, or a version whose
   * comparison with 2.4.9 pairs a number with a text): getUserVar raises
   * before the creation call, with Internals untouched.
   */
  lemma UnusableVersionRaises(c: Setup, s: State, variables: Fields, info: Fields)
    requires VariablesCall(c, s).result == Some(variables)
    requires LookupIn(variables, VariableName(c.parameters)) == Absent
    requires VersionCall(c, VariablesCall(c, s).state).result == Some(info)
    requires |info| > 0
    requires || "dzvents_version" !in info
             || !info["dzvents_version"].JString?
             || info["dzvents_version"].s == ""
             || LooseAtLeast(info["dzvents_version"].s, AddUserVariableSince).None?
    ensures var r := GetUserVarSpec(c, s);
      && r.raised
      && r.state.internals == s.internals
      && |r.state.sent| == |s.sent| + 2
      && r.state.sent[|s.sent| + 1].url.query == GetVersionCall
  {
    ResultIsTruthy(c.parameters, s, GetUserVariablesCall);
    ApiCallOutcome(c.parameters, s, GetUserVariablesCall);
    var s1 := VariablesCall(c, s).state;
    ApiCallOutcome(c.parameters, WriteLogSpec(c, s1, MissingVariable(VariableName(c.parameters)), "Verbose"), GetVersionCall);
  }

  /**
   * The variable is absent: getUserVar asks for the version, issues one
   * creation call carrying the defaults, with 'adduservariable' exactly when
   * the version lookup succeeded with dzvents_version >= 2.4.9, and resets
   * Internals to the defaults.
   */
  lemma MissingVariableCreated(c: Setup, s: State, variables: Fields)
    requires VariablesCall(c, s).result == Some(variables)
    requires LookupIn(variables, VariableName(c.parameters)) == Absent
    requires CheckVersion(VersionCall(c, VariablesCall(c, s).state).result) != VersionRaises
    ensures var r := GetUserVarSpec(c, s);
      var info := VersionCall(c, VariablesCall(c, s).state).result;
      var add := info.Some? && |info.value| > 0 && AtLeast(info.value["dzvents_version"].s, AddUserVariableSince);
      && !r.raised
      && r.state.internals == c.defaults
      && |r.state.sent| == |s.sent| + 3
      && r.state.sent[|s.sent|].url.query == GetUserVariablesCall
      && r.state.sent[|s.sent| + 1].url.query == GetVersionCall
      && r.state.sent[|s.sent| + 2].url.query ==
           CreateCall(CreationCommand(add), VariableName(c.parameters), c.codec.render(c.defaults))
  {
  }

  /** saveUserVar sends one update of the variable getUserVar reads, carrying str(Internals). */
  lemma SaveWritesTheReadVariable(c: Setup, s: State)
    requires CanAuthenticate(c.parameters)
    ensures var t := SaveUserVarSpec(c, s);
      && t.internals == s.internals
      && |t.sent| == |s.sent| + 1
      && t.sent[|s.sent|].url.query == UpdateCall(VariableName(c.parameters), c.codec.render(s.internals))
  {
  }

  /** The getuservariables reply of a host holding user variable varname with value text. */
  function StoredVariable(varname: string, text: string): Response {
    Reply(200, Some(JObject(map[
      "status" := JString("OK"),
      "result" := JArray([JObject(map["Name" := JString(varname), "Value" := JString(text)])])])))
  }

  /** Reading a stored value that evaluates to parsed merges parsed into Internals. */
  lemma ReadStoredMerges(c: Setup, s: State, text: string, parsed: Internals)
    requires CanAuthenticate(c.parameters)
    requires |s.replies| > 0 && s.replies[0] == StoredVariable(VariableName(c.parameters), text)
    requires c.codec.eval(text) == Some(parsed)
    ensures var r := GetUserVarSpec(c, s);
      !r.raised && r.state.internals == Update(s.internals, parsed)
  {
    var varname := VariableName(c.parameters);
    ApiCallOutcome(c.parameters, s, GetUserVariablesCall);
    var variables := VariablesCall(c, s).result.value;
    var items := [JObject(map["Name" := JString(varname), "Value" := JString(text)])];
    assert variables["result"] == JArray(items);
    FindUserVarFirst(items, varname, 0);
    FoundVariableMerges(c, s, variables, JString(text));
  }

  /**
   * The persisted round trip: saveUserVar sends str(Internals) to the
   * variable, and a later getUserVar, from any state t whose host answers
   * with that text, merges the saved Internals into t's, provided eval
   * inverts str on them. When t holds no key the saved Internals lack, the
   * saved Internals come back exactly.
   */
  lemma SaveThenGetRestores(c: Setup, s: State, t: State)
    requires CanAuthenticate(c.parameters)
    requires c.codec.eval(c.codec.render(s.internals)) == Some(s.internals)
    requires |t.replies| > 0
    requires t.replies[0] == StoredVariable(VariableName(c.parameters), c.codec.render(s.internals))
    ensures var saved := SaveUserVarSpec(c, s);
      saved.sent[|s.sent|].url.query == UpdateCall(VariableName(c.parameters), c.codec.render(s.internals))
    ensures var read := GetUserVarSpec(c, t);
      && !read.raised
      && read.state.internals == Update(t.internals, s.internals)
      && (t.internals.Keys <= s.internals.Keys ==> read.state.internals == s.internals)
  {
    SaveWritesTheReadVariable(c, s);
    ReadStoredMerges(c, t, c.codec.render(s.internals), s.internals);
  }

  /**
   * After a restart the helper holds the defaults; a getUserVar that reads
   * the saved text restores the saved Internals when they cover every
   * default key.
   */
  lemma RestartRestores(c: Setup, s: State, replies: seq<Response>)
    requires CanAuthenticate(c.parameters)
    requires c.codec.eval(c.codec.render(s.internals)) == Some(s.internals)
    requires c.defaults.Keys <= s.internals.Keys
    ensures var restarted := State(c.defaults, [], [], [StoredVariable(VariableName(c.parameters), c.codec.render(s.internals))] + replies);
      GetUserVarSpec(c, restarted).state.internals == s.internals
  {
    var restarted := State(c.defaults, [], [], [StoredVariable(VariableName(c.parameters), c.codec.render(s.internals))] + replies);
    SaveThenGetRestores(c, s, restarted);
  }
}
