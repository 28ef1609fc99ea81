/**
 * The log sinks the helper writes to, the messages it writes (one
 * constructor per format string passed to the host's Debug and Error, and
 * Plain for any text handed to WriteLog), and WriteLog's routing rule.
 */
module Logging {
  import opened Wrappers
  import opened Json
  import opened Host

  /** Debug and Error are the host's; Status and Log are where WriteLog sends. */
  datatype Sink = Debug | Error | Status | Log

  datatype Message =
    | CallingApi(url: Url)                     // "Calling domoticz API: ..."
    | AddingAuthentication(user: string)       // "Add authentication for user ..."
    | ApiStatusNotOk(status: Json)             // "Domoticz API returned an error: status = ..."
    | HttpError(code: int)                     // "Domoticz API: http error = ..."
    | CallFailed(url: Url)                     // "Error calling '...'"
    | InvalidParameter(name: string, value: string, fallback: int)
    | VersionUnavailable                       // "Unable to fetch Domoticz info..."
    | UserVarUnreadable                        // "Cannot read the uservariable ..."
    | Plain(text: string)                      // a message handed to WriteLog

  datatype Entry = Entry(sink: Sink, message: Message)

  /** The sink, if any, that WriteLog(message, level) uses. */
  function Route(level: string, logLevel: string, statusSupported: bool): (r: Option<Sink>)
    ensures r.Some? ==> r.value == Status || r.value == Log
    ensures r == Some(Status) ==> statusSupported
    ensures level == "Status" ==> r == Some(if statusSupported then Status else Log)
    ensures level == "Verbose" ==>
      r == (if logLevel == "Verbose" then Some(if statusSupported then Status else Log) else None)
    ensures level == "Normal" ==> r == Some(Log)
    ensures level != "Status" && level != "Verbose" && level != "Normal" ==> r == None
  {
    if (logLevel == "Verbose" && level == "Verbose") || level == "Status" then
      if statusSupported then Some(Status) else Some(Log)
    else if level == "Normal" then Some(Log)
    else None
  }

  /** The entries WriteLog appends: one on the chosen sink, or none. */
  function Emitted(route: Option<Sink>, message: string): (r: seq<Entry>)
    ensures |r| <= 1
    ensures r == [] <==> route.None?
    ensures route.Some? ==> r == [Entry(route.value, Plain(message))]
  {
    match route
    case Some(sink) => [Entry(sink, Plain(message))]
    case None => []
  }

  /** Setting logLevel to "Verbose" hides nothing and moves nothing. */
  lemma VerboseShowsEverything(level: string, logLevel: string, statusSupported: bool)
    ensures Route(level, logLevel, statusSupported).Some? ==>
      Route(level, "Verbose", statusSupported) == Route(level, logLevel, statusSupported)
  {
  }

  /** Only "Verbose" messages depend on logLevel. */
  lemma OnlyVerboseDependsOnLogLevel(level: string, l1: string, l2: string, statusSupported: bool)
    requires level != "Verbose"
    ensures Route(level, l1, statusSupported) == Route(level, l2, statusSupported)
  {
  }
}
