/**
 * The Raven logger: a PSR-3 logger that forwards the log levels chosen in its
 * settings to a Sentry client, one captured event per accepted call.
 */
module RavenLogger {
  import opened Php

  /** The Sentry levels of the Raven client. */
  datatype SentryLevel = Fatal | Error | Warning | Info | Debug

  /** A value passed in the log context. */
  datatype ContextValue = Null | Text(text: string) | Backtrace(frames: seq<string>)

  /** The `raven.settings` configuration read by the logger. */
  datatype RavenSettings = RavenSettings(
    stack: bool,
    clientKey: string,
    timeout: int,
    trace: bool,
    logLevels: map<int, Scalar>,
    fatalErrorHandler: bool)

  /** The options the Raven client is constructed with. */
  datatype ClientOptions = ClientOptions(
    autoLogStacks: bool,
    curlMethod: string,
    dsn: string,
    environment: string,
    sanitizeFieldsPattern: string,
    timeout: int,
    trace: bool)

  /** The event data of one capture. */
  datatype EventData = EventData(
    level: Option<SentryLevel>,
    message: string,
    channel: ContextValue,
    link: ContextValue,
    referer: ContextValue,
    requestUri: ContextValue,
    timestamp: ContextValue,
    userId: ContextValue,
    ipAddress: ContextValue)

  /** One call of the client's `capture($data, $stack)`. */
  datatype Capture = Capture(data: EventData, stack: ContextValue)

  /** The fields whose values the client masks before sending. */
  const SanitizePattern: string := "/(SESS|pass|authorization|password|passwd|secret|password_confirmation|card_number|auth_pw)/i"

  /** The client options built from the settings, before the alter hook. */
  function DefaultOptions(config: RavenSettings, environment: string): (r: ClientOptions)
    ensures r.curlMethod == "async" && r.dsn == config.clientKey && r.environment == environment
    ensures r.autoLogStacks == config.stack && r.timeout == config.timeout && r.trace == config.trace
  {
    ClientOptions(config.stack, "async", config.clientKey, environment, SanitizePattern, config.timeout, config.trace)
  }

  /** `empty()` on a stored checkbox value. */
  predicate EmptyScalar(v: Scalar) {
    match v
    case IntVal(i) => i == 0
    case StrVal(s) => EmptyStr(s)
  }

  /** The severities of section 6.2.1 of RFC 5424, 0 (emergency) to 7 (debug), onto Sentry levels. */
  function SentryLevelOf(level: int): (r: Option<SentryLevel>)
    ensures r.None? <==> level < 0 || level > 7
    ensures 0 <= level <= 2 ==> r == Some(Fatal)
    ensures level == 3 ==> r == Some(Error)
    ensures level == 4 ==> r == Some(Warning)
    ensures 5 <= level <= 6 ==> r == Some(Info)
    ensures level == 7 ==> r == Some(Debug)
  {
    if level == 0 || level == 1 || level == 2 then Some(Fatal)
    else if level == 3 then Some(Error)
    else if level == 4 then Some(Warning)
    else if level == 5 || level == 6 then Some(Info)
    else if level == 7 then Some(Debug)
    else None
  }

  /** How urgent a Sentry level is, fatal highest. */
  function Urgency(l: SentryLevel): nat {
    match l
    case Fatal => 4
    case Error => 3
    case Warning => 2
    case Info => 1
    case Debug => 0
  }

  /** A more severe log level never maps to a less urgent Sentry level. */
  lemma SeverityOrderKept(a: int, b: int)
    requires 0 <= a <= b <= 7
    ensures Urgency(SentryLevelOf(a).value) >= Urgency(SentryLevelOf(b).value)
  {
  }

  /** `$context[$key]`, NULL when absent. */
  function ContextField(context: PhpArray<ContextValue>, key: string): ContextValue {
    match Get(context, key)
    case Some(v) => v
    case None => Null
  }

  /** The message sent: unchanged without placeholders, otherwise with them substituted by `strtr`. */
  function EventMessage(message: string, placeholders: PhpArray<string>): string {
    if placeholders == [] then message else Strtr(message, placeholders)
  }

  /** The event data of an accepted call. */
  function EventOf(level: int, message: string, context: PhpArray<ContextValue>, placeholders: PhpArray<string>): (r: EventData)
    ensures r.level == SentryLevelOf(level)
    ensures r.channel == ContextField(context, "channel")
    ensures r.link == ContextField(context, "link") && r.referer == ContextField(context, "referer")
    ensures r.requestUri == ContextField(context, "request_uri") && r.timestamp == ContextField(context, "timestamp")
    ensures r.userId == ContextField(context, "uid") && r.ipAddress == ContextField(context, "ip")
  {
    EventData(SentryLevelOf(level), EventMessage(message, placeholders),
              ContextField(context, "channel"), ContextField(context, "link"), ContextField(context, "referer"),
              ContextField(context, "request_uri"), ContextField(context, "timestamp"),
              ContextField(context, "uid"), ContextField(context, "ip"))
  }

  /** A message in which no placeholder occurs is sent verbatim. */
  lemma {:induction false} MessageWithoutPlaceholders(message: string, placeholders: PhpArray<string>)
    requires forall i, p :: 0 <= i < |message| && p in placeholders && p.0 != "" ==> !StartsWith(message[i..], p.0)
    ensures EventMessage(message, placeholders) == message
    decreases |message|
  {
    if placeholders != [] && message != [] {
      assert message[1..] == message[1..][0..];
      forall i, p | 0 <= i < |message[1..]| && p in placeholders && p.0 != ""
        ensures !StartsWith(message[1..][i..], p.0)
      {
        assert message[1..][i..] == message[i + 1..];
      }
      MessageWithoutPlaceholders(message[1..], placeholders);
      assert message[0..] == message;
      assert LongestMatch(message, placeholders).None?;
    }
  }

  /** The `log_levels` value the settings form stores for the checked severities: keys shifted by one. */
  function FormLogLevels(checked: set<int>): (r: map<int, Scalar>)
    ensures forall k :: k in r <==> 1 <= k <= 8
  {
    map k | 1 <= k <= 8 :: if k - 1 in checked then IntVal(k) else IntVal(0)
  }

  /** The logger with its client, and the events the client captured. */
  class Raven {
    const config: Option<RavenSettings>
    const client: Option<ClientOptions>
    var captured: seq<Capture>

    /**
     * No client when the Raven library is missing or rejects the options
     * (`rejects` stands for the InvalidArgumentException of its constructor).
     */
    constructor (settings: RavenSettings, libraryPresent: bool, environment: string,
                 alter: ClientOptions -> ClientOptions, rejects: ClientOptions -> bool)
      ensures captured == []
      ensures !libraryPresent ==> config.None? && client.None?
      ensures libraryPresent ==> config == Some(settings)
      ensures client.Some? <==> libraryPresent && !rejects(alter(DefaultOptions(settings, environment)))
      ensures client.Some? ==> client.value == alter(DefaultOptions(settings, environment))
    {
      captured := [];
      if !libraryPresent {
        config := None;
        client := None;
      } else {
        config := Some(settings);
        var options := ClientOptions(settings.stack, "async", settings.clientKey, environment, SanitizePattern,
                                     settings.timeout, settings.trace);
        options := alter(options);
        if rejects(options) {
          client := None;
        } else {
          client := Some(options);
        }
      }
    }

    /** An event is sent only with a client and a non-empty `log_levels[level + 1]`. */
    predicate Accepts(level: int)
    {
      client.Some? && config.Some?
        && (level + 1) in config.value.logLevels && !EmptyScalar(config.value.logLevels[level + 1])
    }

    /** `log`: at most one capture, exactly when the level is accepted. */
    method Log(level: int, message: string, context: PhpArray<ContextValue>,
               parsePlaceholders: (string, PhpArray<ContextValue>) -> PhpArray<string>)
      modifies this
      ensures Accepts(level) ==>
        captured == old(captured) + [Capture(EventOf(level, message, context, parsePlaceholders(message, context)),
                                             ContextField(context, "backtrace"))]
      ensures !Accepts(level) ==> captured == old(captured)
    {
      if client.None? {
        return;
      }
      if config.None? {
        return;
      }
      var levels := config.value.logLevels;
      if !((level + 1) in levels) || EmptyScalar(levels[level + 1]) {
        return;
      }
      var placeholders := parsePlaceholders(message, context);
      var text := if placeholders == [] then message else Strtr(message, placeholders);
      var data := EventData(SentryLevelOf(level), text,
                            ContextField(context, "channel"), ContextField(context, "link"),
                            ContextField(context, "referer"), ContextField(context, "request_uri"),
                            ContextField(context, "timestamp"), ContextField(context, "uid"),
                            ContextField(context, "ip"));
      var stack := Null;
      var backtrace := Get(context, "backtrace");
      if backtrace.Some? && backtrace.value != Null {
        stack := backtrace.value;
      }
      captured := captured + [Capture(data, stack)];
    }
  }

  /** With the settings form's value, a level is accepted exactly when its box was checked. */
  lemma FormLevelsAccepted(r: Raven, checked: set<int>, level: int)
    requires r.client.Some? && r.config.Some? && r.config.value.logLevels == FormLogLevels(checked)
    requires 0 <= level <= 7
    ensures r.Accepts(level) <==> level in checked
  {
  }
}
