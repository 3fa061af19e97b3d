/**
 * The plugin's logger adapter over the IDE logger: message composition from an
 * optional context name, and the one-time warning that debug logging is switched off.
 * The IDE logger itself becomes the list of calls made to it.
 */
module IntelliJLogger {
  import opened Wrappers
  import opened Text

  /** The text after the context: the provider's text, then the explicit message. */
  function MessageBody(messageProvider: Option<string>, message: Option<string>): string {
    messageProvider.GetOr("") + message.GetOr("")
  }

  predicate HasContext(contextName: Option<string>) {
    contextName.Some? && !IsBlank(contextName.value)
  }

  /**
   * `buildMessageFrom`: a non-blank context name and a space, then "- " if anything
   * was written so far, then the provider's text and the message. `messageProvider`
   * is the text the provider returns, when there is one.
   */
  function BuildMessageFrom(contextName: Option<string>, messageProvider: Option<string>, message: Option<string>): (r: string)
    ensures HasContext(contextName) ==> r == contextName.value + " - " + MessageBody(messageProvider, message)
    ensures !HasContext(contextName) ==> r == MessageBody(messageProvider, message)
  {
    var prefix := if HasContext(contextName) then contextName.value + " " else "";
    var separated := if |prefix| > 0 then prefix + "- " else prefix;
    var withProvider := if messageProvider.Some? then separated + messageProvider.value else separated;
    if message.Some? then withProvider + message.value else withProvider
  }

  /** The context, when present, can be read back off the front of the message. */
  lemma ContextIsRecoverable(contextName: Option<string>, messageProvider: Option<string>, message: Option<string>)
    requires HasContext(contextName)
    ensures var r := BuildMessageFrom(contextName, messageProvider, message);
      StartsWith(r, contextName.value + " - ") && RemovePrefix(r, contextName.value + " - ") == MessageBody(messageProvider, message)
  {
    var r := BuildMessageFrom(contextName, messageProvider, message);
    var head := contextName.value + " - ";
    assert r == head + MessageBody(messageProvider, message);
    assert r[..|head|] == head;
  }

  datatype Level = Error | Warn | Info | Debug | Trace

  /** One call made to the IDE logger. */
  datatype LogCall =
    | Message(level: Level, text: string)
    | NotLoggableWarning

  function NotLoggableCount(calls: seq<LogCall>): nat {
    if calls == [] then 0
    else (if calls[0].NotLoggableWarning? then 1 else 0) + NotLoggableCount(calls[1..])
  }

  lemma {:induction false} NotLoggableCountAppend(a: seq<LogCall>, b: seq<LogCall>)
    ensures NotLoggableCount(a + b) == NotLoggableCount(a) + NotLoggableCount(b)
  {
    if a == [] {
      assert a + b == b;
    } else {
      NotLoggableCountAppend(a[1..], b);
      assert (a + b)[0] == a[0];
      assert (a + b)[1..] == a[1..] + b;
    }
  }

  class Logger {
    /** `warned`: whether the "debug logging not enabled" warning was already given. */
    var warned: bool
    /** The calls made to the IDE logger so far, oldest first. */
    var calls: seq<LogCall>

    /** The warning has been given exactly when `warned` is set, and never twice. */
    ghost predicate Valid()
      reads this
    {
      NotLoggableCount(calls) == if warned then 1 else 0
    }

    constructor ()
      ensures Valid() && !warned && calls == []
    {
      warned := false;
      calls := [];
    }

    /** `warnNotLoggable`: `warned.getAndSet(true)` lets only the first call through. */
    method WarnNotLoggable()
      requires Valid()
      modifies this
      ensures Valid() && warned
      ensures calls == old(calls) + if old(warned) then [] else [NotLoggableWarning]
    {
      var wasWarned := warned;
      warned := true;
      if wasWarned {
        return;
      }
      NotLoggableCountAppend(calls, [NotLoggableWarning]);
      calls := calls + [NotLoggableWarning];
    }

    method Log(level: Level, message: string)
      requires Valid()
      modifies this
      ensures Valid() && warned == old(warned)
      ensures calls == old(calls) + [Message(level, message)]
    {
      NotLoggableCountAppend(calls, [Message(level, message)]);
      calls := calls + [Message(level, message)];
    }

    /** `logError`, `logWarn` and `logInfo` with a context: the composed message at that level. */
    method LogWithContext(level: Level, contextName: Option<string>, messageProvider: string)
      requires Valid()
      requires level == Error || level == Warn || level == Info
      modifies this
      ensures Valid() && warned == old(warned)
      ensures calls == old(calls) + [Message(level, BuildMessageFrom(contextName, Some(messageProvider), None))]
    {
      Log(level, BuildMessageFrom(contextName, Some(messageProvider), None));
    }

    /** `logDebug`: warns once when debug output is off, then forwards the message. */
    method LogDebug(message: string, isDebugEnabled: bool)
      requires Valid()
      modifies this
      ensures Valid() && warned == (old(warned) || !isDebugEnabled)
      ensures calls == old(calls) + (if !isDebugEnabled && !old(warned) then [NotLoggableWarning] else []) + [Message(Debug, message)]
    {
      if !isDebugEnabled {
        WarnNotLoggable();
      }
      Log(Debug, message);
    }

    /** `logTrace`: warns once when debug logging or trace output is off, then forwards the message. */
    method LogTrace(message: string, useDebugLogging: bool, isTraceEnabled: bool)
      requires Valid()
      modifies this
      ensures Valid() && warned == (old(warned) || !useDebugLogging || !isTraceEnabled)
      ensures calls == old(calls) + (if (!useDebugLogging || !isTraceEnabled) && !old(warned) then [NotLoggableWarning] else []) + [Message(Trace, message)]
    {
      if !useDebugLogging || !isTraceEnabled {
        WarnNotLoggable();
      }
      Log(Trace, message);
    }
  }

  /** Whatever sequence of debug calls is made, the warning appears at most once. */
  method DebugSession(messages: seq<string>, isDebugEnabled: bool) returns (calls: seq<LogCall>)
    ensures NotLoggableCount(calls) <= 1
    ensures NotLoggableCount(calls) == 1 <==> !isDebugEnabled && messages != []
  {
    var logger := new Logger();
    var i := 0;
    while i < |messages|
      invariant 0 <= i <= |messages|
      invariant logger.Valid()
      invariant logger.warned <==> !isDebugEnabled && i > 0
    {
      logger.LogDebug(messages[i], isDebugEnabled);
      i := i + 1;
    }
    calls := logger.calls;
  }
}
