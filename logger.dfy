/**
 * The logger: a global severity threshold, a log file opened on first use,
 * and one filter per severity. Whether opening the file succeeds is given
 * to the model; timestamps and the text layout of a line are not modelled.
 */
module Logger {

  const LOG_LEVEL_DEBUG: int := 10
  const LOG_LEVEL_INFO: int := 20
  const LOG_LEVEL_WARNING: int := 30
  const LOG_LEVEL_ERROR: int := 40
  const LOG_LEVEL_FATAL: int := 50

  /** A line written to the log file: its severity label and message. */
  datatype LogEntry = LogEntry(severity: string, message: string)

  /** check_level against a threshold: a message passes when its severity is at least the threshold. */
  predicate Passes(threshold: int, severity: int)
  {
    severity >= threshold
  }

  /** A threshold set_log_level accepts. */
  predicate ValidLevel(level: int)
  {
    LOG_LEVEL_DEBUG <= level <= LOG_LEVEL_FATAL
  }

  /** Within the accepted range, fatal messages always pass, and the threshold is the least severity that does. */
  lemma FatalAlwaysPasses(threshold: int)
    requires ValidLevel(threshold)
    ensures Passes(threshold, LOG_LEVEL_FATAL)
    ensures forall s :: Passes(threshold, s) <==> s >= threshold
  {
  }

  /** At the default INFO threshold, debug is suppressed and info, warning, error and fatal pass. */
  lemma DefaultFilters()
    ensures !Passes(LOG_LEVEL_INFO, LOG_LEVEL_DEBUG)
    ensures Passes(LOG_LEVEL_INFO, LOG_LEVEL_INFO) && Passes(LOG_LEVEL_INFO, LOG_LEVEL_WARNING)
    ensures Passes(LOG_LEVEL_INFO, LOG_LEVEL_ERROR) && Passes(LOG_LEVEL_INFO, LOG_LEVEL_FATAL)
  {
  }

  /**
   * Whether the log file is open after ensure_log_file: an initialised
   * logger keeps the outcome of its one attempt, otherwise `opens` decides.
   */
  function OpenAfter(wasInitialized: bool, wasOpen: bool, opens: bool): bool
  {
    if wasInitialized then wasOpen else opens
  }

  /** The logger's global state: LEVEL, log_file and log_file_initialized. */
  class Logger {
    var level: int
    var fileInitialized: bool
    var fileOpen: bool
    /** How many times fopen has been attempted. */
    ghost var openAttempts: nat
    /** The lines written to logs/log1.log. */
    var fileLines: seq<LogEntry>
    /** The messages log_fatal also printed on stdout. */
    var consoleLines: seq<string>

    /** The threshold stays in range, and the file is opened at most once, exactly when initialised. */
    ghost predicate Valid()
      reads this
    {
      ValidLevel(level)
      && openAttempts <= 1
      && (fileInitialized <==> openAttempts == 1)
      && (fileOpen ==> fileInitialized)
      && (!fileOpen ==> fileLines == [])
    }

    /** Program start: LEVEL is INFO and no file is open. */
    constructor ()
      ensures Valid()
      ensures level == LOG_LEVEL_INFO && !fileInitialized && !fileOpen
      ensures fileLines == [] && consoleLines == []
    {
      level := LOG_LEVEL_INFO;
      fileInitialized := false;
      fileOpen := false;
      openAttempts := 0;
      fileLines := [];
      consoleLines := [];
    }

    /** check_level */
    function CheckLevel(severity: int): (pass: bool)
      reads this
      ensures pass <==> Passes(level, severity)
    {
      severity >= level
    }

    /** set_log_level: a level outside [DEBUG, FATAL] is rejected and the threshold kept. */
    method SetLogLevel(newLevel: int)
      requires Valid()
      modifies this
      ensures Valid()
      ensures ValidLevel(newLevel) ==> level == newLevel
      ensures !ValidLevel(newLevel) ==> level == old(level)
      ensures fileInitialized == old(fileInitialized) && fileOpen == old(fileOpen)
      ensures openAttempts == old(openAttempts)
      ensures fileLines == old(fileLines) && consoleLines == old(consoleLines)
    {
      if newLevel < LOG_LEVEL_DEBUG || newLevel > LOG_LEVEL_FATAL {
        return;
      }
      level := newLevel;
    }

    /**
     * ensure_log_file: the first call marks the file initialised and tries
     * to open it (`opens` says whether fopen succeeds); later calls do
     * nothing, even when that attempt failed.
     */
    method EnsureLogFile(opens: bool)
      requires Valid()
      modifies this
      ensures Valid() && fileInitialized
      ensures old(fileInitialized) ==> fileOpen == old(fileOpen) && openAttempts == old(openAttempts)
      ensures !old(fileInitialized) ==> fileOpen == opens && openAttempts == 1
      ensures level == old(level) && fileLines == old(fileLines) && consoleLines == old(consoleLines)
    {
      if fileInitialized {
        return;
      }
      fileInitialized := true;
      openAttempts := openAttempts + 1;
      fileOpen := opens;
    }

    /** log_message: a line goes to the file when the file is open. */
    method LogMessage(severity: string, message: string, opens: bool)
      requires Valid()
      modifies this
      ensures Valid() && fileInitialized
      ensures old(fileInitialized) ==> fileOpen == old(fileOpen) && openAttempts == old(openAttempts)
      ensures !old(fileInitialized) ==> fileOpen == opens && openAttempts == 1
      ensures fileLines == old(fileLines) + (if fileOpen then [LogEntry(severity, message)] else [])
      ensures level == old(level) && consoleLines == old(consoleLines)
    {
      EnsureLogFile(opens);
      if fileOpen {
        fileLines := fileLines + [LogEntry(severity, message)];
      }
    }

    /** The shared body of the per-severity functions: log only when the severity passes. */
    method LogAt(severity: int, name: string, message: string, opens: bool)
      requires Valid()
      modifies this
      ensures Valid()
      ensures !Passes(level, severity) ==>
        (fileLines == old(fileLines) && fileInitialized == old(fileInitialized)
         && fileOpen == old(fileOpen) && openAttempts == old(openAttempts))
      ensures Passes(level, severity) ==>
        (fileInitialized && fileOpen == OpenAfter(old(fileInitialized), old(fileOpen), opens)
         && openAttempts == 1
         && fileLines == old(fileLines) + (if fileOpen then [LogEntry(name, message)] else []))
      ensures level == old(level) && consoleLines == old(consoleLines)
    {
      if CheckLevel(severity) {
        LogMessage(name, message, opens);
      }
    }

    method LogDebug(message: string, opens: bool)
      requires Valid()
      modifies this
      ensures Valid()
      ensures !Passes(level, LOG_LEVEL_DEBUG) ==>
        (fileLines == old(fileLines) && fileInitialized == old(fileInitialized)
         && fileOpen == old(fileOpen) && openAttempts == old(openAttempts))
      ensures Passes(level, LOG_LEVEL_DEBUG) ==>
        (fileInitialized && fileOpen == OpenAfter(old(fileInitialized), old(fileOpen), opens)
         && openAttempts == 1
         && fileLines == old(fileLines) + (if fileOpen then [LogEntry("DEBUG", message)] else []))
      ensures level == old(level) && consoleLines == old(consoleLines)
    {
      LogAt(LOG_LEVEL_DEBUG, "DEBUG", message, opens);
    }

    method LogInfo(message: string, opens: bool)
      requires Valid()
      modifies this
      ensures Valid()
      ensures !Passes(level, LOG_LEVEL_INFO) ==>
        (fileLines == old(fileLines) && fileInitialized == old(fileInitialized)
         && fileOpen == old(fileOpen) && openAttempts == old(openAttempts))
      ensures Passes(level, LOG_LEVEL_INFO) ==>
        (fileInitialized && fileOpen == OpenAfter(old(fileInitialized), old(fileOpen), opens)
         && openAttempts == 1
         && fileLines == old(fileLines) + (if fileOpen then [LogEntry("INFO", message)] else []))
      ensures level == old(level) && consoleLines == old(consoleLines)
    {
      LogAt(LOG_LEVEL_INFO, "INFO", message, opens);
    }

    method LogWarning(message: string, opens: bool)
      requires Valid()
      modifies this
      ensures Valid()
      ensures !Passes(level, LOG_LEVEL_WARNING) ==>
        (fileLines == old(fileLines) && fileInitialized == old(fileInitialized)
         && fileOpen == old(fileOpen) && openAttempts == old(openAttempts))
      ensures Passes(level, LOG_LEVEL_WARNING) ==>
        (fileInitialized && fileOpen == OpenAfter(old(fileInitialized), old(fileOpen), opens)
         && openAttempts == 1
         && fileLines == old(fileLines) + (if fileOpen then [LogEntry("WARNING", message)] else []))
      ensures level == old(level) && consoleLines == old(consoleLines)
    {
      LogAt(LOG_LEVEL_WARNING, "WARNING", message, opens);
    }

    method LogError(message: string, opens: bool)
      requires Valid()
      modifies this
      ensures Valid()
      ensures !Passes(level, LOG_LEVEL_ERROR) ==>
        (fileLines == old(fileLines) && fileInitialized == old(fileInitialized)
         && fileOpen == old(fileOpen) && openAttempts == old(openAttempts))
      ensures Passes(level, LOG_LEVEL_ERROR) ==>
        (fileInitialized && fileOpen == OpenAfter(old(fileInitialized), old(fileOpen), opens)
         && openAttempts == 1
         && fileLines == old(fileLines) + (if fileOpen then [LogEntry("ERROR", message)] else []))
      ensures level == old(level) && consoleLines == old(consoleLines)
    {
      LogAt(LOG_LEVEL_ERROR, "ERROR", message, opens);
    }

    /** log_fatal: always passes the filter, goes to the file if it is open and always to the console. */
    method LogFatal(message: string, opens: bool)
      requires Valid()
      modifies this
      ensures Valid() && fileInitialized
      ensures fileOpen == OpenAfter(old(fileInitialized), old(fileOpen), opens) && openAttempts == 1
      ensures fileLines == old(fileLines) + (if fileOpen then [LogEntry("FATAL", message)] else [])
      ensures consoleLines == old(consoleLines) + [message]
      ensures level == old(level)
    {
      FatalAlwaysPasses(level);
      if CheckLevel(LOG_LEVEL_FATAL) {
        LogMessage("FATAL", message, opens);
        consoleLines := consoleLines + [message];
      }
    }
  }

  /**
   * The log file is opened at most once: when the first message's fopen
   * fails, later messages reach no file even when fopen would now succeed,
   * while log_fatal still prints on the console.
   */
  method FailedOpenStaysClosed(message: string) returns (fileLines: seq<LogEntry>, consoleLines: seq<string>)
    ensures fileLines == [] && consoleLines == [message]
  {
    var log := new Logger();
    log.LogError(message, false);
    log.LogInfo(message, true);
    log.LogFatal(message, true);
    fileLines, consoleLines := log.fileLines, log.consoleLines;
  }

  /**
   * With the file open and the default threshold, an info message is
   * written, a debug message is filtered out, and a fatal message is both
   * written and printed.
   */
  method DefaultThresholdWrites(info: string, debug: string, fatal: string)
    returns (fileLines: seq<LogEntry>, consoleLines: seq<string>)
    ensures fileLines == [LogEntry("INFO", info), LogEntry("FATAL", fatal)]
    ensures consoleLines == [fatal]
  {
    var log := new Logger();
    log.LogInfo(info, true);
    log.LogDebug(debug, false);
    log.LogFatal(fatal, false);
    fileLines, consoleLines := log.fileLines, log.consoleLines;
  }
}
