/** `blinky/log.py`: a logger whose `logged` and `safe` blocks time a piece
    of work, log how it ended, and decide whether an exception raised
    inside the block is suppressed. Console output is kept as a list of
    lines; the clock is the caller's. */
module Log {
  import opened Values

  /** An exception leaving a block: `KeyboardInterrupt`, or any other. */
  datatype Exc = Interrupt | Raised(error: Error)

  datatype LogLine =
    /** `TRACE: <message>` */
    | TraceLine(text: string)
    /** `ERROR: <message>: Exception in <ms>ms` */
    | Failed(message: string, ms: int)
    /** the exception's traceback, printed by the machine */
    | ExceptionDump(exc: Exc)
    /** `TRACE: <message>: Complete in <ms>ms` */
    | Completed(message: string, ms: int)

  /** The value `__exit__` returns: a `KeyboardInterrupt` is never
      suppressed; anything else is suppressed exactly in a safe block. */
  function Suppresses(exc: Option<Exc>, safe: bool): (r: bool)
    ensures r <==> safe && exc != Some(Interrupt)
  {
    match exc
    case Some(Interrupt) => false
    case _ => safe
  }

  /** The lines `__exit__` logs for a block that took `ms` milliseconds. */
  function ExitLines(message: string, exc: Option<Exc>, ms: int): (r: seq<LogLine>)
    ensures exc == Some(Interrupt) <==> r == []
    ensures exc == None ==> r == [Completed(message, ms)]
    ensures exc.Some? && exc.value.Raised? ==> r == [Failed(message, ms), ExceptionDump(exc.value)]
  {
    match exc
    case None => [Completed(message, ms)]
    case Some(Interrupt) => []
    case Some(e) => [Failed(message, ms), ExceptionDump(e)]
  }

  class Logger {
    /** What has been printed, oldest first. */
    var lines: seq<LogLine>

    constructor()
      ensures lines == []
    {
      lines := [];
    }

    /** `logged(message)`: a block that does not suppress. */
    method Logged(message: string) returns (b: LoggedBlock)
      ensures fresh(b) && b.logger == this && b.message == message && !b.safe
    {
      b := new LoggedBlock(this, message, false);
    }

    /** `safe(message)`: a block that suppresses. */
    method Safe(message: string) returns (b: LoggedBlock)
      ensures fresh(b) && b.logger == this && b.message == message && b.safe
    {
      b := new LoggedBlock(this, message, true);
    }
  }

  class LoggedBlock {
    const logger: Logger
    const message: string
    const safe: bool
    /** The tick count when the block was entered. */
    var start: int

    constructor(logger: Logger, message: string, safe: bool)
      ensures this.logger == logger && this.message == message && this.safe == safe
    {
      this.logger := logger;
      this.message := message;
      this.safe := safe;
    }

    /** `__enter__`: traces the message, then records the clock reading
        `now` (the machine's `ticks()`). */
    method Enter(now: int)
      modifies this, logger
      ensures logger.lines == old(logger.lines) + [TraceLine(message)]
      ensures start == now
    {
      logger.lines := logger.lines + [TraceLine(message)];
      start := now;
    }

    /** `__exit__`: `now` is the clock reading at exit and `ticksDiff` the
        machine's `ticks_diff`, so the reported duration is
        `ticks_diff(now, start)`. Returns whether the exception, if any, is
        suppressed. */
    method Exit(exc: Option<Exc>, now: int, ticksDiff: (int, int) -> int) returns (suppress: bool)
      modifies logger
      ensures suppress == Suppresses(exc, safe)
      ensures logger.lines == old(logger.lines) + ExitLines(message, exc, ticksDiff(now, start))
    {
      var duration := ticksDiff(now, start);
      if exc.Some? {
        if exc.value.Interrupt? {
          return false;
        }
        logger.lines := logger.lines + [Failed(message, duration)];
        logger.lines := logger.lines + [ExceptionDump(exc.value)];
      } else {
        logger.lines := logger.lines + [Completed(message, duration)];
      }
      return safe;
    }
  }

  /** `with block: <body>` where the body ends with `exc` (None when it
      completes): the block traces its message on entry, logs how it ended
      with the time between the two clock readings, and says whether `exc`
      is swallowed. */
  method WithBlock(b: LoggedBlock, exc: Option<Exc>, entered: int, left: int, ticksDiff: (int, int) -> int)
    returns (suppress: bool)
    modifies b, b.logger
    ensures suppress == Suppresses(exc, b.safe)
    ensures b.logger.lines
            == old(b.logger.lines) + [TraceLine(b.message)] + ExitLines(b.message, exc, ticksDiff(left, entered))
  {
    b.Enter(entered);
    suppress := b.Exit(exc, left, ticksDiff);
  }
}
