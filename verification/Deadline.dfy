/** Chain constraints: the request deadline, its header codec, and what a service imports
    from the headers of an inbound request. Times are nanoseconds since the Unix epoch. */
module Deadline {
  import opened Wrappers
  import opened Text
  import opened Policy

  /** The chain headers of a request; an absent header is the empty string. */
  datatype Headers = Headers(noMoreRetry: string, requestDeadline: string)

  /** The part of a request context the transport looks at. */
  datatype Context = Context(noMoreRetry: bool, deadline: Option<int>)

  /** Truncation to whole milliseconds, towards the past. */
  function FloorMs(t: int): int {
    t / MILLISECOND * MILLISECOND
  }

  /** Times whose millisecond count fits the header's 64-bit integer. */
  predicate Encodable(t: int) {
    IsInt64(t / MILLISECOND)
  }

  function FormatDeadline(t: int): string {
    FormatInt(t / MILLISECOND)
  }

  function ParseDeadline(value: string): Option<int> {
    if value == "" then None
    else match ParseInt(Trim(value))
      case None => None
      case Some(ms) => Some(ms * MILLISECOND)
  }

  /** A deadline header counts milliseconds; anything that is no number is no deadline. */
  lemma HeaderCountsMilliseconds(value: string)
    ensures ParseDeadline(value).Some? <==> value != "" && ParseInt(Trim(value)).Some?
    ensures ParseDeadline(value).Some? ==> ParseDeadline(value).value == ParseInt(Trim(value)).value * 1_000_000
  {
    hide ParseInt, Trim;
  }

  lemma FloorIsNear(t: int)
    ensures t - MILLISECOND < FloorMs(t) <= t
    ensures FloorMs(t) / MILLISECOND == t / MILLISECOND && FloorMs(FloorMs(t)) == FloorMs(t)
  {
  }

  lemma EncodingNotEmpty(t: int)
    ensures FormatDeadline(t) != ""
  {
    hide DigitsOf;
  }

  /** What crosses the wire is the deadline rounded down to its millisecond: never later,
      and less than a millisecond earlier. */
  lemma DeadlineRoundTrip(t: int)
    requires Encodable(t)
    ensures ParseDeadline(FormatDeadline(t)) == Some(FloorMs(t))
    ensures t - MILLISECOND < FloorMs(t) <= t
    ensures FloorMs(FloorMs(t)) == FloorMs(t) && Encodable(FloorMs(t))
  {
    FloorIsNear(t);
    ParseOfFormat(t / MILLISECOND);
    EncodingNotEmpty(t);
    hide FormatInt, ParseInt, Trim;
  }

  function Earlier(a: Option<int>, b: Option<int>): Option<int> {
    if a.None? then b
    else if b.None? then a
    else if b.value < a.value then b else a
  }

  /** resolveOverallDeadline: the three sources are consulted in turn. */
  function OverallDeadline(header: string, context: Option<int>, maxElapsed: int, now: int): Option<int> {
    var fromHeader := ParseDeadline(header);
    var withContext :=
      if context.Some? && (fromHeader.None? || context.value < fromHeader.value) then context else fromHeader;
    if maxElapsed > 0 && (withContext.None? || now + maxElapsed < withContext.value) then Some(now + maxElapsed)
    else withContext
  }

  /** Whether `t` is one of the deadlines in force. */
  predicate InForce(t: int, header: string, context: Option<int>, maxElapsed: int, now: int) {
    ParseDeadline(header) == Some(t) || context == Some(t) || (maxElapsed > 0 && t == now + maxElapsed)
  }

  /** The result is the earliest deadline in force, and there is none only when none is. */
  lemma OverallIsEarliest(header: string, context: Option<int>, maxElapsed: int, now: int)
    ensures
      var overall := OverallDeadline(header, context, maxElapsed, now);
      && (overall.Some? ==> InForce(overall.value, header, context, maxElapsed, now))
      && (forall t :: InForce(t, header, context, maxElapsed, now) ==> overall.Some? && overall.value <= t)
  {
    hide ParseDeadline;
  }

  /** ContextWithRetryConstraints: an earlier context deadline is kept. */
  function ImportDeadline(ctx: Option<int>, header: Option<int>): Option<int> {
    if header.None? then ctx
    else if ctx.Some? && !(header.value < ctx.value) then ctx
    else header
  }

  function ImportConstraints(ctx: Context, headers: Headers): Context {
    Context(ctx.noMoreRetry || ParseBoolHeader(headers.noMoreRetry),
            ImportDeadline(ctx.deadline, ParseDeadline(headers.requestDeadline)))
  }

  /** What is imported is never laxer than either side, and no stricter than both. */
  lemma ImportIsEarliest(ctx: Option<int>, header: Option<int>)
    ensures ImportDeadline(ctx, header) == Earlier(ctx, header)
    ensures ctx.Some? || header.Some? ==> ImportDeadline(ctx, header).Some?
    ensures ctx.Some? ==> ImportDeadline(ctx, header).value <= ctx.value
    ensures header.Some? ==> ImportDeadline(ctx, header).value <= header.value
  {
  }

  /** An imported context is flagged when either side is, and ends with the earlier of the two
      deadlines. */
  lemma ImportExactly(ctx: Context, headers: Headers)
    ensures
      var imported := ImportConstraints(ctx, headers);
      && (imported.noMoreRetry <==> ctx.noMoreRetry || EqualUpToCase(Trim(headers.noMoreRetry), "true"))
      && imported.deadline == Earlier(ctx.deadline, ParseDeadline(headers.requestDeadline))
  {
    BoolHeaderExactly(headers.noMoreRetry);
    hide ParseBoolHeader, EqualUpToCase, Trim, ParseDeadline;
  }
}
