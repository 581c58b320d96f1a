/** captureBody: reading the start of a body for the log without changing what its consumer
    will read. A body hands out its bytes in chunks of its own choosing and ends with EOF or
    an error, delivered with the last bytes or after them. */
module Capture {
  import opened Text

  type byte = bv8

  datatype End = EOF | Failure(code: int)

  /** What one Read returns: bytes, and the end when it has been reached. */
  datatype Chunk = More(bytes: seq<byte>) | Last(bytes: seq<byte>, end: End)

  function Take(s: seq<byte>, n: nat): seq<byte> {
    if n < |s| then s[..n] else s
  }

  /** A body: what is left of it, its end, and how it answers each Read. */
  class Source {
    var rest: seq<byte>
    const end: End
    const size: nat -> nat
    const eager: nat -> bool
    var turn: nat
    var closes: nat

    constructor (bytes: seq<byte>, end: End, size: nat -> nat, eager: nat -> bool)
      ensures rest == bytes && this.end == end && turn == 0 && closes == 0
    {
      rest, this.end, this.size, this.eager, turn, closes := bytes, end, size, eager, 0, 0;
    }

    method Read(space: nat) returns (r: Chunk)
      requires space > 0
      modifies this`rest, this`turn
      ensures |r.bytes| <= space && r.bytes + rest == old(rest)
      ensures r.More? ==> r.bytes != []
      ensures r.Last? ==> rest == [] && r.end == end
    {
      var n := if size(turn) == 0 then 1 else size(turn);
      var bytes := Take(rest, if n < space then n else space);
      var atEnd := |bytes| == |rest| && (rest == [] || eager(turn));
      rest := rest[|bytes|..];
      turn := turn + 1;
      return if atEnd then Last(bytes, end) else More(bytes);
    }

    method Close()
      modifies this`closes
      ensures closes == old(closes) + 1
    {
      closes := closes + 1;
    }
  }

  /** io.ReadAll over io.LimitReader: the bytes, and the error that stopped it, if it was not
      EOF or the limit. `room` is the space of the growing buffer. */
  method ReadLimited(body: Source, limit: int, room: nat -> nat) returns (bytes: seq<byte>, end: End)
    modifies body`rest, body`turn
    ensures bytes + body.rest == old(body.rest)
    ensures |bytes| <= if limit < 0 then 0 else limit
    ensures end.Failure? ==> body.rest == [] && end == body.end
    ensures end.EOF? ==> |bytes| >= limit || (body.rest == [] && body.end == EOF)
  {
    bytes, end := [], EOF;
    var calls := 0;
    while |bytes| < limit
      invariant bytes + body.rest == old(body.rest)
      invariant |bytes| <= if limit < 0 then 0 else limit
      decreases limit - |bytes|
    {
      var left := limit - |bytes|;
      var space := if room(calls) == 0 then 1 else room(calls);
      var r := body.Read(if space < left then space else left);
      calls := calls + 1;
      ghost var before := bytes;
      bytes := bytes + r.bytes;
      assert bytes + body.rest == before + (r.bytes + body.rest);
      if r.Last? {
        end := r.end;
        return;
      }
    }
  }

  /** What follows the captured bytes in the replacement. */
  datatype Tail = Nothing | Broken(code: int) | Rest

  /** The reader that takes the place of the body. */
  class Replacement {
    const body: Source
    const tail: Tail
    var captured: seq<byte>

    constructor (body: Source, captured: seq<byte>, tail: Tail)
      ensures this.body == body && this.captured == captured && this.tail == tail
    {
      this.body, this.captured, this.tail := body, captured, tail;
    }

    /** The bytes it will still hand out. */
    ghost function Remaining(): seq<byte>
      reads this, body
    {
      captured + if tail.Rest? then body.rest else []
    }

    ghost function Ending(): End
      reads this, body
    {
      match tail
      case Nothing => EOF
      case Broken(code) => Failure(code)
      case Rest => body.end
    }

    /** The captured bytes first, then what follows them. */
    method Read(space: nat) returns (r: Chunk)
      requires space > 0
      modifies this`captured, body`rest, body`turn
      ensures |r.bytes| <= space && r.bytes + Remaining() == old(Remaining())
      ensures r.More? ==> r.bytes != []
      ensures r.Last? ==> Remaining() == [] && r.end == Ending()
    {
      if captured != [] {
        r := More(Take(captured, space));
        captured := captured[|r.bytes|..];
        return;
      }
      match tail {
        case Nothing => return Last([], EOF);
        case Broken(code) => return Last([], Failure(code));
        case Rest => r := body.Read(space);
      }
    }

    /** Closing it closes the body. */
    method Close()
      modifies body`closes
      ensures body.closes == old(body.closes) + 1
    {
      body.Close();
    }
  }

  /** captureBody. Reading the replacement gives the bytes and the end that the body would
      have given; at most one byte over the limit is read ahead; and the body counts as
      captured exactly when all of it fits the limit and it ends without error. The limit of
      2^63 - 1, which cannot be exceeded by one, is the exception: there a body that reaches
      it is cut off and counts as captured, unless it ends right there and says so with its
      last bytes. */
  method CaptureBody(body: Source, limit: int, room: nat -> nat)
    returns (captured: seq<byte>, replacement: Replacement, complete: bool)
    requires IsInt64(limit)
    modifies body`rest, body`turn
    ensures fresh(replacement) && replacement.body == body
    ensures captured + body.rest == old(body.rest)
    ensures |captured| <= (if limit < 0 then 0 else if limit < MAX_INT64 then limit + 1 else limit)
    ensures limit < MAX_INT64 || |old(body.rest)| < MAX_INT64 ==>
      && replacement.Remaining() == old(body.rest) && replacement.Ending() == body.end
      && (complete <==> |old(body.rest)| <= limit && body.end == EOF)
      && (complete ==> captured == old(body.rest))
    ensures limit == MAX_INT64 && |old(body.rest)| >= MAX_INT64 ==>
      && replacement.Remaining() == captured == old(body.rest)[..limit]
      && (complete <==> replacement.Ending() == EOF)
      && (replacement.Ending() == EOF || (replacement.Ending() == body.end && |old(body.rest)| == limit))
  {
    var end: End;
    captured, end := ReadLimited(body, if limit < MAX_INT64 then limit + 1 else limit, room);
    if end.Failure? {
      replacement := new Replacement(body, captured, Broken(end.code));
    } else if |captured| > limit {
      replacement := new Replacement(body, captured, Rest);
    } else {
      replacement := new Replacement(body, captured, Nothing);
    }
    complete := end.EOF? && |captured| <= limit;
  }

  /** Draining a reader through any sequence of reads: what a consumer sees in all. */
  method Drain(replacement: Replacement, room: nat -> nat) returns (bytes: seq<byte>, end: End)
    modifies replacement`captured, replacement.body`rest, replacement.body`turn
    ensures bytes == old(replacement.Remaining()) && end == replacement.Ending() == old(replacement.Ending())
  {
    bytes := [];
    var calls := 0;
    while true
      invariant bytes + replacement.Remaining() == old(replacement.Remaining())
      decreases |replacement.Remaining()|
    {
      var r := replacement.Read(if room(calls) == 0 then 1 else room(calls));
      calls := calls + 1;
      ghost var before := bytes;
      bytes := bytes + r.bytes;
      assert bytes + replacement.Remaining() == before + (r.bytes + replacement.Remaining());
      if r.Last? {
        end := r.end;
        return;
      }
    }
  }
}
