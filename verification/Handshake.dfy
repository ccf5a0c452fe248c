/**
 * The ready handshake over a stream socket.  A connection is modelled by what its reads will meet:
 * chunks of any size, an end of stream, or the deadline.
 */
module Handshake {
  import opened Wrappers

  const READY_MESSAGE := "ready!"
  const PROBE_MESSAGE := "ready?"

  datatype Arrival = Chunk(data: string) | StreamEnd | DeadlineHit

  datatype IoError = EndOfStream | UnexpectedEnd | TimedOut | Refused

  // The bytes that arrive before the stream ends or the deadline fires.
  function Stream(arrivals: seq<Arrival>): string {
    if arrivals == [] || !arrivals[0].Chunk? then ""
    else arrivals[0].data + Stream(arrivals[1..])
  }

  // What stops the stream; with nothing more to come it is the deadline.
  function Ending(arrivals: seq<Arrival>): IoError {
    if arrivals == [] || arrivals[0].DeadlineHit? then TimedOut
    else if arrivals[0].StreamEnd? then EndOfStream
    else Ending(arrivals[1..])
  }

  class Conn {
    var arrivals: seq<Arrival>
    var sent: string
    var deadlineRefused: bool
    var writeError: Option<IoError>

    // One Read into a buffer of `room` bytes: at most one chunk, the rest of which stays queued.
    method Read(room: nat) returns (data: string, err: Option<IoError>)
      requires room > 0
      modifies `arrivals
      ensures |data| <= room
      ensures err.None? ==> old(arrivals) != [] && Stream(old(arrivals)) == data + Stream(arrivals)
      ensures err.None? ==> Ending(old(arrivals)) == Ending(arrivals)
      ensures err.None? ==> |arrivals| < |old(arrivals)| || (|arrivals| == |old(arrivals)| && |data| == room)
      ensures err.Some? ==> data == "" && Stream(old(arrivals)) == "" && err.value == Ending(old(arrivals))
    {
      if arrivals == [] || arrivals[0].DeadlineHit? {
        return "", Some(TimedOut);
      }
      if arrivals[0].StreamEnd? {
        return "", Some(EndOfStream);
      }
      var chunk := arrivals[0].data;
      if |chunk| <= room {
        data := chunk;
        arrivals := arrivals[1..];
      } else {
        data := chunk[..room];
        ghost var was := arrivals;
        arrivals := [Chunk(chunk[room..])] + arrivals[1..];
        assert arrivals[1..] == was[1..];
        assert chunk == data + chunk[room..];
      }
      err := None;
    }

    method Write(data: string) returns (err: Option<IoError>)
      modifies `sent
      ensures err == writeError
      ensures sent == if err.None? then old(sent) + data else old(sent)
    {
      if writeError.None? {
        sent := sent + data;
      }
      err := writeError;
    }
  }

  // What reading exactly n bytes gives, from the byte stream alone.
  function ExactRead(stream: string, ending: IoError, n: nat): Result<string, IoError> {
    if |stream| >= n then Ok(stream[..n])
    else if ending == EndOfStream && stream != "" then Err(UnexpectedEnd)
    else Err(ending)
  }

  // Loops until the buffer is full or a read fails.  However the bytes are cut up, the result is
  // the first n of them, and nothing past them is consumed.
  method ReadExactN(conn: Conn, n: nat) returns (r: Result<string, IoError>)
    modifies conn`arrivals
    ensures r == ExactRead(Stream(old(conn.arrivals)), Ending(old(conn.arrivals)), n)
    ensures r.Ok? ==> r.value + Stream(conn.arrivals) == Stream(old(conn.arrivals))
  {
    hide Stream, Ending;
    var buf := "";
    while |buf| < n
      invariant |buf| <= n
      invariant buf + Stream(conn.arrivals) == Stream(old(conn.arrivals))
      invariant Ending(conn.arrivals) == Ending(old(conn.arrivals))
      decreases |conn.arrivals|, n - |buf|
    {
      var data, err := conn.Read(n - |buf|);
      if err.Some? {
        var e := if err.value == EndOfStream && buf != "" then UnexpectedEnd else err.value;
        return Err(e);
      }
      buf := buf + data;
    }
    return Ok(buf);
  }

  datatype HandshakeError =
    | DeadlineNotSet
    | ProbeNotSent(cause: IoError)
    | NoReady(cause: IoError)
    | UnexpectedResponse(got: string)

  // The verdict on a child, from its byte stream alone.
  function Verdict(stream: string, ending: IoError): (v: Result<(), HandshakeError>)
    ensures v.Ok? <==> READY_MESSAGE <= stream
  {
    match ExactRead(stream, ending, |READY_MESSAGE|)
    case Err(e) => Err(NoReady(e))
    case Ok(got) => if got == READY_MESSAGE then Ok(()) else Err(UnexpectedResponse(got))
  }

  method AskReady(conn: Conn) returns (r: Result<(), HandshakeError>)
    modifies conn`arrivals, conn`sent
    ensures r == if conn.deadlineRefused then Err(DeadlineNotSet)
                 else if conn.writeError.Some? then Err(ProbeNotSent(conn.writeError.value))
                 else Verdict(Stream(old(conn.arrivals)), Ending(old(conn.arrivals)))
    ensures r.Ok? ==> READY_MESSAGE + Stream(conn.arrivals) == Stream(old(conn.arrivals))
    ensures conn.sent == if conn.deadlineRefused || conn.writeError.Some? then old(conn.sent)
                         else old(conn.sent) + PROBE_MESSAGE
  {
    if conn.deadlineRefused {
      return Err(DeadlineNotSet);
    }
    var err := conn.Write(PROBE_MESSAGE);
    if err.Some? {
      return Err(ProbeNotSent(err.value));
    }
    var got := ReadExactN(conn, |READY_MESSAGE|);
    if got.Err? {
      return Err(NoReady(got.error));
    }
    if got.value != READY_MESSAGE {
      return Err(UnexpectedResponse(got.value));
    }
    return Ok(());
  }

  // The child's side: drain a probe's length, then answer.  Only a full probe is answered.
  method RespondReady(conn: Conn) returns (ok: bool)
    modifies conn`arrivals, conn`sent
    ensures ok <==> !conn.deadlineRefused && |Stream(old(conn.arrivals))| >= |PROBE_MESSAGE| && conn.writeError.None?
    ensures conn.sent == if ok then old(conn.sent) + READY_MESSAGE else old(conn.sent)
  {
    if conn.deadlineRefused {
      return false;
    }
    var probe := ReadExactN(conn, |PROBE_MESSAGE|);
    if probe.Err? {
      return false;
    }
    var err := conn.Write(READY_MESSAGE);
    return err.None?;
  }

  // Cutting one chunk in two, anywhere, changes neither the bytes nor what ends them; hence it
  // changes no verdict.
  lemma {:induction false} FragmentationIrrelevant(before: seq<Arrival>, a: string, b: string, rest: seq<Arrival>)
    ensures Stream(before + [Chunk(a + b)] + rest) == Stream(before + [Chunk(a), Chunk(b)] + rest)
    ensures Ending(before + [Chunk(a + b)] + rest) == Ending(before + [Chunk(a), Chunk(b)] + rest)
  {
    var whole, cut := before + [Chunk(a + b)] + rest, before + [Chunk(a), Chunk(b)] + rest;
    if before == [] {
      assert whole[1..] == rest;
      assert cut[1..] == [Chunk(b)] + rest && cut[1..][1..] == rest;
    } else {
      assert whole[1..] == before[1..] + [Chunk(a + b)] + rest;
      assert cut[1..] == before[1..] + [Chunk(a), Chunk(b)] + rest;
      FragmentationIrrelevant(before[1..], a, b, rest);
    }
  }

  function Chunks(data: seq<string>): seq<Arrival> {
    seq(|data|, i requires 0 <= i < |data| => Chunk(data[i]))
  }

  function Concat(data: seq<string>): string {
    if data == [] then "" else data[0] + Concat(data[1..])
  }

  // The stream is what the chunks before the first other arrival add up to; that arrival ends it, and
  // without one the deadline does.
  lemma {:induction false} StreamTerms(data: seq<string>, rest: seq<Arrival>)
    requires rest == [] || !rest[0].Chunk?
    ensures Stream(Chunks(data) + rest) == Concat(data)
    ensures Ending(Chunks(data) + rest) == if rest != [] && rest[0] == StreamEnd then EndOfStream else TimedOut
  {
    if data == [] {
      assert Chunks(data) + rest == rest;
    } else {
      assert (Chunks(data) + rest)[1..] == Chunks(data[1..]) + rest;
      StreamTerms(data[1..], rest);
    }
  }

  // Six bytes decide: they are the message, or reported as they are.  A stream that ends before is
  // cut off if it had begun.
  lemma VerdictTerms(stream: string, ending: IoError)
    ensures |stream| >= 6 ==>
              Verdict(stream, ending)
                == if stream[..6] == "ready!" then Ok(()) else Err(UnexpectedResponse(stream[..6]))
    ensures |stream| < 6 ==>
              Verdict(stream, ending)
                == Err(NoReady(if ending == EndOfStream && stream != "" then UnexpectedEnd else ending))
    ensures PROBE_MESSAGE == "ready?"
  {
  }

  // Parent and child put together: the parent accepts exactly when its probe went out and the
  // child answered, or whatever the child writes later happens to start with the ready message.
  method Exchange(parent: Conn, child: Conn, later: string) returns (answered: bool, r: Result<(), HandshakeError>)
    requires parent != child
    requires parent.sent == child.sent == "" && parent.arrivals == [] && child.arrivals == []
    modifies parent`arrivals, parent`sent, child`arrivals, child`sent
    ensures var asks := !parent.deadlineRefused && parent.writeError.None?;
            && (answered <==> asks && !child.deadlineRefused && child.writeError.None?)
            && (r.Ok? <==> asks && (answered || READY_MESSAGE <= later))
            && parent.sent == (if asks then PROBE_MESSAGE else "")
  {
    // What the parent is about to send is what the child will find.
    child.arrivals := if !parent.deadlineRefused && parent.writeError.None? then [Chunk(PROBE_MESSAGE)] else [];
    assert Stream(child.arrivals) == if child.arrivals == [] then "" else PROBE_MESSAGE;
    answered := RespondReady(child);
    parent.arrivals := [Chunk(child.sent), Chunk(later)];
    assert parent.arrivals[1..] == [Chunk(later)] && parent.arrivals[1..][1..] == [];
    assert Stream(parent.arrivals) == child.sent + later;
    r := AskReady(parent);
  }

  // ----- Waiting for in-flight requests -----

  // One wake-up of the polling loop, with the counter value it loads.
  datatype Wake = Tick(active: int) | Deadline(active: int)

  datatype DrainResult = Drained | DeadlineExceeded(active: int) | StillWaiting

  ghost predicate BusyTicks(wakes: seq<Wake>, k: nat)
    requires k <= |wakes|
  {
    forall j :: 0 <= j < k ==> wakes[j].Tick? && wakes[j].active != 0
  }

  // Drained exactly when a zero was loaded before the deadline was seen (or at it); a deadline is
  // reported only with a non-zero count.
  method WaitForDrain(first: int, wakes: seq<Wake>) returns (r: DrainResult)
    ensures r.Drained? <==> first == 0 || exists k :: 0 <= k < |wakes| && BusyTicks(wakes, k) && wakes[k].active == 0
    ensures r.DeadlineExceeded? <==>
              && first != 0
              && exists k :: 0 <= k < |wakes| && BusyTicks(wakes, k) && wakes[k].Deadline? && wakes[k].active != 0
    ensures r.DeadlineExceeded? ==> exists k :: 0 <= k < |wakes| && wakes[k] == Deadline(r.active)
    ensures r.StillWaiting? ==> first != 0 && BusyTicks(wakes, |wakes|)
  {
    if first == 0 {
      return Drained;
    }
    for i := 0 to |wakes|
      invariant BusyTicks(wakes, i)
    {
      match wakes[i] {
        case Deadline(n) =>
          if n == 0 {
            return Drained;
          }
          return DeadlineExceeded(n);
        case Tick(n) =>
          if n == 0 {
            return Drained;
          }
      }
    }
    return StillWaiting;
  }
}
