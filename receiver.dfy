/**
 * The receiving endpoint of actors-teleport.c: a TCP server whose network
 * thread reads a token from its client in as many pieces as the socket
 * delivers and publishes it in the token monitor, and whose action
 * scheduler moves a published token to the actor's output port.
 */
module Receiver {
  import opened Common
  import opened ClassRegistry
  import opened Rendezvous

  /** What one read() on the client socket gives: some bytes (none at end of stream), or an error. */
  datatype ReadResult = Received(data: seq<byte>) | ReadFailed

  /** The bytes a read delivered; nothing for a failed one. */
  function DataOf(r: ReadResult): (data: seq<byte>) {
    if r.Received? then r.data else []
  }

  /** Everything a run of reads delivered, in order. */
  function Payload(rs: seq<ReadResult>): (bytes: seq<byte>) {
    if rs == [] then [] else DataOf(rs[0]) + Payload(rs[1..])
  }

  lemma {:induction false} PayloadAppend(a: seq<ReadResult>, b: seq<ReadResult>)
    ensures Payload(a + b) == Payload(a) + Payload(b)
  {
    if a == [] {
      assert a + b == b;
    } else {
      assert (a + b)[0] == a[0];
      assert (a + b)[1..] == a[1..] + b;
      PayloadAppend(a[1..], b);
    }
  }

  /** The bytes of the first `k + 1` results are those of the first `k` and then the `k`-th's. */
  lemma PayloadExtend(rs: seq<ReadResult>, k: nat)
    requires k < |rs|
    ensures Payload(rs[..k + 1]) == Payload(rs[..k]) + DataOf(rs[k])
  {
    assert rs[..k + 1] == rs[..k] + [rs[k]];
    PayloadAppend(rs[..k], [rs[k]]);
    assert Payload([rs[k]]) == DataOf(rs[k]) + Payload([]);
  }

  /** What one pass through the body of the read loop makes of `bytesRead`. */
  datatype ReadStepResult = Accumulated(bytesRead: nat) | ConnectionLost

  /**
   * The read loop's body as actors-teleport.c:197-206 writes it: every
   * non-negative status, zero included, is added to `bytesRead`.
   */
  function ReadStepAsWritten(bytesRead: nat, r: ReadResult): (step: ReadStepResult)
    ensures step.ConnectionLost? <==> r.ReadFailed?
    ensures step.Accumulated? ==> step.bytesRead == bytesRead + |DataOf(r)|
  {
    match r
    case ReadFailed => ConnectionLost
    case Received(data) => Accumulated(bytesRead + |data|)
  }

  /**
   * The read loop's body with the end of stream recognised: a read that
   * asked for at least one byte and got none means the client has closed
   * the connection, and is treated like a read error.
   */
  function ReadStep(bytesRead: nat, tokenSize: nat, r: ReadResult): (step: ReadStepResult)
    ensures step.ConnectionLost? <==> r.ReadFailed? || (DataOf(r) == [] && bytesRead < tokenSize)
    ensures step.Accumulated? ==> step.bytesRead == bytesRead + |DataOf(r)|
    ensures step.Accumulated? && bytesRead < tokenSize ==> step.bytesRead > bytesRead
  {
    match r
    case ReadFailed => ConnectionLost
    case Received(data) =>
      if |data| == 0 && bytesRead < tokenSize then ConnectionLost
      else Accumulated(bytesRead + |data|)
  }

  /** read() never returns more bytes than it was asked for. */
  predicate ChunkFits(bytesRead: nat, tokenSize: nat, r: ReadResult) {
    r.Received? ==> bytesRead + |r.data| <= tokenSize
  }

  /** Every read that the loop performs, from the `i`-th result on, fits the request. */
  predicate ReadsFit(rs: seq<ReadResult>, i: nat, bytesRead: nat, tokenSize: nat)
    requires i <= |rs|
    decreases |rs| - i
  {
    i == |rs| ||
    (ChunkFits(bytesRead, tokenSize, rs[i]) &&
     match ReadStep(bytesRead, tokenSize, rs[i])
     case ConnectionLost => true
     case Accumulated(n) => n == tokenSize || ReadsFit(rs, i + 1, n, tokenSize))
  }

  /**
   * How the network thread leaves one attempt at a token: the token was
   * published, the client was lost (back to accept), the read results ran
   * out while the thread is still in the read loop, or the monitor was full
   * so the thread still waits for the scheduler to drain it.
   */
  datatype ReadOutcome = TokenPublished | ClientLost | AwaitingData | WaitingForSpace

  datatype ReadEnd = ReadEnd(outcome: ReadOutcome, used: nat, bytesRead: nat)

  /** actors-teleport.c:209-215, after the read loop: a short token is dropped, a whole one kept. */
  function LeaveReadLoop(used: nat, bytesRead: nat, tokenSize: nat): (e: ReadEnd)
    ensures e.used == used && e.bytesRead == 0
    ensures e.outcome == TokenPublished || e.outcome == ClientLost
    ensures e.outcome == TokenPublished <==> bytesRead == tokenSize
  {
    ReadEnd(if bytesRead != tokenSize then ClientLost else TokenPublished, used, 0)
  }

  /**
   * The read loop from the `i`-th read result on, with `bytesRead` bytes of
   * the token already in the buffer: which result ends it, and how.
   */
  function ReadLoop(rs: seq<ReadResult>, i: nat, bytesRead: nat, tokenSize: nat): (e: ReadEnd)
    requires i <= |rs| && bytesRead <= tokenSize
    requires ReadsFit(rs, i, bytesRead, tokenSize)
    decreases |rs| - i
    ensures i <= e.used <= |rs| && e.outcome != WaitingForSpace
    ensures e.outcome == AwaitingData ==> e.used == |rs|
    ensures e.outcome != AwaitingData ==> i < e.used && e.bytesRead == 0
  {
    if i == |rs| then ReadEnd(AwaitingData, i, bytesRead)
    else match ReadStep(bytesRead, tokenSize, rs[i])
      case ConnectionLost => LeaveReadLoop(i + 1, 0, tokenSize)
      case Accumulated(n) =>
        if n == tokenSize then LeaveReadLoop(i + 1, n, tokenSize)
        else ReadLoop(rs, i + 1, n, tokenSize)
  }

  /**
   * What the read loop guarantees: it never reads past the token's end;
   * it publishes a token only once all `tokenSize` bytes have arrived; it
   * gives the client up only after an error or an end of stream, with the
   * partial token dropped; and it runs out of results only while the token
   * is still incomplete.
   */
  lemma {:induction false} ReadLoopMeaning(rs: seq<ReadResult>, i: nat, bytesRead: nat, tokenSize: nat)
    requires i <= |rs| && bytesRead <= tokenSize
    requires ReadsFit(rs, i, bytesRead, tokenSize)
    decreases |rs| - i
    ensures var e := ReadLoop(rs, i, bytesRead, tokenSize);
      i <= e.used <= |rs| && e.bytesRead <= tokenSize && e.outcome != WaitingForSpace &&
      (e.outcome == AwaitingData ==>
         e.used == |rs| && e.bytesRead == bytesRead + |Payload(rs[i..])| &&
         (e.bytesRead < tokenSize || e.used == i)) &&
      (e.outcome != AwaitingData ==> i < e.used && e.bytesRead == 0) &&
      (e.outcome == TokenPublished ==> bytesRead + |Payload(rs[i..e.used])| == tokenSize) &&
      (e.outcome == ClientLost ==>
         0 < tokenSize && (rs[e.used - 1].ReadFailed? || rs[e.used - 1] == Received([])))
  {
    if i < |rs| {
      assert rs[i..][1..] == rs[i + 1..];
      assert rs[i..][0] == rs[i];
      match ReadStep(bytesRead, tokenSize, rs[i])
      case ConnectionLost =>
      case Accumulated(n) =>
        if n == tokenSize {
          assert rs[i..i + 1] == [rs[i]];
        } else {
          ReadLoopMeaning(rs, i + 1, n, tokenSize);
          var e := ReadLoop(rs, i + 1, n, tokenSize);
          assert rs[i..e.used][1..] == rs[i + 1..e.used];
          assert rs[i..e.used][0] == rs[i];
        }
    }
  }

  /** One step of ReadLoop: what the `i`-th result does to it. */
  lemma UnfoldReadLoop(rs: seq<ReadResult>, i: nat, bytesRead: nat, tokenSize: nat)
    requires i < |rs| && bytesRead <= tokenSize
    requires ReadsFit(rs, i, bytesRead, tokenSize)
    ensures ChunkFits(bytesRead, tokenSize, rs[i])
    ensures ReadStep(bytesRead, tokenSize, rs[i]).ConnectionLost? ==>
              ReadLoop(rs, i, bytesRead, tokenSize) == LeaveReadLoop(i + 1, 0, tokenSize)
    ensures ReadStep(bytesRead, tokenSize, rs[i]).Accumulated? ==>
              var n := ReadStep(bytesRead, tokenSize, rs[i]).bytesRead;
              n <= tokenSize &&
              (n == tokenSize ==> ReadLoop(rs, i, bytesRead, tokenSize) == LeaveReadLoop(i + 1, n, tokenSize)) &&
              (n != tokenSize ==> ReadsFit(rs, i + 1, n, tokenSize) &&
                                  ReadLoop(rs, i, bytesRead, tokenSize) == ReadLoop(rs, i + 1, n, tokenSize))
  {
  }

  /**
   * However the socket splits a token into pieces, down to one byte per
   * read, the loop reads all of them and publishes the token.
   */
  lemma {:induction false} ChunksReassemble(rs: seq<ReadResult>, i: nat, bytesRead: nat, tokenSize: nat)
    requires i < |rs|
    requires forall k :: 0 <= k < |rs| ==> rs[k].Received? && |rs[k].data| > 0
    requires bytesRead + |Payload(rs[i..])| == tokenSize
    ensures ReadsFit(rs, i, bytesRead, tokenSize)
    ensures ReadLoop(rs, i, bytesRead, tokenSize) == ReadEnd(TokenPublished, |rs|, 0)
    decreases |rs| - i
  {
    assert rs[i..][1..] == rs[i + 1..];
    var n := bytesRead + |rs[i].data|;
    if i + 1 < |rs| {
      assert |Payload(rs[i + 1..])| > 0 by {
        assert rs[i + 1..][0] == rs[i + 1];
      }
      ChunksReassemble(rs, i + 1, n, tokenSize);
    } else {
      assert rs[i + 1..] == [];
    }
  }

  /** A read error with bytes of the token still missing drops the partial token and the client. */
  lemma ReadFailureDropsToken(rs: seq<ReadResult>, i: nat, bytesRead: nat, tokenSize: nat)
    requires i < |rs| && rs[i] == ReadFailed && bytesRead < tokenSize
    ensures ReadsFit(rs, i, bytesRead, tokenSize)
    ensures ReadLoop(rs, i, bytesRead, tokenSize) == ReadEnd(ClientLost, i + 1, 0)
  {
  }

  /** The correction changes the loop's body for an end of stream only. */
  lemma ReadStepsAgreeOtherwise(bytesRead: nat, tokenSize: nat, r: ReadResult)
    requires !(r == Received([]) && bytesRead < tokenSize)
    ensures ReadStep(bytesRead, tokenSize, r) == ReadStepAsWritten(bytesRead, r)
  {
  }

  /** The read loop as written, with ReadStepAsWritten as its body. */
  function ReadLoopAsWritten(rs: seq<ReadResult>, i: nat, bytesRead: nat, tokenSize: nat): (e: ReadEnd)
    requires i <= |rs|
    decreases |rs| - i
    ensures i <= e.used <= |rs| && e.outcome != WaitingForSpace
    ensures e.outcome == AwaitingData ==> e.used == |rs|
    ensures e.outcome == ClientLost ==> i < e.used && rs[e.used - 1].ReadFailed?
  {
    if i == |rs| then ReadEnd(AwaitingData, i, bytesRead)
    else match ReadStepAsWritten(bytesRead, rs[i])
      case ConnectionLost => LeaveReadLoop(i + 1, 0, tokenSize)
      case Accumulated(n) =>
        if n == tokenSize then LeaveReadLoop(i + 1, n, tokenSize)
        else ReadLoopAsWritten(rs, i + 1, n, tokenSize)
  }

  /**
   * As written, once the client closes its end, read() returns 0 again and
   * again: the loop goes through every one of those results without adding a
   * byte and without ever leaving, so the thread never gets back to accept().
   */
  lemma {:induction false} EndOfStreamSpinsAsWritten(rs: seq<ReadResult>, i: nat, bytesRead: nat, tokenSize: nat)
    requires i <= |rs| && bytesRead < tokenSize
    requires forall k :: i <= k < |rs| ==> rs[k] == Received([])
    ensures ReadLoopAsWritten(rs, i, bytesRead, tokenSize) == ReadEnd(AwaitingData, |rs|, bytesRead)
    decreases |rs| - i
  {
    if i < |rs| {
      EndOfStreamSpinsAsWritten(rs, i + 1, bytesRead, tokenSize);
    }
  }

  /** With the end of stream recognised, the first such read drops the client. */
  lemma EndOfStreamDropsClient(rs: seq<ReadResult>, i: nat, bytesRead: nat, tokenSize: nat)
    requires i < |rs| && rs[i] == Received([]) && bytesRead < tokenSize
    ensures ReadsFit(rs, i, bytesRead, tokenSize)
    ensures ReadLoop(rs, i, bytesRead, tokenSize) == ReadEnd(ClientLost, i + 1, 0)
  {
  }

  /** `ActorInstance_art_SocketReceiver` without its sockets and thread handle. */
  class ReceiverInstance {
    const actorClass: ExtendedClass
    /** The port the operating system bound the server socket to. */
    var port: int
    /** How much of the current token has been read: kept across reads. */
    var bytesRead: nat
    const tokenMon: TokenMonitor

    /** A published token waits in the monitor only between tokens, never mid-token. */
    ghost predicate Valid()
      reads this, tokenMon
    {
      actorClass.tokenSize >= 0 && tokenMon.tokenBuffer.Length == actorClass.tokenSize &&
      (bytesRead < tokenMon.tokenBuffer.Length || bytesRead == 0) &&
      (tokenMon.full ==> bytesRead == 0)
    }

    /**
     * What receiver_constructor leaves behind when every socket call
     * succeeds (actors-teleport.c:277-282): the port the OS assigned and an
     * empty monitor sized from the class.
     */
    constructor (actorClass: ExtendedClass, port: int)
      requires actorClass.tokenSize >= 0
      ensures Valid() && fresh(tokenMon) && fresh(tokenMon.tokenBuffer)
      ensures this.actorClass == actorClass && this.port == port
      ensures bytesRead == 0 && !tokenMon.full
    {
      this.actorClass := actorClass;
      this.port := port;
      bytesRead := 0;
      tokenMon := new TokenMonitor(actorClass.tokenSize);
    }

    /**
     * One pass of the network thread's per-token loop
     * (actors-teleport.c:182-223) over the results the socket delivers:
     * wait for an empty monitor, read until the token is complete or the
     * client is lost, and publish a complete token.
     */
    method ReadToken(results: seq<ReadResult>) returns (outcome: ReadOutcome, used: nat)
      requires Valid()
      requires ReadsFit(results, 0, bytesRead, tokenMon.tokenBuffer.Length)
      modifies this`bytesRead, tokenMon`full, tokenMon.tokenBuffer
      ensures Valid() && used <= |results|
      ensures old(tokenMon.full) ==>
                outcome == WaitingForSpace && used == 0 && bytesRead == old(bytesRead) &&
                tokenMon.full && tokenMon.Token() == old(tokenMon.Token())
      ensures !old(tokenMon.full) ==>
                ReadLoop(results, 0, old(bytesRead), tokenMon.tokenBuffer.Length)
                  == ReadEnd(outcome, used, bytesRead)
      ensures tokenMon.full <==> old(tokenMon.full) || outcome == TokenPublished
      ensures outcome == TokenPublished ==>
                tokenMon.Token() == old(tokenMon.tokenBuffer[..bytesRead]) + Payload(results[..used])
      ensures outcome == AwaitingData ==>
                tokenMon.tokenBuffer[..bytesRead] == old(tokenMon.tokenBuffer[..bytesRead]) + Payload(results)
    {
      if tokenMon.full {
        // the thread blocks on the `empty` condition (actors-teleport.c:185-188)
        return WaitingForSpace, 0;
      }
      ReadLoopMeaning(results, 0, bytesRead, tokenMon.tokenBuffer.Length);
      var exited;
      exited, used := ReadLoopBody(results);
      if !exited {
        // the thread is still blocked in read()
        assert results[..used] == results;
        return AwaitingData, used;
      }
      if bytesRead != tokenMon.tokenBuffer.Length {
        // back to accept() for a new client (actors-teleport.c:211-213)
        outcome := ClientLost;
      } else {
        bytesRead := 0;
        assert !tokenMon.full;
        tokenMon.full := true;
        outcome := TokenPublished;
      }
    }

    /**
     * The do-while loop of actors-teleport.c:192-207 over the given read
     * results: `exited` tells whether it left (token complete or client
     * lost) before the results ran out.
     */
    method ReadLoopBody(results: seq<ReadResult>) returns (exited: bool, used: nat)
      requires Valid() && !tokenMon.full
      requires ReadsFit(results, 0, bytesRead, tokenMon.tokenBuffer.Length)
      modifies this`bytesRead, tokenMon.tokenBuffer
      ensures used <= |results|
      ensures Valid() || (exited && bytesRead == tokenMon.tokenBuffer.Length)
      ensures exited ==>
                LeaveReadLoop(used, bytesRead, tokenMon.tokenBuffer.Length)
                  == ReadLoop(results, 0, old(bytesRead), tokenMon.tokenBuffer.Length) &&
                (bytesRead == 0 || bytesRead == tokenMon.tokenBuffer.Length)
      ensures !exited ==>
                ReadLoop(results, 0, old(bytesRead), tokenMon.tokenBuffer.Length)
                  == ReadEnd(AwaitingData, used, bytesRead)
      ensures !exited || bytesRead == tokenMon.tokenBuffer.Length ==>
                tokenMon.tokenBuffer[..bytesRead] == old(tokenMon.tokenBuffer[..bytesRead]) + Payload(results[..used])
    {
      ghost var have := bytesRead;
      ghost var before := tokenMon.tokenBuffer[..];
      used := 0;
      exited := false;
      while !exited && used < |results|
        invariant ReadInvariant(results, used, exited, have, before)
        decreases |results| - used
      {
        exited := ReadLoopStep(results, used, have, before);
        used := used + 1;
      }
      if !exited {
        assert results[..used] == results;
      }
    }

    /**
     * What holds after `used` passes of the read loop that started with
     * `have` bytes of the token in the buffer `before`: the rest of the loop
     * ends as the whole loop does, and the buffer holds the bytes read so far.
     */
    ghost predicate ReadInvariant(results: seq<ReadResult>, used: nat, exited: bool, have: nat, before: seq<byte>)
      reads this, tokenMon.tokenBuffer
    {
      var size := tokenMon.tokenBuffer.Length;
      used <= |results| && bytesRead <= size && have <= size && have <= |before| &&
      ReadsFit(results, 0, have, size) &&
      (!exited ==>
         ReadsFit(results, used, bytesRead, size) &&
         ReadLoop(results, used, bytesRead, size) == ReadLoop(results, 0, have, size) &&
         (bytesRead < size || bytesRead == have)) &&
      (exited ==>
         LeaveReadLoop(used, bytesRead, size) == ReadLoop(results, 0, have, size) &&
         (bytesRead == 0 || bytesRead == size)) &&
      (!exited || bytesRead == size ==>
         tokenMon.tokenBuffer[..bytesRead] == before[..have] + Payload(results[..used]))
    }

    /** One pass of the read loop, on the `used`-th result, keeps ReadInvariant. */
    method ReadLoopStep(results: seq<ReadResult>, used: nat, ghost have: nat, ghost before: seq<byte>)
      returns (exited: bool)
      requires used < |results| && ReadInvariant(results, used, false, have, before)
      modifies this`bytesRead, tokenMon.tokenBuffer
      ensures ReadInvariant(results, used + 1, exited, have, before)
    {
      UnfoldReadLoop(results, used, bytesRead, tokenMon.tokenBuffer.Length);
      PayloadExtend(results, used);
      exited := ReadOnce(results[used]);
    }

    /**
     * One pass through the body of the read loop (actors-teleport.c:193-207),
     * as ReadStep describes it; `exited` tells whether the loop ends here.
     */
    method ReadOnce(r: ReadResult) returns (exited: bool)
      requires ChunkFits(bytesRead, tokenMon.tokenBuffer.Length, r)
      modifies this`bytesRead, tokenMon.tokenBuffer
      ensures ReadStep(old(bytesRead), tokenMon.tokenBuffer.Length, r).ConnectionLost? ==>
                exited && bytesRead == 0
      ensures ReadStep(old(bytesRead), tokenMon.tokenBuffer.Length, r).Accumulated? ==>
                bytesRead == ReadStep(old(bytesRead), tokenMon.tokenBuffer.Length, r).bytesRead &&
                exited == (bytesRead == tokenMon.tokenBuffer.Length) &&
                tokenMon.tokenBuffer[..bytesRead] == old(tokenMon.tokenBuffer[..bytesRead]) + DataOf(r)
    {
      match r {
        case ReadFailed =>
          bytesRead := 0;
          exited := true;
        case Received(data) =>
          if |data| == 0 && bytesRead < tokenMon.tokenBuffer.Length {
            // end of stream: the client has closed the connection
            bytesRead := 0;
            exited := true;
          } else {
            StoreChunk(data);
            exited := bytesRead == tokenMon.tokenBuffer.Length;
          }
      }
    }

    /**
     * One successful read (actors-teleport.c:193-198): the bytes land in the
     * token buffer right after those already read, and `bytesRead` grows by
     * their number.
     */
    method StoreChunk(data: seq<byte>)
      requires bytesRead + |data| <= tokenMon.tokenBuffer.Length
      modifies this`bytesRead, tokenMon.tokenBuffer
      ensures bytesRead == old(bytesRead) + |data|
      ensures tokenMon.tokenBuffer[..bytesRead] == old(tokenMon.tokenBuffer[..bytesRead]) + data
    {
      forall k | 0 <= k < |data| {
        tokenMon.tokenBuffer[bytesRead + k] := data[k];
      }
      bytesRead := bytesRead + |data|;
    }

    /**
     * receiver_action_scheduler (actors-teleport.c:289-313): when the output
     * port has room and the monitor holds a token, the token goes to the
     * output and the monitor is emptied; otherwise nothing happens. It never
     * waits.
     */
    method ActionScheduler(output: LocalFifo)
      requires Valid() && output.Valid() && output.tokenSize == tokenMon.tokenBuffer.Length
      modifies tokenMon`full, output
      ensures Valid() && output.Valid()
      ensures old(output.SpaceAvailable() > 0 && tokenMon.full) ==>
                output.tokens == old(output.tokens) + [tokenMon.Token()] && !tokenMon.full
      ensures !old(output.SpaceAvailable() > 0 && tokenMon.full) ==>
                output.tokens == old(output.tokens) && tokenMon.full == old(tokenMon.full)
    {
      if output.SpaceAvailable() > 0 {
        if tokenMon.full {
          output.Write(tokenMon.tokenBuffer[..]);
          tokenMon.full := false;
        }
      }
    }
  }

  /**
   * getReceiverPort (actors-teleport.c:583-599): the bound port of an
   * instance of a registered receiver class; None where the C code's
   * assertion stops the program.
   */
  method GetReceiverPort(registry: Registry, instance: ReceiverInstance) returns (port: Option<int>)
    ensures port.Some? <==> instance.actorClass in registry.receiverClasses
    ensures port.Some? ==> port.value == instance.port
  {
    var known := registry.IsReceiverClass(instance.actorClass);
    if known {
      port := Some(instance.port);
    } else {
      port := None;
    }
  }
}
