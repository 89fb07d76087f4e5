/**
 * The sending endpoint of actors-teleport.c: a TCP client whose action
 * scheduler moves one token from the actor's input port into the token
 * monitor, and whose network thread writes a full monitor's token to the
 * socket in as many pieces as the socket accepts.
 */
module Sender {
  import opened Common
  import opened ClassRegistry
  import opened Rendezvous

  /** What one write() on the socket gives: the number of bytes it took, or an error. */
  datatype WriteResult = Wrote(count: nat) | WriteFailed

  /** write() never takes more bytes than it was offered. */
  predicate WriteFits(bytesWritten: nat, tokenSize: nat, r: WriteResult) {
    r.Wrote? ==> bytesWritten + r.count <= tokenSize
  }

  /** Every write that the loop performs, from the `i`-th result on, fits the request. */
  predicate WritesFit(rs: seq<WriteResult>, i: nat, bytesWritten: nat, tokenSize: nat)
    requires i <= |rs|
    decreases |rs| - i
  {
    i == |rs| ||
    (WriteFits(bytesWritten, tokenSize, rs[i]) &&
     match rs[i]
     case WriteFailed => true
     case Wrote(n) => bytesWritten + n == tokenSize || WritesFit(rs, i + 1, bytesWritten + n, tokenSize))
  }

  /**
   * How the network thread leaves one token: it was written whole, a write
   * failed and the thread ended, the write results ran out while the thread
   * is still in the write loop, or the monitor was empty so the thread still
   * waits for a token.
   */
  datatype WriteOutcome = TokenSent | ThreadExited | StillWriting | WaitingForToken

  datatype WriteEnd = WriteEnd(outcome: WriteOutcome, used: nat, bytesWritten: nat)

  /** The total of the byte counts of a run of writes. */
  function Written(rs: seq<WriteResult>): (n: nat) {
    if rs == [] then 0 else (if rs[0].Wrote? then rs[0].count else 0) + Written(rs[1..])
  }

  /**
   * The write loop of actors-teleport.c:381-395 from the `i`-th write result
   * on, with `bytesWritten` bytes of the token already on the wire.
   */
  function WriteLoop(rs: seq<WriteResult>, i: nat, bytesWritten: nat, tokenSize: nat): (e: WriteEnd)
    requires i <= |rs| && bytesWritten <= tokenSize
    requires WritesFit(rs, i, bytesWritten, tokenSize)
    decreases |rs| - i
    ensures i <= e.used <= |rs| && bytesWritten <= e.bytesWritten <= tokenSize
    ensures e.outcome != WaitingForToken
    ensures e.outcome == TokenSent ==> e.bytesWritten == tokenSize
  {
    if i == |rs| then WriteEnd(StillWriting, i, bytesWritten)
    else match rs[i]
      case WriteFailed => WriteEnd(ThreadExited, i + 1, bytesWritten)
      case Wrote(n) =>
        if bytesWritten + n == tokenSize then WriteEnd(TokenSent, i + 1, tokenSize)
        else WriteLoop(rs, i + 1, bytesWritten + n, tokenSize)
  }

  /**
   * What the write loop guarantees: it never writes past the token's end;
   * it reports a token sent only when all `tokenSize` bytes are on the
   * wire; a failed write ends it with the token incomplete; and it runs out
   * of results only while bytes of the token are still unwritten.
   */
  lemma {:induction false} WriteLoopMeaning(rs: seq<WriteResult>, i: nat, bytesWritten: nat, tokenSize: nat)
    requires i <= |rs| && bytesWritten <= tokenSize
    requires WritesFit(rs, i, bytesWritten, tokenSize)
    decreases |rs| - i
    ensures var e := WriteLoop(rs, i, bytesWritten, tokenSize);
      i <= e.used <= |rs| && bytesWritten <= e.bytesWritten <= tokenSize &&
      e.outcome != WaitingForToken &&
      e.bytesWritten == bytesWritten + Written(rs[i..e.used]) &&
      (e.outcome == StillWriting ==> e.used == |rs| && (e.bytesWritten < tokenSize || e.used == i)) &&
      (e.outcome == TokenSent <==> e.used > i && e.bytesWritten == tokenSize && rs[e.used - 1].Wrote?) &&
      (e.outcome == ThreadExited <==> e.used > i && rs[e.used - 1].WriteFailed?)
  {
    if i < |rs| {
      assert rs[i..i + 1][1..] == [];
      match rs[i]
      case WriteFailed =>
      case Wrote(n) =>
        if bytesWritten + n != tokenSize {
          WriteLoopMeaning(rs, i + 1, bytesWritten + n, tokenSize);
          var e := WriteLoop(rs, i + 1, bytesWritten + n, tokenSize);
          assert rs[i..e.used][1..] == rs[i + 1..e.used];
        }
    } else {
      assert rs[i..i] == [];
    }
  }

  /**
   * However the socket splits the token into accepted pieces, the loop
   * writes all of them and reports the token sent.
   */
  lemma {:induction false} PiecesComplete(rs: seq<WriteResult>, i: nat, bytesWritten: nat, tokenSize: nat)
    requires i < |rs|
    requires forall k :: 0 <= k < |rs| ==> rs[k].Wrote? && rs[k].count > 0
    requires bytesWritten + Written(rs[i..]) == tokenSize
    ensures WritesFit(rs, i, bytesWritten, tokenSize)
    ensures WriteLoop(rs, i, bytesWritten, tokenSize) == WriteEnd(TokenSent, |rs|, tokenSize)
    decreases |rs| - i
  {
    assert rs[i..][1..] == rs[i + 1..];
    if i + 1 < |rs| {
      assert Written(rs[i + 1..]) > 0 by {
        assert rs[i + 1..][0] == rs[i + 1];
      }
      PiecesComplete(rs, i + 1, bytesWritten + rs[i].count, tokenSize);
    } else {
      assert rs[i + 1..] == [];
    }
  }

  /**
   * A failed write ends the thread. That the token then stays in the
   * monitor is WriteToken's and Valid()'s part.
   */
  lemma WriteFailureEndsThread(rs: seq<WriteResult>, i: nat, bytesWritten: nat, tokenSize: nat)
    requires i < |rs| && rs[i] == WriteFailed && bytesWritten <= tokenSize
    ensures WritesFit(rs, i, bytesWritten, tokenSize)
    ensures WriteLoop(rs, i, bytesWritten, tokenSize).outcome == ThreadExited
  {
  }

  /** `ActorInstance_art_SocketSender` without its socket and thread handle. */
  class SenderInstance {
    const actorClass: ExtendedClass
    /** Where the receiver is, as setSenderRemoteAddress records it; None if it never did. */
    var remoteHost: Option<string>
    var remotePort: int
    const tokenMon: TokenMonitor
    /** Whether the network thread has returned after a failed write. */
    var threadExited: bool

    /** A thread that has given up leaves its last token in the monitor for good. */
    ghost predicate Valid()
      reads this, tokenMon
    {
      actorClass.tokenSize >= 0 && tokenMon.tokenBuffer.Length == actorClass.tokenSize &&
      (threadExited ==> tokenMon.full)
    }

    /**
     * What sender_constructor leaves behind when the socket opens
     * (actors-teleport.c:420-432). The address that setSenderRemoteAddress
     * recorded before construction is kept as it was; the monitor is new,
     * empty and sized from the class; the thread is running.
     */
    constructor (actorClass: ExtendedClass, remoteHost: Option<string>, remotePort: int)
      requires actorClass.tokenSize >= 0
      ensures Valid() && fresh(tokenMon) && fresh(tokenMon.tokenBuffer)
      ensures this.actorClass == actorClass
      ensures this.remoteHost == remoteHost && this.remotePort == remotePort
      ensures !tokenMon.full && !threadExited
    {
      this.actorClass := actorClass;
      this.remoteHost := remoteHost;
      this.remotePort := remotePort;
      tokenMon := new TokenMonitor(actorClass.tokenSize);
      threadExited := false;
    }

    /**
     * One pass of the network thread's per-token loop
     * (actors-teleport.c:369-406) over the results the socket gives: wait
     * for a full monitor, write the token, and empty the monitor once the
     * whole token is on the wire. `wire` is what went out, in order. Once
     * the thread has returned it writes nothing more: the outcome stays
     * ThreadExited and no result is used.
     */
    method WriteToken(results: seq<WriteResult>) returns (outcome: WriteOutcome, used: nat, wire: seq<byte>)
      requires Valid()
      requires WritesFit(results, 0, 0, tokenMon.tokenBuffer.Length)
      modifies this`threadExited, tokenMon`full
      ensures Valid() && used <= |results|
      ensures old(threadExited) ==>
                outcome == ThreadExited && used == 0 && wire == [] && threadExited
      ensures !old(threadExited) && !old(tokenMon.full) ==>
                outcome == WaitingForToken && used == 0 && wire == [] && !tokenMon.full
      ensures !old(threadExited) && old(tokenMon.full) ==>
                var e := WriteLoop(results, 0, 0, tokenMon.tokenBuffer.Length);
                outcome == e.outcome && used == e.used &&
                |wire| == e.bytesWritten && wire <= tokenMon.Token()
      ensures threadExited <==> old(threadExited) || outcome == ThreadExited
      ensures tokenMon.full <==> old(tokenMon.full) && outcome != TokenSent
      ensures outcome == TokenSent ==> wire == tokenMon.Token()
    {
      if threadExited {
        return ThreadExited, 0, [];
      }
      if !tokenMon.full {
        // the thread blocks on the `available` condition (actors-teleport.c:374-377)
        return WaitingForToken, 0, [];
      }
      var size := tokenMon.tokenBuffer.Length;
      WriteLoopMeaning(results, 0, 0, size);
      var bytesWritten := 0;
      used := 0;
      wire := [];
      outcome := StillWriting;
      while outcome == StillWriting && used < |results|
        invariant 0 <= used <= |results| && bytesWritten <= size
        invariant outcome == StillWriting || outcome == ThreadExited || outcome == TokenSent
        invariant wire == tokenMon.tokenBuffer[..bytesWritten]
        invariant outcome == StillWriting ==>
                    WritesFit(results, used, bytesWritten, size) &&
                    WriteLoop(results, used, bytesWritten, size) == WriteLoop(results, 0, 0, size)
        invariant outcome != StillWriting ==>
                    WriteEnd(outcome, used, bytesWritten) == WriteLoop(results, 0, 0, size)
        decreases |results| - used
      {
        match results[used] {
          case WriteFailed =>
            // the thread returns: no more tokens are ever sent (actors-teleport.c:390-394)
            outcome := ThreadExited;
          case Wrote(n) =>
            assert tokenMon.tokenBuffer[..bytesWritten + n] ==
                   tokenMon.tokenBuffer[..bytesWritten] + tokenMon.tokenBuffer[bytesWritten..bytesWritten + n];
            wire := wire + tokenMon.tokenBuffer[bytesWritten..bytesWritten + n];
            bytesWritten := bytesWritten + n;
            if bytesWritten == size {
              outcome := TokenSent;
            }
        }
        used := used + 1;
      }
      if outcome == TokenSent {
        assert tokenMon.full;
        tokenMon.full := false;
      } else if outcome == ThreadExited {
        threadExited := true;
      }
    }

    /**
     * sender_action_scheduler (actors-teleport.c:439-463): when the input
     * port holds a token and the monitor is empty, the oldest token moves
     * into the monitor, which becomes full; otherwise nothing happens. It
     * never waits.
     */
    method ActionScheduler(input: LocalFifo)
      requires Valid() && input.Valid() && input.tokenSize == tokenMon.tokenBuffer.Length
      modifies tokenMon`full, tokenMon.tokenBuffer, input
      ensures Valid() && input.Valid()
      ensures threadExited ==> input.tokens == old(input.tokens) && tokenMon.full
      ensures old(input.TokensAvailable() > 0 && !tokenMon.full) ==>
                tokenMon.full && tokenMon.Token() == old(input.tokens[0]) &&
                input.tokens == old(input.tokens[1..])
      ensures !old(input.TokensAvailable() > 0 && !tokenMon.full) ==>
                input.tokens == old(input.tokens) && tokenMon.full == old(tokenMon.full) &&
                tokenMon.Token() == old(tokenMon.Token())
    {
      if input.TokensAvailable() > 0 {
        if !tokenMon.full {
          input.Read(tokenMon.tokenBuffer);
          tokenMon.full := true;
        }
      }
    }
  }

  /**
   * setSenderRemoteAddress (actors-teleport.c:603-624): records where the
   * receiver is, for an instance of a registered sender class. For any
   * other instance the C code's assertion stops the program; here nothing
   * is recorded and `accepted` is false.
   */
  method SetSenderRemoteAddress(registry: Registry, instance: SenderInstance, host: string, port: CInt)
    returns (accepted: bool)
    modifies instance`remoteHost, instance`remotePort
    ensures accepted <==> instance.actorClass in registry.senderClasses
    ensures accepted ==> instance.remoteHost == Some(host) && instance.remotePort == port
    ensures !accepted ==> unchanged(instance)
  {
    accepted := registry.IsSenderClass(instance.actorClass);
    if accepted {
      instance.remoteHost := Some(host);
      instance.remotePort := port;
    }
  }
}
