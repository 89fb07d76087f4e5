/**
 * The single-slot token monitor shared by a network thread and the actor's
 * action scheduler (`struct TokenMonitor`, actors-teleport.c:72-78), and
 * the scheduler's local port buffer that the action scheduler reads from or
 * writes to. The lock and the two condition variables are not modelled:
 * every region the C code runs under the lock is one atomic method here.
 */
module Rendezvous {
  import opened Common

  class TokenMonitor {
    /** `full`: whether the buffer holds a complete token (0 or 1 in C). */
    var full: bool
    /** `tokenBuffer`: room for exactly one token. */
    const tokenBuffer: array<byte>

    /** initTokenMonitor (actors-teleport.c:137-145): empty, with a zeroed buffer. */
    constructor (tokenSize: nat)
      ensures !full && fresh(tokenBuffer)
      ensures tokenBuffer.Length == tokenSize
      ensures forall k :: 0 <= k < tokenSize ==> tokenBuffer[k] == 0
    {
      full := false;
      tokenBuffer := new byte[tokenSize](_ => 0);
    }

    /** The token the monitor holds when it is full. */
    function Token(): (t: Token)
      reads this, tokenBuffer
      ensures |t| == tokenBuffer.Length
    {
      tokenBuffer[..]
    }
  }

  /**
   * A local port of the actor runtime, seen as a bounded FIFO of whole
   * tokens of one size: the output of a receiver, the input of a sender.
   */
  class LocalFifo {
    var tokens: seq<Token>
    const capacity: nat
    const tokenSize: nat

    ghost predicate Valid()
      reads this
    {
      |tokens| <= capacity && forall t :: t in tokens ==> |t| == tokenSize
    }

    constructor (capacity: nat, tokenSize: nat)
      ensures Valid() && tokens == []
      ensures this.capacity == capacity && this.tokenSize == tokenSize
    {
      tokens := [];
      this.capacity := capacity;
      this.tokenSize := tokenSize;
    }

    /** pinAvailOut_dyn: how many more tokens the port can take. */
    function SpaceAvailable(): (n: int)
      reads this
      requires Valid()
      ensures n >= 0 && (n > 0 <==> |tokens| < capacity)
    {
      capacity - |tokens|
    }

    /** pinAvailIn_dyn: how many tokens the port holds. */
    function TokensAvailable(): (n: nat)
      reads this
      ensures n > 0 <==> tokens != []
    {
      |tokens|
    }

    /** pinWrite_dyn: appends one token; the runtime demands room for it. */
    method Write(t: Token)
      requires Valid() && |tokens| < capacity && |t| == tokenSize
      modifies this
      ensures Valid() && tokens == old(tokens) + [t]
    {
      tokens := tokens + [t];
    }

    /** pinRead_dyn: moves the oldest token into `buffer`; the runtime demands one be there. */
    method Read(buffer: array<byte>)
      requires Valid() && tokens != [] && buffer.Length == tokenSize
      modifies this, buffer
      ensures Valid()
      ensures buffer[..] == old(tokens[0]) && tokens == old(tokens[1..])
    {
      var t := tokens[0];
      forall k | 0 <= k < buffer.Length {
        buffer[k] := t[k];
      }
      tokens := tokens[1..];
    }
  }
}
