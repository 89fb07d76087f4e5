/**
 * The endpoint class registry of actors-teleport.c: two process-wide,
 * append-only lists of generated actor classes, one for receivers and one
 * for senders, searched linearly by token size and extended on a miss.
 */
module ClassRegistry {
  import opened Common
  import opened ClassNames

  /** Which of the two endpoint kinds a descriptor belongs to. */
  datatype Direction = Receiving | Sending

  /**
   * One `struct extended_class`: the actor class, its single port
   * description and the generated name. The direction stands for the
   * action scheduler, constructor and destructor the class is bound to.
   * Nothing in a descriptor changes once it has been built.
   */
  class ExtendedClass {
    const direction: Direction
    const tokenSize: CInt
    const className: string
    const portName: string
    const numInputPorts: nat
    const numOutputPorts: nat

    /** What getReceiverClass fills in for a new class (actors-teleport.c:511-529). */
    predicate DescribesReceiver() {
      direction == Receiving && className == ReceiverClassName(tokenSize) &&
      portName == "out" && numInputPorts == 0 && numOutputPorts == 1
    }

    /** What getSenderClass fills in for a new class (actors-teleport.c:556-574). */
    predicate DescribesSender() {
      direction == Sending && className == SenderClassName(tokenSize) &&
      portName == "in" && numInputPorts == 1 && numOutputPorts == 0
    }

    constructor Receiver(n: CInt)
      ensures tokenSize == n && DescribesReceiver()
    {
      direction := Receiving;
      tokenSize := n;
      className := ReceiverClassName(n);
      portName := "out";
      numInputPorts := 0;
      numOutputPorts := 1;
    }

    constructor Sender(n: CInt)
      ensures tokenSize == n && DescribesSender()
    {
      direction := Sending;
      tokenSize := n;
      className := SenderClassName(n);
      portName := "in";
      numInputPorts := 1;
      numOutputPorts := 0;
    }
  }

  /** No two descriptors of a list share a token size. */
  predicate UniqueSizes(s: seq<ExtendedClass>) {
    forall i, j :: 0 <= i < j < |s| ==> s[i].tokenSize != s[j].tokenSize
  }

  /** The position of the first descriptor of token size `n`, as the linear search finds it. */
  function IndexOfSize(s: seq<ExtendedClass>, n: int): (r: Option<nat>)
    ensures r.Some? ==> r.value < |s| && s[r.value].tokenSize == n
    ensures r.Some? ==> forall k :: 0 <= k < r.value ==> s[k].tokenSize != n
    ensures r.None? <==> forall k :: 0 <= k < |s| ==> s[k].tokenSize != n
  {
    if s == [] then None
    else if s[0].tokenSize == n then Some(0)
    else match IndexOfSize(s[1..], n)
      case None => None
      case Some(k) => Some(k + 1)
  }

  /** In a list without duplicate sizes, the descriptor found is the only one of its size. */
  lemma FoundIsOnlyOne(s: seq<ExtendedClass>, n: int, k: nat)
    requires UniqueSizes(s)
    requires k < |s| && s[k].tokenSize == n
    ensures IndexOfSize(s, n) == Some(k)
  {
  }

  /** Appending a descriptor of a size not yet present keeps the sizes unique. */
  lemma AppendKeepsUnique(s: seq<ExtendedClass>, c: ExtendedClass)
    requires UniqueSizes(s)
    requires IndexOfSize(s, c.tokenSize).None?
    ensures UniqueSizes(s + [c])
  {
  }

  /**
   * The two static lists `receiver_classes` and `sender_classes` together
   * with the `initialized` flag of ensureInitialized.
   */
  class Registry {
    var initialized: bool
    var receiverClasses: seq<ExtendedClass>
    var senderClasses: seq<ExtendedClass>

    ghost predicate Valid()
      reads this
    {
      (!initialized ==> receiverClasses == [] && senderClasses == []) &&
      UniqueSizes(receiverClasses) && UniqueSizes(senderClasses) &&
      (forall c :: c in receiverClasses ==> c.DescribesReceiver()) &&
      (forall c :: c in senderClasses ==> c.DescribesSender())
    }

    /** The state of the statics when the process starts. */
    constructor ()
      ensures Valid() && !initialized
      ensures receiverClasses == [] && senderClasses == []
    {
      initialized := false;
      receiverClasses := [];
      senderClasses := [];
    }

    /**
     * ensureInitialized (actors-teleport.c:124-133): the first call creates
     * both lists empty; every later call leaves them as they are.
     */
    method EnsureInitialized()
      requires Valid()
      modifies this
      ensures Valid() && initialized
      ensures !old(initialized) ==> receiverClasses == [] && senderClasses == []
      ensures old(initialized) ==> unchanged(this)
      ensures receiverClasses == old(receiverClasses) && senderClasses == old(senderClasses)
    {
      if !initialized {
        receiverClasses := [];
        senderClasses := [];
        initialized := true;
      }
    }

    /**
     * getReceiverClass (actors-teleport.c:493-534): the registered receiver
     * class of this token size if there is one, otherwise a new one appended
     * to the receiver list.
     */
    method GetReceiverClass(tokenSize: CInt) returns (c: ExtendedClass)
      requires Valid()
      modifies this
      ensures Valid() && initialized
      ensures senderClasses == old(senderClasses)
      ensures c.tokenSize == tokenSize && c.DescribesReceiver() && c in receiverClasses
      ensures IndexOfSize(old(receiverClasses), tokenSize).Some? ==>
                receiverClasses == old(receiverClasses) &&
                c == old(receiverClasses)[IndexOfSize(old(receiverClasses), tokenSize).value]
      ensures IndexOfSize(old(receiverClasses), tokenSize).None? ==>
                fresh(c) && receiverClasses == old(receiverClasses) + [c]
    {
      EnsureInitialized();
      var i := 0;
      while i < |receiverClasses|
        invariant 0 <= i <= |receiverClasses|
        invariant forall k :: 0 <= k < i ==> receiverClasses[k].tokenSize != tokenSize
      {
        if receiverClasses[i].tokenSize == tokenSize {
          FoundIsOnlyOne(receiverClasses, tokenSize, i);
          return receiverClasses[i];
        }
        i := i + 1;
      }
      c := new ExtendedClass.Receiver(tokenSize);
      AppendKeepsUnique(receiverClasses, c);
      receiverClasses := receiverClasses + [c];
    }

    /**
     * getSenderClass (actors-teleport.c:538-579): the registered sender class
     * of this token size if there is one, otherwise a new one appended to the
     * sender list.
     */
    method GetSenderClass(tokenSize: CInt) returns (c: ExtendedClass)
      requires Valid()
      modifies this
      ensures Valid() && initialized
      ensures receiverClasses == old(receiverClasses)
      ensures c.tokenSize == tokenSize && c.DescribesSender() && c in senderClasses
      ensures IndexOfSize(old(senderClasses), tokenSize).Some? ==>
                senderClasses == old(senderClasses) &&
                c == old(senderClasses)[IndexOfSize(old(senderClasses), tokenSize).value]
      ensures IndexOfSize(old(senderClasses), tokenSize).None? ==>
                fresh(c) && senderClasses == old(senderClasses) + [c]
    {
      EnsureInitialized();
      var i := 0;
      while i < |senderClasses|
        invariant 0 <= i <= |senderClasses|
        invariant forall k :: 0 <= k < i ==> senderClasses[k].tokenSize != tokenSize
      {
        if senderClasses[i].tokenSize == tokenSize {
          FoundIsOnlyOne(senderClasses, tokenSize, i);
          return senderClasses[i];
        }
        i := i + 1;
      }
      c := new ExtendedClass.Sender(tokenSize);
      AppendKeepsUnique(senderClasses, c);
      senderClasses := senderClasses + [c];
    }

    /**
     * The membership scan of getReceiverPort (actors-teleport.c:587-595):
     * walks the whole receiver list and notes whether `actorClass` is one
     * of its entries.
     */
    method IsReceiverClass(actorClass: ExtendedClass) returns (found: bool)
      ensures found <==> actorClass in receiverClasses
    {
      found := false;
      var i := 0;
      while i < |receiverClasses|
        invariant 0 <= i <= |receiverClasses|
        invariant found <==> actorClass in receiverClasses[..i]
      {
        if receiverClasses[i] == actorClass {
          found := true;
        }
        i := i + 1;
      }
      assert receiverClasses[..i] == receiverClasses;
    }

    /**
     * The membership scan of setSenderRemoteAddress
     * (actors-teleport.c:609-617), over the sender list.
     */
    method IsSenderClass(actorClass: ExtendedClass) returns (found: bool)
      ensures found <==> actorClass in senderClasses
    {
      found := false;
      var i := 0;
      while i < |senderClasses|
        invariant 0 <= i <= |senderClasses|
        invariant found <==> actorClass in senderClasses[..i]
      {
        if senderClasses[i] == actorClass {
          found := true;
        }
        i := i + 1;
      }
      assert senderClasses[..i] == senderClasses;
    }
  }

  /**
   * Asking twice for a receiver class of one token size gives the same
   * descriptor and registers it once.
   */
  method ReceiverClassIsMemoized(r: Registry, n: CInt) returns (first: ExtendedClass, second: ExtendedClass)
    requires r.Valid()
    modifies r
    ensures r.Valid()
    ensures first == second
    ensures |r.receiverClasses| <= |old(r.receiverClasses)| + 1
  {
    first := r.GetReceiverClass(n);
    ghost var between := r.receiverClasses;
    second := r.GetReceiverClass(n);
    FoundIsOnlyOne(between, n, IndexOfSize(between, n).value);
  }
}
