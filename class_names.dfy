/**
 * The generated descriptor names of actors-teleport.c: the registry makes up
 * the name `_receiver_<n>B` or `_sender_<n>B` with `snprintf` into a buffer of
 * GENERATED_CLASS_NAME_MAX characters.
 */
module ClassNames {

  /** GENERATED_CLASS_NAME_MAX: the size of the name buffer, terminator included. */
  const GeneratedClassNameMax: nat := 20

  function DigitChar(d: nat): (c: char)
    requires d < 10
    ensures '0' <= c <= '9'
  {
    (d + '0' as int) as char
  }

  predicate IsDigit(c: char) {
    '0' <= c <= '9'
  }

  /** The decimal digits of `n`, most significant first, no leading zeros. */
  function Digits(n: nat): (s: string)
    ensures |s| >= 1
    ensures forall k :: 0 <= k < |s| ==> IsDigit(s[k])
    ensures |s| > 1 ==> s[0] != '0'
  {
    if n < 10 then [DigitChar(n)] else Digits(n / 10) + [DigitChar(n % 10)]
  }

  /** What `%d` prints for `n`. */
  function FormatInt(n: int): (s: string)
    ensures |s| >= 1
    ensures (n < 0) == (s[0] == '-')
  {
    if n < 0 then "-" + Digits(-n) else Digits(n)
  }

  /** Reads a string of decimal digits back, the partner of Digits. */
  function ParseDigits(s: string): (n: nat)
    requires forall k :: 0 <= k < |s| ==> IsDigit(s[k])
  {
    if s == [] then 0 else 10 * ParseDigits(s[..|s| - 1]) + DigitValue(s[|s| - 1])
  }

  function DigitValue(c: char): (d: nat)
    requires IsDigit(c)
    ensures d < 10
  {
    c as int - '0' as int
  }

  /** Reads what `%d` printed back, the partner of FormatInt. */
  function ParseInt(s: string): (n: int)
    requires |s| >= 1
    requires forall k :: (if s[0] == '-' then 1 else 0) <= k < |s| ==> IsDigit(s[k])
  {
    if s[0] == '-' then -(ParseDigits(s[1..]) as int) else ParseDigits(s)
  }

  lemma {:induction false} ParseDigitsOfDigits(n: nat)
    ensures ParseDigits(Digits(n)) == n
  {
    var s := Digits(n);
    if n >= 10 {
      ParseDigitsOfDigits(n / 10);
      assert s[..|s| - 1] == Digits(n / 10);
    }
  }

  /** Printing a number with `%d` loses nothing: parsing it gives the number back. */
  lemma ParseIntOfFormatInt(n: int)
    ensures ParseInt(FormatInt(n)) == n
  {
    if n < 0 {
      assert FormatInt(n)[1..] == Digits(-n);
      ParseDigitsOfDigits(-n);
    } else {
      ParseDigitsOfDigits(n);
    }
  }

  /**
   * `snprintf(buffer, size, ...)`: an output that fits is kept whole; a longer
   * one is cut to its first `size - 1` characters.
   */
  function Snprintf(size: nat, s: string): (r: string)
    requires size > 0
    ensures |r| < size
    ensures r <= s
    ensures |s| < size ==> r == s
    ensures |s| >= size ==> |r| == size - 1
  {
    if |s| < size then s else s[..size - 1]
  }

  /** The name getReceiverClass gives a new descriptor (actors-teleport.c:514). */
  function ReceiverClassName(tokenSize: int): (name: string)
    ensures |name| < GeneratedClassNameMax
    ensures "_receiver_" <= name <= "_receiver_" + FormatInt(tokenSize) + "B"
    ensures |name| == GeneratedClassNameMax - 1 || name == "_receiver_" + FormatInt(tokenSize) + "B"
  {
    Snprintf(GeneratedClassNameMax, "_receiver_" + FormatInt(tokenSize) + "B")
  }

  /** The name getSenderClass gives a new descriptor (actors-teleport.c:559). */
  function SenderClassName(tokenSize: int): (name: string)
    ensures |name| < GeneratedClassNameMax
    ensures "_sender_" <= name <= "_sender_" + FormatInt(tokenSize) + "B"
    ensures |name| == GeneratedClassNameMax - 1 || name == "_sender_" + FormatInt(tokenSize) + "B"
  {
    Snprintf(GeneratedClassNameMax, "_sender_" + FormatInt(tokenSize) + "B")
  }

  function Pow10(k: nat): (p: nat)
    ensures p >= 1
  {
    if k == 0 then 1 else 10 * Pow10(k - 1)
  }

  lemma {:induction false} DigitsFewerThan(n: nat, k: nat)
    requires 1 <= k && n < Pow10(k)
    ensures |Digits(n)| <= k
  {
    if n >= 10 {
      DigitsFewerThan(n / 10, k - 1);
    }
  }

  lemma {:induction false} DigitsAtLeast(n: nat, k: nat)
    requires Pow10(k) <= n
    ensures |Digits(n)| > k
  {
    if k > 0 {
      DigitsAtLeast(n / 10, k - 1);
    }
  }

  /** Whether a name was cut short by the 20-character buffer. */
  lemma ReceiverNameComplete(n: int)
    ensures ReceiverClassName(n) == "_receiver_" + FormatInt(n) + "B" <==> |FormatInt(n)| <= 8
  {
  }

  /**
   * Receiver names are complete, hence tell their token sizes apart, for every
   * size below 10^8 bytes.
   */
  lemma ReceiverNamesDistinct(m: int, n: int)
    requires -9999999 <= m < 100000000 && -9999999 <= n < 100000000
    requires m != n
    ensures ReceiverClassName(m) != ReceiverClassName(n)
  {
    assert Pow10(7) == 10000000 && Pow10(8) == 100000000;
    ShortFormat(m, 8);
    ShortFormat(n, 8);
    var a, b := ReceiverClassName(m), ReceiverClassName(n);
    assert a[10..|a| - 1] == FormatInt(m);
    assert b[10..|b| - 1] == FormatInt(n);
    ParseIntOfFormatInt(m);
    ParseIntOfFormatInt(n);
  }

  /**
   * Sender names are complete, hence tell their token sizes apart, for every
   * size of at least -999999999 (every non-negative C int among them).
   */
  lemma SenderNamesDistinct(m: int, n: int)
    requires -999999999 <= m < 0x8000_0000 && -999999999 <= n < 0x8000_0000
    requires m != n
    ensures SenderClassName(m) != SenderClassName(n)
  {
    assert Pow10(9) == 1000000000 && Pow10(10) == 10000000000;
    ShortFormat(m, 10);
    ShortFormat(n, 10);
    var a, b := SenderClassName(m), SenderClassName(n);
    assert a[8..|a| - 1] == FormatInt(m);
    assert b[8..|b| - 1] == FormatInt(n);
    ParseIntOfFormatInt(m);
    ParseIntOfFormatInt(n);
  }

  lemma ShortFormat(n: int, k: nat)
    requires 2 <= k <= 10
    requires -(Pow10(k - 1) - 1) <= n < Pow10(k)
    ensures |FormatInt(n)| <= k
  {
    if n < 0 {
      DigitsFewerThan(-n, k - 1);
    } else {
      DigitsFewerThan(n, k);
    }
  }

  /**
   * From nine digits on, the buffer cuts a receiver name short, and two token
   * sizes then share one name.
   */
  lemma ReceiverNamesCollide()
    ensures ReceiverClassName(123456789) == ReceiverClassName(1234567890)
  {
    DigitsAtLeast(123456789, 8);
    DigitsAtLeast(1234567890, 8);
    assert Digits(1234567890) == Digits(123456789) + ['0'];
  }
}
