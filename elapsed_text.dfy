/** The "Time: %ld.%ld" field of the route data dump: how an elapsed
    timeval is printed, and how a reader takes the printed text back as a
    number of seconds. A negative elapsed time prints with a '-' before its
    seconds, and a reader applies that sign to the whole number. */
module ElapsedText {
  import opened Timevals

  predicate IsDigit(c: char)
  {
    '0' <= c <= '9'
  }

  predicate AllDigits(s: string)
  {
    forall i :: 0 <= i < |s| ==> IsDigit(s[i])
  }

  function DigitChar(d: nat): (c: char)
    requires d < 10
    ensures IsDigit(c) && (c as int) - ('0' as int) == d
  {
    (('0' as int) + d) as char
  }

  function DigitValue(c: char): nat
  {
    if IsDigit(c) then (c as int) - ('0' as int) else 0
  }

  function Pow10(k: nat): (p: nat)
    ensures p >= 1
  {
    if k == 0 then 1 else 10 * Pow10(k - 1)
  }

  /** printf's %ld for a non-negative value: its decimal digits, no leading
      zeros. */
  function Decimal(n: nat): (s: string)
    ensures 1 <= |s| && AllDigits(s)
    decreases n
  {
    if n < 10 then [DigitChar(n)] else Decimal(n / 10) + [DigitChar(n % 10)]
  }

  /** The number a string of digits denotes. */
  function Value(s: string): nat
    decreases |s|
  {
    if s == [] then 0 else 10 * Value(s[..|s| - 1]) + DigitValue(s[|s| - 1])
  }

  lemma {:induction false} ValueOfDecimal(n: nat)
    ensures Value(Decimal(n)) == n
  {
    if n >= 10 {
      ValueOfDecimal(n / 10);
      var s := Decimal(n);
      assert s[..|s| - 1] == Decimal(n / 10);
    }
  }

  lemma {:induction false} DecimalFits(n: nat, k: nat)
    requires 1 <= k && n < Pow10(k)
    ensures |Decimal(n)| <= k
  {
    if n >= 10 {
      assert k >= 2;
      assert n / 10 < Pow10(k - 1);
      DecimalFits(n / 10, k - 1);
    }
  }

  /** Left-pads a digit string with '0' to the given width (printf's %0*ld). */
  function ZeroPad(s: string, width: nat): (r: string)
    ensures |r| == if |s| < width then width else |s|
  {
    if |s| < width then seq(width - |s|, _ => '0') + s else s
  }

  lemma {:induction false} ValueOfZeros(z: string)
    requires forall i :: 0 <= i < |z| ==> z[i] == '0'
    ensures Value(z) == 0
  {
    if z != [] {
      ValueOfZeros(z[..|z| - 1]);
    }
  }

  lemma {:induction false} LeadingZerosKeepValue(z: string, s: string)
    requires forall i :: 0 <= i < |z| ==> z[i] == '0'
    ensures Value(z + s) == Value(s)
    decreases |s|
  {
    if s == [] {
      assert z + s == z;
      ValueOfZeros(z);
    } else {
      var t := z + s;
      assert t[..|t| - 1] == z + s[..|s| - 1];
      LeadingZerosKeepValue(z, s[..|s| - 1]);
    }
  }

  /** Splits printed text at its first '.' into the whole and the fractional
      part; text without a '.' is all whole part. */
  function SplitAtDot(s: string): (string, string)
  {
    if s == [] then ([], [])
    else if s[0] == '.' then ([], s[1..])
    else
      var (w, f) := SplitAtDot(s[1..]);
      ([s[0]] + w, f)
  }

  lemma {:induction false} SplitDigitsDot(w: string, f: string)
    requires AllDigits(w)
    ensures SplitAtDot(w + "." + f) == (w, f)
  {
    if w != [] {
      assert (w + "." + f)[1..] == w[1..] + "." + f;
      SplitDigitsDot(w[1..], f);
      assert [w[0]] + w[1..] == w;
    } else {
      assert w + "." + f == "." + f;
    }
  }

  /** printf's %ld for a signed value: a '-' before the digits of a
      negative one. */
  function SignedDecimal(n: int): string
  {
    if n < 0 then "-" + Decimal(-n) else Decimal(n)
  }

  /** How "W.F" reads as a decimal number of seconds, in microseconds: the
      fraction F counts in units of 10^-|F| seconds (digits past the sixth
      are dropped), and a '-' at the head of W negates the whole number. */
  function ReadMicros(text: string): int
  {
    var (w, f) := SplitAtDot(text);
    var frac := if |f| <= 6 then Value(f) * Pow10(6 - |f|) else Value(f[..6]);
    if w != [] && w[0] == '-' then -(Value(w[1..]) * USEC_PER_SEC + frac)
    else Value(w) * USEC_PER_SEC + frac
  }

  /** Printed "W.F" with W from %ld splits back into W and F, the sign
      included. */
  lemma {:induction false} SplitSignedDot(n: int, f: string)
    ensures SplitAtDot(SignedDecimal(n) + "." + f) == (SignedDecimal(n), f)
  {
    if n < 0 {
      var s := SignedDecimal(n) + "." + f;
      assert s[1..] == Decimal(-n) + "." + f;
      SplitDigitsDot(Decimal(-n), f);
    } else {
      SplitDigitsDot(Decimal(n), f);
    }
  }

  /** "W.F" with W printed by %ld reads as W seconds plus or minus, by W's
      sign, the fraction F scaled to microseconds. */
  lemma {:induction false} ReadSigned(n: int, f: string)
    requires |f| <= 6
    ensures ReadMicros(SignedDecimal(n) + "." + f) ==
            if 0 <= n then n * USEC_PER_SEC + Value(f) * Pow10(6 - |f|)
            else n * USEC_PER_SEC - Value(f) * Pow10(6 - |f|)
  {
    SplitSignedDot(n, f);
    var w := SignedDecimal(n);
    if n < 0 {
      assert w[0] == '-' && w[1..] == Decimal(-n);
      ValueOfDecimal(-n);
    } else {
      assert IsDigit(w[0]);
      ValueOfDecimal(n);
    }
  }

  /** A number of at least 10^k prints in at least k + 1 digits. */
  lemma {:induction false} DecimalAtLeast(n: nat, k: nat)
    requires Pow10(k) <= n
    ensures |Decimal(n)| >= k + 1
  {
    if k > 0 {
      assert n / 10 >= Pow10(k - 1);
      DecimalAtLeast(n / 10, k - 1);
    }
  }

  /** The dump as written: seconds and microseconds both printed with %ld,
      so the text splits at its dot into the signed seconds and the
      unpadded microseconds. */
  function RenderAsWritten(t: Timeval): (s: string)
    requires 0 <= t.usec
    ensures SplitAtDot(s) == (SignedDecimal(t.sec), Decimal(t.usec))
  {
    SplitSignedDot(t.sec, Decimal(t.usec));
    SignedDecimal(t.sec) + "." + Decimal(t.usec)
  }

  /** How the text as written reads: the microseconds are scaled by ten
      for every digit %ld left out, and for a negative time they are
      subtracted from the seconds instead of added. */
  lemma {:induction false} AsWrittenReading(t: Timeval)
    requires Normalized(t)
    ensures |Decimal(t.usec)| <= 6
    ensures ReadMicros(RenderAsWritten(t)) ==
            if 0 <= t.sec then t.sec * USEC_PER_SEC + t.usec * Pow10(6 - |Decimal(t.usec)|)
            else t.sec * USEC_PER_SEC - t.usec * Pow10(6 - |Decimal(t.usec)|)
  {
    assert Pow10(6) == USEC_PER_SEC;
    DecimalFits(t.usec, 6);
    ValueOfDecimal(t.usec);
    ReadSigned(t.sec, Decimal(t.usec));
  }

  /** The text as written reads back as the elapsed time exactly when the
      microseconds are 0, or the time is non-negative and its microseconds
      have six digits; every other elapsed time is misread. */
  lemma {:induction false} AsWrittenReadsBackIff(t: Timeval)
    requires Normalized(t)
    ensures ReadMicros(RenderAsWritten(t)) == Micros(t) <==>
            (t.usec == 0 || (0 <= t.sec && t.usec >= 100000))
  {
    AsWrittenReading(t);
    var len := |Decimal(t.usec)|;
    var scale := Pow10(6 - len);
    assert Pow10(5) == 100000;
    if t.sec < 0 {
      assert t.usec > 0 ==> t.usec * scale > 0;
    } else if t.usec >= 100000 {
      DecimalAtLeast(t.usec, 5);
      assert scale == 1;
    } else if t.usec > 0 {
      DecimalFits(t.usec, 5);
      assert scale >= 10;
      assert t.usec * scale > t.usec;
    }
  }

  /** A dump taken while t_end is still zero and t_start is (100 s,
      300000 us) prints "-101.700000", which reads as -101.7 s although
      the elapsed time is -100.3 s. */
  lemma AsWrittenNegativeMisreads()
    ensures TimerSub(Timeval(0, 0), Timeval(100, 300000)) == Timeval(-101, 700000)
    ensures ReadMicros(RenderAsWritten(Timeval(-101, 700000))) == -101700000
    ensures Micros(Timeval(-101, 700000)) == -100300000
  {
    AsWrittenReading(Timeval(-101, 700000));
    DecimalAtLeast(700000, 5);
  }

  /** Five microseconds print as "0.5", which reads as half a second. */
  lemma AsWrittenMisreads()
    ensures RenderAsWritten(Timeval(0, 5)) == "0.5"
    ensures ReadMicros("0.5") == 500000 != Micros(Timeval(0, 5))
  {
  }

  /** The evidently intended rendering: microseconds zero-padded to six
      digits (%06ld). */
  function RenderElapsed(t: Timeval): string
    requires Normalized(t)
  {
    SignedDecimal(t.sec) + "." + ZeroPad(Decimal(t.usec), 6)
  }

  /** The microseconds of a normalized time padded to six digits denote the
      microseconds. */
  lemma {:induction false} PaddedFraction(t: Timeval)
    requires Normalized(t)
    ensures |ZeroPad(Decimal(t.usec), 6)| == 6
    ensures Value(ZeroPad(Decimal(t.usec), 6)) == t.usec
  {
    var d := Decimal(t.usec);
    assert Pow10(6) == USEC_PER_SEC;
    DecimalFits(t.usec, 6);
    ValueOfDecimal(t.usec);
    if |d| < 6 {
      LeadingZerosKeepValue(seq(6 - |d|, _ => '0'), d);
    }
  }

  /** The padded rendering reads back as exactly the elapsed time. */
  lemma {:induction false} RenderElapsedRoundTrip(t: Timeval)
    requires 0 <= t.sec && Normalized(t)
    ensures ReadMicros(RenderElapsed(t)) == Micros(t)
  {
    PaddedFraction(t);
    ReadSigned(t.sec, ZeroPad(Decimal(t.usec), 6));
  }

  /** Padding alone does not mend a negative elapsed time: its text reads
      back exactly when the time is non-negative or whole seconds. */
  lemma {:induction false} PaddedReadsBackIff(t: Timeval)
    requires Normalized(t)
    ensures ReadMicros(RenderElapsed(t)) == Micros(t) <==> (0 <= t.sec || t.usec == 0)
  {
    PaddedFraction(t);
    ReadSigned(t.sec, ZeroPad(Decimal(t.usec), 6));
  }
}
