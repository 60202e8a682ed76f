/** Configuration rules of the task factory and the event selection: the
    trigger-class to trigger-bit mapping, the shift tag that names a task
    ("p" or "m" and the shift in units of 1e-5, zero-padded to five digits),
    the task name, and the trigger test applied to an event. */
module TaskConfig {
  import opened Options

  // Offline trigger bits, as the analysis framework's event interface
  // (AliVEvent) declares them.
  const kINT7: bv32 := 0x2        // bit 1: minimum-bias V0AND
  const kEMCEJE: bv32 := 0x4000   // bit 14: EMCAL level-1 jet patch
  const kEMCEGA: bv32 := 0x8000   // bit 15: EMCAL level-1 gamma patch

  /** The trigger bits for a trigger class name; 0 for a name the task does
      not know. */
  function TriggerBits(trigger: string): (bits: bv32)
    ensures bits != 0 <==> trigger in {"INT7", "EJ1", "EJ2", "EG1", "EG2"}
    ensures trigger == "INT7" ==> bits == kINT7
    ensures trigger == "EJ1" || trigger == "EJ2" ==> bits == kEMCEJE
    ensures trigger == "EG1" || trigger == "EG2" ==> bits == kEMCEGA
    ensures bits == 0 || bits == kINT7 || bits == kEMCEJE || bits == kEMCEGA
  {
    if trigger == "INT7" then kINT7
    else if trigger == "EJ1" || trigger == "EJ2" then kEMCEJE
    else if trigger == "EG1" || trigger == "EG2" then kEMCEGA
    else 0
  }

  /** The jet and the gamma classes of both thresholds share one bit each,
      and the three bits the task can select are pairwise distinct. */
  lemma TriggerBitsClasses()
    ensures TriggerBits("EJ1") == TriggerBits("EJ2") == kEMCEJE
    ensures TriggerBits("EG1") == TriggerBits("EG2") == kEMCEGA
    ensures kINT7 & kEMCEJE == 0 && kINT7 & kEMCEGA == 0 && kEMCEJE & kEMCEGA == 0
  {
  }

  // ---------------------------------------------------------------------
  // Event selection

  /** s contains p somewhere (an empty p is contained in every s). */
  function Contains(s: string, p: string): bool
    decreases |s|
  {
    p <= s || (|s| > 0 && Contains(s[1..], p))
  }

  predicate OccursAt(s: string, p: string, i: int) {
    0 <= i && i + |p| <= |s| && s[i..i + |p|] == p
  }

  /** A slice of the tail of s is the slice of s one position further on. */
  lemma TailSlice(s: string, a: int, b: int)
    requires 0 <= a <= b <= |s| - 1
    ensures s[1..][a..b] == s[a + 1..b + 1]
  {
    assert |s[1..][a..b]| == |s[a + 1..b + 1]|;
    forall k | 0 <= k < b - a
      ensures s[1..][a..b][k] == s[a + 1..b + 1][k]
    {
    }
  }

  lemma {:induction false} ContainsIff(s: string, p: string)
    ensures Contains(s, p) <==> exists i :: OccursAt(s, p, i)
    decreases |s|
  {
    if p <= s {
      assert OccursAt(s, p, 0);
    } else if |s| > 0 {
      ContainsIff(s[1..], p);
      if Contains(s[1..], p) {
        var j :| OccursAt(s[1..], p, j);
        TailSlice(s, j, j + |p|);
        assert OccursAt(s, p, j + 1);
      }
      if i :| OccursAt(s, p, i) {
        assert i != 0;
        TailSlice(s, i - 1, i - 1 + |p|);
        assert OccursAt(s[1..], p, i - 1);
      }
    }
  }

  /** An event is taken when its selection mask shares a bit with the task's
      trigger bits and its fired trigger classes contain the trigger string. */
  predicate TriggerSelected(eventMask: bv32, firedClasses: string, triggerBits: bv32, triggerString: string) {
    (eventMask & triggerBits) != 0 && Contains(firedClasses, triggerString)
  }

  /** Selection needs a common bit and an occurrence of the trigger string;
      a task left with no trigger bits selects nothing. */
  lemma TriggerSelectedMeaning(eventMask: bv32, firedClasses: string, triggerBits: bv32, triggerString: string)
    ensures TriggerSelected(eventMask, firedClasses, triggerBits, triggerString)
        <==> (eventMask & triggerBits) != 0 && exists i :: OccursAt(firedClasses, triggerString, i)
    ensures triggerBits == 0 ==> !TriggerSelected(eventMask, firedClasses, triggerBits, triggerString)
  {
    ContainsIff(firedClasses, triggerString);
  }

  // ---------------------------------------------------------------------
  // The shift tag: a sign letter, then the magnitude of the shift in units
  // of 1e-5, truncated to an integer and zero-padded to five digits

  /** Conversion of a real to int, which truncates toward zero. */
  function TruncateToInt(x: real): (n: int)
    ensures x >= 0.0 ==> 0.0 <= n as real <= x < n as real + 1.0
    ensures x < 0.0 ==> n as real - 1.0 < x <= n as real <= 0.0
  {
    if x >= 0.0 then x.Floor else -((-x).Floor)
  }

  function AbsInt(n: int): nat {
    if n < 0 then -n else n
  }

  predicate IsDigit(ch: char) {
    '0' <= ch <= '9'
  }

  predicate AllDigits(s: string) {
    forall i :: 0 <= i < |s| ==> IsDigit(s[i])
  }

  function DigitChar(d: nat): (ch: char)
    requires d < 10
    ensures IsDigit(ch)
  {
    ('0' as int + d) as char
  }

  /** The decimal digits of n, with no leading zeros ("0" for zero). */
  function Decimal(n: nat): (s: string)
    ensures |s| >= 1 && AllDigits(s)
    decreases n
  {
    if n < 10 then [DigitChar(n)] else Decimal(n / 10) + [DigitChar(n % 10)]
  }

  /** The number a string of decimal digits denotes. */
  function DigitsValue(s: string): nat
    requires AllDigits(s)
    decreases |s|
  {
    if s == [] then 0 else DigitsValue(s[..|s| - 1]) * 10 + (s[|s| - 1] as int - '0' as int)
  }

  /** s padded on the left with '0' up to `width` characters. */
  function ZeroPad(s: string, width: nat): (r: string)
    ensures |r| == if |s| >= width then |s| else width
    ensures r[|r| - |s|..] == s
    ensures forall i :: 0 <= i < |r| - |s| ==> r[i] == '0'
  {
    if |s| >= width then s else seq(width - |s|, _ => '0') + s
  }

  /** The tag that names a task with q/pt shift `shift`. */
  function ShiftTag(shift: real): string {
    [if shift > 0.0 then 'p' else 'm'] + ZeroPad(Decimal(AbsInt(TruncateToInt(shift * 100000.0))), 5)
  }

  function Pow10(k: nat): nat {
    if k == 0 then 1 else 10 * Pow10(k - 1)
  }

  lemma {:induction false} DecimalRoundTrip(n: nat)
    ensures DigitsValue(Decimal(n)) == n
    decreases n
  {
    if n >= 10 {
      DecimalRoundTrip(n / 10);
      var s := Decimal(n);
      assert s[..|s| - 1] == Decimal(n / 10);
    }
  }

  lemma {:induction false} DecimalLength(n: nat, k: nat)
    requires 1 <= k && n < Pow10(k)
    ensures |Decimal(n)| <= k
    decreases k
  {
    if n >= 10 {
      assert k > 1;
      DecimalLength(n / 10, k - 1);
    }
  }

  lemma {:induction false} LeadingZerosIgnored(z: string, s: string)
    requires forall i :: 0 <= i < |z| ==> z[i] == '0'
    requires AllDigits(s)
    ensures AllDigits(z + s)
    ensures DigitsValue(z + s) == DigitsValue(s)
    decreases |z| + |s|
  {
    var zs := z + s;
    assert AllDigits(zs) by {
      forall i | 0 <= i < |zs| ensures IsDigit(zs[i]) {
        if i < |z| { assert zs[i] == z[i]; } else { assert zs[i] == s[i - |z|]; }
      }
    }
    if s == [] {
      if z != [] {
        assert zs[..|zs| - 1] == z[..|z| - 1] + [];
        LeadingZerosIgnored(z[..|z| - 1], []);
        assert zs == z;
      }
    } else {
      assert zs[..|zs| - 1] == z + s[..|s| - 1];
      LeadingZerosIgnored(z, s[..|s| - 1]);
    }
  }

  /** The tag starts with 'p' exactly for a positive shift and with 'm'
      otherwise (so also for zero); the rest is at least five decimal
      digits, exactly five below 100000, and reads back as the truncated
      magnitude |int(shift * 1e5)|. */
  lemma ShiftTagMeaning(shift: real)
    ensures var tag := ShiftTag(shift);
            && |tag| >= 6
            && (tag[0] == 'p' <==> shift > 0.0)
            && (tag[0] == 'm' <==> shift <= 0.0)
            && AllDigits(tag[1..])
            && DigitsValue(tag[1..]) == AbsInt(TruncateToInt(shift * 100000.0))
            && (AbsInt(TruncateToInt(shift * 100000.0)) < 100000 ==> |tag| == 6)
  {
    var m := AbsInt(TruncateToInt(shift * 100000.0));
    var d := Decimal(m);
    var padded := ZeroPad(d, 5);
    var tag := ShiftTag(shift);
    assert tag[1..] == padded;
    var z := padded[..|padded| - |d|];
    assert padded == z + d;
    LeadingZerosIgnored(z, d);
    DecimalRoundTrip(m);
    if m < 100000 {
      assert Pow10(5) == 100000;
      DecimalLength(m, 5);
    }
  }

  /** Two shifts give the same tag exactly when they agree on the sign test
      and on the truncated magnitude. */
  lemma ShiftTagInjective(a: real, b: real)
    ensures ShiftTag(a) == ShiftTag(b)
        <==> (a > 0.0 <==> b > 0.0)
             && AbsInt(TruncateToInt(a * 100000.0)) == AbsInt(TruncateToInt(b * 100000.0))
  {
    ShiftTagMeaning(a);
    ShiftTagMeaning(b);
    if ShiftTag(a) == ShiftTag(b) {
      assert ShiftTag(a)[1..] == ShiftTag(b)[1..];
    }
  }

  /** The default shift 0 is tagged "m00000"; a shift of 1.23e-3 "p00123". */
  lemma ShiftTagExamples()
    ensures ShiftTag(0.0) == "m00000"
    ensures ShiftTag(0.00123) == "p00123"
  {
    assert Decimal(0) == "0";
    assert Decimal(123) == "123";
  }

  // ---------------------------------------------------------------------
  // Task name

  /** "QOverPtTask_<tag>_<trigger>". */
  function TaskName(tag: string, trigger: string): string {
    "QOverPtTask_" + tag + "_" + trigger
  }

  /** The part of s before its first '_', and the part after it. */
  function SplitAtUnderscore(s: string): Option<(string, string)>
    decreases |s|
  {
    if s == [] then None
    else if s[0] == '_' then Some(([], s[1..]))
    else match SplitAtUnderscore(s[1..])
      case None => None
      case Some((a, b)) => Some(([s[0]] + a, b))
  }

  lemma {:induction false} SplitJoined(a: string, b: string)
    requires '_' !in a
    ensures SplitAtUnderscore(a + "_" + b) == Some((a, b))
    decreases |a|
  {
    if a != [] {
      assert (a + "_" + b)[1..] == a[1..] + "_" + b;
      SplitJoined(a[1..], b);
      assert [a[0]] + a[1..] == a;
    } else {
      assert a + "_" + b == "_" + b;
    }
  }

  lemma TagHasNoUnderscore(shift: real)
    ensures '_' !in ShiftTag(shift)
  {
    ShiftTagMeaning(shift);
    var t := ShiftTag(shift);
    forall i | 0 <= i < |t| ensures t[i] != '_' {
      if i > 0 { assert t[1..][i - 1] == t[i]; }
    }
  }

  /** The tag and the trigger are read back from a task name by splitting
      after the fixed prefix at the first '_'. */
  lemma TaskNameSplits(tag: string, trigger: string)
    requires '_' !in tag
    ensures |TaskName(tag, trigger)| >= 12
    ensures SplitAtUnderscore(TaskName(tag, trigger)[12..]) == Some((tag, trigger))
  {
    var rest := tag + "_" + trigger;
    assert TaskName(tag, trigger) == "QOverPtTask_" + rest;
    assert TaskName(tag, trigger)[12..] == rest;
    SplitJoined(tag, trigger);
  }

  /** Task names tell the tag and the trigger apart: two tasks share a name
      only if they share both. */
  lemma TaskNameInjective(a: real, triggerA: string, b: real, triggerB: string)
    requires TaskName(ShiftTag(a), triggerA) == TaskName(ShiftTag(b), triggerB)
    ensures ShiftTag(a) == ShiftTag(b) && triggerA == triggerB
  {
    TagHasNoUnderscore(a);
    TagHasNoUnderscore(b);
    TaskNameSplits(ShiftTag(a), triggerA);
    TaskNameSplits(ShiftTag(b), triggerB);
  }
}
