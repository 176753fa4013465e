/** Timezone negotiation: the offset parser of `ConfrimTimeZone` and the list operations
    on `tzPendingConfirmationUsers`. */
module TimeZone {
  import opened Wrappers
  import opened Text
  import opened Numbers
  import opened Seqs

  /** A stored UTC offset in seconds. `NaN` is what JavaScript computes when `parseInt`
      fails on an en dash or em dash sign. */
  datatype Tz = Seconds(seconds: int) | NaN

  /** The sign group `(\+|-|–|—|)` of both offset patterns. */
  datatype Sign = Plus | Minus | Dash | Unsigned

  function SignOf(c: char): Option<Sign>
  {
    if c == '+' then Some(Plus)
    else if c == '-' then Some(Minus)
    else if c == '\U{2013}' || c == '\U{2014}' then Some(Dash)
    else None
  }

  /** A match of either offset pattern, split into sign, hour digits and minute digits
      (no minute digits for the hour-only pattern). */
  datatype OffsetMatch = OffsetMatch(sign: Sign, hours: string, minutes: string)

  predicate WellFormed(m: OffsetMatch)
  {
    m.hours != [] && AllDigits(m.hours) && AllDigits(m.minutes)
  }

  /** `([0-9])+:([0-9])+` at position `q`, after the sign. */
  function ClockDigitsAt(s: string, q: nat, sign: Sign): (m: Option<OffsetMatch>)
    requires q <= |s|
    ensures m.Some? ==> WellFormed(m.value) && m.value.minutes != [] && q < |s| && IsDigit(s[q])
  {
    var e := RunEnd(s, q);
    if q < e && e + 1 < |s| && s[e] == ':' && IsDigit(s[e + 1]) then
      assert IsDigit(s[q..e][0]);
      Some(OffsetMatch(sign, s[q..e], s[e + 1..RunEnd(s, e + 1)]))
    else None
  }

  /** `(\+|-|–|—|)([0-9])+:([0-9])+` at position `p`: with a sign character the signed
      alternative is the only one that can match, since the empty one needs a digit. */
  function ClockAt(s: string, p: nat): (m: Option<OffsetMatch>)
    requires p < |s|
    ensures m.Some? ==> WellFormed(m.value)
  {
    match SignOf(s[p])
    case Some(sign) => ClockDigitsAt(s, p + 1, sign)
    case None => ClockDigitsAt(s, p, Unsigned)
  }

  /** The first (leftmost) match of the `H:MM` pattern at or after `p`. */
  function FirstClock(s: string, p: nat): (m: Option<OffsetMatch>)
    requires p <= |s|
    ensures m.Some? ==> WellFormed(m.value)
    decreases |s| - p
  {
    if p == |s| then None
    else if ClockAt(s, p).Some? then ClockAt(s, p)
    else FirstClock(s, p + 1)
  }

  /** `(\+|-|–|—|)([0-9])+` at position `p`. */
  function HourAt(s: string, p: nat): (m: Option<OffsetMatch>)
    requires p < |s|
    ensures m.Some? ==> WellFormed(m.value)
  {
    match SignOf(s[p])
    case Some(sign) =>
      if p + 1 < |s| && IsDigit(s[p + 1]) then
        var e := RunEnd(s, p + 1);
        assert IsDigit(s[p + 1..e][0]);
        Some(OffsetMatch(sign, s[p + 1..e], ""))
      else None
    case None =>
      if IsDigit(s[p]) then
        var e := RunEnd(s, p);
        assert IsDigit(s[p..e][0]);
        Some(OffsetMatch(Unsigned, s[p..e], ""))
      else None
  }

  /** The first match of the bare-hour pattern at or after `p`. */
  function FirstHour(s: string, p: nat): (m: Option<OffsetMatch>)
    requires p <= |s|
    ensures m.Some? ==> WellFormed(m.value)
    decreases |s| - p
  {
    if p == |s| then None
    else if HourAt(s, p).Some? then HourAt(s, p)
    else FirstHour(s, p + 1)
  }

  /** `hours * 3600 + minutes * 60 * (negative ? -1 : 1)`, where `hours` is `parseInt` of
      the signed hour part: `NaN` for a dash sign, negative for `-`. The sign governs both
      parts, so the result is never positive after `-` and never negative otherwise. */
  function OffsetOf(m: OffsetMatch): (tz: Tz)
    requires WellFormed(m)
    ensures tz.NaN? <==> m.sign == Dash
    ensures m.sign == Minus ==> tz.seconds <= 0
    ensures m.sign == Plus || m.sign == Unsigned ==> tz.seconds >= 0
    ensures tz.Seconds? && tz.seconds == 0 ==> DigitsValue(m.hours) == 0 && DigitsValue(m.minutes) == 0
  {
    if m.sign == Dash then NaN
    else
      var h: int := DigitsValue(m.hours);
      var hours := if m.sign == Minus then -h else h;
      var direction := if m.sign == Minus then -1 else 1;
      Seconds(hours * 3600 + DigitsValue(m.minutes) * 60 * direction)
  }

  /** The offset `ConfrimTimeZone` reads from a message: the first `±H:MM` match if there
      is one, otherwise the first `±H` match, otherwise nothing; there is one exactly when
      the message holds a digit. */
  function ParseOffset(text: string): (r: Option<Tz>)
    ensures r.None? <==> !HasDigit(text)
  {
    MatchNeedsDigit(text);
    match FirstClock(text, 0)
    case Some(m) => Some(OffsetOf(m))
    case None =>
      match FirstHour(text, 0)
      case Some(m) => Some(OffsetOf(m))
      case None => None
  }

  /** One of the two patterns matches exactly when the message holds a digit. */
  lemma MatchNeedsDigit(text: string)
    ensures FirstClock(text, 0).Some? || FirstHour(text, 0).Some? <==> HasDigit(text)
  {
    if HasDigit(text) {
      var i :| 0 <= i < |text| && IsDigit(text[i]);
      FirstHourReaches(text, 0, i);
    } else {
      NoDigitNoMatch(text, 0);
    }
  }

  /** `FirstClock` is the leftmost match at or after `p`: none exactly when no position
      matches, otherwise the match at the first position that does. */
  lemma {:induction false} FirstClockLeftmost(s: string, p: nat)
    requires p <= |s|
    ensures FirstClock(s, p).None? <==> forall q :: p <= q < |s| ==> ClockAt(s, q).None?
    ensures FirstClock(s, p).Some? ==>
      exists q :: p <= q < |s| && FirstClock(s, p) == ClockAt(s, q) && forall j :: p <= j < q ==> ClockAt(s, j).None?
    decreases |s| - p
  {
    if p < |s| && ClockAt(s, p).None? {
      FirstClockLeftmost(s, p + 1);
      if FirstClock(s, p).Some? {
        var q :| p + 1 <= q < |s| && FirstClock(s, p + 1) == ClockAt(s, q)
                 && forall j :: p + 1 <= j < q ==> ClockAt(s, j).None?;
        assert forall j :: p <= j < q ==> ClockAt(s, j).None?;
      }
    }
  }

  /** `FirstHour` is the leftmost match of the bare-hour pattern at or after `p`. */
  lemma {:induction false} FirstHourLeftmost(s: string, p: nat)
    requires p <= |s|
    ensures FirstHour(s, p).None? <==> forall q :: p <= q < |s| ==> HourAt(s, q).None?
    ensures FirstHour(s, p).Some? ==>
      exists q :: p <= q < |s| && FirstHour(s, p) == HourAt(s, q) && forall j :: p <= j < q ==> HourAt(s, j).None?
    decreases |s| - p
  {
    if p < |s| && HourAt(s, p).None? {
      FirstHourLeftmost(s, p + 1);
      if FirstHour(s, p).Some? {
        var q :| p + 1 <= q < |s| && FirstHour(s, p + 1) == HourAt(s, q)
                 && forall j :: p + 1 <= j < q ==> HourAt(s, j).None?;
        assert forall j :: p <= j < q ==> HourAt(s, j).None?;
      }
    }
  }

  lemma {:induction false} FirstHourReaches(s: string, p: nat, i: nat)
    requires p <= i < |s| && IsDigit(s[i])
    ensures FirstHour(s, p).Some?
    decreases i - p
  {
    if HourAt(s, p).None? {
      assert p != i;
      FirstHourReaches(s, p + 1, i);
    }
  }

  lemma {:induction false} NoDigitNoMatch(s: string, p: nat)
    requires p <= |s| && !HasDigit(s)
    ensures FirstClock(s, p).None? && FirstHour(s, p).None?
    decreases |s| - p
  {
    if p < |s| {
      assert ClockAt(s, p).None?;
      NoDigitNoMatch(s, p + 1);
    }
  }

  /** No match of either pattern starts inside a prefix without digits, unless at its last
      character followed by a digit. */
  lemma {:induction false} SkipPrefix(s: string, p: nat, n: nat)
    requires p <= n < |s|
    requires forall i :: 0 <= i <= n ==> !IsDigit(s[i])
    requires n + 1 == |s| || !IsDigit(s[n + 1])
    ensures FirstClock(s, p) == FirstClock(s, n + 1)
    ensures FirstHour(s, p) == FirstHour(s, n + 1)
    decreases n - p
  {
    assert RunEnd(s, p) == p;
    assert p + 1 < |s| ==> RunEnd(s, p + 1) == p + 1;
    assert ClockAt(s, p).None? && HourAt(s, p).None?;
    if p < n {
      SkipPrefix(s, p + 1, n);
    }
  }

  function Signed(sign: char, x: int): int
  {
    if sign == '-' then -x else x
  }

  /** How the bot's replies and users write an offset: `+3:30`, `-5:30`. */
  function FormatClock(sign: char, h: nat, m: nat): string
  {
    [sign] + NatToString(h) + ":" + NatToString(m)
  }

  /** The `H:MM` pattern matches a signed clock written at `p` in full. */
  lemma {:induction false} ClockMatch(s: string, p: nat, e: nat, f: nat)
    requires p + 1 < e && e + 1 < f <= |s|
    requires SignOf(s[p]).Some? && s[e] == ':'
    requires AllDigits(s[p + 1..e]) && AllDigits(s[e + 1..f])
    requires f == |s| || !IsDigit(s[f])
    ensures ClockAt(s, p) == Some(OffsetMatch(SignOf(s[p]).value, s[p + 1..e], s[e + 1..f]))
  {
    RunEndExact(s, p + 1, e);
    RunEndExact(s, e + 1, f);
    assert IsDigit(s[e + 1..f][0]);
  }

  /** The offset a match of the two signed forms stands for. */
  lemma OffsetOfSigned(sign: char, H: string, M: string)
    requires sign == '+' || sign == '-'
    requires H != [] && AllDigits(H) && AllDigits(M)
    ensures OffsetOf(OffsetMatch(SignOf(sign).value, H, M))
         == Seconds(Signed(sign, DigitsValue(H) * 3600 + DigitsValue(M) * 60))
  {
  }

  /** Where a signed clock stands after a prefix without digits, the `H:MM` search finds it. */
  lemma {:induction false} FirstClockAfterPrefix(s: string, P: nat, e: nat, f: nat)
    requires P + 1 < e && e + 1 < f <= |s|
    requires forall i :: 0 <= i < P ==> !IsDigit(s[i])
    requires SignOf(s[P]).Some? && s[e] == ':'
    requires AllDigits(s[P + 1..e]) && AllDigits(s[e + 1..f])
    requires f == |s| || !IsDigit(s[f])
    ensures FirstClock(s, 0) == Some(OffsetMatch(SignOf(s[P]).value, s[P + 1..e], s[e + 1..f]))
  {
    ClockMatch(s, P, e, f);
    if P > 0 {
      SkipPrefix(s, 0, P - 1);
    }
  }

  /** A written offset `±H:MM` after text without digits is read back exactly:
      `+3:30` is 12600 seconds and `-5:30` is -19800. */
  lemma ClockRoundTrip(prefix: string, sign: char, h: nat, m: nat, suffix: string)
    requires !HasDigit(prefix) && (sign == '+' || sign == '-')
    requires suffix == [] || !IsDigit(suffix[0])
    ensures ParseOffset(prefix + FormatClock(sign, h, m) + suffix)
         == Some(Seconds(Signed(sign, h * 3600 + m * 60)))
  {
    var H, M := NatToString(h), NatToString(m);
    ClockFound(prefix, sign, h, m, suffix);
    DigitsRoundTrip(h);
    DigitsRoundTrip(m);
    OffsetOfSigned(sign, H, M);
  }

  /** The `H:MM` search finds a written clock after text without digits. */
  lemma ClockFound(prefix: string, sign: char, h: nat, m: nat, suffix: string)
    requires !HasDigit(prefix) && (sign == '+' || sign == '-')
    requires suffix == [] || !IsDigit(suffix[0])
    ensures FirstClock(prefix + FormatClock(sign, h, m) + suffix, 0)
         == Some(OffsetMatch(SignOf(sign).value, NatToString(h), NatToString(m)))
  {
    ClockEnds(prefix, sign, h, m, suffix);
    ClockParts(prefix, sign, h, m, suffix);
    ClockFoundAt(prefix + FormatClock(sign, h, m) + suffix, |prefix|, sign, NatToString(h), NatToString(m));
  }

  /** The same, for any text with a signed clock at `P` after a digit-free prefix. */
  lemma ClockFoundAt(s: string, P: nat, sign: char, H: string, M: string)
    requires var e, f := P + 1 + |H|, P + 2 + |H| + |M|;
      P + 1 < e && e + 1 < f <= |s|
      && (forall i :: 0 <= i < P ==> !IsDigit(s[i]))
      && s[P] == sign && SignOf(s[P]).Some? && s[e] == ':'
      && s[P + 1..e] == H && s[e + 1..f] == M
      && AllDigits(s[P + 1..e]) && AllDigits(s[e + 1..f])
      && (f == |s| || !IsDigit(s[f]))
    ensures FirstClock(s, 0) == Some(OffsetMatch(SignOf(sign).value, H, M))
  {
    var e, f := P + 1 + |H|, P + 2 + |H| + |M|;
    FirstClockAfterPrefix(s, P, e, f);
    var found := OffsetMatch(SignOf(s[P]).value, s[P + 1..e], s[e + 1..f]);
    assert found == OffsetMatch(SignOf(sign).value, H, M);
  }

  /** The parts of a written clock. */
  lemma FormatClockParts(sign: char, h: nat, m: nat)
    ensures var F, H, M := FormatClock(sign, h, m), NatToString(h), NatToString(m);
      |F| == |H| + |M| + 2 && F[0] == sign && F[1 + |H|] == ':'
      && F[1..1 + |H|] == H && F[2 + |H|..] == M
  {
  }

  /** The written clock is preceded by the digit-free prefix and followed by a non-digit. */
  lemma ClockEnds(prefix: string, sign: char, h: nat, m: nat, suffix: string)
    requires !HasDigit(prefix)
    requires suffix == [] || !IsDigit(suffix[0])
    ensures var s, P := prefix + FormatClock(sign, h, m) + suffix, |prefix|;
      var f := P + |FormatClock(sign, h, m)|;
      f <= |s| && (forall i :: 0 <= i < P ==> !IsDigit(s[i])) && (f == |s| || !IsDigit(s[f]))
  {
    Concat3(prefix, FormatClock(sign, h, m), suffix);
  }

  /** The sign, the hour digits, the colon and the minute digits, by position. */
  lemma ClockParts(prefix: string, sign: char, h: nat, m: nat, suffix: string)
    requires sign == '+' || sign == '-'
    ensures var s, P := prefix + FormatClock(sign, h, m) + suffix, |prefix|;
      var H, M := NatToString(h), NatToString(m);
      var e, f := P + 1 + |H|, P + 2 + |H| + |M|;
      P + 1 < e && e + 1 < f <= |s| && f == P + |FormatClock(sign, h, m)|
      && s[P] == sign && SignOf(s[P]).Some? && s[e] == ':'
      && s[P + 1..e] == H && s[e + 1..f] == M
      && AllDigits(s[P + 1..e]) && AllDigits(s[e + 1..f])
  {
    var H, M := NatToString(h), NatToString(m);
    var F := FormatClock(sign, h, m);
    FormatClockParts(sign, h, m);
    Concat3(prefix, F, suffix);
    SliceParts(prefix + F + suffix, |prefix|, F, H, M);
  }

  /** A text holding `F` at `P` holds the parts of `F` at the shifted positions. */
  lemma SliceParts(s: string, P: nat, F: string, H: string, M: string)
    requires P + |F| <= |s| && s[P..P + |F|] == F
    requires |F| == |H| + |M| + 2 && F[1..1 + |H|] == H && F[2 + |H|..] == M
    ensures s[P] == F[0] && s[P + 1 + |H|] == F[1 + |H|]
    ensures s[P + 1..P + 1 + |H|] == H && s[P + 2 + |H|..P + |F|] == M
  {
    assert forall i :: 0 <= i < |F| ==> s[P + i] == F[i];
    assert forall i :: 0 <= i < |H| ==> s[P + 1..P + 1 + |H|][i] == F[1 + i] == H[i];
    assert forall i :: 0 <= i < |M| ==> s[P + 2 + |H|..P + |F|][i] == F[2 + |H| + i] == M[i];
  }

  /** Where the three parts of a concatenation stand. */
  lemma Concat3(a: string, b: string, c: string)
    ensures var s := a + b + c;
      s[|a|..|a| + |b|] == b
      && (forall i :: 0 <= i < |a| ==> s[i] == a[i])
      && (|a| + |b| < |s| ==> s[|a| + |b|] == c[0])
  {
  }

  /** A written offset `±H` with nothing after it is read back as whole hours:
      `-5` is -18000 seconds. */
  lemma HourRoundTrip(prefix: string, sign: char, h: nat)
    requires !HasDigit(prefix) && (sign == '+' || sign == '-')
    ensures ParseOffset(prefix + [sign] + NatToString(h)) == Some(Seconds(Signed(sign, h * 3600)))
  {
    var H := NatToString(h);
    var s := prefix + [sign] + H;
    var P := |prefix|;
    assert s[P] == sign && s[P + 1..] == H;
    assert forall i :: 0 <= i < P ==> s[i] == prefix[i];
    FirstHourAfterPrefix(s, P);
    DigitsRoundTrip(h);
    OffsetOfSigned(sign, H, "");
  }

  /** Where a signed run of digits closes the text after a prefix without digits, the
      `H:MM` search finds nothing and the bare-hour search finds that run. */
  lemma FirstHourAfterPrefix(s: string, P: nat)
    requires P + 1 < |s| && SignOf(s[P]).Some?
    requires forall i :: 0 <= i < P ==> !IsDigit(s[i])
    requires AllDigits(s[P + 1..])
    ensures FirstClock(s, 0).None?
    ensures FirstHour(s, 0) == Some(OffsetMatch(SignOf(s[P]).value, s[P + 1..], ""))
  {
    RunEndExact(s, P + 1, |s|);
    if P > 0 {
      SkipPrefix(s, 0, P - 1);
    }
    NoClockInTail(s, P, P);
    assert IsDigit(s[P + 1..][0]);
    assert RunEnd(s, P + 1) == |s| && s[P + 1..|s|] == s[P + 1..];
    assert HourAt(s, P) == Some(OffsetMatch(SignOf(s[P]).value, s[P + 1..], ""));
  }

  lemma {:induction false} NoClockInTail(s: string, n: nat, p: nat)
    requires n <= p <= |s| && n < |s|
    requires AllDigits(s[n + 1..])
    ensures FirstClock(s, p).None?
    decreases |s| - p
  {
    if p < |s| {
      if p + 1 <= |s| {
        RunEndExact(s, p + 1, |s|);
      }
      if p > n {
        RunEndExact(s, p, |s|);
      }
      NoClockInTail(s, n, p + 1);
    }
  }

  /** `Array.prototype.indexOf` on the list of users. */
  function IndexOfValue(xs: seq<int>, x: int): (r: int)
    ensures r == -1 <==> x !in xs
    ensures r != -1 ==> 0 <= r < |xs| && xs[r] == x && x !in xs[..r]
  {
    if x in xs then FirstIndex(xs, x) else -1
  }

  /** `xs.splice(start, 1)`: a negative start counts from the end. */
  function Splice1(xs: seq<int>, start: int): (r: seq<int>)
    ensures 0 <= start < |xs| ==> r == xs[..start] + xs[start + 1..]
    ensures start == -1 && xs != [] ==> r == xs[..|xs| - 1]
    ensures start >= |xs| ==> r == xs
    ensures |r| == |xs| - 1 || r == xs
  {
    var k := if start >= 0 then start else if |xs| + start >= 0 then |xs| + start else 0;
    if k < |xs| then xs[..k] + xs[k + 1..] else xs
  }

  /** `splice(indexOf(u), 1)` on a duplicate-free list: a listed user is taken out and
      nobody else; the list stays duplicate-free. For a user who is not listed the index is
      -1 and the call drops the last entry instead. */
  lemma RemoveUser(xs: seq<int>, u: int)
    requires NoDup(xs)
    ensures NoDup(Splice1(xs, IndexOfValue(xs, u)))
    ensures u in xs ==> forall y :: y in Splice1(xs, IndexOfValue(xs, u)) <==> y in xs && y != u
    ensures u !in xs && xs != [] ==> Splice1(xs, IndexOfValue(xs, u)) == xs[..|xs| - 1]
  {
    var r := Splice1(xs, IndexOfValue(xs, u));
    if u in xs {
      var k := IndexOfValue(xs, u);
      assert r == xs[..k] + xs[k + 1..];
      assert forall i :: 0 <= i < |r| ==> r[i] == (if i < k then xs[i] else xs[i + 1]);
      forall y | y in xs && y != u
        ensures y in r
      {
        var j :| 0 <= j < |xs| && xs[j] == y;
        assert r[if j < k then j else j - 1] == y;
      }
    } else if xs != [] {
      assert r == xs[..|xs| - 1] + [];
    }
  }
}
