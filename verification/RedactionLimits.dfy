/**
 Which secrets masking hides (internal/executor/runner.go, redactBytes, redactWriter):
 exactly those that neither begin nor end in the mask byte nor hold a whole mask, for
 one buffer; and of these, for a stream, exactly those with no newline before their end.
 */
module RedactionLimits {
  import opened Text
  import opened Redaction

  lemma OneWrite(p: Bytes, secrets: seq<Bytes>, maxLen: nat)
    ensures Writes([p], secrets, maxLen) == WriteStep(Stream([], []), p, secrets, maxLen)
  {
    assert [p][..0] == [];
  }

  lemma OneSecret(b: Bytes, s: Bytes)
    ensures MatchLen(b, [s]) == if s != [] && s <= b then |s| else 0
  {
    assert [s][1..] == [];
  }

  /** Text shorter than the only secret passes unmasked. */
  lemma {:induction false} TooShortToMatch(b: Bytes, s: Bytes)
    requires |b| < |s|
    ensures Redact(b, [s]) == b
  {
    OneSecret(b, s);
    if |b| > 0 {
      TooShortToMatch(b[1..], s);
    }
  }

  /** In `a + s + rest` the secret does not begin before its place. */
  ghost predicate NoEarlier(a: Bytes, s: Bytes, rest: Bytes) {
    forall j :: 0 <= j < |a| ==> !(s <= (a + s + rest)[j..])
  }

  lemma MatchInFront(s: Bytes, rest: Bytes)
    requires s != []
    ensures Redact(s + rest, [s]) == MASK + Redact(rest, [s])
  {
    OneSecret(s + rest, s);
    assert (s + rest)[|s|..] == rest;
  }

  lemma NoMatchInFront(b: Bytes, s: Bytes)
    requires b != [] && !(s <= b)
    ensures Redact(b, [s]) == [b[0]] + Redact(b[1..], [s])
  {
    OneSecret(b, s);
  }

  lemma Uncons(a: Bytes, m: Bytes, r: Bytes)
    requires a != []
    ensures (a + m + r)[0] == a[0] && (a + m + r)[1..] == a[1..] + m + r
    ensures [a[0]] + (a[1..] + m + r) == a + m + r
  {
  }

  lemma {:induction false} MaskedInPlace(a: Bytes, s: Bytes, rest: Bytes)
    requires s != [] && NoEarlier(a, s, rest)
    ensures Redact(a + s + rest, [s]) == a + MASK + Redact(rest, [s])
    decreases |a|
  {
    if a == [] {
      assert [] + s + rest == s + rest;
      MatchInFront(s, rest);
      assert [] + MASK + Redact(rest, [s]) == MASK + Redact(rest, [s]);
    } else {
      var b := a + s + rest;
      assert b[0..] == b && !(s <= b[0..]);
      NoMatchInFront(b, s);
      Uncons(a, s, rest);
      Uncons(a, MASK, Redact(rest, [s]));
      LaterStillNoEarlier(a, s, rest);
      MaskedInPlace(a[1..], s, rest);
    }
  }

  lemma LaterStillNoEarlier(a: Bytes, s: Bytes, rest: Bytes)
    requires a != [] && NoEarlier(a, s, rest)
    ensures NoEarlier(a[1..], s, rest)
  {
    Uncons(a, s, rest);
    var b := a + s + rest;
    forall j | 0 <= j < |a[1..]|
      ensures !(s <= (a[1..] + s + rest)[j..])
    {
      assert b[1..][j..] == b[j + 1..];
    }
  }

  /** `rest` is what `s` ends in. */
  predicate EndsWith(s: Bytes, rest: Bytes) {
    |rest| <= |s| && s[|s| - |rest|..] == rest
  }

  /** Surroundings in which masking `s` produces `s` again. */
  ghost predicate Betrays(s: Bytes, a: Bytes, rest: Bytes) {
    && |a| < |s| && a <= s && |rest| < |s| && EndsWith(s, rest)
    && NoEarlier(a, s, rest)
    && Occurs(s, a + MASK + rest)
  }

  lemma StarInFrontBetrays(s: Bytes)
    requires s != [] && s[0] == STAR
    ensures Betrays(s, [], s[1..])
  {
    assert ([] + MASK + s[1..])[3..] == s;
    assert s <= ([] + MASK + s[1..])[3..];
  }

  lemma StarAtEndBetrays(s: Bytes)
    requires s != [] && s[0] != STAR && s[|s| - 1] == STAR
    ensures Betrays(s, s[..|s| - 1], [])
  {
    var t := s[..|s| - 1];
    forall j | 0 <= j < |t|
      ensures !(s <= (t + s + [])[j..])
    {
      EarlierEndsEarlier(t, s, j);
    }
    assert (t + MASK + [])[..|s|] == s;
    assert s <= (t + MASK + [])[0..];
  }

  /** A copy of `s` beginning earlier would begin with the byte it ends in. */
  lemma EarlierEndsEarlier(t: Bytes, s: Bytes, j: nat)
    requires s != [] && t == s[..|s| - 1] && j < |t|
    ensures s <= (t + s + [])[j..] ==> s[0] == s[|s| - 1]
  {
    var b := t + s + [];
    if s <= b[j..] {
      assert s[0] == b[j..][0] == b[j] == t[j] == s[j];
      assert s[|s| - 1] == b[j..][|s| - 1] == b[|t| + j] == s[j];
    }
  }

  predicate MaskAt(s: Bytes, j: nat) {
    j + 4 <= |s| && s[j] == STAR && s[j + 1] == STAR && s[j + 2] == STAR && s[j + 3] == STAR
  }

  lemma OccursAt(s: Bytes) returns (k: nat)
    requires Occurs(MASK, s)
    ensures MaskAt(s, k)
  {
    k :| 0 <= k <= |s| && MASK <= s[k..];
    assert forall x :: 0 <= x < 4 ==> s[k + x] == s[k..][x] == MASK[x];
  }

  lemma {:induction false} FirstMask(s: Bytes, k: nat) returns (i: nat)
    requires MaskAt(s, k)
    ensures MaskAt(s, i) && forall j :: 0 <= j < i ==> !MaskAt(s, j)
    decreases k
  {
    if j :| 0 <= j < k && MaskAt(s, j) {
      i := FirstMask(s, j);
    } else {
      i := k;
    }
  }

  /** A copy of `s` beginning earlier would hold a mask earlier. */
  lemma EarlierHoldsEarlierMask(a: Bytes, s: Bytes, rest: Bytes, j: nat)
    requires j < |a| && MaskAt(s, |a|)
    ensures s <= (a + s + rest)[j..] ==> MaskAt(s, j)
  {
    var b := a + s + rest;
    if s <= b[j..] {
      var i := |a|;
      var c := b[j..];
      assert c[i] == b[i + j] && c[i + 1] == b[i + (j + 1)] && c[i + 2] == b[i + (j + 2)] && c[i + 3] == b[i + (j + 3)];
    }
  }

  lemma MaskInsideBetrays(s: Bytes) returns (a: Bytes, rest: Bytes)
    requires Occurs(MASK, s)
    ensures Betrays(s, a, rest)
  {
    var k := OccursAt(s);
    var i := FirstMask(s, k);
    a, rest := s[..i], s[i + 4..];
    forall j | 0 <= j < |a|
      ensures !(s <= (a + s + rest)[j..])
    {
      EarlierHoldsEarlierMask(a, s, rest, j);
    }
    assert a + MASK + rest == s;
    assert s <= s[0..];
  }

  lemma Betrayal(s: Bytes) returns (a: Bytes, rest: Bytes)
    requires s != [] && !Hideable(s)
    ensures Betrays(s, a, rest)
  {
    if s[0] == STAR {
      a, rest := [], s[1..];
      StarInFrontBetrays(s);
    } else if s[|s| - 1] == STAR {
      a, rest := s[..|s| - 1], [];
      StarAtEndBetrays(s);
    } else {
      a, rest := MaskInsideBetrays(s);
    }
  }

  ghost predicate Leaks(s: Bytes, secrets: seq<Bytes>, b: Bytes) {
    s in secrets && Occurs(s, Redact(b, secrets))
  }

  lemma HideableNeverLeaks(s: Bytes, secrets: seq<Bytes>, b: Bytes)
    requires Hideable(s)
    ensures !Leaks(s, secrets, b)
  {
    if s in secrets {
      forall k | 0 <= k <= |Redact(b, secrets)|
        ensures !(s <= Redact(b, secrets)[k..])
      {
        RedactHidesAt(b, secrets, s, k);
      }
    }
  }

  /** One pass hides a secret in every buffer and beside any other secrets exactly when it is hideable. */
  lemma HiddenInABufferIffHideable(s: Bytes)
    requires s != []
    ensures (exists secrets, b :: Leaks(s, secrets, b)) <==> !Hideable(s)
    ensures (exists b :: Leaks(s, [s], b)) <==> !Hideable(s)
  {
    if Hideable(s) {
      forall secrets, b
        ensures !Leaks(s, secrets, b)
      {
        HideableNeverLeaks(s, secrets, b);
      }
    } else {
      var a, rest := Betrayal(s);
      MaskedInPlace(a, s, rest);
      TooShortToMatch(rest, s);
      assert Leaks(s, [s], a + s + rest);
    }
  }

  // ---- streams ----

  /** Everything passed on for a stream written in these pieces and closed. */
  function Log(chunks: seq<Bytes>, s: Bytes): Bytes {
    CloseStep(Writes(chunks, [s], |s|), [s]).out
  }

  /** A flush only moves the line between what was passed on and what is held back of the redacted buffer. */
  lemma FlushKeepsText(st: Stream, s: Bytes)
    requires |st.buf| < |s|
    ensures var f := Flush(st, [s], |s|); f.out + f.buf == st.out + st.buf && |f.buf| <= |st.buf|
  {
    if |st.buf| > REDACT_BUF_CAP {
      TooShortToMatch(st.buf, s);
      var cut := |st.buf| - Keep(|s|, st.buf);
      Regroup(st.out, st.buf[..cut], st.buf[cut..]);
      assert st.buf[..cut] + st.buf[cut..] == st.buf;
    }
  }

  /** What is held back at the end is shorter than the secret, so it passes unmasked. */
  lemma ShortTailIsRaw(st: Stream, s: Bytes)
    requires |st.buf| < |s|
    ensures CloseStep(Flush(st, [s], |s|), [s]).out == st.out + st.buf
  {
    FlushKeepsText(st, s);
    TooShortToMatch(Flush(st, [s], |s|).buf, s);
  }

  /** Flushing a full buffer early does not change what is passed on in the end. */
  lemma FlushThenClose(b: Bytes, s: Bytes)
    requires s != []
    ensures CloseStep(Flush(Stream([], b), [s], |s|), [s]).out == Redact(b, [s])
  {
    var red := Redact(b, [s]);
    var f := Flush(Stream([], b), [s], |s|);
    if |b| > REDACT_BUF_CAP {
      assert f.out + f.buf == red;
      TooShortToMatch(f.buf, s);
    } else {
      assert [] + red == red;
    }
  }

  lemma OneLineLog(b: Bytes, s: Bytes)
    requires NEWLINE !in b && s != []
    ensures Log([b], s) == Redact(b, [s])
  {
    OneWrite(b, [s], |s|);
    assert [] + b == b;
    FlushThenClose(b, s);
  }

  predicate IsLine(line: Bytes) {
    |line| > 0 && line[|line| - 1] == NEWLINE && NEWLINE !in line[..|line| - 1]
  }

  lemma {:induction false} FirstNewline(line: Bytes, rest: Bytes)
    requires IsLine(line)
    ensures IndexOfNewline(line + rest) == |line| - 1
  {
    if |line| > 1 {
      assert line[0] == line[..|line| - 1][0];
      assert (line + rest)[1..] == line[1..] + rest;
      assert line[1..][..|line| - 2] == line[..|line| - 1][1..];
      FirstNewline(line[1..], rest);
    }
  }

  lemma DrainOne(out: Bytes, line: Bytes, rest: Bytes, secrets: seq<Bytes>)
    requires IsLine(line)
    ensures Drain(Stream(out, line + rest), secrets) == Drain(Stream(out + Redact(line, secrets), rest), secrets)
  {
    FirstNewline(line, rest);
    assert (line + rest)[..|line|] == line && (line + rest)[|line|..] == rest;
  }

  /** Two lines, the second shorter than the secret. */
  lemma TwoLineLog(line: Bytes, rest: Bytes, s: Bytes)
    requires IsLine(line) && |rest| < |s| && (rest == [] || IsLine(rest))
    ensures Log([line + rest], s) == Redact(line, [s]) + rest
  {
    var b := line + rest;
    OneWrite(b, [s], |s|);
    assert [] + b == b;
    var red := Redact(line, [s]);
    assert [] + red == red;
    DrainOne([], line, rest, [s]);
    ShortLinesAreRaw(Stream(red, rest), s);
    ShortTailIsRaw(Drain(Stream(red, rest), [s]), s);
  }

  /** Lines shorter than the secret are passed on unmasked. */
  lemma {:induction false} ShortLinesAreRaw(st: Stream, s: Bytes)
    requires |st.buf| < |s|
    ensures var d := Drain(st, [s]); d.out + d.buf == st.out + st.buf && |d.buf| < |s|
    decreases |st.buf|
  {
    if NEWLINE in st.buf {
      var line, rest := SplitLine(st.buf);
      DrainOne(st.out, line, rest, [s]);
      TooShortToMatch(line, s);
      ShortLinesAreRaw(Stream(st.out + line, rest), s);
      Regroup(st.out, line, rest);
    }
  }

  lemma {:induction false} SplitLine(b: Bytes) returns (line: Bytes, rest: Bytes)
    requires NEWLINE in b
    ensures b == line + rest && IsLine(line)
    ensures NEWLINE in b[..|b| - 1] ==> rest != []
  {
    if b[0] == NEWLINE {
      line, rest := b[..1], b[1..];
    } else {
      var l, r := SplitLine(b[1..]);
      line, rest := [b[0]] + l, r;
      assert b == [b[0]] + b[1..];
      assert line[..|line| - 1] == [b[0]] + l[..|l| - 1];
      if NEWLINE in b[..|b| - 1] {
        assert b[..|b| - 1] == [b[0]] + b[1..][..|b| - 2];
      }
    }
  }

  /** A secret with a newline before its end is passed on in pieces too short to recognise. */
  lemma TwoLineSecretSurvives(s: Bytes)
    requires s != [] && NEWLINE in s[..|s| - 1]
    ensures Log([s], s) == s
  {
    var line, rest := SplitLine(s);
    OneWrite(s, [s], |s|);
    assert [] + s == s;
    TooShortToMatch(line, s);
    assert [] + line == line;
    DrainOne([], line, rest, [s]);
    ShortLinesAreRaw(Stream(line, rest), s);
    ShortTailIsRaw(Drain(Stream(line, rest), [s]), s);
  }

  lemma UnhideableLineSurvives(s: Bytes) returns (b: Bytes)
    requires s != [] && !Hideable(s) && IsLine(s)
    ensures Occurs(s, Log([b], s))
  {
    var a, rest := Betrayal(s);
    b := (a + s) + rest;
    PrefixMakesALine(a, s);
    RestIsOneLine(s, rest);
    TwoLineLog(a + s, rest, s);
    FewerFollow(a, s, rest);
    MaskedInPlace(a, s, []);
    assert a + s + [] == a + s && a + MASK + [] == a + MASK;
  }

  lemma FewerFollow(a: Bytes, s: Bytes, rest: Bytes)
    requires NoEarlier(a, s, rest)
    ensures NoEarlier(a, s, [])
  {
    forall j | 0 <= j < |a|
      ensures !(s <= (a + s + [])[j..])
    {
      assert (a + s + rest)[j..] == (a + s + [])[j..] + rest;
    }
  }

  lemma PrefixMakesALine(a: Bytes, s: Bytes)
    requires IsLine(s) && a <= s && |a| < |s|
    ensures IsLine(a + s)
  {
    assert (a + s)[..|a + s| - 1] == a + s[..|s| - 1];
    assert a == s[..|s| - 1][..|a|];
  }

  lemma RestIsOneLine(s: Bytes, rest: Bytes)
    requires IsLine(s) && EndsWith(s, rest)
    ensures rest == [] || IsLine(rest)
  {
    if rest != [] {
      assert rest[..|rest| - 1] == s[..|s| - 1][|s| - |rest|..];
    }
  }

  lemma UnhideableTextSurvives(s: Bytes) returns (b: Bytes)
    requires s != [] && !Hideable(s) && NEWLINE !in s
    ensures Occurs(s, Log([b], s))
  {
    var a, rest := Betrayal(s);
    TooShortToMatch(rest, s);
    b := a + s + rest;
    assert forall j :: 0 <= j < |a| ==> a[j] == s[j];
    assert forall j :: 0 <= j < |rest| ==> rest[j] == s[|s| - |rest| + j];
    OneLineLog(b, s);
    MaskedInPlace(a, s, rest);
  }

  lemma OneLineOrLess(s: Bytes)
    requires s != [] && NEWLINE !in s[..|s| - 1]
    ensures NEWLINE !in s || IsLine(s)
  {
    assert s == s[..|s| - 1] + [s[|s| - 1]];
  }

  /** A log that was to mask `secrets`, of which `s` is one, shows it. */
  ghost predicate LogLeaks(s: Bytes, secrets: seq<Bytes>, maxLen: nat, chunks: seq<Bytes>) {
    s in secrets && |s| <= maxLen && Occurs(s, CloseStep(Writes(chunks, secrets, maxLen), secrets).out)
  }

  /**
   The streaming sink hides a secret in every way of writing every stream, beside any
   other secrets, exactly when it is maskable.
   */
  lemma HiddenInEveryLogIffMaskable(s: Bytes)
    requires s != []
    ensures (exists secrets, maxLen, chunks :: LogLeaks(s, secrets, maxLen, chunks)) <==> !Maskable(s)
    ensures (exists chunks :: LogLeaks(s, [s], |s|, chunks)) <==> !Maskable(s)
  {
    if Maskable(s) {
      forall secrets, maxLen: nat, chunks
        ensures !LogLeaks(s, secrets, maxLen, chunks)
      {
        if s in secrets && |s| <= maxLen {
          NoSecretIsEverWritten(chunks, secrets, maxLen, s);
        }
      }
    } else {
      var chunks := LeakingWrites(s);
      assert LogLeaks(s, [s], |s|, chunks);
    }
  }

  lemma LeakingWrites(s: Bytes) returns (chunks: seq<Bytes>)
    requires s != [] && !Maskable(s)
    ensures Occurs(s, Log(chunks, s))
  {
    if NEWLINE in s[..|s| - 1] {
      chunks := [s];
      TwoLineSecretSurvives(s);
      assert s <= s[0..];
    } else {
      OneLineOrLess(s);
      var b;
      if NEWLINE in s {
        b := UnhideableLineSurvives(s);
      } else {
        b := UnhideableTextSurvives(s);
      }
      chunks := [b];
    }
  }
}
