/**
 Masking secrets in a task's log as it streams by
 (internal/executor/runner.go, redactBytes, redactWriter, cappedLogSink, newLogSink).
 Every file write is taken to succeed.
 */
module Redaction {
  import opened Text
  import opened StableSort

  const NEWLINE: Byte := 10
  const STAR: Byte := 42
  const MASK: Bytes := [STAR, STAR, STAR, STAR]

  const REDACT_BUF_CAP := 0x10_0000
  const MAX_TASK_LOG_BYTES := 0x400_0000

  /** `s` is a substring of `b`. */
  predicate Occurs(s: Bytes, b: Bytes) {
    exists i :: 0 <= i <= |b| && s <= b[i..]
  }

  // ---- one pass over one buffer ----

  /** Length of the first secret in the list that `b` starts with; 0 when none does. */
  function MatchLen(b: Bytes, secrets: seq<Bytes>): (n: nat)
    ensures n <= |b|
  {
    if |secrets| == 0 then 0
    else if secrets[0] != [] && secrets[0] <= b then |secrets[0]|
    else MatchLen(b, secrets[1..])
  }

  function Redact(b: Bytes, secrets: seq<Bytes>): Bytes {
    if |b| == 0 then []
    else
      var n := MatchLen(b, secrets);
      if n > 0 then MASK + Redact(b[n..], secrets) else [b[0]] + Redact(b[1..], secrets)
  }

  lemma {:induction false} NoMatchMeansNoSecretHere(b: Bytes, secrets: seq<Bytes>, s: Bytes)
    requires s in secrets && s != [] && s <= b
    ensures MatchLen(b, secrets) > 0
  {
    if secrets[0] == [] || !(secrets[0] <= b) {
      NoMatchMeansNoSecretHere(b, secrets[1..], s);
    }
  }

  lemma {:induction false} MatchIsASecret(b: Bytes, secrets: seq<Bytes>)
    requires MatchLen(b, secrets) > 0
    ensures b[..MatchLen(b, secrets)] in secrets
    ensures exists s :: s in secrets && s != [] && Occurs(s, b)
  {
    if secrets[0] == [] || !(secrets[0] <= b) {
      MatchIsASecret(b, secrets[1..]);
    } else {
      assert b[..|secrets[0]|] == secrets[0];
      assert secrets[0] <= b[0..] && Occurs(secrets[0], b);
    }
  }

  lemma TailOccurs(b: Bytes)
    requires |b| > 0
    ensures forall s :: Occurs(s, b[1..]) ==> Occurs(s, b)
  {
    forall s | Occurs(s, b[1..])
      ensures Occurs(s, b)
    {
      var i :| 0 <= i <= |b[1..]| && s <= b[1..][i..];
      assert s <= b[i + 1..];
    }
  }

  lemma {:induction false} NothingToMask(b: Bytes, secrets: seq<Bytes>)
    requires forall s :: s in secrets && s != [] ==> !Occurs(s, b)
    ensures Redact(b, secrets) == b
  {
    if |b| > 0 {
      if MatchLen(b, secrets) > 0 {
        MatchIsASecret(b, secrets);
      }
      TailOccurs(b);
      NothingToMask(b[1..], secrets);
    }
  }

  lemma Regroup(a: Bytes, b: Bytes, c: Bytes)
    ensures (a + b) + c == a + (b + c)
  {
  }

  method RedactBytes(b: Bytes, secrets: seq<Bytes>) returns (out: Bytes)
    ensures out == Redact(b, secrets)
  {
    var found := false;
    for k := 0 to |secrets|
      invariant !found ==> forall j :: 0 <= j < k && secrets[j] != [] ==> !Occurs(secrets[j], b)
    {
      if secrets[k] != [] && Occurs(secrets[k], b) {
        found := true;
        break;
      }
    }
    if !found {
      NothingToMask(b, secrets);
      return b;
    }
    out := [];
    var i := 0;
    while i < |b|
      invariant 0 <= i <= |b|
      invariant out + Redact(b[i..], secrets) == Redact(b, secrets)
    {
      var rest := b[i..];
      var n := FirstMatch(rest, secrets);
      if n > 0 {
        Regroup(out, MASK, Redact(rest[n..], secrets));
        assert b[i + n..] == rest[n..];
        out := out + MASK;
        i := i + n;
      } else {
        Regroup(out, [rest[0]], Redact(rest[1..], secrets));
        assert b[i + 1..] == rest[1..];
        out := out + [b[i]];
        i := i + 1;
      }
    }
  }

  method FirstMatch(b: Bytes, secrets: seq<Bytes>) returns (n: nat)
    ensures n == MatchLen(b, secrets)
  {
    for k := 0 to |secrets|
      invariant MatchLen(b, secrets) == MatchLen(b, secrets[k..])
    {
      if secrets[k] != [] && secrets[k] <= b {
        return |secrets[k]|;
      }
      assert secrets[k..][1..] == secrets[k + 1..];
    }
    n := 0;
  }

  /** Neither holding a whole mask nor ending inside one. */
  predicate MaskFree(s: Bytes) {
    (s == [] || s[|s| - 1] != STAR) && !Occurs(MASK, s)
  }

  /** What masking hides: not beginning or ending like a mask, and holding none. */
  predicate Hideable(s: Bytes) {
    s != [] && s[0] != STAR && MaskFree(s)
  }

  lemma OccursInside(m: Bytes, front: Bytes, mid: Bytes, s: Bytes)
    ensures front + mid <= s && Occurs(m, mid) ==> Occurs(m, s)
  {
    if front + mid <= s && Occurs(m, mid) {
      var i :| 0 <= i <= |mid| && m <= mid[i..];
      var rest := s[|front + mid|..];
      assert s == (front + mid) + rest;
      assert s[|front| + i..] == mid[i..] + rest;
      assert m <= s[|front| + i..];
    }
  }

  lemma SuffixIsMaskFree(s: Bytes, k: nat)
    requires MaskFree(s) && k <= |s|
    ensures MaskFree(s[k..])
  {
    assert s[..k] + s[k..] == s;
    OccursInside(MASK, s[..k], s[k..], s);
  }

  lemma FrontOfMask(s: Bytes, rest: Bytes)
    ensures s != [] && s <= MASK + rest ==> !MaskFree(s)
  {
    if s != [] && s <= MASK + rest {
      if |s| <= 4 {
        assert s[|s| - 1] == MASK[|s| - 1];
      } else {
        assert MASK <= s[0..];
      }
    }
  }

  /** Mask-free text at the front of redacted output is raw text copied from the input. */
  lemma {:induction false} RawFront(s: Bytes, b: Bytes, secrets: seq<Bytes>)
    requires MaskFree(s) && s <= Redact(b, secrets)
    ensures s <= b
  {
    if s != [] {
      FrontOfMask(s, Redact(b[MatchLen(b, secrets)..], secrets));
      assert Redact(b, secrets)[1..] == Redact(b[1..], secrets);
      SuffixIsMaskFree(s, 1);
      RawFront(s[1..], b[1..], secrets);
    }
  }

  lemma MatchShowsMask(b: Bytes, secrets: seq<Bytes>)
    ensures MatchLen(b, secrets) > 0 ==> Occurs(MASK, Redact(b, secrets))
  {
    if MatchLen(b, secrets) > 0 {
      assert MASK <= Redact(b, secrets)[0..];
    }
  }

  /** Output that holds no mask is the input unchanged. */
  lemma {:induction false} NoMaskIsRaw(b: Bytes, secrets: seq<Bytes>)
    requires !Occurs(MASK, Redact(b, secrets))
    ensures Redact(b, secrets) == b
  {
    if |b| > 0 {
      var r := Redact(b, secrets);
      MatchShowsMask(b, secrets);
      assert r == [b[0]] + Redact(b[1..], secrets);
      assert r[1..] == Redact(b[1..], secrets);
      TailOccurs(r);
      NoMaskIsRaw(b[1..], secrets);
    }
  }

  lemma DropIntoSecond(a: Bytes, b: Bytes, k: nat)
    requires |a| <= k <= |a| + |b|
    ensures (a + b)[k..] == b[k - |a|..]
  {
  }

  /** No hideable secret survives a pass. */
  lemma {:induction false} RedactHidesAt(b: Bytes, secrets: seq<Bytes>, s: Bytes, k: nat)
    requires s in secrets && Hideable(s) && k <= |Redact(b, secrets)|
    ensures !(s <= Redact(b, secrets)[k..])
    decreases |b|
  {
    var r := Redact(b, secrets);
    if |b| > 0 && k < |r| {
      var n := MatchLen(b, secrets);
      var head := if n > 0 then MASK else [b[0]];
      var tail := if n > 0 then b[n..] else b[1..];
      assert r == head + Redact(tail, secrets);
      if k >= |head| {
        DropIntoSecond(head, Redact(tail, secrets), k);
        RedactHidesAt(tail, secrets, s, k - |head|);
      } else if n > 0 {
        assert r[k] == STAR;
      } else if s <= r {
        RawFront(s, b, secrets);
        NoMatchMeansNoSecretHere(b, secrets, s);
      } else {
        assert r[k..] == r;
      }
    }
  }

  // ---- the streaming sink ----

  /** Everything handed to the underlying file so far, and the bytes held back. */
  datatype Stream = Stream(out: Bytes, buf: Bytes)

  function IndexOfNewline(b: Bytes): (i: int)
    ensures -1 <= i < |b|
    ensures i >= 0 ==> b[i] == NEWLINE && NEWLINE !in b[..i]
    ensures i < 0 ==> NEWLINE !in b
  {
    if |b| == 0 then -1
    else if b[0] == NEWLINE then 0
    else
      var i := IndexOfNewline(b[1..]);
      if i < 0 then -1 else i + 1
  }

  /** Every complete line of the buffer is redacted and passed on. */
  function Drain(st: Stream, secrets: seq<Bytes>): Stream
    decreases |st.buf|
  {
    var i := IndexOfNewline(st.buf);
    if i < 0 then st
    else Drain(Stream(st.out + Redact(st.buf[..i + 1], secrets), st.buf[i + 1..]), secrets)
  }

  function Min(a: int, b: int): int {
    if a <= b then a else b
  }

  function Max(a: int, b: int): int {
    if a >= b then a else b
  }

  /** How much of a redacted buffer stays behind at a capped flush. */
  function Keep(maxLen: nat, red: Bytes): (k: nat)
    ensures k <= |red|
  {
    Max(0, Min(maxLen - 1, |red|))
  }

  function Flush(st: Stream, secrets: seq<Bytes>, maxLen: nat): Stream {
    if |st.buf| <= REDACT_BUF_CAP then st
    else
      var red := Redact(st.buf, secrets);
      var cut := |red| - Keep(maxLen, red);
      Stream(st.out + red[..cut], red[cut..])
  }

  function WriteStep(st: Stream, p: Bytes, secrets: seq<Bytes>, maxLen: nat): Stream {
    Flush(Drain(Stream(st.out, st.buf + p), secrets), secrets, maxLen)
  }

  function CloseStep(st: Stream, secrets: seq<Bytes>): Stream {
    Stream(st.out + Redact(st.buf, secrets), [])
  }

  /** The sink after any sequence of writes, however the stream was cut. */
  function Writes(chunks: seq<Bytes>, secrets: seq<Bytes>, maxLen: nat): Stream {
    if |chunks| == 0 then Stream([], [])
    else WriteStep(Writes(chunks[..|chunks| - 1], secrets, maxLen), chunks[|chunks| - 1], secrets, maxLen)
  }

  /** What the line-buffered sink hides: hideable, and on one line, save for a newline at its very end. */
  predicate Maskable(s: Bytes) {
    Hideable(s) && NEWLINE !in s[..|s| - 1]
  }

  /**
   No occurrence of `s` starts inside what was already passed on, whatever the
   bytes still held back continue with.
   */
  ghost predicate Sealed(st: Stream, s: Bytes) {
    forall k :: 0 <= k < |st.out| ==> SealedAt(st, s, k)
  }

  ghost predicate SealedAt(st: Stream, s: Bytes, k: nat)
    requires k < |st.out|
  {
    var rest := (st.out + st.buf)[k..];
    !(s <= rest) && !(rest <= s)
  }

  lemma AppendKeepsSeal(st: Stream, p: Bytes, s: Bytes)
    requires Sealed(st, s)
    ensures Sealed(Stream(st.out, st.buf + p), s)
  {
    var more := Stream(st.out, st.buf + p);
    forall k: nat | k < |more.out|
      ensures SealedAt(more, s, k)
    {
      assert SealedAt(st, s, k);
      assert (more.out + more.buf)[k..] == (st.out + st.buf)[k..] + p;
    }
  }

  lemma RawAcross(front: Bytes, b: Bytes, secrets: seq<Bytes>, s: Bytes)
    requires MaskFree(s) && s <= front + Redact(b, secrets)
    ensures s <= front + b
  {
    if |s| > |front| {
      assert s == front + s[|front|..];
      SuffixIsMaskFree(s, |front|);
      RawFront(s[|front|..], b, secrets);
    }
  }

  lemma RawRest(front: Bytes, b: Bytes, secrets: seq<Bytes>, s: Bytes)
    requires !Occurs(MASK, s) && front + Redact(b, secrets) <= s
    ensures front + b <= s
  {
    OccursInside(MASK, front, Redact(b, secrets), s);
    NoMaskIsRaw(b, secrets);
  }

  /** Redacting what is held back cannot complete an occurrence begun before it. */
  lemma RedactKeepsSeal(st: Stream, secrets: seq<Bytes>, s: Bytes)
    requires Sealed(st, s) && s in secrets && Maskable(s)
    ensures forall k :: 0 <= k <= |st.out + Redact(st.buf, secrets)| ==>
      !(s <= (st.out + Redact(st.buf, secrets))[k..])
    ensures Sealed(Stream(st.out, Redact(st.buf, secrets)), s)
  {
    var red := Redact(st.buf, secrets);
    var all := st.out + red;
    forall k: nat | k <= |all|
      ensures !(s <= all[k..])
      ensures k < |st.out| ==> !(all[k..] <= s)
    {
      if k >= |st.out| {
        assert all[k..] == red[k - |st.out|..];
        RedactHidesAt(st.buf, secrets, s, k - |st.out|);
      } else {
        assert SealedAt(st, s, k);
        var front := st.out[k..];
        assert all[k..] == front + red && (st.out + st.buf)[k..] == front + st.buf;
        if s <= all[k..] {
          RawAcross(front, st.buf, secrets, s);
        } else if all[k..] <= s {
          RawRest(front, st.buf, secrets, s);
        }
      }
    }
  }

  /** The end of a mask, or of more text that ends in one. */
  predicate EndsInMask(x: Bytes) {
    if |x| >= 4 then x[|x| - 4..] == MASK else x == MASK[4 - |x|..]
  }

  predicate EndsIn(r: Bytes, c: Byte) {
    |r| > 0 && (r[|r| - 1] == c || (|r| >= 4 && EndsInMask(r)))
  }

  lemma EndOfTail(head: Bytes, tail: Bytes, c: Byte)
    ensures EndsIn(tail, c) ==> EndsIn(head + tail, c)
    ensures |tail| >= 4 && EndsInMask(tail) ==> EndsInMask(head + tail)
  {
    if |tail| >= 4 {
      assert (head + tail)[|head + tail| - 4..] == tail[|tail| - 4..];
    }
  }

  /** Redacted text ends in the byte it ended in, or in a mask. */
  lemma {:induction false} RedactedEnd(b: Bytes, secrets: seq<Bytes>)
    requires |b| > 0
    ensures EndsIn(Redact(b, secrets), b[|b| - 1])
  {
    var n := MatchLen(b, secrets);
    var rest := if n > 0 then b[n..] else b[1..];
    var head := if n > 0 then MASK else [b[0]];
    assert Redact(b, secrets) == head + Redact(rest, secrets);
    if |rest| > 0 {
      RedactedEnd(rest, secrets);
      EndOfTail(head, Redact(rest, secrets), b[|b| - 1]);
    } else {
      assert head + [] == head;
    }
  }

  lemma MaskIsPassedOn(x: Bytes, s: Bytes)
    requires |x| >= 4 && EndsInMask(x)
    ensures x <= s ==> Occurs(MASK, s)
  {
    if x <= s {
      assert s[|x| - 4..] == x[|x| - 4..] + s[|x|..];
      assert MASK <= s[|x| - 4..];
    }
  }

  /** Text that ends in a mask cannot be continued into a hideable secret. */
  lemma MaskCutsOff(x: Bytes, y: Bytes, s: Bytes)
    requires Hideable(s) && |x| > 0 && EndsInMask(x) && !(s <= x)
    ensures !(s <= x + y) && !(x + y <= s)
  {
    assert (x + y)[..|x|] == x;
    if |x| < 4 {
      assert x[0] == MASK[4 - |x|..][0];
    } else {
      MaskIsPassedOn(x, s);
    }
  }

  /** Text that ends a line can neither be continued into `s` nor lie at its front, unless it is `s`. */
  lemma LineCutsOff(x: Bytes, y: Bytes, s: Bytes)
    requires |x| > 0 && |s| > 0 && x[|x| - 1] !in s[..|s| - 1] && !(s <= x)
    ensures !(s <= x + y) && !(x + y <= s) && !(x <= s)
  {
    assert (x + y)[|x| - 1] == x[|x| - 1];
    assert forall i :: 0 <= i < |s| - 1 ==> s[i] == s[..|s| - 1][i];
    assert x <= s && |x| == |s| ==> s <= x;
    assert x + y <= s ==> x <= s;
  }

  /** Text ending in a byte foreign to `s` can neither be continued into `s` nor lie at its front. */
  lemma ForeignEnd(x: Bytes, y: Bytes, s: Bytes)
    requires |x| > 0 && x[|x| - 1] !in s
    ensures !(x <= s)
    ensures !(x + y <= s)
    ensures s <= x + y ==> s <= x
  {
    assert forall i :: 0 <= i < |s| ==> s[i] in s;
    assert (x + y)[|x| - 1] == x[|x| - 1];
  }

  lemma ShorterBufferKeepsSeal(st: Stream, line: Bytes, rest: Bytes, s: Bytes)
    requires Sealed(st, s) && st.buf == line + rest
    requires |line| > 0 && |s| > 0 && line[|line| - 1] !in s[..|s| - 1]
    ensures Sealed(Stream(st.out, line), s)
  {
    var head := Stream(st.out, line);
    forall k: nat | k < |head.out|
      ensures SealedAt(head, s, k)
    {
      assert SealedAt(st, s, k);
      var x := (head.out + head.buf)[k..];
      assert (st.out + st.buf)[k..] == x + rest;
      assert s <= x ==> s <= x + rest;
      LineCutsOff(x, rest, s);
    }
  }

  lemma EndOfOutput(out: Bytes, red: Bytes, k: nat)
    requires |red| >= 4 && EndsInMask(red) && k < |out + red|
    ensures EndsInMask((out + red)[k..])
  {
    EndOfTail(out, red, NEWLINE);
    var all := out + red;
    if |all| - k >= 4 {
      assert all[k..][|all| - k - 4..] == all[|all| - 4..];
    } else {
      assert all[k..] == all[|all| - 4..][4 - (|all| - k)..];
    }
  }

  /** A complete line, redacted and passed on, leaves everything before it sealed. */
  lemma LineKeepsSeal(st: Stream, i: nat, secrets: seq<Bytes>, s: Bytes)
    requires Sealed(st, s) && s in secrets && Maskable(s)
    requires i < |st.buf| && st.buf[i] == NEWLINE
    ensures Sealed(Stream(st.out + Redact(st.buf[..i + 1], secrets), st.buf[i + 1..]), s)
  {
    var line, rest := st.buf[..i + 1], st.buf[i + 1..];
    assert line + rest == st.buf;
    ShorterBufferKeepsSeal(st, line, rest, s);
    var head := Stream(st.out, line);
    RedactKeepsSeal(head, secrets, s);
    RedactedEnd(line, secrets);
    var next := Stream(st.out + Redact(line, secrets), rest);
    forall k: nat | k < |next.out|
      ensures SealedAt(next, s, k)
    {
      var x := next.out[k..];
      assert (next.out + next.buf)[k..] == x + rest;
      if x[|x| - 1] == NEWLINE {
        LineCutsOff(x, rest, s);
      } else {
        EndOfOutput(st.out, Redact(line, secrets), k);
        MaskCutsOff(x, rest, s);
      }
    }
  }

  lemma {:induction false} DrainKeepsSeal(st: Stream, secrets: seq<Bytes>, s: Bytes)
    requires Sealed(st, s) && s in secrets && Maskable(s)
    ensures Sealed(Drain(st, secrets), s)
    decreases |st.buf|
  {
    var i := IndexOfNewline(st.buf);
    if i >= 0 {
      LineKeepsSeal(st, i, secrets, s);
      DrainKeepsSeal(Stream(st.out + Redact(st.buf[..i + 1], secrets), st.buf[i + 1..]), secrets, s);
    }
  }

  /** A capped flush keeps enough back that no secret can straddle the cut. */
  lemma FlushKeepsSeal(st: Stream, secrets: seq<Bytes>, maxLen: nat, s: Bytes)
    requires Sealed(st, s) && s in secrets && Maskable(s) && |s| <= maxLen
    ensures Sealed(Flush(st, secrets, maxLen), s)
  {
    if |st.buf| > REDACT_BUF_CAP {
      var red := Redact(st.buf, secrets);
      var cut := |red| - Keep(maxLen, red);
      RedactKeepsSeal(st, secrets, s);
      var next := Flush(st, secrets, maxLen);
      assert next.out + next.buf == st.out + red;
      forall k: nat | k < |next.out|
        ensures SealedAt(next, s, k)
      {
        if k < |st.out| {
          assert SealedAt(Stream(st.out, red), s, k);
        }
      }
    }
  }

  lemma {:induction false} WritesAreSealed(chunks: seq<Bytes>, secrets: seq<Bytes>, maxLen: nat, s: Bytes)
    requires s in secrets && Maskable(s) && |s| <= maxLen
    ensures Sealed(Writes(chunks, secrets, maxLen), s)
  {
    if |chunks| > 0 {
      var before := Writes(chunks[..|chunks| - 1], secrets, maxLen);
      var p := chunks[|chunks| - 1];
      WritesAreSealed(chunks[..|chunks| - 1], secrets, maxLen, s);
      AppendKeepsSeal(before, p, s);
      DrainKeepsSeal(Stream(before.out, before.buf + p), secrets, s);
      FlushKeepsSeal(Drain(Stream(before.out, before.buf + p), secrets), secrets, maxLen, s);
    }
  }

  /**
   However a stream is cut into writes, and however often the buffer cap is hit,
   what is passed on contains no maskable secret: at no moment, and not after Close.
   */
  lemma NoSecretIsEverWritten(chunks: seq<Bytes>, secrets: seq<Bytes>, maxLen: nat, s: Bytes)
    requires s in secrets && Maskable(s) && |s| <= maxLen
    ensures !Occurs(s, Writes(chunks, secrets, maxLen).out)
    ensures !Occurs(s, CloseStep(Writes(chunks, secrets, maxLen), secrets).out)
  {
    var st := Writes(chunks, secrets, maxLen);
    WritesAreSealed(chunks, secrets, maxLen, s);
    forall k | 0 <= k <= |st.out|
      ensures !(s <= st.out[k..])
    {
      if k < |st.out| {
        assert SealedAt(st, s, k);
        assert (st.out + st.buf)[k..] == st.out[k..] + st.buf;
      }
    }
    RedactKeepsSeal(st, secrets, s);
  }

  // ---- independence of the split ----

  lemma {:induction false} MatchWithinLine(a: Bytes, b: Bytes, secrets: seq<Bytes>)
    requires |a| > 0 && a[|a| - 1] == NEWLINE
    requires forall s :: s in secrets ==> NEWLINE !in s
    ensures MatchLen(a + b, secrets) == MatchLen(a, secrets) < |a|
  {
    if |secrets| > 0 {
      var s := secrets[0];
      ForeignEnd(a, b, s);
      if s <= a {
        assert s <= a + b;
        assert |s| < |a|;
      }
      if s == [] || !(s <= a) {
        MatchWithinLine(a, b, secrets[1..]);
      }
    }
  }

  /** Redaction never looks across a line end. */
  lemma {:induction false} RedactSplits(a: Bytes, b: Bytes, secrets: seq<Bytes>)
    requires a == [] || a[|a| - 1] == NEWLINE
    requires forall s :: s in secrets ==> NEWLINE !in s
    ensures Redact(a + b, secrets) == Redact(a, secrets) + Redact(b, secrets)
    decreases |a|
  {
    if a == [] {
      assert a + b == b;
    } else {
      MatchWithinLine(a, b, secrets);
      var n := MatchLen(a, secrets);
      if n > 0 {
        assert (a + b)[n..] == a[n..] + b;
        RedactSplits(a[n..], b, secrets);
      } else {
        assert (a + b)[1..] == a[1..] + b;
        RedactSplits(a[1..], b, secrets);
      }
    }
  }

  ghost predicate WholeLines(b: Bytes) {
    b == [] || b[|b| - 1] == NEWLINE
  }

  lemma JoinLines(a: Bytes, b: Bytes, tail: Bytes)
    requires WholeLines(a) && WholeLines(b)
    ensures WholeLines(a + b) && a + (b + tail) == (a + b) + tail
  {
  }

  /** Draining passes on the redaction of the whole lines at the front, and keeps the rest. */
  lemma {:induction false} DrainSplits(st: Stream, secrets: seq<Bytes>) returns (lines: Bytes, d: Stream)
    requires forall s :: s in secrets ==> NEWLINE !in s
    ensures d == Drain(st, secrets) && NEWLINE !in d.buf
    ensures WholeLines(lines) && st.buf == lines + d.buf
    ensures d.out == st.out + Redact(lines, secrets)
    decreases |st.buf|
  {
    var i := IndexOfNewline(st.buf);
    if i < 0 {
      lines, d := [], st;
    } else {
      var line, rest := st.buf[..i + 1], st.buf[i + 1..];
      var more;
      more, d := DrainSplits(Stream(st.out + Redact(line, secrets), rest), secrets);
      CutLine(st.buf, i);
      OneMoreLine(line, more, d.buf, st.out, secrets);
      lines := line + more;
    }
  }

  lemma CutLine(b: Bytes, i: nat)
    requires i < |b| && b[i] == NEWLINE
    ensures b == b[..i + 1] + b[i + 1..] && |b[..i + 1]| == i + 1 && b[..i + 1][i] == NEWLINE
  {
  }

  lemma OneMoreLine(line: Bytes, more: Bytes, tail: Bytes, out: Bytes, secrets: seq<Bytes>)
    requires forall s :: s in secrets ==> NEWLINE !in s
    requires |line| > 0 && line[|line| - 1] == NEWLINE && WholeLines(more)
    ensures WholeLines(line + more) && line + (more + tail) == (line + more) + tail
    ensures (out + Redact(line, secrets)) + Redact(more, secrets) == out + Redact(line + more, secrets)
  {
    RedactSplits(line, more, secrets);
    JoinLines(line, more, tail);
    Regroup(out, Redact(line, secrets), Redact(more, secrets));
  }

  function Concat(chunks: seq<Bytes>): Bytes {
    if |chunks| == 0 then [] else Concat(chunks[..|chunks| - 1]) + chunks[|chunks| - 1]
  }

  /** No stretch without a newline is longer than the buffer cap. */
  ghost predicate LinesFit(b: Bytes) {
    forall lo, hi :: 0 <= lo <= hi <= |b| && NEWLINE !in b[lo..hi] ==> hi - lo <= REDACT_BUF_CAP
  }

  lemma TailFits(a: Bytes, tail: Bytes)
    requires LinesFit(a + tail) && NEWLINE !in tail
    ensures |tail| <= REDACT_BUF_CAP
  {
    assert (a + tail)[|a|..|a + tail|] == tail;
  }

  lemma PrefixFits(a: Bytes, b: Bytes)
    requires LinesFit(a + b)
    ensures LinesFit(a)
  {
    forall lo, hi | 0 <= lo <= hi <= |a| && NEWLINE !in a[lo..hi]
      ensures hi - lo <= REDACT_BUF_CAP
    {
      assert (a + b)[lo..hi] == a[lo..hi];
    }
  }

  /** One more write, as far as draining goes. */
  lemma WriteSplits(st: Stream, p: Bytes, earlier: Bytes, secrets: seq<Bytes>) returns (lines: Bytes)
    requires forall s :: s in secrets ==> NEWLINE !in s
    requires WholeLines(earlier) && st.out == Redact(earlier, secrets)
    ensures var d := Drain(Stream(st.out, st.buf + p), secrets);
      && WholeLines(lines) && (earlier + st.buf) + p == lines + d.buf
      && d.out == Redact(lines, secrets) && NEWLINE !in d.buf
  {
    var full := Stream(st.out, st.buf + p);
    var more, d := DrainSplits(full, secrets);
    RedactSplits(earlier, more, secrets);
    lines := earlier + more;
    JoinLines(earlier, more, d.buf);
    assert (earlier + st.buf) + p == earlier + full.buf;
  }

  /** While every line fits, output and buffer split the stream at a line start. */
  lemma {:induction false} WritesFollowTheStream(chunks: seq<Bytes>, secrets: seq<Bytes>, maxLen: nat)
    returns (lines: Bytes)
    requires forall s :: s in secrets ==> NEWLINE !in s
    requires LinesFit(Concat(chunks))
    ensures WholeLines(lines) && Concat(chunks) == lines + Writes(chunks, secrets, maxLen).buf
    ensures Writes(chunks, secrets, maxLen).out == Redact(lines, secrets)
  {
    if |chunks| == 0 {
      lines := [];
    } else {
      var fewer, p := chunks[..|chunks| - 1], chunks[|chunks| - 1];
      PrefixFits(Concat(fewer), p);
      var before := Writes(fewer, secrets, maxLen);
      var earlier := WritesFollowTheStream(fewer, secrets, maxLen);
      lines := WriteSplits(before, p, earlier, secrets);
      TailFits(lines, Drain(Stream(before.out, before.buf + p), secrets).buf);
    }
  }

  /**
   When no line exceeds the cap, the log is exactly the redaction of the whole
   stream in one piece: it depends on the stream, not on how it was cut.
   */
  lemma SplitDoesNotMatter(chunks: seq<Bytes>, secrets: seq<Bytes>, maxLen: nat)
    requires forall s :: s in secrets ==> NEWLINE !in s
    requires LinesFit(Concat(chunks))
    ensures CloseStep(Writes(chunks, secrets, maxLen), secrets).out == Redact(Concat(chunks), secrets)
  {
    var lines := WritesFollowTheStream(chunks, secrets, maxLen);
    RedactSplits(lines, Writes(chunks, secrets, maxLen).buf, secrets);
  }

  // ---- what is held back, and that nothing else is ----

  lemma {:induction false} RedactAddsNoNewline(b: Bytes, secrets: seq<Bytes>)
    requires NEWLINE !in b
    ensures NEWLINE !in Redact(b, secrets)
  {
    if |b| > 0 {
      var n := MatchLen(b, secrets);
      RedactAddsNoNewline(if n > 0 then b[n..] else b[1..], secrets);
    }
  }

  lemma {:induction false} DrainLeavesNoNewline(st: Stream, secrets: seq<Bytes>)
    ensures NEWLINE !in Drain(st, secrets).buf
    decreases |st.buf|
  {
    var i := IndexOfNewline(st.buf);
    if i >= 0 {
      DrainLeavesNoNewline(Stream(st.out + Redact(st.buf[..i + 1], secrets), st.buf[i + 1..]), secrets);
    }
  }

  /**
   After any writes the sink holds back at most part of one line, and of that never more
   than a mebibyte, or one byte less than the longest secret where that is more.
   */
  lemma HeldBackIsBounded(chunks: seq<Bytes>, secrets: seq<Bytes>, maxLen: nat)
    ensures NEWLINE !in Writes(chunks, secrets, maxLen).buf
    ensures |Writes(chunks, secrets, maxLen).buf| <= Max(0x10_0000, maxLen - 1)
  {
    if |chunks| > 0 {
      var before := Writes(chunks[..|chunks| - 1], secrets, maxLen);
      var full := Stream(before.out, before.buf + chunks[|chunks| - 1]);
      DrainLeavesNoNewline(full, secrets);
      RedactAddsNoNewline(Drain(full, secrets).buf, secrets);
    }
  }

  ghost predicate Clean(b: Bytes, secrets: seq<Bytes>) {
    forall s :: s in secrets && s != [] ==> !Occurs(s, b)
  }

  lemma PieceOccurs(front: Bytes, mid: Bytes, back: Bytes, s: Bytes)
    requires Occurs(s, mid)
    ensures Occurs(s, front + (mid + back))
  {
    var i :| 0 <= i <= |mid| && s <= mid[i..];
    assert (front + (mid + back))[|front| + i..] == mid[i..] + back;
    assert s <= (front + (mid + back))[|front| + i..];
  }

  lemma PiecesAreClean(front: Bytes, mid: Bytes, back: Bytes, secrets: seq<Bytes>)
    requires Clean(front + (mid + back), secrets)
    ensures Clean(mid, secrets)
  {
    forall s | Occurs(s, mid)
      ensures Occurs(s, front + (mid + back))
    {
      PieceOccurs(front, mid, back, s);
    }
  }

  lemma {:induction false} DrainPassesOn(st: Stream, secrets: seq<Bytes>)
    requires Clean(st.out + st.buf, secrets)
    ensures Drain(st, secrets).out + Drain(st, secrets).buf == st.out + st.buf
    decreases |st.buf|
  {
    var i := IndexOfNewline(st.buf);
    if i >= 0 {
      var line, rest := st.buf[..i + 1], st.buf[i + 1..];
      assert st.buf == line + rest;
      PiecesAreClean(st.out, line, rest, secrets);
      NothingToMask(line, secrets);
      Regroup(st.out, line, rest);
      DrainPassesOn(Stream(st.out + line, rest), secrets);
    }
  }

  lemma FlushPassesOn(st: Stream, secrets: seq<Bytes>, maxLen: nat)
    requires Clean(st.out + st.buf, secrets)
    ensures Flush(st, secrets, maxLen).out + Flush(st, secrets, maxLen).buf == st.out + st.buf
  {
    assert st.out + st.buf == st.out + (st.buf + []);
    PiecesAreClean(st.out, st.buf, [], secrets);
    NothingToMask(st.buf, secrets);
  }

  lemma {:induction false} WritesPassOn(chunks: seq<Bytes>, secrets: seq<Bytes>, maxLen: nat)
    requires Clean(Concat(chunks), secrets)
    ensures Writes(chunks, secrets, maxLen).out + Writes(chunks, secrets, maxLen).buf == Concat(chunks)
  {
    if |chunks| > 0 {
      var fewer, p := chunks[..|chunks| - 1], chunks[|chunks| - 1];
      assert Concat(chunks) == [] + (Concat(fewer) + p);
      PiecesAreClean([], Concat(fewer), p, secrets);
      WritesPassOn(fewer, secrets, maxLen);
      var before := Writes(fewer, secrets, maxLen);
      Regroup(before.out, before.buf, p);
      DrainPassesOn(Stream(before.out, before.buf + p), secrets);
      FlushPassesOn(Drain(Stream(before.out, before.buf + p), secrets), secrets, maxLen);
    }
  }

  /** A log in which no secret occurs comes through whole, in order and unchanged, whatever its lines and cuts. */
  lemma CleanLogIsUntouched(chunks: seq<Bytes>, secrets: seq<Bytes>, maxLen: nat)
    requires Clean(Concat(chunks), secrets)
    ensures CloseStep(Writes(chunks, secrets, maxLen), secrets).out == Concat(chunks)
  {
    WritesPassOn(chunks, secrets, maxLen);
    var st := Writes(chunks, secrets, maxLen);
    assert st.out + st.buf == st.out + (st.buf + []);
    PiecesAreClean(st.out, st.buf, [], secrets);
    NothingToMask(st.buf, secrets);
  }

  // ---- the log file behind the sink ----

  /** The visible note the capped sink leaves once. */
  function Marker(maxBytes: nat): Bytes {
    Ascii("\n=== log truncated after " + Decimal(maxBytes) + " bytes ===\n")
  }

  /** What is on disk after `accepted` was handed to the capped sink. */
  function OnDisk(accepted: Bytes, maxBytes: nat): Bytes {
    if |accepted| <= maxBytes then accepted else accepted[..maxBytes] + Marker(maxBytes)
  }

  /** What one more write adds to the disk. */
  lemma DiskGrows(accepted: Bytes, p: Bytes, maxBytes: nat)
    ensures var allowed := Min(|p|, maxBytes - Min(maxBytes, |accepted|));
      OnDisk(accepted + p, maxBytes) ==
        if |accepted| > maxBytes then OnDisk(accepted, maxBytes)
        else if |p| > allowed then (OnDisk(accepted, maxBytes) + p[..allowed]) + Marker(maxBytes)
        else OnDisk(accepted, maxBytes) + p[..allowed]
  {
    var allowed := Min(|p|, maxBytes - Min(maxBytes, |accepted|));
    if |accepted| > maxBytes {
      assert (accepted + p)[..maxBytes] == accepted[..maxBytes];
    } else if |p| > allowed {
      assert (accepted + p)[..maxBytes] == accepted + p[..allowed];
    } else {
      assert p[..allowed] == p;
    }
  }

  class CappedLogSink {
    const maxBytes: nat
    var file: Bytes
    var remaining: nat
    var truncated: bool
    /** Everything ever handed to Write. */
    ghost var accepted: Bytes

    ghost predicate Valid()
      reads this
    {
      && file == OnDisk(accepted, maxBytes)
      && remaining == maxBytes - Min(maxBytes, |accepted|)
      && (truncated <==> |accepted| > maxBytes)
    }

    constructor (limit: nat)
      ensures Valid() && accepted == [] && maxBytes == limit
    {
      maxBytes, remaining, truncated := limit, limit, false;
      file, accepted := [], [];
    }

    method Write(p: Bytes)
      requires Valid()
      modifies this
      ensures Valid() && accepted == old(accepted) + p
    {
      var want := |p|;
      DiskGrows(accepted, p, maxBytes);
      accepted := accepted + p;
      if want == 0 {
        return;
      }
      var allowed := want;
      if allowed > remaining {
        allowed := remaining;
      }
      if allowed > 0 {
        file := file + p[..allowed];
        remaining := remaining - allowed;
      }
      if want > allowed && !truncated {
        truncated := true;
        file := file + Marker(maxBytes);
      }
    }
  }

  class RedactWriter {
    const w: CappedLogSink
    const secrets: seq<Bytes>
    const maxLen: nat
    var buf: Bytes

    ghost predicate Valid()
      reads this, w
    {
      && w.Valid()
      && forall s :: s in secrets ==> |s| <= maxLen
    }

    ghost function State(): Stream
      reads this, w
    {
      Stream(w.accepted, buf)
    }

    /** newLogSink: secrets longest first, and the length of the longest. */
    constructor (base: CappedLogSink, redact: seq<Bytes>)
      requires base.Valid() && base.accepted == []
      ensures Valid() && w == base && State() == Stream([], [])
      ensures LongestFirst(secrets) && multiset(secrets) == multiset(redact)
    {
      w := base;
      var sorted := SortByLength(redact);
      secrets := sorted;
      maxLen := if |sorted| == 0 then 0 else |sorted[0]|;
      buf := [];
      new;
      forall s | s in secrets
        ensures |s| <= maxLen
      {
        var k :| 0 <= k < |secrets| && secrets[k] == s;
        assert k == 0 || |secrets[0]| >= |secrets[k]|;
      }
    }

    method Write(p: Bytes)
      requires Valid()
      modifies this, w
      ensures Valid() && State() == WriteStep(old(State()), p, secrets, maxLen)
    {
      buf := buf + p;
      DrainLines();
      FlushIfFull();
    }

    method DrainLines()
      requires Valid()
      modifies this, w
      ensures Valid() && State() == Drain(old(State()), secrets)
    {
      var i := IndexOfNewline(buf);
      while i >= 0
        invariant Valid() && i == IndexOfNewline(buf)
        invariant Drain(State(), secrets) == Drain(old(State()), secrets)
        decreases |buf|
      {
        var line := RedactBytes(buf[..i + 1], secrets);
        w.Write(line);
        buf := buf[i + 1..];
        i := IndexOfNewline(buf);
      }
    }

    method KeepBack(red: Bytes) returns (keep: nat)
      ensures keep == Keep(maxLen, red)
    {
      var n := maxLen - 1;
      if n > |red| {
        n := |red|;
      }
      if n < 0 {
        n := 0;
      }
      keep := n;
    }

    method FlushIfFull()
      requires Valid()
      modifies this, w
      ensures Valid() && State() == Flush(old(State()), secrets, maxLen)
    {
      if |buf| > REDACT_BUF_CAP {
        var red := RedactBytes(buf, secrets);
        var keep := KeepBack(red);
        var cut := |red| - keep;
        ghost var st := State();
        w.Write(red[..cut]);
        buf := red[cut..];
        assert State() == Stream(st.out + red[..cut], red[cut..]);
      }
    }

    method Close()
      requires Valid()
      modifies this, w
      ensures Valid() && State() == CloseStep(old(State()), secrets)
    {
      if |buf| > 0 {
        var red := RedactBytes(buf, secrets);
        w.Write(red);
        buf := [];
      }
    }
  }

  /** The whole life of a log: a new sink, writes as they come, Close. */
  method WriteLog(chunks: seq<Bytes>, redact: seq<Bytes>) returns (file: Bytes, ghost secrets: seq<Bytes>)
    ensures LongestFirst(secrets) && multiset(secrets) == multiset(redact)
    ensures |file| <= 0x400_0000 + |Marker(MAX_TASK_LOG_BYTES)|
    ensures forall s :: s in redact && Hideable(s) && NEWLINE !in s ==>
      (Occurs(s, file) ==> Occurs(s, Marker(MAX_TASK_LOG_BYTES)))
    ensures (forall s :: s in redact ==> NEWLINE !in s) && LinesFit(Concat(chunks)) ==>
      file == OnDisk(Redact(Concat(chunks), secrets), MAX_TASK_LOG_BYTES)
  {
    if |redact| == 0 {
      secrets := [];
      file := WritePlain(chunks);
      NothingToMask(Concat(chunks), []);
    } else {
      file, secrets := WriteRedacted(chunks, redact);
    }
  }

  method WritePlain(chunks: seq<Bytes>) returns (file: Bytes)
    ensures file == OnDisk(Concat(chunks), MAX_TASK_LOG_BYTES)
  {
    var sink := new CappedLogSink(MAX_TASK_LOG_BYTES);
    for i := 0 to |chunks|
      invariant sink.Valid() && sink.accepted == Concat(chunks[..i])
    {
      assert chunks[..i + 1][..i] == chunks[..i];
      sink.Write(chunks[i]);
    }
    assert chunks[..|chunks|] == chunks;
    file := sink.file;
  }

  method WriteRedacted(chunks: seq<Bytes>, redact: seq<Bytes>) returns (file: Bytes, ghost secrets: seq<Bytes>)
    ensures LongestFirst(secrets) && multiset(secrets) == multiset(redact)
    ensures |file| <= 0x400_0000 + |Marker(MAX_TASK_LOG_BYTES)|
    ensures forall s :: s in redact && Hideable(s) && NEWLINE !in s ==>
      (Occurs(s, file) ==> Occurs(s, Marker(MAX_TASK_LOG_BYTES)))
    ensures (forall s :: s in redact ==> NEWLINE !in s) && LinesFit(Concat(chunks)) ==>
      file == OnDisk(Redact(Concat(chunks), secrets), MAX_TASK_LOG_BYTES)
  {
    var sink := new CappedLogSink(MAX_TASK_LOG_BYTES);
    var rw := new RedactWriter(sink, redact);
    for i := 0 to |chunks|
      invariant rw.Valid() && rw.State() == Writes(chunks[..i], rw.secrets, rw.maxLen)
    {
      assert chunks[..i + 1][..i] == chunks[..i];
      rw.Write(chunks[i]);
    }
    assert chunks[..|chunks|] == chunks;
    rw.Close();
    secrets := rw.secrets;
    SinkHides(chunks, redact, secrets, rw.maxLen);
    file := sink.file;
  }

  /** What the file holds once the sink is closed. */
  lemma SinkHides(chunks: seq<Bytes>, redact: seq<Bytes>, secrets: seq<Bytes>, maxLen: nat)
    requires multiset(secrets) == multiset(redact) && forall s :: s in secrets ==> |s| <= maxLen
    ensures var accepted := CloseStep(Writes(chunks, secrets, maxLen), secrets).out;
      var file := OnDisk(accepted, MAX_TASK_LOG_BYTES);
      && (forall s :: s in redact && Hideable(s) && NEWLINE !in s ==>
            (Occurs(s, file) ==> Occurs(s, Marker(MAX_TASK_LOG_BYTES))))
      && ((forall s :: s in redact ==> NEWLINE !in s) && LinesFit(Concat(chunks)) ==>
            accepted == Redact(Concat(chunks), secrets))
  {
    var accepted := CloseStep(Writes(chunks, secrets, maxLen), secrets).out;
    assert forall s :: s in redact ==> s in multiset(secrets);
    assert forall s :: s in secrets ==> s in multiset(redact);
    forall s | s in redact && Hideable(s) && NEWLINE !in s && Occurs(s, OnDisk(accepted, MAX_TASK_LOG_BYTES))
      ensures Occurs(s, Marker(MAX_TASK_LOG_BYTES))
    {
      NoSecretIsEverWritten(chunks, secrets, maxLen, s);
      FileHolds(accepted, MAX_TASK_LOG_BYTES, s);
    }
    if (forall s :: s in redact ==> NEWLINE !in s) && LinesFit(Concat(chunks)) {
      SplitDoesNotMatter(chunks, secrets, maxLen);
    }
  }

  lemma OccursInPart(a: Bytes, c: Byte, b: Bytes, s: Bytes)
    requires c !in s && Occurs(s, a + ([c] + b))
    ensures Occurs(s, a) || Occurs(s, [c] + b)
  {
    var all := a + ([c] + b);
    var i :| 0 <= i <= |all| && s <= all[i..];
    if i >= |a| {
      DropIntoSecond(a, [c] + b, i);
      assert s <= ([c] + b)[i - |a|..];
    } else {
      var x := a[i..] + [c];
      assert all[i..] == x + b;
      ForeignEnd(x, b, s);
      assert s <= a[i..];
    }
  }

  lemma PartOccurs(a: Bytes, b: Bytes, s: Bytes)
    requires Occurs(s, a)
    ensures Occurs(s, a + b)
  {
    var i :| 0 <= i <= |a| && s <= a[i..];
    assert (a + b)[i..] == a[i..] + b;
    assert s <= (a + b)[i..];
  }

  lemma MarkerBreaksLine(maxBytes: nat)
    ensures |Marker(maxBytes)| > 0 && Marker(maxBytes) == [NEWLINE] + Marker(maxBytes)[1..]
  {
  }

  /** Truncation adds no occurrence except one lying inside the marker. */
  lemma FileHolds(accepted: Bytes, maxBytes: nat, s: Bytes)
    requires NEWLINE !in s && Occurs(s, OnDisk(accepted, maxBytes))
    ensures Occurs(s, accepted) || (|accepted| > maxBytes && Occurs(s, Marker(maxBytes)))
  {
    if |accepted| > maxBytes {
      var marker := Marker(maxBytes);
      MarkerBreaksLine(maxBytes);
      OccursInPart(accepted[..maxBytes], NEWLINE, marker[1..], s);
      if Occurs(s, accepted[..maxBytes]) {
        PartOccurs(accepted[..maxBytes], accepted[maxBytes..], s);
        assert accepted == accepted[..maxBytes] + accepted[maxBytes..];
      }
    }
  }

  // ---- longest match first ----

  ghost predicate LongestFirst(secrets: seq<Bytes>) {
    Sorted(secrets, LongerFirst())
  }

  /** Where a longest-first list matches, no secret that also starts there is longer. */
  lemma {:induction false} LongestSecretWins(b: Bytes, secrets: seq<Bytes>, s: Bytes)
    requires LongestFirst(secrets) && s in secrets && s <= b
    ensures |s| <= MatchLen(b, secrets)
  {
    if s != [] && (secrets[0] == [] || !(secrets[0] <= b)) {
      LongestSecretWins(b, secrets[1..], s);
    } else if s != [] {
      var k :| 0 <= k < |secrets| && secrets[k] == s;
      assert k == 0 || |secrets[0]| >= |secrets[k]|;
    }
  }

  /** A secret on its own comes out as four asterisks, not as the mask of some shorter secret and a remainder. */
  lemma SecretBecomesStars(s: Bytes, secrets: seq<Bytes>)
    requires LongestFirst(secrets) && s in secrets && s != []
    ensures Redact(s, secrets) == [42, 42, 42, 42]
  {
    LongestSecretWins(s, secrets, s);
    assert s[|s|..] == [];
  }

  /** The order newLogSink sorts by; which of two equally long secrets comes first makes no difference. */
  function LongerFirst(): (Bytes, Bytes) -> bool {
    (a: Bytes, b: Bytes) => |a| >= |b|
  }

  function SortByLength(redact: seq<Bytes>): (r: seq<Bytes>)
    ensures LongestFirst(r) && multiset(r) == multiset(redact)
  {
    SortIsStable(redact, LongerFirst());
    Sort(redact, LongerFirst())
  }

  /** Any two longest-first arrangements of the same secrets redact alike. */
  lemma {:induction false} ArrangementDoesNotMatter(b: Bytes, one: seq<Bytes>, two: seq<Bytes>)
    requires LongestFirst(one) && LongestFirst(two) && multiset(one) == multiset(two)
    ensures Redact(b, one) == Redact(b, two)
    decreases |b|
  {
    if |b| > 0 {
      SameMatch(b, one, two);
      var n := MatchLen(b, one);
      ArrangementDoesNotMatter(if n > 0 then b[n..] else b[1..], one, two);
    }
  }

  lemma SameMatch(b: Bytes, one: seq<Bytes>, two: seq<Bytes>)
    requires LongestFirst(one) && LongestFirst(two) && multiset(one) == multiset(two)
    ensures MatchLen(b, one) == MatchLen(b, two)
  {
    assert forall s :: s in one <==> s in multiset(one);
    assert forall s :: s in two <==> s in multiset(two);
    if MatchLen(b, one) > 0 {
      MatchIsASecret(b, one);
      LongestSecretWins(b, two, b[..MatchLen(b, one)]);
    }
    if MatchLen(b, two) > 0 {
      MatchIsASecret(b, two);
      LongestSecretWins(b, one, b[..MatchLen(b, two)]);
    }
  }
}
