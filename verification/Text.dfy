/** Decimal rendering and bytes, as the source formats ids and log markers. */
module Text {
  newtype Byte = b: int | 0 <= b < 256

  type Bytes = seq<Byte>

  function Decimal(n: nat): string {
    if n < 10 then ["0123456789"[n]] else Decimal(n / 10) + ["0123456789"[n % 10]]
  }

  /** Reading a decimal number back. */
  function ValueOf(s: string): int {
    if |s| == 0 then 0 else 10 * ValueOf(s[..|s| - 1]) + (s[|s| - 1] as int - '0' as int)
  }

  lemma {:induction false} DecimalReadsBack(n: nat)
    ensures ValueOf(Decimal(n)) == n
  {
    var last := ["0123456789"[n % 10]];
    assert last[0] as int - '0' as int == n % 10;
    if n >= 10 {
      DecimalReadsBack(n / 10);
      assert (Decimal(n / 10) + last)[..|Decimal(n / 10)|] == Decimal(n / 10);
    } else {
      assert last[..0] == "" && Decimal(n) == last;
    }
  }

  /** The low byte of each character; the source's literals are all ASCII. */
  function Ascii(s: string): Bytes {
    seq(|s|, i requires 0 <= i < |s| => (s[i] as int % 256) as Byte)
  }
}
