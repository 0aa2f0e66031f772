/** The two name codecs the orchestrator relies on: spool filenames `<id>.job`
    and VM names `gha-<16 lowercase hex digits>`. Strings are sequences of
    bytes; every id is an unsigned 64-bit integer. */
module Names {

  datatype Option<+T> = None | Some(value: T)

  function Min(a: nat, b: nat): nat { if a < b then a else b }

  /** A number beyond those taken. */
  lemma {:induction false} Unused(taken: set<nat>) returns (j: nat)
    ensures forall k :: k in taken ==> k < j
  {
    j := 0;
    if taken != {} {
      var k :| k in taken;
      j := Unused(taken - {k});
      if j <= k { j := k + 1; }
      forall x | x in taken ensures x < j { assert x == k || x in taken - {k}; }
    }
  }

  const U64_LIMIT: nat := 0x1_0000_0000_0000_0000

  type U64 = n: nat | n < U64_LIMIT

  // ---- decimal ----------------------------------------------------------

  predicate IsDigit(c: char) { '0' <= c <= '9' }

  function DigitChar(d: nat): (c: char)
    requires d < 10
  {
    '0' + d as char
  }

  function DigitValue(c: char): (d: nat)
    requires IsDigit(c)
  {
    (c - '0') as nat
  }

  /** Decimal rendering without padding, as `format!("{id}")` writes it. */
  function Decimal(n: nat): string {
    if n < 10 then [DigitChar(n)] else Decimal(n / 10) + [DigitChar(n % 10)]
  }

  predicate AllDigits(s: string) { forall i :: 0 <= i < |s| ==> IsDigit(s[i]) }

  function DecimalValue(s: string): nat
    requires AllDigits(s)
  {
    if s == "" then 0 else 10 * DecimalValue(s[..|s| - 1]) + DigitValue(s[|s| - 1])
  }

  /** `str::parse::<u64>`: an optional leading `+` before at least one digit,
      digits only, and the value must fit. */
  function ParseU64(s: string): Option<U64> {
    if s == "" || s == "+" || s == "-" then None
    else
      var digits := if s[0] == '+' then s[1..] else s;
      if AllDigits(digits) && DecimalValue(digits) < U64_LIMIT then Some(DecimalValue(digits)) else None
  }

  // ---- spool filenames --------------------------------------------------

  predicate HasSuffix(s: string, suffix: string) {
    |suffix| <= |s| && s[|s| - |suffix|..] == suffix
  }

  predicate HasPrefix(s: string, prefix: string) { prefix <= s }

  const JOB_SUFFIX: string := ".job"

  function ParseSpoolFilename(name: string): Option<U64> {
    if HasSuffix(name, JOB_SUFFIX) then ParseU64(name[..|name| - |JOB_SUFFIX|]) else None
  }

  /** The one filename the spooler writes for `id`. */
  function CanonicalFilename(id: nat): string { Decimal(id) + JOB_SUFFIX }

  /** A name the dispatcher accepts: it parses, and equals the canonical
      spelling of the id it parses to. */
  predicate IsCanonical(name: string) {
    var id := ParseSpoolFilename(name);
    id.Some? && name == CanonicalFilename(id.value)
  }

  lemma {:induction false} DecimalDigits(n: nat)
    ensures AllDigits(Decimal(n)) && |Decimal(n)| >= 1
    ensures DecimalValue(Decimal(n)) == n
  {
    if n >= 10 {
      DecimalDigits(n / 10);
      assert Decimal(n)[..|Decimal(n)| - 1] == Decimal(n / 10);
    }
  }

  /** A decimal rendering never starts with a zero, except for zero itself. */
  lemma {:induction false} DecimalLeadingDigit(n: nat)
    ensures |Decimal(n)| >= 1
    ensures Decimal(n)[0] == '0' ==> n == 0
  {
    if n >= 10 { DecimalLeadingDigit(n / 10); }
  }

  lemma {:induction false} PositiveValue(s: string)
    requires AllDigits(s) && s != "" && s[0] != '0'
    ensures DecimalValue(s) >= 1
  {
    if |s| > 1 { PositiveValue(s[..|s| - 1]); }
  }

  lemma {:induction false} DecimalOfValue(s: string)
    requires AllDigits(s) && s != "" && (s[0] == '0' ==> |s| == 1)
    ensures Decimal(DecimalValue(s)) == s
  {
    var init, d := s[..|s| - 1], DigitValue(s[|s| - 1]);
    if |s| > 1 {
      DecimalOfValue(init);
      PositiveValue(init);
      var v := DecimalValue(init);
      assert DecimalValue(s) == 10 * v + d && (10 * v + d) / 10 == v && (10 * v + d) % 10 == d;
      assert Decimal(10 * v + d) == init + [DigitChar(d)];
    }
    assert s == init + [DigitChar(d)];
  }

  /** Every id survives the trip through its canonical filename. */
  lemma FilenameRoundTrip(id: U64)
    ensures ParseSpoolFilename(CanonicalFilename(id)) == Some(id)
    ensures IsCanonical(CanonicalFilename(id))
  {
    DecimalDigits(id);
    var name := CanonicalFilename(id);
    assert name[..|name| - |JOB_SUFFIX|] == Decimal(id);
    assert IsDigit(Decimal(id)[0]);
  }

  lemma CanonicalInjective(a: nat, b: nat)
    requires CanonicalFilename(a) == CanonicalFilename(b)
    ensures a == b
  {
    var x, y := CanonicalFilename(a), CanonicalFilename(b);
    assert Decimal(a) == x[..|x| - |JOB_SUFFIX|] == y[..|y| - |JOB_SUFFIX|] == Decimal(b);
    DecimalDigits(a);
    DecimalDigits(b);
  }

  /** Among the filenames that parse to some id, the canonical-name check rejects
      exactly the aliases: a leading `+`, or a leading zero on a longer numeral. */
  lemma CanonicalRejectsExactlyAliases(name: string)
    requires ParseSpoolFilename(name).Some?
    ensures IsCanonical(name) <==> name[0] != '+' && (name[0] == '0' ==> name == "0" + JOB_SUFFIX)
  {
    var id := ParseSpoolFilename(name).value;
    var stem := name[..|name| - |JOB_SUFFIX|];
    assert name == stem + JOB_SUFFIX;
    DecimalDigits(id);
    DecimalLeadingDigit(id);
    assert CanonicalFilename(id)[0] == Decimal(id)[0];
    if IsCanonical(name) {
      assert IsDigit(name[0]);
    } else if name[0] != '+' && (name[0] == '0' ==> name == "0" + JOB_SUFFIX) {
      if stem[0] == '0' { assert stem == "0"; }
      DecimalOfValue(stem);
      assert false;
    }
  }

  // ---- VM names ---------------------------------------------------------

  const VM_NAME_PREFIX: string := "gha-"

  const HEX_DIGITS: string := "0123456789abcdef"

  predicate IsHexDigit(c: char) { '0' <= c <= '9' || 'a' <= c <= 'f' }

  function HexDigitValue(c: char): (d: nat)
    requires IsHexDigit(c)
    ensures d < 16 && HEX_DIGITS[d] == c
  {
    if c <= '9' then (c - '0') as nat else 10 + (c - 'a') as nat
  }

  function HexChar(d: nat): (c: char)
    requires d < 16
    ensures IsHexDigit(c) && HexDigitValue(c) == d
  {
    HEX_DIGITS[d]
  }

  /** `k` hex digits of `n`, most significant first. */
  function HexFixed(n: nat, k: nat): (s: string)
    ensures |s| == k
    ensures forall i :: 0 <= i < k ==> IsHexDigit(s[i])
  {
    if k == 0 then "" else HexFixed(n / 16, k - 1) + [HexChar(n % 16)]
  }

  predicate AllHex(s: string) { forall i :: 0 <= i < |s| ==> IsHexDigit(s[i]) }

  function HexValue(s: string): nat
    requires AllHex(s)
  {
    if s == "" then 0 else 16 * HexValue(s[..|s| - 1]) + HexDigitValue(s[|s| - 1])
  }

  function Pow16(k: nat): nat { if k == 0 then 1 else 16 * Pow16(k - 1) }

  function VmName(id: nat): string { VM_NAME_PREFIX + HexFixed(id, 16) }

  predicate IsManagedVmName(name: string) {
    HasPrefix(name, VM_NAME_PREFIX) &&
    var suffix := name[|VM_NAME_PREFIX|..];
    |suffix| == 16 && AllHex(suffix)
  }

  lemma {:induction false} HexRoundTrip(n: nat, k: nat)
    requires n < Pow16(k)
    ensures HexValue(HexFixed(n, k)) == n
  {
    if k > 0 {
      HexRoundTrip(n / 16, k - 1);
      assert HexFixed(n, k)[..k - 1] == HexFixed(n / 16, k - 1);
    }
  }

  lemma AppendHexDigit(v: nat, d: nat, k: nat)
    requires d < 16
    ensures HexFixed(16 * v + d, k + 1) == HexFixed(v, k) + [HexChar(d)]
  {
    assert (16 * v + d) / 16 == v && (16 * v + d) % 16 == d;
  }

  lemma {:induction false} HexValueBounded(s: string)
    requires AllHex(s)
    ensures HexValue(s) < Pow16(|s|)
  {
    if s != "" { HexValueBounded(s[..|s| - 1]); }
  }

  lemma {:induction false} HexOfValue(s: string)
    requires AllHex(s)
    ensures HexFixed(HexValue(s), |s|) == s
    decreases |s|
  {
    if s != "" {
      var init, last := s[..|s| - 1], s[|s| - 1];
      assert IsHexDigit(last) && AllHex(init) && s == init + [last];
      HexOfValue(init);
      AppendHexDigit(HexValue(init), HexDigitValue(last), |init|);
    }
  }

  lemma Pow16Sixteen()
    ensures Pow16(16) == U64_LIMIT
  {
    assert Pow16(4) == 0x1_0000;
    assert Pow16(8) == 0x1_0000_0000;
    assert Pow16(12) == 0x1_0000_0000_0000;
  }

  lemma VmNameInjective(a: U64, b: U64)
    requires VmName(a) == VmName(b)
    ensures a == b
  {
    Pow16Sixteen();
    HexRoundTrip(a, 16);
    HexRoundTrip(b, 16);
    assert VmName(a)[|VM_NAME_PREFIX|..] == HexFixed(a, 16);
    assert VmName(b)[|VM_NAME_PREFIX|..] == HexFixed(b, 16);
  }

  /** The managed-name test accepts exactly the range of `VmName` on 64-bit ids,
      and each accepted name has exactly one preimage. */
  lemma ManagedNamesAreExactlyVmNames(name: string)
    ensures IsManagedVmName(name) <==> exists id: U64 :: VmName(id) == name
    ensures forall a: U64, b: U64 :: VmName(a) == name && VmName(b) == name ==> a == b
  {
    if IsManagedVmName(name) {
      var suffix := name[|VM_NAME_PREFIX|..];
      HexValueBounded(suffix);
      HexOfValue(suffix);
      Pow16Sixteen();
      assert name == VM_NAME_PREFIX + suffix;
      assert VmName(HexValue(suffix)) == name;
    }
    if id: U64 :| VmName(id) == name {
      assert name[|VM_NAME_PREFIX|..] == HexFixed(id, 16);
    }
    forall a: U64, b: U64 | VmName(a) == name && VmName(b) == name ensures a == b {
      VmNameInjective(a, b);
    }
  }
}
