/**
 * Naming of per-entry output directories and the inverse used by the
 * equilibration table: `f"entry-{i:04d}"` on the packing side and
 * `int(name.split("-")[1])` on the analysis side.
 */
module EntryNaming {
  import opened Wrappers

  predicate IsDigit(c: char) {
    '0' <= c <= '9'
  }

  predicate AllDigits(s: string) {
    forall k :: 0 <= k < |s| ==> IsDigit(s[k])
  }

  function DigitChar(d: nat): (c: char)
    requires d < 10
    ensures IsDigit(c) && c as int - '0' as int == d
  {
    ('0' as int + d) as char
  }

  /** Decimal digits of `n`, most significant first, without leading zeros. */
  function NatDigits(n: nat): (s: string)
    ensures |s| > 0 && AllDigits(s)
    ensures n > 0 ==> s[0] != '0'
    decreases n
  {
    if n < 10 then [DigitChar(n)] else NatDigits(n / 10) + [DigitChar(n % 10)]
  }

  function Zeros(k: nat): (s: string)
    ensures |s| == k && forall j :: 0 <= j < k ==> s[j] == '0'
  {
    seq(k, _ => '0')
  }

  /** Left-pads `s` with '0' up to `width` characters. */
  function ZeroPad(s: string, width: nat): string {
    if |s| >= width then s else Zeros(width - |s|) + s
  }

  /**
   * Python's `format(i, "04d")`: at least four characters, zero-filled after
   * the sign, so a negative index keeps three digits after its '-'.
   */
  function Format04d(i: int): (s: string)
    ensures |s| >= 4
    ensures i >= 0 ==> AllDigits(s)
    ensures i < 0 ==> s[0] == '-' && AllDigits(s[1..])
  {
    if i >= 0 then ZeroPad(NatDigits(i), 4) else "-" + ZeroPad(NatDigits(-i), 3)
  }

  function EntryName(i: int): string {
    "entry-" + Format04d(i)
  }

  /** `output_directory / f"entry-{i:04d}"`. */
  function EntryDirectory(outputDirectory: string, i: int): string {
    outputDirectory + "/" + EntryName(i)
  }

  /** Value of a string of decimal digits, read left to right. */
  function DigitsValue(s: string): nat
    requires AllDigits(s)
  {
    if s == [] then 0
    else DigitsValue(s[..|s| - 1]) * 10 + (s[|s| - 1] as int - '0' as int)
  }

  /**
   * Python's `int(s)` on a str, for an optional sign followed by ASCII digits;
   * anything else raises ValueError (None).
   */
  function ParseInt(s: string): (r: Option<int>)
    ensures r.Some? ==> |s| > 0
    ensures AllDigits(s) && s != [] ==> r == Some(DigitsValue(s))
  {
    if |s| > 1 && (s[0] == '-' || s[0] == '+') && AllDigits(s[1..]) then
      Some(if s[0] == '-' then -(DigitsValue(s[1..]) as int) else DigitsValue(s[1..]))
    else if |s| > 0 && AllDigits(s) then Some(DigitsValue(s))
    else None
  }

  /** Python's `s.split(sep)` for a one-character separator. */
  function Split(s: string, sep: char): (parts: seq<string>)
    ensures |parts| >= 1
    decreases |s|
  {
    if s == [] then [""]
    else
      var rest := Split(s[1..], sep);
      if s[0] == sep then [""] + rest else [[s[0]] + rest[0]] + rest[1..]
  }

  /**
   * `int(name.split("-")[1])`: the field after the first '-'; None when there
   * is no '-' (IndexError) or the field is not an integer (ValueError).
   */
  function ParseEntryId(name: string): Option<int> {
    var parts := Split(name, '-');
    if |parts| < 2 then None else ParseInt(parts[1])
  }

  lemma {:induction false} DigitsValueOfNatDigits(n: nat)
    ensures DigitsValue(NatDigits(n)) == n
    decreases n
  {
    if n >= 10 {
      var s := NatDigits(n);
      assert s[..|s| - 1] == NatDigits(n / 10);
      DigitsValueOfNatDigits(n / 10);
    }
  }

  lemma {:induction false} DigitsValueOfZeros(k: nat)
    ensures DigitsValue(Zeros(k)) == 0
  {
    if k > 0 {
      assert Zeros(k)[..k - 1] == Zeros(k - 1);
      DigitsValueOfZeros(k - 1);
    }
  }

  /** Leading zeros do not change the value read by `int()`. */
  lemma {:induction false} LeadingZerosIgnored(k: nat, s: string)
    requires AllDigits(s)
    ensures AllDigits(Zeros(k) + s) && DigitsValue(Zeros(k) + s) == DigitsValue(s)
    decreases |s|
  {
    var z := Zeros(k) + s;
    if s == [] {
      assert z == Zeros(k);
      DigitsValueOfZeros(k);
    } else {
      assert z[..|z| - 1] == Zeros(k) + s[..|s| - 1];
      LeadingZerosIgnored(k, s[..|s| - 1]);
    }
  }

  lemma PaddedValue(n: nat, width: nat)
    ensures AllDigits(ZeroPad(NatDigits(n), width))
    ensures DigitsValue(ZeroPad(NatDigits(n), width)) == n
  {
    DigitsValueOfNatDigits(n);
    var d := NatDigits(n);
    if |d| < width {
      LeadingZerosIgnored(width - |d|, d);
    }
  }

  /** `int(format(i, "04d")) == i` for every integer. */
  lemma FormatRoundTrip(i: int)
    ensures ParseInt(Format04d(i)) == Some(i)
  {
    if i >= 0 {
      PaddedValue(i, 4);
    } else {
      PaddedValue(-i, 3);
      assert Format04d(i)[1..] == ZeroPad(NatDigits(-i), 3);
    }
  }

  lemma {:induction false} SplitWithoutSeparator(t: string, sep: char)
    requires sep !in t
    ensures Split(t, sep) == [t]
    decreases |t|
  {
    if t != [] {
      SplitWithoutSeparator(t[1..], sep);
      assert t == [t[0]] + t[1..];
    }
  }

  lemma {:induction false} SplitAtFirstSeparator(p: string, t: string, sep: char)
    requires sep !in p
    ensures Split(p + [sep] + t, sep) == [p] + Split(t, sep)
    decreases |p|
  {
    var s := p + [sep] + t;
    if p == [] {
      assert s[1..] == t;
    } else {
      assert s[1..] == p[1..] + [sep] + t;
      SplitAtFirstSeparator(p[1..], t, sep);
      assert p == [p[0]] + p[1..];
    }
  }

  /** The entry id parsed from `entry-%04d` is the index the name was made from. */
  lemma EntryIdRoundTrip(i: nat)
    ensures ParseEntryId(EntryName(i)) == Some(i)
  {
    var f := Format04d(i);
    assert '-' !in f by {
      forall k | 0 <= k < |f| ensures f[k] != '-' {
        assert IsDigit(f[k]);
      }
    }
    assert EntryName(i) == "entry" + ['-'] + f;
    SplitAtFirstSeparator("entry", f, '-');
    SplitWithoutSeparator(f, '-');
    FormatRoundTrip(i);
  }

  /**
   * A negative index is accepted by Python's `data[i]` and formatted as
   * `entry--NNN`; splitting that name on '-' yields an empty second field,
   * which `int()` rejects.
   */
  lemma NegativeEntryIdRejected(i: int)
    requires i < 0
    ensures ParseEntryId(EntryName(i)) == None
  {
    var f := Format04d(i);
    assert f == [f[0]] + f[1..];
    assert EntryName(i) == "entry" + ['-'] + ([] + ['-'] + f[1..]);
    SplitAtFirstSeparator("entry", [] + ['-'] + f[1..], '-');
    SplitAtFirstSeparator([], f[1..], '-');
    assert Split(EntryName(i), '-')[1] == "";
  }

  /** `format(i, "04d")` is injective, since `int()` reads the index back. */
  lemma Format04dInjective(i: int, j: int)
    requires Format04d(i) == Format04d(j)
    ensures i == j
  {
    FormatRoundTrip(i);
    FormatRoundTrip(j);
  }

  /** Two strings with a common prefix are equal exactly when their tails are. */
  lemma PrefixCancels(prefix: string, a: string, b: string)
    requires prefix + a == prefix + b
    ensures a == b
  {
    assert a == (prefix + a)[|prefix|..];
    assert b == (prefix + b)[|prefix|..];
  }

  /** The entry directory is a fixed prefix followed by the formatted index. */
  lemma EntryDirectorySplits(outputDirectory: string, f: string)
    ensures outputDirectory + "/" + ("entry-" + f) == (outputDirectory + "/entry-") + f
  {
  }

  /** Distinct indices get distinct entry directories. */
  lemma EntryDirectoryInjective(outputDirectory: string, i: int, j: int)
    requires EntryDirectory(outputDirectory, i) == EntryDirectory(outputDirectory, j)
    ensures i == j
  {
    var fi, fj := Format04d(i), Format04d(j);
    EntryDirectorySplits(outputDirectory, fi);
    EntryDirectorySplits(outputDirectory, fj);
    PrefixCancels(outputDirectory + "/entry-", fi, fj);
    Format04dInjective(i, j);
  }
}
