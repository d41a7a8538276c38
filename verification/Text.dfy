/** JavaScript's numerals, padding, and white space as `trim` and `\s` see it. */
module Text {
  import opened Filtering

  function DigitChar(d: nat): (c: char)
    requires d < 10
    ensures c as int == '0' as int + d
  {
    ('0' as int + d) as char
  }

  function Digits(n: nat, radix: nat): (s: string)
    requires 2 <= radix <= 10
    ensures s != ""
  {
    if n < radix then [DigitChar(n)] else Digits(n / radix, radix) + [DigitChar(n % radix)]
  }

  /** `n.toString(radix)`. */
  function ToString(n: int, radix: nat): (s: string)
    requires 2 <= radix <= 10
    ensures s != ""
  {
    if n < 0 then "-" + Digits(-n, radix) else Digits(n, radix)
  }

  function Zeros(n: nat): (s: string)
    ensures |s| == n
  {
    seq(n, _ => '0')
  }

  /** `s.padStart(n, "0")`. */
  function PadStart(s: string, n: nat): (r: string)
    ensures |r| == if |s| >= n then |s| else n
  {
    if |s| >= n then s else Zeros(n - |s|) + s
  }

  predicate IsSpace(c: char) {
    var n := c as int;
    9 <= n <= 13 || n == 32 || n == 160 || n == 0x1680 || 0x2000 <= n <= 0x200a || n == 0x2028 || n == 0x2029 ||
    n == 0x202f || n == 0x205f || n == 0x3000 || n == 0xfeff
  }

  /** `s.trim()`. */
  function Trim(s: string): (t: string)
    ensures |t| <= |s|
    ensures t != "" ==> !IsSpace(t[0]) && !IsSpace(t[|t| - 1])
  {
    if s == "" then ""
    else if IsSpace(s[0]) then Trim(s[1..])
    else if IsSpace(s[|s| - 1]) then Trim(s[..|s| - 1])
    else s
  }

  function NotSpace(): char -> bool { (c: char) => !IsSpace(c) }

  /** What can be seen of a text. */
  function Ink(s: string): string { Filter(NotSpace(), s) }

  lemma InkAppend(a: string, b: string)
    ensures Ink(a + b) == Ink(a) + Ink(b)
  {
    FilterAppend(NotSpace(), a, b);
  }

  lemma InkBlank(s: string)
    requires forall i :: 0 <= i < |s| ==> IsSpace(s[i])
    ensures Ink(s) == ""
  {
    FilterAllOrNone(NotSpace(), s);
  }

  lemma InkBlankFirst(s: string)
    requires s != "" && IsSpace(s[0])
    ensures Ink(s[1..]) == Ink(s)
  {
    InkAppend([s[0]], s[1..]);
    InkBlank([s[0]]);
    assert s == [s[0]] + s[1..];
  }

  lemma InkBlankLast(s: string)
    requires s != "" && IsSpace(s[|s| - 1])
    ensures Ink(s[..|s| - 1]) == Ink(s)
  {}

  /** Trimming removes nothing that can be seen, and everything only from a blank text. */
  lemma {:induction false} InkTrim(s: string)
    ensures Ink(Trim(s)) == Ink(s) && (Trim(s) == "" ==> Ink(s) == "")
    decreases |s|
  {
    if s == "" {
    } else if IsSpace(s[0]) {
      InkTrim(s[1..]);
      InkBlankFirst(s);
    } else if IsSpace(s[|s| - 1]) {
      InkTrim(s[..|s| - 1]);
      InkBlankLast(s);
    }
  }
}
