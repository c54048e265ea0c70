/** Decimal text: the parts of strconv and strings that factors and audit messages use. */
module Text {
  import opened Collections
  import opened Model

  predicate IsDigit(c: char) { '0' <= c <= '9' }

  predicate AllDigits(s: string) {
    forall i :: 0 <= i < |s| ==> IsDigit(s[i])
  }

  /** The number a digit string denotes. */
  function Val(s: string): nat
    requires AllDigits(s)
  {
    if s == [] then 0 else Val(s[..|s| - 1]) * 10 + (s[|s| - 1] - '0') as int
  }

  function DigitChar(d: nat): (c: char)
    requires d < 10
    ensures IsDigit(c) && (c - '0') as int == d
  {
    "0123456789"[d]
  }

  /** strconv.FormatInt for a non-negative number. */
  function Decimal(n: nat): (s: string)
    ensures s != [] && AllDigits(s) && Val(s) == n
  {
    if n < 10 then
      var s := [DigitChar(n)];
      assert s[..0] == [];
      s
    else
      var s := Decimal(n / 10) + [DigitChar(n % 10)];
      assert s[..|s| - 1] == Decimal(n / 10);
      s
  }

  /** fmt's %06d: zeros in front up to the width. */
  function Padded(n: nat, width: nat): (s: string)
    ensures AllDigits(s) && |s| == width
    ensures Val(s) == n % Pow10(width)
    decreases width
  {
    if width == 0 then []
    else
      var s := Padded(n / 10, width - 1) + [DigitChar(n % 10)];
      assert s[..|s| - 1] == Padded(n / 10, width - 1);
      DivModStep(n, Pow10(width - 1));
      s
  }

  function Pow10(k: nat): (p: nat)
    ensures p >= 1
  {
    if k == 0 then 1 else 10 * Pow10(k - 1)
  }

  lemma DivModStep(n: nat, m: nat)
    requires m >= 1
    ensures (n / 10) % m * 10 + n % 10 == n % (10 * m)
  {
    var q, r := n / 10 / m, (n / 10) % m;
    assert n / 10 == m * q + r;
    assert n == 10 * (m * q + r) + n % 10;
    assert 10 * (m * q) == (10 * m) * q;
    ModUnique(n, 10 * m, q, 10 * r + n % 10);
  }

  lemma ModUnique(n: nat, m: nat, q: nat, r: nat)
    requires m >= 1 && n == m * q + r && r < m
    ensures n % m == r
  {
    var d, e := n / m, n % m;
    assert n == m * d + e;
    MulGap(m, q, d);
    MulGap(m, d, q);
  }

  lemma MulGap(m: nat, a: nat, b: nat)
    ensures a < b ==> m * a + m <= m * b
  {
    if a < b {
      assert m * b == m * (a + 1) + m * (b - a - 1);
      assert m * (b - a - 1) >= 0;
    }
  }

  lemma {:induction false} ValAppendZeros(s: string, k: nat)
    requires AllDigits(s)
    ensures AllDigits(s + Zeros(k)) && Val(s + Zeros(k)) == Val(s) * Pow10(k)
  {
    if k == 0 {
      assert s + Zeros(0) == s;
    } else {
      ValAppendZeros(s, k - 1);
      var t := s + Zeros(k);
      assert t[..|t| - 1] == s + Zeros(k - 1);
    }
  }

  function Zeros(k: nat): (s: string)
    ensures |s| == k && forall i :: 0 <= i < k ==> s[i] == '0'
  {
    seq(k, _ => '0')
  }

  /** strings.TrimRight(s, "0"). */
  function TrimZeros(s: string): (t: string)
    ensures t <= s && (t == [] || t[|t| - 1] != '0')
    ensures s == t + Zeros(|s| - |t|)
  {
    if s == [] || s[|s| - 1] != '0' then
      assert s == s + Zeros(0);
      s
    else
      var t := TrimZeros(s[..|s| - 1]);
      assert s == s[..|s| - 1] + ['0'];
      assert s == t + Zeros(|s| - |t|);
      t
  }

  /** unicode.IsSpace. */
  predicate IsSpace(c: char) {
    var n := c as int;
    || 0x09 <= n <= 0x0D || n == 0x20 || n == 0x85 || n == 0xA0 || n == 0x1680
    || 0x2000 <= n <= 0x200A || n == 0x2028 || n == 0x2029 || n == 0x202F || n == 0x205F || n == 0x3000
  }

  function TrimLeft(s: string): string {
    if s != [] && IsSpace(s[0]) then TrimLeft(s[1..]) else s
  }

  function TrimRight(s: string): string {
    if s != [] && IsSpace(s[|s| - 1]) then TrimRight(s[..|s| - 1]) else s
  }

  function TrimSpace(s: string): string {
    TrimRight(TrimLeft(s))
  }

  /** strings.Split by one character. */
  function Split(s: string, c: char): (parts: seq<string>)
    ensures parts != []
    ensures |parts| == 1 <==> c !in s
    ensures |parts| == 1 ==> parts[0] == s
    ensures |parts| == 2 ==> s == parts[0] + [c] + parts[1] && c !in parts[0] && c !in parts[1]
  {
    if s == [] then [[]]
    else
      var rest := Split(s[1..], c);
      assert s == [s[0]] + s[1..];
      if s[0] == c then [[]] + rest
      else
        [[s[0]] + rest[0]] + rest[1..]
  }

  lemma {:induction false} SplitOnce(a: string, c: char, b: string)
    requires c !in a && c !in b
    ensures Split(a + [c] + b, c) == [a, b]
  {
    var s := a + [c] + b;
    if a == [] {
      assert s[1..] == b;
    } else {
      assert s[1..] == a[1..] + [c] + b;
      SplitOnce(a[1..], c, b);
      assert [a[0]] + a[1..] == a;
    }
  }

  /** strconv.ParseInt(s, 10, 64) on a digit string. */
  function ParseDigits(s: string): Result<int64>
    requires AllDigits(s)
  {
    if s == [] || Val(s) > MAX_INT64 then Err(BadInput) else Ok(Val(s))
  }
}
