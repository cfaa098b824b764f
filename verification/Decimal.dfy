/** Fixed-point decimals on the wire: the tick-scaled parser with its 64-bit guards,
    the printer, and client order ids. */
module Decimal {
  import opened Arithmetic
  import opened Events

  const INT64_MAX: int := 9223372036854775807
  /** The largest mantissa the digit loop's overflow guard lets through. */
  const MANTISSA_MAX: int := 9223372036854775799

  predicate IsDigit(c: char) {
    '0' <= c <= '9'
  }

  function DigitValue(c: char): nat {
    if IsDigit(c) then c as int - '0' as int else 0
  }

  predicate AllDigits(s: string) {
    forall c :: c in s ==> IsDigit(c)
  }

  predicate AllZeros(s: string) {
    forall c :: c in s ==> c == '0'
  }

  function Pow10(n: nat): (p: nat)
    ensures p >= 1
  {
    if n == 0 then 1 else 10 * Pow10(n - 1)
  }

  /** The number a string of digits denotes. */
  function Num(s: string): nat {
    if s == [] then 0 else 10 * Num(s[..|s| - 1]) + DigitValue(s[|s| - 1])
  }

  lemma {:induction false} Pow10Add(m: nat, n: nat)
    ensures Pow10(m + n) == Pow10(m) * Pow10(n)
  {
    if m > 0 { Pow10Add(m - 1, n); }
  }

  lemma TenTimes(x: nat, p: nat)
    ensures x * (10 * p) == 10 * (x * p)
  {
  }

  lemma {:induction false} NumConcat(a: string, b: string)
    ensures Num(a + b) == Num(a) * Pow10(|b|) + Num(b)
  {
    if b == [] {
      assert a + b == a;
    } else {
      var b' := b[..|b| - 1];
      NumConcat(a, b');
      assert (a + b)[..|a + b| - 1] == a + b';
      TenTimes(Num(a), Pow10(|b'|));
      assert (a + b)[|a + b| - 1] == b[|b| - 1];
    }
  }

  lemma {:induction false} NumBound(s: string)
    ensures Num(s) < Pow10(|s|)
  {
    if s != [] { NumBound(s[..|s| - 1]); }
  }

  lemma AllZerosSnoc(s: string, c: char)
    ensures AllZeros(s + [c]) <==> AllZeros(s) && c == '0'
  {
    assert forall d :: d in s ==> d in s + [c];
    assert c in s + [c];
  }

  lemma {:induction false} NumZero(s: string)
    requires AllDigits(s)
    ensures Num(s) == 0 <==> AllZeros(s)
  {
    if s != [] {
      var t, c := s[..|s| - 1], s[|s| - 1];
      NumZero(t);
      assert s == t + [c];
      AllZerosSnoc(t, c);
    }
  }

  // -------------------------------------------------------- what a decimal means

  /** The part before the first dot, and the part after it. */
  function Whole(t: string): string {
    if t == [] || t[0] == '.' then [] else [t[0]] + Whole(t[1..])
  }

  function Frac(t: string): string {
    if t == [] then [] else if t[0] == '.' then t[1..] else Frac(t[1..])
  }

  predicate WellFormed(t: string) {
    AllDigits(Whole(t)) && AllDigits(Frac(t))
  }

  /** r is the decimal t scaled by 10^scale, exactly. */
  predicate Represents(t: string, scale: nat, r: nat) {
    r * Pow10(|Frac(t)|) == Num(Whole(t) + Frac(t)) * Pow10(scale)
  }

  /** The fraction digits at the scale's precision, and those beyond it. */
  function KeptFrac(t: string, scale: nat): string {
    var f := Frac(t);
    if |f| <= scale then f else f[..scale]
  }

  function Excess(t: string, scale: nat): string {
    var f := Frac(t);
    if |f| <= scale then [] else f[scale..]
  }

  function Mantissa(t: string, scale: nat): string {
    Whole(t) + KeptFrac(t, scale)
  }

  function Padding(t: string, scale: nat): nat {
    scale - |KeptFrac(t, scale)|
  }

  predicate ExcessIsZero(t: string, scale: nat) {
    AllZeros(Excess(t, scale))
  }

  /** Digit by digit the parser computes the scaled decimal, and it finds a nonzero
      excess digit exactly when the decimal is finer than the scale. */
  lemma MantissaIsExact(t: string, scale: nat, r: nat)
    requires WellFormed(t)
    ensures Represents(t, scale, r)
       <==> ExcessIsZero(t, scale) && r == Num(Mantissa(t, scale)) * Pow10(Padding(t, scale))
  {
    if |Frac(t)| <= scale {
      PaddedIsExact(t, scale, r);
    } else {
      TruncatedIsExact(t, scale, r);
    }
  }

  lemma PaddedIsExact(t: string, scale: nat, r: nat)
    requires |Frac(t)| <= scale
    ensures Represents(t, scale, r) <==> r == Num(Mantissa(t, scale)) * Pow10(Padding(t, scale))
    ensures ExcessIsZero(t, scale)
  {
    Padded(Num(Whole(t) + Frac(t)), |Frac(t)|, Padding(t, scale), r);
  }

  lemma TruncatedIsExact(t: string, scale: nat, r: nat)
    requires |Frac(t)| > scale && WellFormed(t)
    ensures Represents(t, scale, r) <==>
      ExcessIsZero(t, scale) && r == Num(Mantissa(t, scale)) * Pow10(Padding(t, scale))
  {
    TruncatedText(t, scale);
    Truncated(Mantissa(t, scale), Excess(t, scale), scale, r);
    NumZero(Excess(t, scale));
    TimesOne(Num(Mantissa(t, scale)));
  }

  lemma TimesOne(n: nat)
    ensures n * Pow10(0) == n
  {
  }

  lemma TruncatedText(t: string, scale: nat)
    requires |Frac(t)| > scale && WellFormed(t)
    ensures Whole(t) + Frac(t) == Mantissa(t, scale) + Excess(t, scale)
    ensures |Frac(t)| == scale + |Excess(t, scale)| && Padding(t, scale) == 0
    ensures AllDigits(Excess(t, scale))
  {
    assert Frac(t) == KeptFrac(t, scale) + Excess(t, scale);
  }

  lemma Padded(m: nat, f: nat, pad: nat, r: nat)
    ensures r * Pow10(f) == m * Pow10(pad + f) <==> r == m * Pow10(pad)
  {
    Pow10Add(pad, f);
    Regroup(m, Pow10(pad), Pow10(f));
    Cancel(r, m * Pow10(pad), Pow10(f));
  }

  lemma Truncated(m: string, x: string, scale: nat, r: nat)
    ensures r * Pow10(scale + |x|) == Num(m + x) * Pow10(scale) <==> Num(x) == 0 && r == Num(m)
  {
    NumConcat(m, x);
    NumBound(x);
    Pow10Add(scale, |x|);
    Quotient(r, Num(m), Num(x), Pow10(scale), Pow10(|x|));
  }

  lemma Regroup(a: nat, b: nat, c: nat)
    ensures a * b * c == a * (b * c) == (a * c) * b
  {
  }

  lemma Cancel(a: nat, b: nat, d: nat)
    requires d > 0
    ensures a * d == b * d <==> a == b
  {
    if a < b {
      assert (b - a) * d > 0;
    } else if b < a {
      assert (a - b) * d > 0;
    }
  }

  /** r * p * e == (m * e + x) * p, with x < e, only for x == 0 and r == m. */
  lemma Quotient(r: nat, m: nat, x: nat, p: nat, e: nat)
    requires p > 0 && x < e
    ensures r * (p * e) == (m * e + x) * p <==> x == 0 && r == m
  {
    Regroup(r, p, e);
    Cancel(r * e, m * e + x, p);
    NoRemainder(r, m, x, e);
  }

  lemma NoRemainder(r: nat, m: nat, x: nat, e: nat)
    requires x < e
    ensures r * e == m * e + x <==> x == 0 && r == m
  {
    if r > m {
      Farther(r, m, e);
    } else if r < m {
      Farther(m, r, e);
    }
  }

  lemma {:induction false} Farther(a: nat, b: nat, e: nat)
    requires a > b
    ensures a * e >= b * e + e
    decreases a
  {
    OneMore(a - 1, e);
    if a - 1 > b { Farther(a - 1, b, e); }
  }

  lemma OneMore(b: nat, e: nat)
    ensures (b + 1) * e == b * e + e
  {
  }

  // ------------------------------------------------------------------- the parser

  function Max0(scale: int): nat {
    if scale < 0 then 0 else scale
  }

  predicate Negative(s: string) {
    s != [] && s[0] == '-'
  }

  function Body(s: string): string {
    if Negative(s) then s[1..] else s
  }

  /** Where the 64-bit guards stop: INT64_MAX after padding, but eight short of it when
      the last digit comes from the text. */
  predicate Fits(t: string, scale: nat, r: nat) {
    r <= if |Frac(t)| >= scale then MANTISSA_MAX else INT64_MAX
  }

  /** s is a decimal whose value times 10^scale is v, within the guards. */
  predicate Parses(s: string, scale: int, v: int) {
    var t, r := Body(s), Magnitude(s, v);
    && WellFormed(t) && Whole(t) + Frac(t) != []
    && r >= 0 && Represents(t, Max0(scale), r) && Fits(t, Max0(scale), r)
  }

  /** What the digit loop has established about the text read so far. */
  predicate Scanned(t: string, scale: nat) {
    WellFormed(t) && ExcessIsZero(t, scale) && Num(Mantissa(t, scale)) <= MANTISSA_MAX
  }

  lemma {:induction false} SplitSnoc(t: string, c: char)
    ensures '.' in t ==> Whole(t + [c]) == Whole(t) && Frac(t + [c]) == Frac(t) + [c]
    ensures '.' !in t && c == '.' ==> Whole(t + [c]) == Whole(t) && Frac(t + [c]) == []
    ensures '.' !in t && c != '.' ==> Whole(t + [c]) == Whole(t) + [c] && Frac(t + [c]) == []
    ensures '.' !in t ==> Frac(t) == []
  {
    if t == [] {
      assert t + [c] == [c];
    } else {
      assert (t + [c])[1..] == t[1..] + [c];
      if t[0] != '.' { SplitSnoc(t[1..], c); }
    }
  }

  lemma NumSnoc(s: string, c: char)
    ensures Num(s + [c]) == 10 * Num(s) + DigitValue(c)
  {
    assert (s + [c])[..|s|] == s;
  }

  lemma WellFormedSnoc(t: string, c: char)
    ensures WellFormed(t + [c]) <==> WellFormed(t) && (IsDigit(c) || (c == '.' && '.' !in t))
  {
    SplitSnoc(t, c);
    var w, f := Whole(t), Frac(t);
    assert c in f + [c] && c in w + [c];
    assert forall d :: d in f ==> d in f + [c];
    assert forall d :: d in w ==> d in w + [c];
  }

  /** The digit goes into the mantissa, or is excess. */
  predicate BeyondScale(t: string, scale: nat) {
    '.' in t && |KeptFrac(t, scale)| >= scale
  }

  lemma MantissaSnoc(t: string, c: char, scale: nat)
    requires IsDigit(c)
    ensures BeyondScale(t, scale) ==>
      && Mantissa(t + [c], scale) == Mantissa(t, scale)
      && Excess(t + [c], scale) == Excess(t, scale) + [c]
      && KeptFrac(t + [c], scale) == KeptFrac(t, scale)
    ensures !BeyondScale(t, scale) ==>
      && Mantissa(t + [c], scale) == Mantissa(t, scale) + [c]
      && Excess(t + [c], scale) == Excess(t, scale) == []
      && |KeptFrac(t + [c], scale)| == |KeptFrac(t, scale)| + if '.' in t then 1 else 0
  {
    SplitSnoc(t, c);
  }

  lemma DotSnoc(t: string, scale: nat)
    requires '.' !in t
    ensures Mantissa(t + ['.'], scale) == Mantissa(t, scale)
    ensures Excess(t + ['.'], scale) == Excess(t, scale) == []
    ensures KeptFrac(t + ['.'], scale) == KeptFrac(t, scale) == []
  {
    SplitSnoc(t, '.');
  }

  /** May the next character follow the text scanned so far? */
  predicate Continues(t: string, c: char, scale: nat) {
    if c == '.' then '.' !in t
    else IsDigit(c) && if BeyondScale(t, scale) then c == '0' else Num(Mantissa(t, scale)) <= (INT64_MAX - 9) / 10
  }

  lemma ScanDigit(t: string, c: char, scale: nat)
    requires IsDigit(c)
    ensures Scanned(t + [c], scale) <==> Scanned(t, scale) && Continues(t, c, scale)
  {
    WellFormedSnoc(t, c);
    MantissaSnoc(t, c, scale);
    AllZerosSnoc(Excess(t, scale), c);
    MantissaGrows(Mantissa(t, scale), c);
  }

  lemma MantissaGrows(m: string, c: char)
    ensures Num(m + [c]) <= MANTISSA_MAX <==> Num(m) <= (INT64_MAX - 9) / 10
    ensures Num(m) <= (INT64_MAX - 9) / 10 ==> Num(m) <= MANTISSA_MAX
  {
    NumSnoc(m, c);
  }

  /** One turn of the digit loop keeps exactly the texts it should. */
  lemma ScanStep(t: string, c: char, scale: nat)
    ensures Scanned(t + [c], scale) <==> Scanned(t, scale) && Continues(t, c, scale)
  {
    WellFormedSnoc(t, c);
    if IsDigit(c) {
      ScanDigit(t, c, scale);
    } else if c == '.' && '.' !in t {
      DotSnoc(t, scale);
    }
  }

  lemma {:induction false} ScannedPrefix(t: string, i: nat, scale: nat)
    requires i <= |t| && Scanned(t, scale)
    ensures Scanned(t[..i], scale)
    decreases |t|
  {
    if i == |t| {
      assert t[..i] == t;
    } else {
      ScannedShrinks(t, scale);
      ScannedPrefix(t[..|t| - 1], i, scale);
      assert t[..|t| - 1][..i] == t[..i];
    }
  }

  lemma ScannedShrinks(t: string, scale: nat)
    requires t != [] && Scanned(t, scale)
    ensures Scanned(t[..|t| - 1], scale)
  {
    assert t == t[..|t| - 1] + [t[|t| - 1]];
    ScanStep(t[..|t| - 1], t[|t| - 1], scale);
  }

  function Magnitude(s: string, v: int): int {
    if Negative(s) then -v else v
  }

  function ScaledMantissa(t: string, scale: nat): nat {
    Num(Mantissa(t, scale)) * Pow10(Padding(t, scale))
  }

  /** The guards on mantissa and padded value together are one bound on the value. */
  lemma GuardsAreFits(t: string, scale: nat)
    ensures Num(Mantissa(t, scale)) <= MANTISSA_MAX && ScaledMantissa(t, scale) <= INT64_MAX
       <==> Fits(t, scale, ScaledMantissa(t, scale))
  {
    var m, pad := Num(Mantissa(t, scale)), Padding(t, scale);
    assert pad == 0 <==> |Frac(t)| >= scale;
    if pad == 0 {
      assert m * 1 == m;
    } else {
      TenTimes(m, Pow10(pad - 1));
      GrowsBeyond(m, 1, Pow10(pad - 1));
    }
  }

  /** The text parses to v exactly when it is scanned to the end, has a digit, and the
      padded mantissa is v's magnitude within 64 bits. */
  lemma ParsesByMantissa(s: string, scale: int, v: int)
    ensures Parses(s, scale, v) <==>
      && Scanned(Body(s), Max0(scale)) && Whole(Body(s)) + Frac(Body(s)) != []
      && Magnitude(s, v) == ScaledMantissa(Body(s), Max0(scale)) <= INT64_MAX
  {
    var t, n := Body(s), Max0(scale);
    GuardsAreFits(t, n);
    if Magnitude(s, v) >= 0 && WellFormed(t) {
      MantissaIsExact(t, n, Magnitude(s, v));
    }
  }

  /** The loop's variables. */
  datatype Scan = Scan(value: nat, fracDigits: nat, seenDot: bool, anyDigit: bool)

  predicate Holds(st: Scan, t: string, scale: nat) {
    && st.value == Num(Mantissa(t, scale))
    && st.fracDigits == |KeptFrac(t, scale)|
    && (st.seenDot <==> '.' in t)
    && (st.anyDigit <==> Whole(t) + Frac(t) != [])
  }

  /** One more digit, of the mantissa or beyond the scale. */
  method TakeDigit(st: Scan, c: char, scale: nat, ghost t: string) returns (r: Option<Scan>)
    requires Holds(st, t, scale) && IsDigit(c)
    ensures r.Some? <==> Continues(t, c, scale)
    ensures r.Some? ==> Holds(r.value, t + [c], scale)
  {
    SplitSnoc(t, c);
    MantissaSnoc(t, c, scale);
    NumSnoc(Mantissa(t, scale), c);
    if st.seenDot && st.fracDigits >= scale {
      return if c == '0' then Some(st.(anyDigit := true)) else None;
    }
    if st.value > (INT64_MAX - 9) / 10 { return None; }
    var next := st.(value := st.value * 10 + (c as int - '0' as int), anyDigit := true);
    return Some(if st.seenDot then next.(fracDigits := st.fracDigits + 1) else next);
  }

  method ScanChar(st: Scan, c: char, scale: nat, ghost t: string) returns (r: Option<Scan>)
    requires Holds(st, t, scale)
    ensures r.Some? <==> Continues(t, c, scale)
    ensures r.Some? ==> Holds(r.value, t + [c], scale)
  {
    if c == '.' {
      if st.seenDot { return None; }
      SplitSnoc(t, c);
      DotSnoc(t, scale);
      return Some(st.(seenDot := true));
    }
    if c < '0' || c > '9' { return None; }
    r := TakeDigit(st, c, scale, t);
  }

  lemma ScanOne(t: string, i: nat, scale: nat)
    requires i < |t|
    ensures t[..i + 1] == t[..i] + [t[i]]
    ensures Scanned(t[..i + 1], scale) <==> Scanned(t[..i], scale) && Continues(t[..i], t[i], scale)
    ensures Scanned(t, scale) ==> Scanned(t[..i + 1], scale)
  {
    assert t[..i + 1] == t[..i] + [t[i]];
    ScanStep(t[..i], t[i], scale);
    if Scanned(t, scale) { ScannedPrefix(t, i + 1, scale); }
  }

  method ScanDigits(t: string, scale: nat) returns (r: Option<Scan>)
    ensures r.Some? <==> Scanned(t, scale)
    ensures r.Some? ==> Holds(r.value, t, scale)
  {
    var st := Scan(0, 0, false, false);
    for i := 0 to |t|
      invariant Scanned(t[..i], scale)
      invariant Holds(st, t[..i], scale)
    {
      ScanOne(t, i, scale);
      var next := ScanChar(st, t[i], scale, t[..i]);
      if next.None? { return None; }
      st := next.value;
    }
    assert t[..|t|] == t;
    return Some(st);
  }

  /** Multiply up to the scale; refuse exactly when the product leaves 64 bits. */
  method Pad(mantissa: nat, pad: nat) returns (ok: bool, value: nat)
    requires mantissa <= INT64_MAX
    ensures ok <==> mantissa * Pow10(pad) <= INT64_MAX
    ensures ok ==> value == mantissa * Pow10(pad)
  {
    value := mantissa;
    for k := 0 to pad
      invariant value == mantissa * Pow10(k) && value <= INT64_MAX
    {
      TenTimes(mantissa, Pow10(k));
      if value > INT64_MAX / 10 {
        Pow10Add(k + 1, pad - k - 1);
        GrowsBeyond(mantissa, Pow10(k + 1), Pow10(pad - k - 1));
        return false, 0;
      }
      value := value * 10;
    }
    ok := true;
  }

  lemma GrowsBeyond(m: nat, p: nat, q: nat)
    requires q >= 1
    ensures m * (p * q) >= m * p
  {
    Regroup(m, p, q);
    assert m * p * q - m * p == (m * p) * (q - 1);
  }

  /** The parser: it returns the exact scaled value within 64 bits, and refuses only a
      text that has none or whose value falls in the guard's blind spot. */
  method DecimalToScaled(s: string, scale: int) returns (ok: bool, out: int)
    ensures ok ==> Parses(s, scale, out) && -INT64_MAX <= out <= INT64_MAX
    ensures !ok ==> forall v :: !Parses(s, scale, v)
  {
    ghost var t, n := Body(s), Max0(scale);
    forall v ensures Parses(s, scale, v) <==>
        Scanned(t, n) && Whole(t) + Frac(t) != [] && Magnitude(s, v) == ScaledMantissa(t, n) <= INT64_MAX
    {
      ParsesByMantissa(s, scale, v);
    }
    out := 0;
    if s == [] { return false, 0; }
    var neg := s[0] == '-';
    var scan := ScanDigits(if neg then s[1..] else s, Max0(scale));
    if scan.None? || !scan.value.anyDigit { return false, 0; }
    var st, value := scan.value, 0;
    ok, value := Pad(st.value, if scale > st.fracDigits then scale - st.fracDigits else 0);
    if ok { out := if neg then -(value as int) else value; }
  }

  // ------------------------------------------------------------------ the printer

  const TWO64: int := 0x1_0000_0000_0000_0000

  /** Decimal digits without leading zeros. */
  function Digits(n: nat): (s: string)
    ensures s != [] && AllDigits(s) && Num(s) == n
  {
    var c := ('0' as int + n % 10) as char;
    if n < 10 then
      assert [c][..0] == [];
      [c]
    else
      NumSnoc(Digits(n / 10), c);
      Digits(n / 10) + [c]
  }

  lemma {:induction false} DigitsLength(n: nat, k: nat)
    requires n < Pow10(k) && k >= 1
    ensures |Digits(n)| <= k
  {
    if n >= 10 {
      DigitsLength(n / 10, k - 1);
    }
  }

  function Zeros(k: nat): string {
    seq(k, _ => '0')
  }

  /** s is v in decimal with scale fraction digits. */
  predicate Printed(s: string, scale: int, v: int) {
    && (Negative(s) <==> v < 0)
    && WellFormed(Body(s)) && Whole(Body(s)) != []
    && |Frac(Body(s))| == Max0(scale)
    && Represents(Body(s), Max0(scale), if v < 0 then -v else v)
  }

  lemma {:induction false} SplitAt(w: string, f: string)
    requires AllDigits(w)
    ensures Whole(w + ['.'] + f) == w && Frac(w + ['.'] + f) == f
    ensures Whole(w) == w && Frac(w) == []
  {
    var t := w + ['.'] + f;
    if w == [] {
      assert t == ['.'] + f && t[1..] == f;
    } else {
      assert t[1..] == w[1..] + ['.'] + f;
      assert IsDigit(w[0]) && w == [w[0]] + w[1..];
      SplitAt(w[1..], f);
    }
  }

  /** t is an unsigned decimal with scale fraction digits that denotes mag. */
  predicate Denotes(t: string, scale: int, mag: nat) {
    && t != [] && t[0] != '-' && WellFormed(t) && Whole(t) != []
    && |Frac(t)| == Max0(scale) && Represents(t, Max0(scale), mag)
  }

  lemma FixedPoint(w: string, f: string, scale: int, mag: nat)
    requires AllDigits(w) && w != [] && AllDigits(f) && |f| == Max0(scale)
    requires Num(w) * Pow10(|f|) + Num(f) == mag
    ensures Denotes(if scale <= 0 then w else w + ['.'] + f, scale, mag)
  {
    SplitAt(w, f);
    NumConcat(w, f);
    assert w[0] in w;
    assert w + [] == w;
  }

  /** The sign goes in front. */
  lemma SignedBody(t: string, scale: int, value: int)
    requires Denotes(t, scale, if value < 0 then -value else value)
    ensures Printed((if value < 0 then "-" else "") + t, scale, value)
  {
    assert (['-'] + t)[1..] == t && [] + t == t;
  }

  /** 10^scale as a 64-bit product, which wraps around from scale 20 on. */
  function DivisorOf(scale: nat): nat { Pow10(scale) % TWO64 }

  lemma WrapTen(x: nat)
    ensures (x % TWO64 * 10) % TWO64 == (10 * x) % TWO64
  {
    var q, r := x / TWO64, x % TWO64;
    var q', r' := (10 * r) / TWO64, (10 * r) % TWO64;
    ModUnique(10 * x, TWO64, 10 * q + q', r');
  }

  method Divisor(scale: nat) returns (divisor: nat)
    ensures divisor == DivisorOf(scale)
  {
    divisor := 1;
    for i := 0 to scale
      invariant divisor == DivisorOf(i)
    {
      WrapTen(Pow10(i));
      divisor := divisor * 10 % TWO64;
    }
  }

  function Pow5(n: nat): (p: nat)
    ensures p % 2 == 1
  {
    if n == 0 then 1 else 5 * Pow5(n - 1)
  }

  lemma {:induction false} PowSplits(n: nat)
    ensures Pow10(n) == Pow2(n) * Pow5(n)
  {
    if n > 0 {
      PowSplits(n - 1);
      FactorTen(Pow2(n - 1), Pow5(n - 1));
    }
  }

  lemma FactorTen(a: nat, b: nat)
    ensures (2 * a) * (5 * b) == 10 * (a * b)
  {
  }

  lemma {:induction false} Pow2Add(m: nat, n: nat)
    ensures Pow2(m + n) == Pow2(m) * Pow2(n)
  {
    if m > 0 { Pow2Add(m - 1, n); }
  }

  lemma TwoTo64()
    ensures Pow2(64) == TWO64
  {
    assert Pow2(4) == 16;
    SixteenFold(4);
  }

  function Square(v: nat): nat { v * v }

  lemma SixteenFold(k: nat)
    ensures Pow2(16 * k) == Square(Square(Square(Square(Pow2(k)))))
  {
    Pow2Add(k, k);
    Pow2Add(2 * k, 2 * k);
    Pow2Add(4 * k, 4 * k);
    Pow2Add(8 * k, 8 * k);
  }

  /** The divisor is usable exactly below scale 64. */
  lemma DivisorNonZero(scale: nat)
    ensures DivisorOf(scale) != 0 <==> scale < 64
  {
    PowSplits(scale);
    TwoTo64();
    if scale < 64 {
      var q := Pow10(scale) / TWO64;
      Pow2Add(scale, 64 - scale);
      if DivisorOf(scale) == 0 { OddIsNotEven(Pow2(scale), Pow5(scale), Pow2(63 - scale), q); }
    } else {
      Pow2Add(64, scale - 64);
      Regroup(Pow2(64), Pow2(scale - 64), Pow5(scale));
      ModUnique(Pow10(scale), TWO64, Pow2(scale - 64) * Pow5(scale), 0);
    }
  }

  lemma OddIsNotEven(p: nat, odd: nat, e: nat, q: nat)
    requires p > 0 && odd % 2 == 1
    ensures p * odd != (p * (2 * e)) * q
  {
    if p * odd == (p * (2 * e)) * q {
      Regroup(p, 2 * e, q);
      TwiceOf(e, q);
      Cancel(odd, 2 * (e * q), p);
      assert false;
    }
  }

  lemma TwiceOf(e: nat, q: nat)
    ensures (2 * e) * q == 2 * (e * q)
  {
  }

  lemma PowFits(k: nat)
    ensures k <= 19 ==> Pow10(k) < TWO64
    ensures k >= 20 ==> Pow10(k) > TWO64
  {
    assert Pow10(3) == 1000 && Pow10(4) == 10000;
    Pow10Add(4, 4);
    Pow10Add(8, 8);
    Pow10Add(16, 3);
    if k <= 19 { PowMonotone(k, 19); } else { PowMonotone(20, k); }
  }

  lemma {:induction false} PowMonotone(j: nat, k: nat)
    requires j <= k
    ensures Pow10(j) <= Pow10(k)
  {
    if j < k { PowMonotone(j, k - 1); }
  }

  /** The fraction, padded with zeros on the left. */
  method Fraction(frac: nat, scale: nat) returns (f: string)
    requires scale >= 1 && frac < Pow10(scale)
    ensures AllDigits(f) && |f| == scale && Num(f) == frac
  {
    f := Digits(frac);
    DigitsLength(frac, scale);
    if |f| < scale {
      var z := Zeros(scale - |f|);
      NumZero(z);
      NumConcat(z, f);
      f := z + f;
    }
  }

  lemma DivisorBelow(scale: nat)
    ensures DivisorOf(scale) <= Pow10(scale)
  {
    DivMod(Pow10(scale), TWO64);
  }

  lemma PrintedIs(mag: nat, scale: nat, whole: nat, frac: nat)
    requires scale >= 1 && DivisorOf(scale) > 0
    requires mag == DivisorOf(scale) * whole + frac && frac < DivisorOf(scale)
    ensures PrintedMagnitude(mag, scale) == whole * Pow10(scale) + frac
  {
    ModUnique(mag, DivisorOf(scale), whole, frac);
  }

  method Divided(n: nat, d: nat) returns (q: nat, r: nat)
    requires d > 0
    ensures n == d * q + r && r < d
  {
    DivMod(n, d);
    q, r := n / d, n % d;
  }

  method WholeAndFraction(mag: nat, scale: nat) returns (w: string, f: string)
    requires 1 <= scale < 64
    ensures AllDigits(w) && w != [] && AllDigits(f) && |f| == scale
    ensures Num(w) * Pow10(scale) + Num(f) == PrintedMagnitude(mag, scale)
  {
    DivisorNonZero(scale);
    DivisorBelow(scale);
    var divisor := Divisor(scale);
    var whole, frac := Divided(mag, divisor);
    w := Digits(whole);
    f := Fraction(frac, scale);
    PrintedIs(mag, scale, whole, frac);
  }

  /** The whole and fraction digits of a magnitude divided by d, read as digits at unit p. */
  function Regrouped(mag: nat, d: nat, p: nat): int
    requires d > 0
  {
    mag / d * p + mag % d
  }

  /** The number the printed text denotes. */
  function PrintedMagnitude(mag: nat, scale: int): int {
    if scale <= 0 || DivisorOf(scale) == 0 then mag
    else Regrouped(mag, DivisorOf(scale), Pow10(scale))
  }

  lemma RegroupedWhole(mag: nat, d: nat)
    requires d > 0
    ensures Regrouped(mag, d, d) == mag
  {
  }

  lemma RegroupedBelow(mag: nat, d: nat, p: nat)
    requires mag < d
    ensures Regrouped(mag, d, p) == mag
  {
    ModUnique(mag, d, 0, mag);
  }

  lemma RegroupedAbove(mag: nat, d: nat, p: nat)
    requires 0 < d <= mag
    ensures Regrouped(mag, d, p) >= p
  {
    var q := mag / d;
    AtLeastOnce(mag, d);
    if q > 1 { Farther(q, 1, p); }
  }

  lemma AtLeastOnce(n: nat, d: nat)
    requires 0 < d <= n
    ensures n / d >= 1
  {
    DivMod(n, d);
  }

  /** The printer is exact exactly while the divisor has not wrapped around, or the
      magnitude is below the wrapped divisor. */
  lemma PrintsExactly(mag: nat, scale: int)
    requires mag <= INT64_MAX + 1 && scale < 64
    ensures PrintedMagnitude(mag, scale) == mag <==> scale <= 19 || mag < DivisorOf(scale)
    ensures PrintedMagnitude(mag, scale) != mag ==> PrintedMagnitude(mag, scale) > TWO64
    ensures mag > 0 ==> PrintedMagnitude(mag, scale) > 0
  {
    if scale > 0 {
      DivisorNonZero(scale);
      PowFits(scale);
      var d, p := DivisorOf(scale), Pow10(scale);
      if scale <= 19 {
        ModUnique(p, TWO64, 0, p);
        RegroupedWhole(mag, d);
      } else if mag < d {
        RegroupedBelow(mag, d, p);
      } else {
        RegroupedAbove(mag, d, p);
      }
    }
  }

  function WithSign(mag: int, negative: bool): int {
    if negative then -mag else mag
  }

  /** Print with a fixed number of fraction digits; from scale 64 on the divisor is zero. */
  method ScaledToDecimal(value: int, scale: int) returns (s: string)
    requires -INT64_MAX - 1 <= value <= INT64_MAX && scale < 64
    ensures var mag := if value < 0 then -value else value;
      Printed(s, scale, WithSign(PrintedMagnitude(mag, scale), value < 0))
  {
    var neg := value < 0;
    var mag: nat := if neg then -(value + 1) + 1 else value;
    ghost var shown := PrintedMagnitude(mag, scale);
    PrintsExactly(mag, scale);
    var t;
    if scale <= 0 {
      t := Digits(mag);
      FixedPoint(t, [], scale, mag);
    } else {
      var w, f := WholeAndFraction(mag, scale);
      t := w + ['.'] + f;
      FixedPoint(w, f, scale, shown);
    }
    s := (if neg then "-" else "") + t;
    SignedBody(t, scale, WithSign(shown, neg));
  }

  /** Parsing undoes printing exactly up to the mantissa guard, eight values short of
      the 64-bit range on the positive side. */
  lemma PrintedParses(s: string, scale: int, v: int)
    requires Printed(s, scale, v)
    ensures Parses(s, scale, v) <==> -MANTISSA_MAX <= v <= MANTISSA_MAX
    ensures forall w :: Parses(s, scale, w) ==> w == v
  {
    var t := Body(s);
    assert Whole(t) + Frac(t) != [];
    forall w | Parses(s, scale, w) ensures w == v {
      Cancel(Magnitude(s, w), Magnitude(s, v), Pow10(|Frac(t)|));
    }
  }

  /** Print, then parse: the value comes back exactly when the mantissa guard lets it
      through and the printer's divisor did not wrap below it. */
  method RoundTrip(value: int, scale: int) returns (ok: bool, back: int)
    requires -INT64_MAX - 1 <= value <= INT64_MAX && scale < 64
    ensures var mag := if value < 0 then -value else value;
      ok <==> mag <= MANTISSA_MAX && (scale <= 19 || mag < DivisorOf(scale))
    ensures ok ==> back == value
  {
    var s := ScaledToDecimal(value, scale);
    ghost var mag := if value < 0 then -value else value;
    PrintsExactly(mag, scale);
    PrintedParses(s, scale, WithSign(PrintedMagnitude(mag, scale), value < 0));
    ok, back := DecimalToScaled(s, scale);
  }

  // ------------------------------------------------------------- client order ids

  function EncodeClientId(prefix: string, id: nat): string {
    prefix + ['-'] + Digits(id)
  }

  /** Strip the prefix and the dash; the rest must be digits of a 64-bit number. */
  function DecodeClientId(prefix: string, s: string): (r: Option<nat>)
    ensures r.Some? ==> r.value < TWO64
  {
    if |s| <= |prefix| + 1 || s[..|prefix|] != prefix || s[|prefix|] != '-' then None
    else
      var digits := s[|prefix| + 1..];
      if AllDigits(digits) && Num(digits) < TWO64 then Some(Num(digits)) else None
  }

  lemma ClientIdRoundTrip(prefix: string, id: nat)
    ensures DecodeClientId(prefix, EncodeClientId(prefix, id)) == if id < TWO64 then Some(id) else None
  {
    var s := EncodeClientId(prefix, id);
    assert s[..|prefix|] == prefix && s[|prefix| + 1..] == Digits(id);
  }

  lemma {:induction false} DigitsCanonical(s: string)
    requires s != [] && AllDigits(s) && (|s| == 1 || s[0] != '0')
    ensures Digits(Num(s)) == s
    ensures s[0] != '0' ==> Num(s) >= 1
  {
    var t, c := s[..|s| - 1], s[|s| - 1];
    assert s == t + [c] && c in s;
    NumSnoc(t, c);
    if |s| > 1 {
      assert forall d :: d in t ==> d in s;
      DigitsCanonical(t);
      DigitsSnoc(Num(t), c);
    } else {
      DigitsOne(c);
    }
  }

  lemma DigitsSnoc(n: nat, c: char)
    requires n >= 1 && IsDigit(c)
    ensures Digits(10 * n + DigitValue(c)) == Digits(n) + [c]
  {
    var m := 10 * n + DigitValue(c);
    SplitTen(n, DigitValue(c));
    assert ('0' as int + m % 10) as char == c;
  }

  lemma SplitTen(n: nat, d: nat)
    requires d < 10
    ensures (10 * n + d) / 10 == n && (10 * n + d) % 10 == d
  {
  }

  lemma DigitsOne(c: char)
    requires IsDigit(c)
    ensures Digits(DigitValue(c)) == [c]
  {
  }

  /** An id decodes only from its own encoding, up to leading zeros. */
  lemma DecodesOnlyOwn(prefix: string, s: string)
    requires DecodeClientId(prefix, s).Some?
    ensures s == EncodeClientId(prefix, DecodeClientId(prefix, s).value)
       <==> |s| == |prefix| + 2 || s[|prefix| + 1] != '0'
  {
    var d := s[|prefix| + 1..];
    assert s == prefix + ['-'] + d;
    if |d| == 1 || d[0] != '0' {
      DigitsCanonical(d);
    } else {
      NoLeadingZero(Num(d));
      assert EncodeClientId(prefix, Num(d))[|prefix| + 1..] == Digits(Num(d));
    }
  }

  lemma {:induction false} NoLeadingZero(n: nat)
    ensures |Digits(n)| == 1 || Digits(n)[0] != '0'
    ensures n >= 1 ==> Digits(n)[0] != '0'
  {
    if n >= 10 { NoLeadingZero(n / 10); }
  }
}
