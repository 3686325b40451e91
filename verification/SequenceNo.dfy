/** Daily document numbers: a prefix and a counter padded to four digits, issued
    as one more than the last number in string order. */
module SequenceNo {
  import opened OrderModel

  predicate IsDigit(c: char) {
    '0' <= c <= '9'
  }

  function DigitChar(d: int): char
    requires 0 <= d <= 9
  {
    '0' + d as char
  }

  function DigitValue(c: char): int {
    c as int - '0' as int
  }

  function Decimal(n: nat): string {
    if n < 10 then [DigitChar(n)] else Decimal(n / 10) + [DigitChar(n % 10)]
  }

  /** Zero-padded to four digits; longer counters keep all their digits. */
  function Pad4(n: nat): string {
    if n < 10000 then [DigitChar(n / 1000), DigitChar(n / 100 % 10), DigitChar(n / 10 % 10), DigitChar(n % 10)]
    else Decimal(n)
  }

  /** Scanning an integer: the digits up to the first other character. */
  function Scan(s: string): nat {
    if s == [] then 0
    else
      var n := |s| - 1;
      if forall k :: 0 <= k < |s| ==> IsDigit(s[k]) then 10 * Scan(s[..n]) + DigitValue(s[n]) else Scan(s[..n])
  }

  /** String order. */
  predicate Lex(a: string, b: string) {
    a == [] || (b != [] && (a[0] < b[0] || (a[0] == b[0] && Lex(a[1..], b[1..]))))
  }

  /** The last number in string order, as the descending query returns it. */
  ghost predicate IsLast(nos: set<string>, last: string) {
    last in nos && forall s :: s in nos ==> Lex(s, last)
  }

  /** One more than the counter of the last number. */
  function SeqAfter(prefix: string, last: Option<string>): nat {
    if last.None? || |last.value| <= |prefix| then 1 else Scan(last.value[|prefix|..]) + 1
  }

  function Number(prefix: string, n: nat): string {
    prefix + Pad4(n)
  }

  function Numbers(prefix: string, issued: set<nat>): set<string> {
    set n | n in issued :: Number(prefix, n)
  }

  // ---- string order ----

  lemma {:induction false} LexReflexive(a: string)
    ensures Lex(a, a)
  {
    if a != [] { LexReflexive(a[1..]); }
  }

  lemma {:induction false} LexAntisymmetric(a: string, b: string)
    requires Lex(a, b) && Lex(b, a)
    ensures a == b
  {
    if a != [] && b != [] {
      LexAntisymmetric(a[1..], b[1..]);
      assert a == [a[0]] + a[1..] && b == [b[0]] + b[1..];
    }
  }

  lemma {:induction false} LexTotal(a: string, b: string)
    ensures Lex(a, b) || Lex(b, a)
  {
    if a != [] && b != [] && a[0] == b[0] { LexTotal(a[1..], b[1..]); }
  }

  lemma {:induction false} LexTransitive(a: string, b: string, c: string)
    requires Lex(a, b) && Lex(b, c)
    ensures Lex(a, c)
  {
    if a != [] && a[0] == b[0] == c[0] { LexTransitive(a[1..], b[1..], c[1..]); }
  }

  lemma {:induction false} LexPrefix(p: string, a: string, b: string)
    ensures Lex(p + a, p + b) <==> Lex(a, b)
  {
    if p == [] {
      assert p + a == a && p + b == b;
    } else {
      assert (p + a)[1..] == p[1..] + a && (p + b)[1..] == p[1..] + b;
      LexPrefix(p[1..], a, b);
    }
  }

  // ---- padded counters ----

  /** Comparing four digits and a tail: the number decides, then the tail. */
  lemma {:induction false} LexFour(a0: int, a1: int, a2: int, a3: int, s: string, b0: int, b1: int, b2: int, b3: int,
                                   t: string)
    requires 0 <= a0 <= 9 && 0 <= a1 <= 9 && 0 <= a2 <= 9 && 0 <= a3 <= 9
    requires 0 <= b0 <= 9 && 0 <= b1 <= 9 && 0 <= b2 <= 9 && 0 <= b3 <= 9
    ensures var x, y := 1000 * a0 + 100 * a1 + 10 * a2 + a3, 1000 * b0 + 100 * b1 + 10 * b2 + b3;
      Lex([DigitChar(a0), DigitChar(a1), DigitChar(a2), DigitChar(a3)] + s,
          [DigitChar(b0), DigitChar(b1), DigitChar(b2), DigitChar(b3)] + t)
      <==> x < y || (x == y && Lex(s, t))
  {
    var u, v := [DigitChar(a2), DigitChar(a3)] + s, [DigitChar(b2), DigitChar(b3)] + t;
    LexTwo(a0, a1, u, b0, b1, v);
    LexTwo(a2, a3, s, b2, b3, t);
    assert [DigitChar(a0), DigitChar(a1), DigitChar(a2), DigitChar(a3)] + s == [DigitChar(a0), DigitChar(a1)] + u;
    assert [DigitChar(b0), DigitChar(b1), DigitChar(b2), DigitChar(b3)] + t == [DigitChar(b0), DigitChar(b1)] + v;
  }

  lemma {:induction false} LexTwo(a0: int, a1: int, s: string, b0: int, b1: int, t: string)
    requires 0 <= a0 <= 9 && 0 <= a1 <= 9 && 0 <= b0 <= 9 && 0 <= b1 <= 9
    ensures Lex([DigitChar(a0), DigitChar(a1)] + s, [DigitChar(b0), DigitChar(b1)] + t)
       <==> 10 * a0 + a1 < 10 * b0 + b1 || (10 * a0 + a1 == 10 * b0 + b1 && Lex(s, t))
  {
    LexOne(DigitChar(a1), s, DigitChar(b1), t);
    LexOne(DigitChar(a0), [DigitChar(a1)] + s, DigitChar(b0), [DigitChar(b1)] + t);
    assert [DigitChar(a0), DigitChar(a1)] + s == [DigitChar(a0)] + ([DigitChar(a1)] + s);
    assert [DigitChar(b0), DigitChar(b1)] + t == [DigitChar(b0)] + ([DigitChar(b1)] + t);
  }

  lemma {:induction false} LexOne(a: char, s: string, b: char, t: string)
    ensures Lex([a] + s, [b] + t) <==> a < b || (a == b && Lex(s, t))
  {
    assert ([a] + s)[1..] == s && ([b] + t)[1..] == t;
  }

  /** Up to 9999 string order is number order. */
  lemma PadOrder(m: nat, n: nat)
    requires m <= 9999 && n <= 9999
    ensures Lex(Pad4(m), Pad4(n)) <==> m <= n
  {
    FourDigits(m);
    FourDigits(n);
    LexFour(m / 1000, m / 100 % 10, m / 10 % 10, m % 10, [], n / 1000, n / 100 % 10, n / 10 % 10, n % 10, []);
    assert Pad4(m) == Pad4(m) + [] && Pad4(n) == Pad4(n) + [];
  }

  lemma FourDigits(n: nat)
    requires n <= 9999
    ensures n == 1000 * (n / 1000) + 100 * (n / 100 % 10) + 10 * (n / 10 % 10) + n % 10
    ensures 0 <= n / 1000 <= 9
  {
    assert n / 10 / 10 == n / 100 && n / 100 / 10 == n / 1000;
  }

  lemma {:induction false} DecimalFour(q: nat)
    requires 1000 <= q <= 9999
    ensures Decimal(q) == [DigitChar(q / 1000), DigitChar(q / 100 % 10), DigitChar(q / 10 % 10), DigitChar(q % 10)]
  {
    assert q / 10 / 10 == q / 100 && q / 100 / 10 == q / 1000;
    assert Decimal(q / 1000) == [DigitChar(q / 1000)];
    assert Decimal(q / 100) == Decimal(q / 1000) + [DigitChar(q / 100 % 10)];
    assert Decimal(q / 10) == Decimal(q / 100) + [DigitChar(q / 10 % 10)];
  }

  /** A five-digit counter below 99990 sorts before 9999. */
  lemma FiveDigitsBefore9999(n: nat)
    requires 10000 <= n < 99990
    ensures Lex(Pad4(n), Pad4(9999)) && !Lex(Pad4(9999), Pad4(n))
  {
    var q := n / 10;
    DecimalFour(q);
    FourDigits(q);
    assert Pad4(9999) == Pad4(9999) + [];
    LexFour(q / 1000, q / 100 % 10, q / 10 % 10, q % 10, [DigitChar(n % 10)], 9, 9, 9, 9, []);
    LexFour(9, 9, 9, 9, [], q / 1000, q / 100 % 10, q / 10 % 10, q % 10, [DigitChar(n % 10)]);
  }

  lemma {:induction false} ScanDecimal(n: nat)
    ensures Scan(Decimal(n)) == n && forall k :: 0 <= k < |Decimal(n)| ==> IsDigit(Decimal(n)[k])
  {
    var s := Decimal(n);
    if n < 10 {
      assert s[..0] == [];
    } else {
      ScanDecimal(n / 10);
      assert s[..|s| - 1] == Decimal(n / 10);
    }
  }

  lemma {:induction false} ScanMore(s: string, d: nat)
    requires d <= 9 && forall k :: 0 <= k < |s| ==> IsDigit(s[k])
    ensures Scan(s + [DigitChar(d)]) == 10 * Scan(s) + d
    ensures forall k :: 0 <= k < |s + [DigitChar(d)]| ==> IsDigit((s + [DigitChar(d)])[k])
  {
    assert (s + [DigitChar(d)])[..|s|] == s;
  }

  lemma ScanFour(a: nat, b: nat, c: nat, d: nat)
    requires a <= 9 && b <= 9 && c <= 9 && d <= 9
    ensures Scan([DigitChar(a), DigitChar(b), DigitChar(c), DigitChar(d)]) == 1000 * a + 100 * b + 10 * c + d
  {
    var r := [DigitChar(a)];
    var s := r + [DigitChar(b)];
    var t := s + [DigitChar(c)];
    assert [] + r == r;
    ScanMore([], a);
    ScanMore(r, b);
    ScanMore(s, c);
    ScanMore(t, d);
    assert [DigitChar(a), DigitChar(b), DigitChar(c), DigitChar(d)] == t + [DigitChar(d)];
  }

  lemma ScanPad4(n: nat)
    ensures Scan(Pad4(n)) == n
  {
    if n < 10000 {
      FourDigits(n);
      ScanFour(n / 1000, n / 100 % 10, n / 10 % 10, n % 10);
    } else {
      ScanDecimal(n);
    }
  }

  lemma NumbersDiffer(prefix: string, m: nat, n: nat)
    requires Number(prefix, m) == Number(prefix, n)
    ensures m == n
  {
    assert Number(prefix, m)[|prefix|..] == Pad4(m) && Number(prefix, n)[|prefix|..] == Pad4(n);
    ScanPad4(m);
    ScanPad4(n);
  }

  lemma IsIssued(prefix: string, issued: set<nat>, n: nat)
    ensures Number(prefix, n) in Numbers(prefix, issued) <==> n in issued
  {
    if Number(prefix, n) in Numbers(prefix, issued) {
      var m :| m in issued && Number(prefix, m) == Number(prefix, n);
      NumbersDiffer(prefix, m, n);
    }
  }

  /** The counter after the last number. */
  lemma SeqAfterNumber(prefix: string, n: nat)
    ensures SeqAfter(prefix, Some(Number(prefix, n))) == n + 1
  {
    ScanPad4(n);
    assert Number(prefix, n)[|prefix|..] == Pad4(n);
    if n >= 10000 { assert |Pad4(n)| > 0; }
  }

  // ---- the first attempt is fresh, until the day is full ----

  /** The number a day's table issues next, if it can. */
  ghost predicate Issues(prefix: string, issued: set<nat>, n: nat) {
    && n !in issued
    && (if issued == {} then n == 1
        else exists last :: IsLast(Numbers(prefix, issued), last) && SeqAfter(prefix, Some(last)) == n)
  }

  lemma LastNumber(prefix: string, issued: set<nat>, m: nat)
    requires m in issued && forall n :: n in issued ==> Lex(Pad4(n), Pad4(m))
    ensures IsLast(Numbers(prefix, issued), Number(prefix, m))
    ensures forall last :: IsLast(Numbers(prefix, issued), last) ==> last == Number(prefix, m)
  {
    assert Number(prefix, m) in Numbers(prefix, issued);
    forall s | s in Numbers(prefix, issued) ensures Lex(s, Number(prefix, m)) {
      var n :| n in issued && s == Number(prefix, n);
      LexPrefix(prefix, Pad4(n), Pad4(m));
    }
    forall last | IsLast(Numbers(prefix, issued), last) ensures last == Number(prefix, m) {
      LexAntisymmetric(last, Number(prefix, m));
    }
  }

  /** With every counter at most 9999 the last number is the largest, and one more is fresh. */
  lemma FirstAttemptFresh(prefix: string, issued: set<nat>, m: nat)
    requires m in issued && forall n :: n in issued ==> n <= m
    requires m <= 9999
    ensures Issues(prefix, issued, m + 1)
    ensures forall n :: Issues(prefix, issued, n) ==> n == m + 1
  {
    forall n | n in issued ensures Lex(Pad4(n), Pad4(m)) { PadOrder(n, m); }
    LastNumber(prefix, issued, m);
    SeqAfterNumber(prefix, m);
  }

  /** Once 9999 is out, later counters sort before it: the next try is always 10000, so numbering
      stops for the day exactly when 10000 is out too. */
  lemma StuckAfter9999(prefix: string, issued: set<nat>)
    requires 9999 in issued && forall n :: n in issued ==> n < 99990
    ensures (exists n :: Issues(prefix, issued, n)) <==> 10000 !in issued
    ensures forall n :: Issues(prefix, issued, n) ==> n == 10000
  {
    forall n | n in issued ensures Lex(Pad4(n), Pad4(9999)) {
      if n <= 9999 { PadOrder(n, 9999); } else { FiveDigitsBefore9999(n); }
    }
    LastNumber(prefix, issued, 9999);
    SeqAfterNumber(prefix, 9999);
    if 10000 !in issued { assert Issues(prefix, issued, 10000); }
  }

  /** The counters of a day on which k numbers were issued and none deleted. */
  function Day(k: nat): (s: set<nat>)
    ensures forall n :: n in s <==> 1 <= n <= k
  {
    if k == 0 then {} else Day(k - 1) + {k}
  }

  /** Issuing one number after another gives 1, 2, 3 and so on, up to exactly ten thousand a day. */
  lemma {:induction false} DailyBound(prefix: string, k: nat)
    requires k <= 10000
    ensures k < 10000 ==> Issues(prefix, Day(k), k + 1) && forall n :: Issues(prefix, Day(k), n) ==> n == k + 1
    ensures k == 10000 ==> forall n :: !Issues(prefix, Day(k), n)
  {
    if k == 0 {
      assert Day(0) == {};
    } else if k < 10000 {
      FirstAttemptFresh(prefix, Day(k), k);
    } else {
      StuckAfter9999(prefix, Day(k));
    }
  }

  // ---- the attempts ----

  /** The descending query for the last number. */
  method QueryLast(nos: set<string>) returns (last: Option<string>)
    ensures nos == {} <==> last.None?
    ensures last.Some? ==> IsLast(nos, last.value)
  {
    last := None;
    var rest := nos;
    while rest != {}
      invariant rest <= nos
      invariant last.None? <==> rest == nos
      invariant last.Some? ==> IsLast(nos - rest, last.value)
      decreases |rest|
    {
      var s :| s in rest;
      if last.None? {
        LexReflexive(s);
        assert nos - (rest - {s}) == {s};
        last := Some(s);
      } else {
        LexTotal(s, last.value);
        if !Lex(s, last.value) {
          forall t | t in nos - rest ensures Lex(t, s) { LexTransitive(t, last.value, s); }
          LexReflexive(s);
          last := Some(s);
        }
      }
      rest := rest - {s};
    }
    assert nos - rest == nos;
  }

  /** NextOrderNo and NextShipmentNo: twenty attempts over an unchanged table. */
  method NextNumber(prefix: string, nos: set<string>, ghost issued: set<nat>) returns (no: Option<string>)
    requires nos == Numbers(prefix, issued)
    ensures no.Some? ==> no.value !in nos && exists n :: Issues(prefix, issued, n) && no.value == Number(prefix, n)
    ensures no.None? ==> forall n :: !Issues(prefix, issued, n)
  {
    for attempt := 0 to 20
      invariant attempt > 0 ==> forall n :: !Issues(prefix, issued, n)
    {
      var last := QueryLast(nos);
      var seqNo := SeqAfter(prefix, last);
      var candidate := Number(prefix, seqNo);
      IsIssued(prefix, issued, seqNo);
      assert issued == {} <==> nos == {} by {
        if issued != {} { var n :| n in issued; assert Number(prefix, n) in nos; }
      }
      if candidate !in nos {
        assert Issues(prefix, issued, seqNo);
        return Some(candidate);
      }
      forall n ensures !Issues(prefix, issued, n) {
        if Issues(prefix, issued, n) {
          var other :| IsLast(nos, other) && SeqAfter(prefix, Some(other)) == n;
          LexAntisymmetric(other, last.value);
        }
      }
    }
    return None;
  }
}
