/**
 * Prefixed, zero-padded record identifiers (src/lib/id.ts): "AD0001",
 * "PR0002", ... drawn from one persistent counter per prefix.
 */
module Ids {
  import opened Common

  /** The six identifier prefixes: admin, provider, customer, service, availability, booking. */
  datatype Prefix = AD | PR | CU | SV | AV | BK

  function PrefixText(p: Prefix): (s: string)
    ensures |s| == 2
  {
    match p
    case AD => "AD"
    case PR => "PR"
    case CU => "CU"
    case SV => "SV"
    case AV => "AV"
    case BK => "BK"
  }

  function PrefixOf(s: string): (r: Option<Prefix>)
    ensures r.Some? ==> PrefixText(r.value) == s
    ensures forall p :: PrefixText(p) == s ==> r == Some(p)
  {
    if s == "AD" then Some(AD)
    else if s == "PR" then Some(PR)
    else if s == "CU" then Some(CU)
    else if s == "SV" then Some(SV)
    else if s == "AV" then Some(AV)
    else if s == "BK" then Some(BK)
    else None
  }

  /** The persistent counters: the seed creates one row per prefix, so every prefix has a value. */
  type Counters = Prefix -> nat

  predicate IsDigit(c: char)
  {
    '0' <= c <= '9'
  }

  predicate AllDigits(s: string)
  {
    forall i :: 0 <= i < |s| ==> IsDigit(s[i])
  }

  function DigitChar(d: nat): (c: char)
    requires d < 10
    ensures IsDigit(c)
  {
    "0123456789"[d]
  }

  /** `String(n)` for a non-negative integer: its decimal digits without leading zeros. */
  function Decimal(n: nat): (s: string)
    ensures 1 <= |s|
    ensures AllDigits(s)
    ensures n > 0 ==> s[0] != '0'
  {
    if n < 10 then [DigitChar(n)] else Decimal(n / 10) + [DigitChar(n % 10)]
  }

  /** The value of a string of decimal digits; leading zeros add nothing. */
  function DigitsValue(s: string): nat
    requires AllDigits(s)
  {
    if |s| == 0 then 0
    else DigitsValue(s[..|s| - 1]) * 10 + ((s[|s| - 1] as int) - ('0' as int))
  }

  function Zeros(k: nat): (s: string)
    ensures |s| == k && forall i :: 0 <= i < k ==> s[i] == '0'
  {
    if k == 0 then [] else Zeros(k - 1) + ['0']
  }

  /** `s.padStart(width, "0")`: left-pads with '0' up to `width` characters, never truncates. */
  function PadStart(s: string, width: nat): (r: string)
    ensures |r| == if |s| < width then width else |s|
    ensures r[|r| - |s|..] == s
    ensures forall i :: 0 <= i < |r| - |s| ==> r[i] == '0'
  {
    if |s| < width then Zeros(width - |s|) + s else s
  }

  /** The identifier for the `counter`-th record of a prefix: prefix + counter padded to 4 digits. */
  function FormatId(p: Prefix, counter: nat): string
  {
    PrefixText(p) + PadStart(Decimal(counter), 4)
  }

  /**
   * An identifier starts with its prefix and continues with digits only;
   * counters up to 9999 give six characters, larger ones are never truncated.
   */
  lemma FormatIdShape(p: Prefix, counter: nat)
    ensures |FormatId(p, counter)| >= 6
    ensures FormatId(p, counter)[..2] == PrefixText(p)
    ensures AllDigits(FormatId(p, counter)[2..])
    ensures 1 <= counter <= 9999 ==> |FormatId(p, counter)| == 6
    ensures counter > 9999 ==> |FormatId(p, counter)| == 2 + |Decimal(counter)| > 6
  {
    DecimalLength(counter, 4);
    var id := FormatId(p, counter);
    assert id[2..] == PadStart(Decimal(counter), 4);
  }

  function Pow10(k: nat): nat
  {
    if k == 0 then 1 else 10 * Pow10(k - 1)
  }

  lemma {:induction false} DecimalLength(n: nat, k: nat)
    requires k >= 1
    ensures |Decimal(n)| <= k <==> n < Pow10(k)
  {
    if n >= 10 && k > 1 {
      DecimalLength(n / 10, k - 1);
      assert Pow10(k) == 10 * Pow10(k - 1);
    } else if n >= 10 {
      assert Pow10(1) == 10;
    } else {
      assert Decimal(n) == [DigitChar(n)];
      PowPositive(k - 1);
      assert Pow10(k) == 10 * Pow10(k - 1);
    }
  }

  lemma {:induction false} PowPositive(k: nat)
    ensures Pow10(k) >= 1
  {
    if k > 0 { PowPositive(k - 1); }
  }

  lemma {:induction false} DecimalRoundTrip(n: nat)
    ensures DigitsValue(Decimal(n)) == n
  {
    if n >= 10 {
      var s := Decimal(n);
      assert s[..|s| - 1] == Decimal(n / 10);
      DecimalRoundTrip(n / 10);
    }
  }

  lemma {:induction false} LeadingZerosIgnored(k: nat, s: string)
    requires AllDigits(s)
    ensures AllDigits(Zeros(k) + s)
    ensures DigitsValue(Zeros(k) + s) == DigitsValue(s)
    decreases |s|
  {
    var t := Zeros(k) + s;
    if |s| == 0 {
      assert t == Zeros(k);
      ZerosValue(k);
    } else {
      assert t[..|t| - 1] == Zeros(k) + s[..|s| - 1];
      LeadingZerosIgnored(k, s[..|s| - 1]);
    }
  }

  lemma {:induction false} ZerosValue(k: nat)
    ensures AllDigits(Zeros(k)) && DigitsValue(Zeros(k)) == 0
  {
    if k > 0 {
      assert Zeros(k)[..k - 1] == Zeros(k - 1);
      ZerosValue(k - 1);
    }
  }

  /** Reads an identifier back into its prefix and counter, if it has that shape. */
  function ParseId(id: string): Option<(Prefix, nat)>
  {
    if |id| < 2 || !AllDigits(id[2..]) then None
    else
      match PrefixOf(id[..2])
      case None => None
      case Some(p) => Some((p, DigitsValue(id[2..])))
  }

  /** Formatting loses nothing: the prefix and the counter can be read back from the identifier. */
  lemma FormatIdRoundTrip(p: Prefix, counter: nat)
    ensures ParseId(FormatId(p, counter)) == Some((p, counter))
  {
    var id := FormatId(p, counter);
    var d := Decimal(counter);
    var padded := PadStart(d, 4);
    FormatIdShape(p, counter);
    assert id == PrefixText(p) + padded;
    assert id[..2] == PrefixText(p) && id[2..] == padded;
    assert PrefixOf(id[..2]) == Some(p);
    DecimalRoundTrip(counter);
    if |d| < 4 {
      LeadingZerosIgnored(4 - |d|, d);
      assert padded == Zeros(4 - |d|) + d;
    }
    assert DigitsValue(padded) == counter;
  }

  /** Distinct (prefix, counter) pairs give distinct identifiers. */
  lemma FormatIdInjective(p: Prefix, a: nat, q: Prefix, b: nat)
    ensures FormatId(p, a) == FormatId(q, b) ==> p == q && a == b
  {
    FormatIdRoundTrip(p, a);
    FormatIdRoundTrip(q, b);
  }

  datatype Draw = Draw(id: string, counters: Counters)

  /**
   * `generateId(prefix)`: increments the prefix's counter and formats the new value.
   * The identifier encodes the incremented counter, and no other counter moves.
   */
  function GenerateId(counters: Counters, p: Prefix): (r: Draw)
    ensures r.counters(p) == counters(p) + 1
    ensures forall q :: q != p ==> r.counters(q) == counters(q)
    ensures r.id == FormatId(p, r.counters(p))
  {
    var n := counters(p) + 1;
    Draw(FormatId(p, n), q => if q == p then n else counters(q))
  }

  /** The identifiers produced by drawing once for each prefix in `ps`, in order. */
  function Draws(counters: Counters, ps: seq<Prefix>): (ids: seq<string>)
    ensures |ids| == |ps|
  {
    if |ps| == 0 then []
    else
      var d := GenerateId(counters, ps[0]);
      [d.id] + Draws(d.counters, ps[1..])
  }

  /** The counter value the `i`-th draw of a run formats. */
  function DrawCounter(counters: Counters, ps: seq<Prefix>, i: nat): nat
    requires i < |ps|
  {
    if i == 0 then counters(ps[0]) + 1
    else DrawCounter(GenerateId(counters, ps[0]).counters, ps[1..], i - 1)
  }

  /** The `i`-th identifier of a run formats a counter above that prefix's starting value. */
  lemma {:induction false} DrawAt(counters: Counters, ps: seq<Prefix>, i: nat)
    requires i < |ps|
    ensures Draws(counters, ps)[i] == FormatId(ps[i], DrawCounter(counters, ps, i))
    ensures DrawCounter(counters, ps, i) > counters(ps[i])
  {
    if i > 0 {
      var d := GenerateId(counters, ps[0]);
      DrawAt(d.counters, ps[1..], i - 1);
      assert ps[1..][i - 1] == ps[i];
      assert d.counters(ps[i]) >= counters(ps[i]);
    }
  }

  /** However draws of different prefixes interleave, no identifier is ever handed out twice. */
  lemma {:induction false} DrawsAreDistinct(counters: Counters, ps: seq<Prefix>)
    ensures forall i, j :: 0 <= i < j < |ps| ==> Draws(counters, ps)[i] != Draws(counters, ps)[j]
  {
    if |ps| > 0 {
      var d := GenerateId(counters, ps[0]);
      var ids := Draws(counters, ps);
      var rest := Draws(d.counters, ps[1..]);
      assert ids == [d.id] + rest;
      DrawsAreDistinct(d.counters, ps[1..]);
      forall i, j | 0 <= i < j < |ps| ensures ids[i] != ids[j] {
        assert ids[j] == rest[j - 1];
        if i == 0 {
          DrawAt(d.counters, ps[1..], j - 1);
          assert ps[1..][j - 1] == ps[j];
          FormatIdInjective(ps[0], d.counters(ps[0]), ps[j], DrawCounter(d.counters, ps[1..], j - 1));
        } else {
          assert ids[i] == rest[i - 1];
        }
      }
    }
  }

  /** Two successive calls with the same prefix return different identifiers. */
  lemma SuccessiveIdsDiffer(counters: Counters, p: Prefix)
    ensures GenerateId(counters, p).id != GenerateId(GenerateId(counters, p).counters, p).id
  {
    var first := GenerateId(counters, p);
    var second := GenerateId(first.counters, p);
    FormatIdInjective(p, first.counters(p), p, second.counters(p));
  }
}
