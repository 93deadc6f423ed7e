/** The Redis key families and the proof that they cannot collide. */
module Keys {
  import opened Clock

  /** Server-issued install identities never hold a colon (see Exchange). */
  type InstallId = s: string | ':' !in s witness "ins_"

  const DIGITS := "0123456789"

  predicate IsDigits(s: string) {
    forall i :: 0 <= i < |s| ==> '0' <= s[i] <= '9'
  }

  /** The %d rendering of a non-negative integer. */
  function Decimal(n: nat): (s: string)
    ensures IsDigits(s) && |s| >= 1
    ensures n < 10 ==> |s| == 1
    ensures n < 100 ==> |s| <= 2
  {
    if n < 10 then [DIGITS[n]] else Decimal(n / 10) + [DIGITS[n % 10]]
  }

  /** The number a digit string denotes. */
  function Value(s: string): int {
    if s == "" then 0 else Value(s[..|s| - 1]) * 10 + (s[|s| - 1] as int - '0' as int)
  }

  lemma {:induction false} DecimalRoundTrip(n: nat)
    ensures Value(Decimal(n)) == n
  {
    if n >= 10 {
      DecimalRoundTrip(n / 10);
      var s := Decimal(n);
      assert s[..|s| - 1] == Decimal(n / 10);
    }
  }

  /** Zero-padded on the left to at least `width` digits. */
  function Padded(n: nat, width: nat): (s: string)
    ensures IsDigits(s)
    ensures width == 2 && n < 100 ==> |s| == 2
  {
    var d := Decimal(n);
    if |d| < width then seq(width - |d|, _ => '0') + d else d
  }

  lemma {:induction false} LeadingZeros(k: nat, s: string)
    ensures Value(seq(k, _ => '0') + s) == Value(s)
  {
    var z := seq(k, _ => '0');
    if s != "" {
      LeadingZeros(k, s[..|s| - 1]);
      assert (z + s)[..k + |s| - 1] == z + s[..|s| - 1];
    } else if k > 0 {
      LeadingZeros(k - 1, "");
      assert (z + s)[..k - 1] == seq(k - 1, _ => '0') + "";
    }
  }

  lemma PaddedRoundTrip(n: nat, width: nat)
    ensures Value(Padded(n, width)) == n
  {
    DecimalRoundTrip(n);
    var d := Decimal(n);
    if |d| < width {
      LeadingZeros(width - |d|, d);
    }
  }

  function LastIndex(s: string, c: char): int {
    if s == "" then -1 else if s[|s| - 1] == c then |s| - 1 else LastIndex(s[..|s| - 1], c)
  }

  lemma {:induction false} LastIndexOfCut(a: string, c: char, b: string)
    requires c !in b
    ensures LastIndex(a + [c] + b, c) == |a|
  {
    if b != "" {
      LastIndexOfCut(a, c, b[..|b| - 1]);
      var s := a + [c] + b;
      assert s[..|s| - 1] == a + [c] + b[..|b| - 1];
    }
  }

  /** Text cut at the last occurrence of a separator can be put back in one way only. */
  lemma SplitLast(a1: string, b1: string, a2: string, b2: string, c: char)
    requires c !in b1 && c !in b2
    requires a1 + [c] + b1 == a2 + [c] + b2
    ensures a1 == a2 && b1 == b2
  {
    LastIndexOfCut(a1, c, b1);
    LastIndexOfCut(a2, c, b2);
    var s := a1 + [c] + b1;
    assert a1 == s[..|a1|] && a2 == s[..|a2|];
    assert b1 == s[|a1| + 1..] && b2 == s[|a2| + 1..];
  }

  /** The layout "2006-01-02". */
  function DateText(d: Date): (s: string)
    requires ValidDate(d)
    ensures ':' !in s
  {
    Padded(d.year, 4) + "-" + Padded(d.month, 2) + "-" + Padded(d.day, 2)
  }

  lemma DateTextInjective(a: Date, b: Date)
    requires ValidDate(a) && ValidDate(b) && DateText(a) == DateText(b)
    ensures a == b
  {
    var ya, yb := Padded(a.year, 4), Padded(b.year, 4);
    var ma, mb := Padded(a.month, 2), Padded(b.month, 2);
    var da, db := Padded(a.day, 2), Padded(b.day, 2);
    SplitLast(ya + "-" + ma, da, yb + "-" + mb, db, '-');
    SplitLast(ya, ma, yb, mb, '-');
    PaddedRoundTrip(a.year, 4);
    PaddedRoundTrip(b.year, 4);
    PaddedRoundTrip(a.month, 2);
    PaddedRoundTrip(b.month, 2);
    PaddedRoundTrip(a.day, 2);
    PaddedRoundTrip(b.day, 2);
  }

  /** What a key counts or holds, read off its first characters. */
  datatype Family = Rate | Daily | TokenLimiter | ChallengeLimiter | Nonce | Other

  function FamilyOf(k: string): Family {
    if |k| < 4 then Other
    else match (k[0], k[3])
      case ('r', '{') => Rate
      case ('r', 't') => TokenLimiter
      case ('r', 'c') => ChallengeLimiter
      case ('q', _) => Daily
      case ('a', _) => Nonce
      case _ => Other
  }

  /** The per-install, per-second bucket. */
  function RateKey(tenant: string, install: InstallId, second: nat): (k: string)
    ensures FamilyOf(k) == Rate
  {
    "rl:{" + tenant + "}:" + (install + ":" + Decimal(second))
  }

  /** The per-tenant, per-UTC-day bucket. */
  function DayKey(tenant: string, day: nat): (k: string)
    ensures FamilyOf(k) == Daily
  {
    "q:{" + tenant + "}:" + DateText(DateOf(day))
  }

  /** The pre-install limiter of the token exchange. */
  function TokenKey(client: string): (k: string)
    ensures FamilyOf(k) == TokenLimiter
  {
    "rl:token:" + client
  }

  function ChallengeKey(client: string): (k: string)
    ensures FamilyOf(k) == ChallengeLimiter
  {
    "rl:challenge:" + client
  }

  /** The outstanding attestation nonce of a client and platform. */
  function AttestKey(client: string, platform: string): (k: string)
    ensures FamilyOf(k) == Nonce
  {
    "att:{" + client + "}:" + platform
  }

  /** The tagged part of a key is recovered from its last colon, whatever the tag holds. */
  lemma TagRecovered(prefix: string, t1: string, x1: string, t2: string, x2: string)
    requires ':' !in x1 && ':' !in x2
    requires prefix + t1 + "}:" + x1 == prefix + t2 + "}:" + x2
    ensures t1 == t2 && x1 == x2
  {
    var h1, h2 := prefix + t1 + "}", prefix + t2 + "}";
    assert prefix + t1 + "}:" + x1 == h1 + ":" + x1 && prefix + t2 + "}:" + x2 == h2 + ":" + x2;
    SplitLast(h1, x1, h2, x2, ':');
    assert t1 == h1[|prefix|..|h1| - 1] && t2 == h2[|prefix|..|h2| - 1];
  }

  /** Whatever characters a tenant id holds, a rate key names one (tenant, install, second). */
  lemma RateKeyInjective(t1: string, i1: InstallId, s1: nat, t2: string, i2: InstallId, s2: nat)
    requires RateKey(t1, i1, s1) == RateKey(t2, i2, s2)
    ensures t1 == t2 && i1 == i2 && s1 == s2
  {
    var h1, h2 := "rl:{" + t1 + "}:" + i1, "rl:{" + t2 + "}:" + i2;
    assert RateKey(t1, i1, s1) == h1 + ":" + Decimal(s1);
    assert RateKey(t2, i2, s2) == h2 + ":" + Decimal(s2);
    SplitLast(h1, Decimal(s1), h2, Decimal(s2), ':');
    TagRecovered("rl:{", t1, i1, t2, i2);
    DecimalRoundTrip(s1);
    DecimalRoundTrip(s2);
  }

  lemma DateTextOfDayInjective(d1: nat, d2: nat)
    requires DateText(DateOf(d1)) == DateText(DateOf(d2))
    ensures d1 == d2
  {
    DateTextInjective(DateOf(d1), DateOf(d2));
    if d1 < d2 {
      DatesIncrease(d1, d2);
    } else if d2 < d1 {
      DatesIncrease(d2, d1);
    }
  }

  /** A day key names one (tenant, UTC day). */
  lemma DayKeyInjective(t1: string, d1: nat, t2: string, d2: nat)
    requires DayKey(t1, d1) == DayKey(t2, d2)
    ensures t1 == t2 && d1 == d2
  {
    TagRecovered("q:{", t1, DateText(DateOf(d1)), t2, DateText(DateOf(d2)));
    DateTextOfDayInjective(d1, d2);
  }

  /** Attestation keys of two client ids can collide exactly when one id continues the other
      with "}:"; the platform is free text, so nothing else keeps them apart. */
  lemma AttestKeyCollision(c1: string, c2: string)
    requires |c1| <= |c2|
    ensures (exists p1, p2 :: AttestKey(c1, p1) == AttestKey(c2, p2)) <==> c1 == c2 || c1 + "}:" <= c2
  {
    if p1, p2 :| AttestKey(c1, p1) == AttestKey(c2, p2) {
      SharedAttestKey(c1, p1, c2, p2);
    }
    if c1 == c2 {
      assert AttestKey(c1, "") == AttestKey(c2, "");
    } else if c1 + "}:" <= c2 {
      var p1 := c2[|c1| + 2..] + "}:";
      assert c2 == c1 + "}:" + c2[|c1| + 2..];
      assert AttestKey(c1, p1) == AttestKey(c2, "");
    }
  }

  lemma SharedAttestKey(c1: string, p1: string, c2: string, p2: string)
    requires |c1| <= |c2| && AttestKey(c1, p1) == AttestKey(c2, p2)
    ensures c1 == c2 || c1 + "}:" <= c2
  {
    var k := AttestKey(c1, p1);
    var n := |c1|;
    assert k[5..][..n] == c1 && k[5 + n] == '}' && k[6 + n] == ':';
    assert k[5..][..|c2|] == c2 && k[5 + |c2|] == '}';
    assert c2[..n] == c1;
    if |c2| > n + 1 {
      assert c2[n] == k[5 + n] && c2[n + 1] == k[6 + n];
    }
  }
}
