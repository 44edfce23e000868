/**
 * Product-name tier rules of the regime-shift engine (detect_subscription_drivers.py): the
 * premium rule (`_extract_gb`, `_is_high_tier`) and the value-tier flag, over ASCII text.
 */
module Tiers {
  import opened Wrappers

  const HighTierGb: nat := 50

  // ---------------------------------------------------------------------------------------
  // Text primitives
  // ---------------------------------------------------------------------------------------

  /** `str.lower()` on one character (ASCII letters only). */
  function LowerChar(c: char): (r: char)
    ensures 'A' <= c <= 'Z' ==> r as int == c as int + 32
    ensures !('A' <= c <= 'Z') ==> r == c
    ensures !('A' <= r <= 'Z')
  {
    if 'A' <= c <= 'Z' then (c as int + 32) as char else c
  }

  function Lower(s: string): (r: string)
    ensures |r| == |s|
    ensures forall i :: 0 <= i < |s| ==> r[i] == LowerChar(s[i])
  {
    seq(|s|, i requires 0 <= i < |s| => LowerChar(s[i]))
  }

  /** Lower-casing is idempotent. */
  lemma LowerIdempotent(s: string)
    ensures Lower(Lower(s)) == Lower(s)
  {
    var l := Lower(s);
    forall i | 0 <= i < |l| ensures Lower(l)[i] == l[i] {
      assert !('A' <= l[i] <= 'Z');
    }
  }

  /** `pat` occurs in `s` starting at position i. */
  predicate OccursAt(s: string, pat: string, i: nat)
  {
    i + |pat| <= |s| && s[i..i + |pat|] == pat
  }

  lemma OccursShift(s: string, pat: string, i: nat)
    requires |s| > 0
    ensures OccursAt(s[1..], pat, i) <==> OccursAt(s, pat, i + 1)
  {
    if i + 1 + |pat| <= |s| {
      assert s[1..][i..i + |pat|] == s[i + 1..i + 1 + |pat|];
    }
  }

  /** Python's `pat in s`. */
  function Contains(s: string, pat: string): (r: bool)
    ensures r <==> exists i: nat :: OccursAt(s, pat, i)
    decreases |s|
  {
    if |s| < |pat| then
      assert forall i: nat :: !OccursAt(s, pat, i);
      false
    else if s[..|pat|] == pat then
      assert OccursAt(s, pat, 0);
      true
    else
      var r := Contains(s[1..], pat);
      if r then
        var i: nat :| OccursAt(s[1..], pat, i);
        OccursShift(s, pat, i);
        true
      else
        forall i: nat | OccursAt(s, pat, i) ensures false {
          assert i != 0;
          OccursShift(s, pat, i - 1);
        }
        false
  }

  // ---------------------------------------------------------------------------------------
  // The `(\d+)gb` search
  // ---------------------------------------------------------------------------------------

  predicate IsDigit(c: char)
  {
    '0' <= c <= '9'
  }

  predicate AllDigits(s: string)
  {
    forall i :: 0 <= i < |s| ==> IsDigit(s[i])
  }

  /** `(\d+)gb` matches at position p with group `s[p..e]`. */
  predicate GbMatch(s: string, p: nat, e: nat)
  {
    p < e && e + 2 <= |s| && AllDigits(s[p..e]) && s[e..e + 2] == "gb"
  }

  /** The match `re.search` reports: the one starting leftmost. */
  ghost predicate LeftmostGbMatch(s: string, p: nat, e: nat)
  {
    GbMatch(s, p, e) && forall q: nat, f: nat :: q < p ==> !GbMatch(s, q, f)
  }

  /** End of the run of digits that starts at position p. */
  function RunEnd(s: string, p: nat): (e: nat)
    requires p <= |s|
    ensures p <= e <= |s|
    ensures AllDigits(s[p..e])
    ensures e == |s| || !IsDigit(s[e])
    decreases |s| - p
  {
    if p == |s| || !IsDigit(s[p]) then p
    else
      var e := RunEnd(s, p + 1);
      assert s[p..e] == [s[p]] + s[p + 1..e];
      e
  }

  /** Digits cannot stretch across the "g": a match's group is the whole digit run. */
  lemma MatchEndsRun(s: string, p: nat, e: nat)
    requires GbMatch(s, p, e)
    ensures e == RunEnd(s, p)
  {
    assert s[e..e + 2][0] == s[e];
  }

  /** `re.search(r'(\d+)gb', s)` from position p: the leftmost start and the group's end. */
  function SearchGbFrom(s: string, p: nat): (r: Option<(nat, nat)>)
    requires p <= |s|
    ensures r.Some? ==> p <= r.value.0 && GbMatch(s, r.value.0, r.value.1)
    ensures r.Some? ==> forall q: nat, f: nat :: p <= q < r.value.0 ==> !GbMatch(s, q, f)
    ensures r.None? ==> forall q: nat, f: nat :: p <= q ==> !GbMatch(s, q, f)
    decreases |s| - p
  {
    if p == |s| then
      assert forall q: nat, f: nat :: p <= q ==> !GbMatch(s, q, f);
      None
    else
      var e := RunEnd(s, p);
      if p < e && e + 2 <= |s| && s[e..e + 2] == "gb" then
        Some((p, e))
      else
        var r := SearchGbFrom(s, p + 1);
        forall f: nat | GbMatch(s, p, f) ensures false {
          MatchEndsRun(s, p, f);
        }
        r
  }

  function SearchGb(s: string): (r: Option<(nat, nat)>)
    ensures r.Some? ==> LeftmostGbMatch(s, r.value.0, r.value.1)
    ensures r.None? <==> forall q: nat, f: nat :: !GbMatch(s, q, f)
  {
    SearchGbFrom(s, 0)
  }

  function Pow10(k: nat): (p: nat)
    ensures p >= 1
  {
    if k == 0 then 1 else 10 * Pow10(k - 1)
  }

  /** `int()` of a run of decimal digits: k digits spell a number below 10^k. */
  function DigitsValue(ds: string): (n: nat)
    requires AllDigits(ds)
    ensures n < Pow10(|ds|)
  {
    if |ds| == 0 then 0
    else 10 * DigitsValue(ds[..|ds| - 1]) + (ds[|ds| - 1] as int - '0' as int)
  }

  /** Writing the digits of b after those of a shifts a's value by |b| decimal places. */
  lemma {:induction false} DigitsValueAppend(a: string, b: string)
    requires AllDigits(a) && AllDigits(b)
    ensures AllDigits(a + b)
    ensures DigitsValue(a + b) == DigitsValue(a) * Pow10(|b|) + DigitsValue(b)
  {
    var ab := a + b;
    if |b| == 0 {
      assert ab == a;
    } else {
      var b' := b[..|b| - 1];
      assert ab[..|ab| - 1] == a + b';
      assert ab[|ab| - 1] == b[|b| - 1];
      DigitsValueAppend(a, b');
      var va, p, d := DigitsValue(a), Pow10(|b'|), b[|b| - 1] as int - '0' as int;
      assert DigitsValue(ab) == 10 * DigitsValue(a + b') + d;
      assert DigitsValue(b) == 10 * DigitsValue(b') + d;
      assert Pow10(|b|) == 10 * p;
      ScaleByTen(va, p);
    }
  }

  lemma ScaleByTen(x: nat, p: nat)
    ensures 10 * (x * p) == x * (10 * p)
  {
  }

  /** Leading zeros do not change the value. */
  lemma DigitsValueLeadingZero(ds: string)
    requires AllDigits(ds)
    ensures AllDigits("0" + ds) && DigitsValue("0" + ds) == DigitsValue(ds)
  {
    assert "0"[..0] == "";
    DigitsValueAppend("0", ds);
  }

  // ---------------------------------------------------------------------------------------
  // Tier rules
  // ---------------------------------------------------------------------------------------

  /** What `_extract_gb` returns when it finds something. */
  datatype Allowance = Unlimited | Gigabytes(n: nat)

  /**
   * `_extract_gb`: nothing for a missing name; "unlimited" when the lower-cased name contains
   * it; otherwise the number of the leftmost `(\d+)gb` match, or nothing.
   */
  function ExtractGb(name: Option<string>): (r: Option<Allowance>)
    ensures name.None? ==> r.None?
    ensures name.Some? && Contains(Lower(name.value), "unlimited") ==> r == Some(Unlimited)
    ensures name.Some? && !Contains(Lower(name.value), "unlimited") ==>
              (r.None? <==> forall q: nat, f: nat :: !GbMatch(Lower(name.value), q, f))
    ensures name.Some? && !Contains(Lower(name.value), "unlimited") && r.Some? ==>
              exists p: nat, e: nat :: LeftmostGbMatch(Lower(name.value), p, e) &&
                r == Some(Gigabytes(DigitsValue(Lower(name.value)[p..e])))
  {
    match name
    case None => None
    case Some(n) =>
      var s := Lower(n);
      if Contains(s, "unlimited") then Some(Unlimited)
      else
        match SearchGb(s)
        case None => None
        case Some((p, e)) => Some(Gigabytes(DigitsValue(s[p..e])))
  }

  /**
   * `_is_high_tier`: premium exactly when the name says "unlimited", or its leftmost
   * `(\d+)gb` allowance exceeds 50 GB.
   */
  function IsHighTier(name: Option<string>): (r: bool)
    ensures r <==> (name.Some? &&
                    (Contains(Lower(name.value), "unlimited") ||
                     exists p: nat, e: nat :: LeftmostGbMatch(Lower(name.value), p, e) &&
                       DigitsValue(Lower(name.value)[p..e]) > HighTierGb))
  {
    var gb := ExtractGb(name);
    LeftmostUnique(if name.Some? then Lower(name.value) else "");
    gb == Some(Unlimited) || (gb.Some? && gb.value.Gigabytes? && gb.value.n > HighTierGb)
  }

  /** There is at most one leftmost match. */
  lemma LeftmostUnique(s: string)
    ensures forall p: nat, e: nat, p': nat, e': nat ::
              LeftmostGbMatch(s, p, e) && LeftmostGbMatch(s, p', e') ==> p == p' && e == e'
  {
    forall p: nat, e: nat, p': nat, e': nat | LeftmostGbMatch(s, p, e) && LeftmostGbMatch(s, p', e')
      ensures p == p' && e == e'
    {
      MatchEndsRun(s, p, e);
      MatchEndsRun(s, p', e');
    }
  }

  /** The value-tier fragments matched by `str.contains(..., case=False)`. */
  const ValueTokens: seq<string> := ["basic", "save", "4all", "lifeline"]

  /** The alternation `(t1|t2|...)` searched anywhere in s. */
  function ContainsAny(s: string, tokens: seq<string>): (r: bool)
    ensures r <==> exists t :: t in tokens && Contains(s, t)
  {
    if |tokens| == 0 then false
    else if Contains(s, tokens[0]) then
      assert tokens[0] in tokens;
      true
    else
      var r := ContainsAny(s, tokens[1..]);
      assert forall t :: t in tokens <==> t == tokens[0] || t in tokens[1..];
      r
  }

  /** The value-tier flag: a present name containing a value fragment, in any letter case. */
  function IsValueTier(name: Option<string>): (r: bool)
    ensures r <==> name.Some? && exists t :: t in ValueTokens && Contains(Lower(name.value), t)
  {
    name.Some? && ContainsAny(Lower(name.value), ValueTokens)
  }

  // ---------------------------------------------------------------------------------------
  // Worked examples
  // ---------------------------------------------------------------------------------------

  /** A pattern whose first character never appears in s does not occur in it. */
  lemma AbsentFirstChar(s: string, pat: string)
    requires |pat| > 0 && pat[0] !in s
    ensures !Contains(s, pat)
  {
  }

  lemma UnlimitedNameIsHighTier()
    ensures IsHighTier(Some("Unlimited Data Plan"))
  {
    var u := Lower("Unlimited Data Plan");
    assert u[..9] == "unlimited";
  }

  /**
   * A name that opens with a run of d digits followed by "gb", and does not say "unlimited",
   * is premium exactly when the number those digits spell exceeds 50.
   */
  lemma AllowanceDecidesTier(name: string, s: string, d: nat)
    requires Lower(name) == s && !Contains(s, "unlimited")
    requires 0 < d == RunEnd(s, 0) && d + 2 <= |s| && s[d..d + 2] == "gb"
    ensures AllDigits(s[..d])
    ensures IsHighTier(Some(name)) <==> DigitsValue(s[..d]) > HighTierGb
  {
    assert s[0..d] == s[..d];
    assert SearchGb(s) == Some((0, d));
    assert ExtractGb(Some(name)) == Some(Gigabytes(DigitsValue(s[..d])));
  }

  lemma SixtyGbIsHighTier()
    ensures IsHighTier(Some("60GB Plan"))
  {
    var s := Lower("60GB Plan");
    assert s == "60gb plan";
    AbsentFirstChar(s, "unlimited");
    assert RunEnd(s, 0) == 2;
    assert DigitsValue(s[..2]) == 60 by {
      assert s[..2][..1] == "6";
    }
    AllowanceDecidesTier("60GB Plan", s, 2);
  }

  lemma FortyGbIsNotHighTier()
    ensures !IsHighTier(Some("40GB Plan"))
  {
    var s := Lower("40GB Plan");
    assert s == "40gb plan";
    AbsentFirstChar(s, "unlimited");
    assert RunEnd(s, 0) == 2;
    assert DigitsValue(s[..2]) == 40 by {
      assert s[..2][..1] == "4";
    }
    AllowanceDecidesTier("40GB Plan", s, 2);
  }

  lemma EmptyOrMissingNameIsNotHighTier()
    ensures !IsHighTier(Some(""))
    ensures !IsHighTier(None)
  {
    assert Lower("") == "";
  }

  /** Only the leftmost allowance counts: a 5 GB name stays low tier despite a later 100GB. */
  lemma LeftmostAllowanceDecides()
    ensures !IsHighTier(Some("5GB + 100GB"))
  {
    var s := Lower("5GB + 100GB");
    assert s == "5gb + 100gb";
    AbsentFirstChar(s, "unlimited");
    assert RunEnd(s, 0) == 1;
    assert s[..1] == "5";
    AllowanceDecidesTier("5GB + 100GB", s, 1);
  }

  lemma ValueTierExamples()
    ensures IsValueTier(Some("BASIC Talk"))
    ensures IsValueTier(Some("Family 4All"))
    ensures !IsValueTier(Some("Premium Max 60"))
    ensures !IsValueTier(None)
  {
    var b := Lower("BASIC Talk");
    assert b[..5] == "basic";
    assert OccursAt(b, "basic", 0);
    assert "basic" in ValueTokens;
    var f := Lower("Family 4All");
    assert f[7..11] == "4all";
    assert OccursAt(f, "4all", 7);
    assert "4all" in ValueTokens;
    var p := Lower("Premium Max 60");
    assert p == "premium max 60";
    forall t | t in ValueTokens ensures !Contains(p, t) {
      AbsentFirstChar(p, t);
    }
  }
}
