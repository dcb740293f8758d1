/** Canonical forms of OTP destinations: backend/app/core/validators.py, on ASCII text. */
module Validators {
  import opened Wrappers

  datatype Channel = Sms | Email

  predicate IsSpace(c: char) {
    c == ' ' || '\t' <= c <= '\r' || '\U{1c}' <= c <= '\U{1f}'
  }

  predicate IsDigit(c: char) { '0' <= c <= '9' }

  predicate IsSeparator(c: char) { IsSpace(c) || c == '-' || c == '(' || c == ')' }

  /** The text without its separators. */
  function Compact(s: string): (r: string)
    ensures forall c :: c in r ==> c in s && !IsSeparator(c)
    ensures (forall c :: c in s ==> !IsSeparator(c)) ==> r == s
  {
    if s == "" then "" else (if IsSeparator(s[0]) then "" else [s[0]]) + Compact(s[1..])
  }

  const MOBILE_PREFIXES: set<string> := {
    "901", "902", "903", "904", "905", "930", "933", "935", "936", "937", "938", "939",
    "910", "911", "912", "913", "914", "915", "916", "917", "918", "919",
    "990", "991", "992", "993", "920", "921", "922", "999", "998", "997", "996", "994"
  }

  /** A ten-digit national number with a known operator prefix. */
  predicate IsNational(s: string) {
    |s| == 10 && (forall c :: c in s ==> IsDigit(c)) && s[..3] in MOBILE_PREFIXES
  }

  const COUNTRY_PREFIXES: set<string> := {"+98", "0098", "98", "0", ""}

  function NormalizeMobile(raw: string): Option<string> {
    var s := Compact(raw);
    if |s| >= 10 && s[..|s| - 10] in COUNTRY_PREFIXES && IsNational(s[|s| - 10..])
    then Some("0" + s[|s| - 10..]) else None
  }

  // ------------------------------------------------------------------------- email

  function TrimLeft(s: string): string {
    if s != "" && IsSpace(s[0]) then TrimLeft(s[1..]) else s
  }

  function TrimRight(s: string): string {
    if s != "" && IsSpace(s[|s| - 1]) then TrimRight(s[..|s| - 1]) else s
  }

  function LowerChar(c: char): char {
    if 'A' <= c <= 'Z' then (c as int + 32) as char else c
  }

  function Lower(s: string): (r: string)
    ensures |r| == |s| && forall i :: 0 <= i < |s| ==> r[i] == LowerChar(s[i])
  {
    seq(|s|, i requires 0 <= i < |s| => LowerChar(s[i]))
  }

  /** One '@', at position `at`, and a '.' inside the part after it, each part non-empty. */
  predicate EmailShape(s: string, at: int, dot: int) {
    && 0 < at && at + 1 < dot < |s| - 1
    && s[at] == '@' && s[dot] == '.'
    && forall i :: 0 <= i < |s| ==> !IsSpace(s[i]) && (s[i] == '@' ==> i == at)
  }

  predicate IsEmail(s: string) {
    exists at, dot | 0 <= at < |s| && 0 <= dot < |s| :: EmailShape(s, at, dot)
  }

  function NormalizeEmail(raw: string): Option<string> {
    var s := TrimRight(TrimLeft(raw));
    if IsEmail(s) then Some(Lower(s)) else None
  }

  function NormalizeDestination(raw: string, channel: Channel): Option<string> {
    if channel.Sms? then NormalizeMobile(raw) else NormalizeEmail(raw)
  }

  // -------------------------------------------------------------------- properties

  lemma SpellingOf(raw: string, national: string)
    requires NormalizeMobile(raw) == Some("0" + national)
    ensures var s := Compact(raw);
            IsNational(national) && |s| >= 10 && s[..|s| - 10] in COUNTRY_PREFIXES && s == s[..|s| - 10] + national
  {
    assert ("0" + national)[1..] == national;
  }

  lemma SpellingIsAccepted(raw: string, p: string, national: string)
    requires IsNational(national) && p in COUNTRY_PREFIXES && Compact(raw) == p + national
    ensures NormalizeMobile(raw) == Some("0" + national)
  {
    var s := Compact(raw);
    assert |s| == |p| + 10 && s[..|s| - 10] == p && s[|s| - 10..] == national;
  }

  /** Exactly the accepted spellings of a national number: any country prefix, separators anywhere. */
  lemma MobileSpellings(raw: string, national: string)
    ensures NormalizeDestination(raw, Sms) == Some("0" + national)
            <==> IsNational(national) && exists p :: p in COUNTRY_PREFIXES && Compact(raw) == p + national
  {
    if NormalizeMobile(raw) == Some("0" + national) {
      SpellingOf(raw, national);
    }
    if IsNational(national) {
      forall p | p in COUNTRY_PREFIXES && Compact(raw) == p + national ensures NormalizeMobile(raw) == Some("0" + national) {
        SpellingIsAccepted(raw, p, national);
      }
    }
  }

  lemma EmailIsCanonical(s: string)
    requires IsEmail(s)
    ensures TrimRight(TrimLeft(Lower(s))) == Lower(s)
    ensures IsEmail(Lower(s)) && Lower(Lower(s)) == Lower(s)
  {
    var at, dot :| 0 <= at < |s| && 0 <= dot < |s| && EmailShape(s, at, dot);
    assert EmailShape(Lower(s), at, dot);
    assert !IsSpace(Lower(s)[0]) && !IsSpace(Lower(s)[|s| - 1]);
  }

  /** An address is normalised exactly if, stripped of outer space, it is an e-mail address; case is
      ignored, and the result has no capitals. */
  lemma EmailSpellings(raw: string)
    ensures NormalizeEmail(raw).Some? <==> IsEmail(TrimRight(TrimLeft(raw)))
    ensures NormalizeEmail(raw).Some? ==>
              var e, s := NormalizeEmail(raw).value, TrimRight(TrimLeft(raw));
              && |e| == |s| && NormalizeEmail(s) == Some(e)
              && (forall c :: c in e ==> !('A' <= c <= 'Z'))
              && (forall i :: 0 <= i < |s| ==>
                    if 'A' <= s[i] <= 'Z' then e[i] as int == s[i] as int + 32 else e[i] == s[i])
  {
    TrimsAreIdempotent(raw);
  }

  /** Trimming takes off exactly the spaces at the left end. */
  lemma {:induction false} TrimLeftTrims(s: string)
    ensures var t := TrimLeft(s);
            && |t| <= |s| && t == s[|s| - |t|..] && (t == "" || !IsSpace(t[0]))
            && forall i :: 0 <= i < |s| - |t| ==> IsSpace(s[i])
    decreases |s|
  {
    if s != "" && IsSpace(s[0]) {
      var rest := s[1..];
      TrimLeftTrims(rest);
      assert forall i :: 0 < i < |s| ==> s[i] == rest[i - 1];
    }
  }

  /** Likewise at the right end. */
  lemma {:induction false} TrimRightTrims(s: string)
    ensures var t := TrimRight(s);
            && |t| <= |s| && t == s[..|t|] && (t == "" || !IsSpace(t[|t| - 1]))
            && forall i :: |t| <= i < |s| ==> IsSpace(s[i])
    decreases |s|
  {
    if s != "" && IsSpace(s[|s| - 1]) {
      TrimRightTrims(s[..|s| - 1]);
    }
  }

  lemma TrimsAreIdempotent(s: string)
    ensures var t := TrimRight(TrimLeft(s)); TrimRight(TrimLeft(t)) == t
  {
    TrimLeftTrims(s);
    TrimRightTrims(TrimLeft(s));
  }

  /** The canonical form is its own canonical form, so resending hits the limiter key of the request. */
  lemma NormalizeIsIdempotent(raw: string, channel: Channel)
    requires NormalizeDestination(raw, channel).Some?
    ensures NormalizeDestination(NormalizeDestination(raw, channel).value, channel)
            == NormalizeDestination(raw, channel)
  {
    if channel.Sms? {
      var s := Compact(raw);
      var national := s[|s| - 10..];
      assert forall c :: c in "0" + national ==> !IsSeparator(c);
      assert Compact("0" + national) == "0" + national;
      MobileSpellings("0" + national, national);
    } else {
      EmailIsCanonical(TrimRight(TrimLeft(raw)));
    }
  }
}
