/**
 * The two pieces of JavaScript string behaviour the tool relies on:
 * `String.prototype.trim`, and the decimal rendering of a number inside a
 * template literal (`${response.status}`).
 */
module Text {

  /** ECMAScript WhiteSpace and LineTerminator code points: what `trim` removes. */
  predicate IsJsWhitespace(c: char) {
    || c == '\t' || c == '\n' || c == '\U{000B}' || c == '\U{000C}' || c == '\r'
    || c == ' ' || c == '\U{00A0}' || c == '\U{1680}'
    || ('\U{2000}' <= c <= '\U{200A}')
    || c == '\U{2028}' || c == '\U{2029}' || c == '\U{202F}' || c == '\U{205F}'
    || c == '\U{3000}' || c == '\U{FEFF}'
  }

  predicate AllWhitespace(s: string) {
    forall k :: 0 <= k < |s| ==> IsJsWhitespace(s[k])
  }

  /** A string that `trim` leaves alone: it neither begins nor ends with whitespace. */
  predicate IsTrimmed(s: string) {
    s == [] || (!IsJsWhitespace(s[0]) && !IsJsWhitespace(s[|s| - 1]))
  }

  /** Drops the leading whitespace: the result is the suffix that starts at the first other character. */
  function TrimStart(s: string): (r: string)
    ensures |r| <= |s| && r == s[|s| - |r|..]
    ensures AllWhitespace(s[..|s| - |r|])
    ensures r != [] ==> !IsJsWhitespace(r[0])
  {
    if s != [] && IsJsWhitespace(s[0]) then TrimStart(s[1..]) else s
  }

  /** Drops the trailing whitespace: the result is the prefix that ends at the last other character. */
  function TrimEnd(s: string): (r: string)
    ensures |r| <= |s| && r == s[..|r|]
    ensures AllWhitespace(s[|r|..])
    ensures r != [] ==> !IsJsWhitespace(r[|r| - 1])
  {
    if s != [] && IsJsWhitespace(s[|s| - 1]) then TrimEnd(s[..|s| - 1]) else s
  }

  /** `String.prototype.trim`. */
  function Trim(s: string): (r: string)
    ensures IsTrimmed(r)
    ensures |r| <= |s|
  {
    TrimEnd(TrimStart(s))
  }

  /** Where the trimmed text starts inside the original. */
  function TrimOffset(s: string): (i: nat)
    ensures i + |Trim(s)| <= |s|
    ensures Trim(s) == s[i..i + |Trim(s)|]
  {
    var t := TrimStart(s);
    assert TrimEnd(t) == t[..|TrimEnd(t)|];
    |s| - |t|
  }

  /** Leading whitespace in front of a non-blank start is exactly what TrimStart drops. */
  lemma {:induction false} TrimStartDropsLead(lead: string, rest: string)
    requires AllWhitespace(lead)
    requires rest == [] || !IsJsWhitespace(rest[0])
    ensures TrimStart(lead + rest) == rest
  {
    if lead != [] {
      assert (lead + rest)[1..] == lead[1..] + rest;
      TrimStartDropsLead(lead[1..], rest);
    }
  }

  /** Trailing whitespace after a non-blank end is exactly what TrimEnd drops. */
  lemma {:induction false} TrimEndDropsTrail(rest: string, trail: string)
    requires AllWhitespace(trail)
    requires rest == [] || !IsJsWhitespace(rest[|rest| - 1])
    ensures TrimEnd(rest + trail) == rest
  {
    if trail != [] {
      var s := rest + trail;
      assert s[..|s| - 1] == rest + trail[..|trail| - 1];
      TrimEndDropsTrail(rest, trail[..|trail| - 1]);
    } else {
      assert rest + trail == rest;
    }
  }

  /**
   * `trim` is determined by its meaning: whatever whitespace surrounds a
   * trimmed core, trimming returns exactly that core.
   */
  lemma TrimCharacterized(lead: string, core: string, trail: string)
    requires AllWhitespace(lead) && AllWhitespace(trail) && IsTrimmed(core)
    ensures Trim(lead + core + trail) == core
  {
    if core == [] {
      assert lead + core + trail == lead + trail;
      assert AllWhitespace(lead + trail);
      TrimStartDropsLead(lead + trail, []);
      assert lead + trail + [] == lead + trail;
    } else {
      assert lead + core + trail == lead + (core + trail);
      TrimStartDropsLead(lead, core + trail);
      TrimEndDropsTrail(core, trail);
    }
  }

  /** A string without surrounding whitespace is left as it is. */
  lemma TrimLeavesTrimmed(s: string)
    requires IsTrimmed(s)
    ensures Trim(s) == s
  {
    TrimCharacterized([], s, []);
    assert [] + s + [] == s;
  }

  /** Trimming twice is trimming once. */
  lemma TrimIdempotent(s: string)
    ensures Trim(Trim(s)) == Trim(s)
  {
    TrimCharacterized([], Trim(s), []);
    assert [] + Trim(s) + [] == Trim(s);
  }

  /** Whitespace appended to a text is removed along with the text's own trailing whitespace. */
  lemma TrimIgnoresAppendedWhitespace(s: string, w: string)
    requires AllWhitespace(w)
    ensures Trim(s + w) == Trim(s)
  {
    var core := Trim(s);
    var lead, trail := TrimParts(s);
    WhitespaceJoined(trail, w);
    Regrouped(lead, core, trail, w);
    TrimCharacterized(lead, core, trail + w);
  }

  /** A text is its trimmed core between the whitespace that `trim` drops. */
  lemma TrimParts(s: string) returns (lead: string, trail: string)
    ensures AllWhitespace(lead) && AllWhitespace(trail)
    ensures s == lead + Trim(s) + trail
  {
    var t := TrimStart(s);
    var core := TrimEnd(t);
    lead := s[..|s| - |t|];
    trail := t[|core|..];
    SplitInThree(s, lead, t, core, trail);
  }

  /** A suffix of s split into its own prefix and the rest: the pieces laid side by side rebuild s. */
  lemma SplitInThree(s: string, lead: string, t: string, core: string, trail: string)
    requires |t| <= |s| && t == s[|s| - |t|..] && lead == s[..|s| - |t|]
    requires |core| <= |t| && core == t[..|core|] && trail == t[|core|..]
    ensures s == lead + core + trail
  {
    assert t == core + trail;
    assert s == lead + t;
  }

  /** Two runs of whitespace make one. */
  lemma WhitespaceJoined(a: string, b: string)
    requires AllWhitespace(a) && AllWhitespace(b)
    ensures AllWhitespace(a + b)
  {
  }

  /** Appending after a three-piece text extends its last piece. */
  lemma Regrouped(lead: string, core: string, trail: string, w: string)
    ensures (lead + core + trail) + w == lead + core + (trail + w)
  {
  }

  /** Trimming never removes a character that is not whitespace. */
  lemma TrimKeepsNonWhitespace(s: string, k: nat)
    requires k < |s| && !IsJsWhitespace(s[k])
    ensures TrimOffset(s) <= k < TrimOffset(s) + |Trim(s)|
  {
    var t := TrimStart(s);
    var i := |s| - |t|;
    assert forall x :: 0 <= x < i ==> s[..i][x] == s[x];
    assert t[k - i] == s[k];
    var u := TrimEnd(t);
    assert forall x :: |u| <= x < |t| ==> t[|u|..][x - |u|] == t[x];
  }

  /** The characters `${n}` produces for a non-negative integer, most significant first. */
  function DecimalString(n: nat): (s: string)
    ensures |s| >= 1
    ensures forall k :: 0 <= k < |s| ==> '0' <= s[k] <= '9'
    ensures s[0] == '0' ==> n == 0
  {
    var d := ['0' + (n % 10) as char];
    if n < 10 then d else DecimalString(n / 10) + d
  }

  /** Reads a string of decimal digits back as a number. */
  function DecimalValue(s: string): nat
    requires forall k :: 0 <= k < |s| ==> '0' <= s[k] <= '9'
  {
    if s == [] then 0 else DecimalValue(s[..|s| - 1]) * 10 + (s[|s| - 1] - '0') as nat
  }

  /** The rendered status reads back as the status: no digit is lost or invented. */
  lemma {:induction false} DecimalRoundTrip(n: nat)
    ensures DecimalValue(DecimalString(n)) == n
  {
    var s := DecimalString(n);
    if n >= 10 {
      DecimalRoundTrip(n / 10);
      assert s[..|s| - 1] == DecimalString(n / 10);
    }
  }
}
