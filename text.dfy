/** The string handling the analyze handler performs on its own: trimming and splitting the
    forwarded-address header into a client key, and rendering an integer in decimal for the
    upstream error message. */
module Text {
  import opened Wrappers

  /** The characters Python's `str.isspace()` accepts, which `str.strip()` with no argument
      removes from both ends. */
  predicate IsSpace(c: char) {
    || c == ' ' || c == '\t' || c == '\n' || c == '\r'
    || c == '\U{B}' || c == '\U{C}'
    || ('\U{1C}' <= c <= '\U{1F}')
    || c == '\U{85}' || c == '\U{A0}' || c == '\U{1680}'
    || ('\U{2000}' <= c <= '\U{200A}')
    || c == '\U{2028}' || c == '\U{2029}' || c == '\U{202F}' || c == '\U{205F}' || c == '\U{3000}'
  }

  /** Every character of `s` is white space. */
  predicate AllSpace(s: string) {
    forall i :: 0 <= i < |s| ==> IsSpace(s[i])
  }

  /** `s` neither starts nor ends with white space. */
  predicate Trimmed(s: string) {
    s == [] || (!IsSpace(s[0]) && !IsSpace(s[|s| - 1]))
  }

  /** The number of white-space characters `s` starts with. */
  function LeadingSpace(s: string): (n: nat)
    ensures n <= |s| && AllSpace(s[..n])
    ensures n == |s| || !IsSpace(s[n])
  {
    if s != [] && IsSpace(s[0]) then
      var n := 1 + LeadingSpace(s[1..]);
      assert s[..n] == [s[0]] + s[1..][..n - 1];
      n
    else 0
  }

  /** The number of white-space characters `s` ends with. */
  function TrailingSpace(s: string): (n: nat)
    ensures n <= |s| && forall i :: |s| - n <= i < |s| ==> IsSpace(s[i])
    ensures n == |s| || !IsSpace(s[|s| - n - 1])
  {
    if s != [] && IsSpace(s[|s| - 1]) then
      var init := s[..|s| - 1];
      assert forall i :: 0 <= i < |init| ==> init[i] == s[i];
      1 + TrailingSpace(init)
    else 0
  }

  /** Python's `s.strip()`: the part of `s` between its leading and its trailing white space. */
  function Strip(s: string): (r: string)
    ensures Trimmed(r)
    ensures LeadingSpace(s) + |r| <= |s|
    ensures r == s[LeadingSpace(s)..LeadingSpace(s) + |r|]
    ensures AllSpace(s[LeadingSpace(s) + |r|..])
  {
    var i := LeadingSpace(s);
    var tail := s[i..];
    var j := TrailingSpace(tail);
    var r := tail[..|tail| - j];
    assert s[i + |r|..] == tail[|tail| - j..];
    assert r != [] ==> r[0] == s[i] && r[|r| - 1] == tail[|tail| - j - 1];
    r
  }

  lemma {:induction false} LeadingSpaceOf(lead: string, rest: string)
    requires AllSpace(lead)
    requires rest == [] || !IsSpace(rest[0])
    ensures LeadingSpace(lead + rest) == |lead|
    decreases |lead|
  {
    if lead != [] {
      assert (lead + rest)[1..] == lead[1..] + rest;
      LeadingSpaceOf(lead[1..], rest);
    } else {
      assert lead + rest == rest;
    }
  }

  lemma {:induction false} TrailingSpaceOf(core: string, trail: string)
    requires AllSpace(trail)
    requires core == [] || !IsSpace(core[|core| - 1])
    ensures TrailingSpace(core + trail) == |trail|
    decreases |trail|
  {
    if trail != [] {
      assert (core + trail)[..|core + trail| - 1] == core + trail[..|trail| - 1];
      TrailingSpaceOf(core, trail[..|trail| - 1]);
    } else {
      assert core + trail == core;
    }
  }

  /** Stripping is determined by its result: text that is trimmed, with only white space
      around it, strips back to exactly that text. */
  lemma StripSurrounded(lead: string, core: string, trail: string)
    requires AllSpace(lead) && AllSpace(trail) && Trimmed(core)
    ensures Strip(lead + core + trail) == core
  {
    var s := lead + core + trail;
    if core == [] {
      assert s == (lead + trail) + [];
      assert AllSpace(lead + trail);
      LeadingSpaceOf(lead + trail, []);
    } else {
      assert s == lead + (core + trail);
      LeadingSpaceOf(lead, core + trail);
      assert s[|lead|..] == core + trail;
      TrailingSpaceOf(core, trail);
    }
  }

  /** Python's `s.split(",")[0]`: the text before the first comma, or all of `s` when it has
      none. */
  function FirstField(s: string): (r: string)
    ensures r <= s && ',' !in r
    ensures |r| < |s| ==> s[|r|] == ','
  {
    if s == [] || s[0] == ',' then [] else [s[0]] + FirstField(s[1..])
  }

  /** The first field of a comma-separated list is the text before its first comma. */
  lemma {:induction false} FirstFieldOfList(first: string, rest: string)
    requires ',' !in first
    ensures FirstField(first + [','] + rest) == first
    ensures FirstField(first) == first
    decreases |first|
  {
    if first != [] {
      assert (first + [','] + rest)[1..] == first[1..] + [','] + rest;
      assert (first + [','] + rest)[0] == first[0];
      FirstFieldOfList(first[1..], rest);
      assert first == [first[0]] + first[1..];
    }
  }

  /** The client identity used when the forwarded-address header is missing or empty. */
  const UnknownClient: string := "unknown"

  lemma UnknownClientIsKey()
    ensures Strip(FirstField(UnknownClient)) == UnknownClient
  {
    var u := UnknownClient;
    assert u == ['u', 'n', 'k', 'n', 'o', 'w', 'n'];
    assert FirstField(u) == u by {
      assert ',' !in u;
      FirstFieldOfList(u, []);
    }
    assert Strip(u) == u by {
      assert Trimmed(u) by {
        assert !IsSpace('u') && !IsSpace('n');
      }
      assert [] + u + [] == u;
      StripSurrounded([], u, []);
    }
  }

  /** The rate-limit key of a request: the first comma-separated entry of its
      `X-Forwarded-For` header, trimmed, or `unknown` when the header is missing or empty. */
  function ClientKey(forwardedFor: Option<string>): (key: string)
    ensures forwardedFor.None? || forwardedFor == Some("") ==> key == UnknownClient
    ensures ',' !in key && Trimmed(key)
  {
    var header := if forwardedFor.Some? && forwardedFor.value != "" then forwardedFor.value else UnknownClient;
    UnknownClientIsKey();
    Strip(FirstField(header))
  }

  /** The key of a forwarded-address list is its first entry, trimmed. */
  lemma ClientKeyOfList(first: string, rest: string)
    requires ',' !in first
    ensures ClientKey(Some(first + [','] + rest)) == Strip(first)
    ensures first != [] ==> ClientKey(Some(first)) == Strip(first)
  {
    FirstFieldOfList(first, rest);
    var header := first + [','] + rest;
    assert header != [];
    assert ClientKey(Some(header)) == Strip(FirstField(header));
  }

  predicate IsDigit(c: char) {
    '0' <= c <= '9'
  }

  predicate AllDigits(s: string) {
    forall i :: 0 <= i < |s| ==> IsDigit(s[i])
  }

  function DigitChar(d: nat): (c: char)
    requires d < 10
    ensures IsDigit(c) && c as int - '0' as int == d
  {
    ('0' as int + d) as char
  }

  /** The decimal digits of `n`, most significant first, without leading zeros. */
  function NatToDecimal(n: nat): (s: string)
    ensures s != [] && AllDigits(s)
    ensures s[0] == '0' ==> n == 0
    ensures |s| > 1 ==> s[0] != '0'
    decreases n
  {
    if n < 10 then [DigitChar(n)] else NatToDecimal(n / 10) + [DigitChar(n % 10)]
  }

  /** The number a string of decimal digits denotes. */
  function DecimalValue(s: string): nat
    requires AllDigits(s)
  {
    if s == [] then 0 else 10 * DecimalValue(s[..|s| - 1]) + (s[|s| - 1] as int - '0' as int)
  }

  /** Reading back the digits of `n` gives `n`. */
  lemma {:induction false} NatToDecimalRoundTrip(n: nat)
    ensures DecimalValue(NatToDecimal(n)) == n
    decreases n
  {
    var s := NatToDecimal(n);
    if n >= 10 {
      NatToDecimalRoundTrip(n / 10);
      assert s[..|s| - 1] == NatToDecimal(n / 10);
    }
  }

  /** Python's `str(i)` for an integer: an optional minus sign and the decimal digits. */
  function IntToDecimal(i: int): (s: string)
    ensures s != []
    ensures s[0] == '-' <==> i < 0
    ensures IsIntLiteral(s) && (i >= 0 ==> AllDigits(s))
    ensures s[0] == '0' ==> i == 0
    ensures i < 0 ==> |s| >= 2 && s[1] != '0'
    ensures i >= 0 && |s| > 1 ==> s[0] != '0'
  {
    if i < 0 then "-" + NatToDecimal(-i) else NatToDecimal(i)
  }

  /** `s` is an optional minus sign followed by decimal digits. */
  predicate IsIntLiteral(s: string) {
    s != [] && AllDigits(s[1..]) && (s[0] == '-' || IsDigit(s[0]))
  }

  /** The integer a signed decimal string denotes. */
  function ParseInt(s: string): int
    requires IsIntLiteral(s)
  {
    if s[0] == '-' then -(DecimalValue(s[1..]) as int) else DecimalValue(s)
  }

  /** Reading back the rendering of `i` gives `i`. */
  lemma IntToDecimalRoundTrip(i: int)
    ensures ParseInt(IntToDecimal(i)) == i
  {
    if i < 0 {
      NatToDecimalRoundTrip(-i);
      assert IntToDecimal(i)[1..] == NatToDecimal(-i);
    } else {
      NatToDecimalRoundTrip(i);
    }
  }
}
