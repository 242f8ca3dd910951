/**
 * The pieces of the two address patterns of the weather service, written as
 * predicates instead of regular expressions. Apart from the `%zone` suffix,
 * every IPv6 alternative is a run of hex groups, empty fields and at most one
 * trailing dotted quad separated by ':' — and none of those pieces contains
 * ':' — so each alternative is stated over the ':'-separated fields of the
 * string (SplitAll), which Join turns back into the string.
 */
module IpSyntax {
  import opened JavaStrings

  predicate IsDigit(c: char) { '0' <= c <= '9' }

  predicate IsHexDigit(c: char) { IsDigit(c) || 'a' <= c <= 'f' || 'A' <= c <= 'F' }

  predicate IsAsciiAlnum(c: char) { IsDigit(c) || 'a' <= c <= 'z' || 'A' <= c <= 'Z' }

  predicate AllDigits(p: string) { forall i :: 0 <= i < |p| ==> IsDigit(p[i]) }

  /** One to four hex digits. */
  predicate HexGroup(g: string) { 1 <= |g| <= 4 && forall i :: 0 <= i < |g| ==> IsHexDigit(g[i]) }

  /** Zero to four hex digits. */
  predicate ShortHex(g: string) { |g| <= 4 && forall i :: 0 <= i < |g| ==> IsHexDigit(g[i]) }

  predicate AllGroups(fields: seq<string>) { forall i :: 0 <= i < |fields| ==> HexGroup(fields[i]) }

  /** One to four '0' characters. */
  predicate Zeros(z: string) { 1 <= |z| <= 4 && forall i :: 0 <= i < |z| ==> z[i] == '0' }

  /**
   * The octet alternation of both address patterns: "25" and a digit 0-5;
   * "2", a digit 0-4 and a digit; or an optional 0/1 before one digit and an
   * optional second digit (so any one or two digits, or 0/1 and two digits).
   */
  predicate Octet(p: string) {
    || (|p| == 3 && p[0] == '2' && p[1] == '5' && '0' <= p[2] <= '5')
    || (|p| == 3 && p[0] == '2' && '0' <= p[1] <= '4' && IsDigit(p[2]))
    || (|p| == 1 && IsDigit(p[0]))
    || (|p| == 2 && IsDigit(p[0]) && IsDigit(p[1]))
    || (|p| == 3 && '0' <= p[0] <= '1' && IsDigit(p[1]) && IsDigit(p[2]))
  }

  /** Four octets separated by '.', covering the whole string. */
  predicate IsIPv4(s: string) {
    var parts := SplitAll(s, '.');
    |parts| == 4 && forall i :: 0 <= i < 4 ==> Octet(parts[i])
  }

  /** The numeric value of a string of decimal digits. */
  function DecimalValue(p: string): nat
    requires AllDigits(p)
  {
    if |p| == 0 then 0 else 10 * DecimalValue(p[..|p| - 1]) + (p[|p| - 1] as int - '0' as int)
  }

  /** The reference reading of an octet: one to three decimal digits worth at most 255. */
  predicate DecimalOctet(p: string) {
    1 <= |p| <= 3 && AllDigits(p) && DecimalValue(p) <= 255
  }

  /** The octet alternation accepts exactly the one-to-three-digit numbers up to 255, leading zeros included. */
  lemma OctetIsDecimalAtMost255(p: string)
    ensures Octet(p) <==> DecimalOctet(p)
  {
    if 1 <= |p| <= 3 && AllDigits(p) {
      var d := seq(|p|, i requires 0 <= i < |p| => p[i] as int - '0' as int);
      assert p[..|p| - 1][..|p| - 1] == p[..|p| - 1];
      if |p| == 1 {
        assert DecimalValue(p) == d[0];
      } else if |p| == 2 {
        assert DecimalValue(p[..1]) == d[0];
        assert DecimalValue(p) == 10 * d[0] + d[1];
      } else {
        assert DecimalValue(p[..1]) == d[0];
        assert p[..2][..1] == p[..1];
        assert DecimalValue(p[..2]) == 10 * d[0] + d[1];
        assert DecimalValue(p) == 100 * d[0] + 10 * d[1] + d[2];
      }
    }
  }

  /** The IPv4 pattern accepts exactly four '.'-separated decimal octets of value at most 255. */
  lemma Ipv4IsFourDecimalOctets(s: string)
    ensures IsIPv4(s) <==>
      var parts := SplitAll(s, '.');
      |parts| == 4 && forall i :: 0 <= i < 4 ==> DecimalOctet(parts[i])
  {
    var parts := SplitAll(s, '.');
    forall i | 0 <= i < |parts| {
      OctetIsDecimalAtMost255(parts[i]);
    }
  }

  /** A character that is neither a digit nor '.' never occurs in an IPv4 address. */
  lemma Ipv4Avoids(s: string, c: char)
    requires IsIPv4(s)
    requires c != '.' && !IsDigit(c)
    ensures c !in s
  {
    var parts := SplitAll(s, '.');
    forall i | 0 <= i < |parts| ensures c !in parts[i] {
      assert Octet(parts[i]);
    }
    JoinAvoids(parts, '.', c);
    JoinSplitAll(s, '.');
  }

  // ---- The IPv6 alternatives, over f = SplitAll(s, ':') ----

  /** Eight groups: the full form. */
  predicate EightGroups(f: seq<string>) { |f| == 8 && AllGroups(f) }

  /** One to seven groups, each followed by ':', then a final ':' (so "a:b::"). */
  predicate GroupsThenGap(f: seq<string>) {
    3 <= |f| <= 9 && AllGroups(f[..|f| - 2]) && f[|f| - 2] == "" && f[|f| - 1] == ""
  }

  /** `n` groups, the empty field of "::", then groups to the end. */
  predicate GapAt(f: seq<string>, n: int) {
    1 <= n < |f| - 1 && AllGroups(f[..n]) && f[n] == "" && AllGroups(f[n + 1..])
  }

  /**
   * One to `maxLeft` groups each followed by ':', then one to `maxRight`
   * groups each preceded by ':' (so "a:b::c:d").
   */
  predicate GroupsAroundGap(f: seq<string>, maxLeft: int, maxRight: int) {
    exists n :: 1 <= n <= maxLeft && |f| - 1 - n <= maxRight && GapAt(f, n)
  }

  /** A ':' followed by either ':' alone or one to seven groups each preceded by ':' ("::" or "::a:b"). */
  predicate GapThenGroups(f: seq<string>) {
    && |f| >= 3 && f[0] == "" && f[1] == ""
    && ((|f| == 3 && f[2] == "") || (|f| <= 9 && AllGroups(f[2..])))
  }

  /** The address part of the link-local form: "fe80:" then up to four ':'-prefixed runs of zero to four hex digits. */
  predicate LinkLocalPrefix(f: seq<string>) {
    2 <= |f| <= 6 && f[0] == "fe80" && f[1] == "" && forall i :: 2 <= i < |f| ==> ShortHex(f[i])
  }

  /** A zone identifier: one or more ASCII letters or digits. */
  predicate ZoneId(z: string) { |z| >= 1 && forall i :: 0 <= i < |z| ==> IsAsciiAlnum(z[i]) }

  /** A link-local address, '%', and a zone identifier. Neither part contains '%', so the '%' is the first one. */
  predicate LinkLocalWithZone(s: string) {
    '%' in s &&
    var p := FirstIndex(s, '%');
    ZoneId(s[p + 1..]) && LinkLocalPrefix(SplitAll(s[..p], ':'))
  }

  /** "::", optionally "ffff:" or "ffff:" with one to four zeros and ':', then a dotted quad. */
  predicate MappedIPv4(f: seq<string>) {
    && |f| >= 3 && f[0] == "" && f[1] == "" && IsIPv4(f[|f| - 1])
    && (|f| == 3 || (|f| == 4 && f[2] == "ffff") || (|f| == 5 && f[2] == "ffff" && Zeros(f[3])))
  }

  /** One to four groups each followed by ':', another ':', then a dotted quad ("a:b::1.2.3.4"). */
  predicate GroupsThenIPv4(f: seq<string>) {
    3 <= |f| <= 6 && AllGroups(f[..|f| - 2]) && f[|f| - 2] == "" && IsIPv4(f[|f| - 1])
  }
}
