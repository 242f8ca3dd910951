/**
 * The two copies of the IPv6 pattern side by side. LocationWeatherService
 * validates addresses with twelve alternatives; LocationService, which
 * chooses the provider's IPv4 or IPv6 base URL, has the same pattern without
 * "six groups, '::', one group" and without the "fe80...%zone" form. This
 * module characterises both and the addresses on which they disagree.
 */
module Classification {
  import opened Wrappers
  import opened JavaStrings
  import opened IpSyntax
  import Locations
  import Orchestrator
  import AddressTexts

  /** Fields that no IPv6 alternative other than the zone form can contain: hex runs (empty ones too) and dotted quads. */
  predicate PlainField(g: string) { ShortHex(g) || IsIPv4(g) }

  lemma PlainFieldAvoids(g: string, c: char)
    requires PlainField(g)
    requires c != '.' && !IsHexDigit(c)
    ensures c !in g
  {
    if IsIPv4(g) {
      Ipv4Avoids(g, c);
    }
  }

  predicate AllPlain(f: seq<string>) { forall i :: 0 <= i < |f| ==> PlainField(f[i]) }

  lemma GapAtIsPlain(f: seq<string>, n: int)
    requires GapAt(f, n)
    ensures AllPlain(f)
  {
    forall i | 0 <= i < |f| ensures PlainField(f[i]) {
      if i < n { assert f[..n][i] == f[i]; }
      else if i > n { assert f[n + 1..][i - n - 1] == f[i]; }
    }
  }

  lemma GroupsThenGapIsPlain(f: seq<string>)
    requires GroupsThenGap(f)
    ensures AllPlain(f)
  {
    forall i | 0 <= i < |f| ensures PlainField(f[i]) {
      if i < |f| - 2 { assert f[..|f| - 2][i] == f[i]; }
    }
  }

  lemma GapThenGroupsIsPlain(f: seq<string>)
    requires GapThenGroups(f)
    ensures AllPlain(f)
  {
    forall i | 0 <= i < |f| ensures PlainField(f[i]) {
      if i >= 2 && |f| != 3 { assert f[2..][i - 2] == f[i]; }
    }
  }

  lemma GroupsThenIPv4IsPlain(f: seq<string>)
    requires GroupsThenIPv4(f)
    ensures AllPlain(f)
  {
    forall i | 0 <= i < |f| ensures PlainField(f[i]) {
      if i < |f| - 2 { assert f[..|f| - 2][i] == f[i]; }
    }
  }

  /** The alternatives stated over the ':'-separated fields: every one except the zone form. */
  predicate FieldForm(f: seq<string>) {
    || EightGroups(f) || GroupsThenGap(f) || (exists n :: 0 < n < |f| && GapAt(f, n))
    || GapThenGroups(f) || MappedIPv4(f) || GroupsThenIPv4(f)
  }

  /** Every field of a field form is plain. */
  lemma FieldFormIsPlain(f: seq<string>)
    requires FieldForm(f)
    ensures AllPlain(f)
  {
    if GroupsThenGap(f) {
      GroupsThenGapIsPlain(f);
    } else if GapThenGroups(f) {
      GapThenGroupsIsPlain(f);
    } else if GroupsThenIPv4(f) {
      GroupsThenIPv4IsPlain(f);
    } else if MappedIPv4(f) {
      assert AllPlain(f);
    } else if EightGroups(f) {
      assert AllPlain(f);
    } else {
      var n :| GapAt(f, n);
      GapAtIsPlain(f, n);
    }
  }

  /** A field form is made of plain fields only, so it holds no '%'. */
  lemma FieldFormHasNoZone(s: string)
    requires FieldForm(SplitAll(s, ':'))
    ensures '%' !in s
  {
    var f := SplitAll(s, ':');
    FieldFormIsPlain(f);
    forall i | 0 <= i < |f| ensures '%' !in f[i] {
      PlainFieldAvoids(f[i], '%');
    }
    JoinAvoids(f, ':', '%');
    JoinSplitAll(s, ':');
  }

  /** LocationService's pattern has no zone form, so what it accepts holds no '%'. */
  lemma NarrowFormHasNoZone(s: string)
    requires Locations.IsIPv6(s)
    ensures '%' !in s
  {
    FieldFormHasNoZone(s);
  }

  /**
   * In the orchestrator's pattern a '%' can only come from the zone form,
   * whose address part must start with the lower-case field "fe80".
   */
  lemma ZoneFormIsLowerCase(s: string)
    requires Orchestrator.IsIPv6(s) && '%' in s
    ensures LinkLocalWithZone(s)
    ensures SplitAll(s[..FirstIndex(s, '%')], ':')[0] == "fe80"
  {
    if !LinkLocalWithZone(s) {
      FieldFormHasNoZone(s);
    }
  }

  /** Every address LocationService's pattern accepts, the orchestrator's accepts too. */
  lemma NarrowWithinWide(s: string)
    requires Locations.IsIPv6(s)
    ensures Orchestrator.IsIPv6(s)
  {
  }

  /** Every IPv6 form, the zone form included, contains ':'. */
  lemma Ipv6HasColon(s: string)
    requires Orchestrator.IsIPv6(s)
    ensures ':' in s
  {
    var f := SplitAll(s, ':');
    if LinkLocalWithZone(s) {
      var p := FirstIndex(s, '%');
      var g := SplitAll(s[..p], ':');
      assert |g| >= 2;
      assert ':' in s[..p];
      var k :| 0 <= k < p && s[..p][k] == ':';
      assert s[k] == ':';
    } else {
      assert |f| >= 2;
    }
  }

  /** No string is both an IPv4 and an IPv6 address, so the order of isValidIp's two tests does not matter. */
  lemma NoAddressIsBoth(s: string)
    ensures !(IsIPv4(s) && Orchestrator.IsIPv6(s))
  {
    if IsIPv4(s) && Orchestrator.IsIPv6(s) {
      Ipv4Avoids(s, ':');
      Ipv6HasColon(s);
    }
  }

  /**
   * The compressed alternatives "n groups :: m groups" of each pattern,
   * together: the orchestrator's accept any n, m >= 1 with n + m <= 7;
   * LocationService's additionally need n <= 5.
   */
  lemma CompressedAlternatives(f: seq<string>)
    ensures (|| GroupsAroundGap(f, 6, 1) || GroupsAroundGap(f, 5, 2) || GroupsAroundGap(f, 4, 3)
             || GroupsAroundGap(f, 3, 4) || GroupsAroundGap(f, 2, 5) || GroupsAroundGap(f, 1, 6))
            <==> |f| <= 8 && exists n :: GapAt(f, n)
    ensures (|| GroupsAroundGap(f, 5, 2) || GroupsAroundGap(f, 4, 3)
             || GroupsAroundGap(f, 3, 4) || GroupsAroundGap(f, 2, 5) || GroupsAroundGap(f, 1, 6))
            <==> |f| <= 8 && exists n :: n <= 5 && GapAt(f, n)
  {
    if |f| <= 8 && exists n :: GapAt(f, n) {
      var n :| GapAt(f, n);
      if n == 1 { assert GroupsAroundGap(f, 1, 6); }
      else if n == 2 { assert GroupsAroundGap(f, 2, 5); }
      else if n == 3 { assert GroupsAroundGap(f, 3, 4); }
      else if n == 4 { assert GroupsAroundGap(f, 4, 3); }
      else if n == 5 { assert GroupsAroundGap(f, 5, 2); }
      else { assert GroupsAroundGap(f, 6, 1); }
    }
  }

  /** Six groups, "::", one group: the compressed form only the orchestrator's pattern has. */
  predicate SixThenOne(f: seq<string>) { |f| == 8 && GapAt(f, 6) }

  lemma SixThenOneIsNotNarrow(s: string)
    requires SixThenOne(SplitAll(s, ':'))
    ensures !Locations.IsIPv6(s)
  {
    var f := SplitAll(s, ':');
    forall k | 0 <= k < 6 ensures f[k] != "" {
      assert f[..6][k] == f[k];
    }
    assert f[7] == f[7..][0];
  }

  /** The addresses the orchestrator validates as IPv6 but LocationService does not recognise. */
  predicate InNarrowingGap(s: string) { SixThenOne(SplitAll(s, ':')) || LinkLocalWithZone(s) }

  /** The two patterns differ on exactly the "6 groups :: 1 group" form and the zone form. */
  lemma {:induction false} NarrowingGap(s: string)
    ensures Orchestrator.IsIPv6(s) && !Locations.IsIPv6(s) <==> InNarrowingGap(s)
  {
    var f := SplitAll(s, ':');
    if Locations.IsIPv6(s) {
      NarrowFormHasNoZone(s);
      if SixThenOne(f) {
        SixThenOneIsNotNarrow(s);
      }
    } else if Orchestrator.IsIPv6(s) && !LinkLocalWithZone(s) {
      CompressedAlternatives(f);
    } else if SixThenOne(f) {
      assert GroupsAroundGap(f, 6, 1);
    }
  }

  /**
   * The base URL LocationService picks for an address the orchestrator has
   * validated: the IPv6 base exactly for IPv6 forms outside the narrowing
   * gap; a gap address goes to the IPv4 base with its IPv6 text.
   */
  lemma ValidatedAddressRouting(cfg: Locations.LocationConfig, s: string)
    requires Orchestrator.IsValidIp(Some(s))
    ensures Locations.BuildUrl(cfg, s) ==
              (if Orchestrator.IsIPv6(s) && !InNarrowingGap(s) then cfg.apiUrlV6 else cfg.apiUrlV4)
              + "/" + s + "?token=" + cfg.apiKey
  {
    NarrowingGap(s);
    if !Orchestrator.IsIPv6(s) && Locations.IsIPv6(s) {
      NarrowWithinWide(s);
    }
  }

  lemma GroupsAvoidColon(groups: seq<string>)
    requires AllGroups(groups)
    ensures forall i :: 0 <= i < |groups| ==> ':' !in groups[i]
  {
    forall i | 0 <= i < |groups| ensures ':' !in groups[i] {
      assert HexGroup(groups[i]);
    }
  }

  /** Any eight hex groups joined by ':' are accepted by both patterns. */
  lemma FullFormAccepted(groups: seq<string>)
    requires |groups| == 8 && AllGroups(groups)
    ensures Locations.IsIPv6(Join(groups, ':')) && Orchestrator.IsIPv6(Join(groups, ':'))
  {
    GroupsAvoidColon(groups);
    SplitAllJoin(groups, ':');
  }

  /**
   * "left::right" with one to seven groups in all, each side non-empty: the
   * orchestrator accepts every such address, LocationService exactly those
   * with at most five groups before the "::".
   */
  lemma {:induction false} CompressedFormAccepted(left: seq<string>, right: seq<string>)
    requires |left| >= 1 && |right| >= 1 && |left| + |right| <= 7
    requires AllGroups(left) && AllGroups(right)
    ensures var s := Join(left, ':') + "::" + Join(right, ':');
            Orchestrator.IsIPv6(s) && (Locations.IsIPv6(s) <==> |left| <= 5)
  {
    var s := Join(left, ':') + "::" + Join(right, ':');
    var f := left + [""] + right;
    GapFields(left, right);
    var k := |left|;
    assert f[..k] == left && f[k + 1..] == right;
    assert GapAt(f, k);
    CompressedAlternatives(f);
    NarrowingGap(s);
  }

  /** The fields of "left::right" are the groups of both sides with one empty field between them. */
  lemma GapFields(left: seq<string>, right: seq<string>)
    requires |left| >= 1 && |right| >= 1
    requires AllGroups(left) && AllGroups(right)
    ensures SplitAll(Join(left, ':') + "::" + Join(right, ':'), ':') == left + [""] + right
  {
    GroupsAvoidColon(left);
    GroupsAvoidColon(right);
    TrailingGapFields(left);
    SplitAllJoin(right, ':');
    DoubleColon(Join(left, ':'), Join(right, ':'));
    SplitAllAppend(Join(left, ':') + [':'], ':', Join(right, ':'));
  }

  lemma DoubleColon(l: string, r: string)
    ensures l + "::" + r == (l + [':']) + [':'] + r
  {
  }

  /** The fields of "left:" are the fields of `left` and one empty field. */
  lemma TrailingGapFields(left: seq<string>)
    requires |left| >= 1
    requires forall i :: 0 <= i < |left| ==> ':' !in left[i]
    ensures SplitAll(Join(left, ':') + [':'], ':') == left + [""]
  {
    var l := Join(left, ':');
    SplitAllJoin(left, ':');
    SplitAllAppend(l, ':', "");
    assert l + [':'] + "" == l + [':'];
  }

  // ---- Concrete addresses ----

  lemma ThreeFields(a: string, b: string, c: string, sep: char)
    requires sep !in a && sep !in b && sep !in c
    ensures SplitAll(a + [sep] + b + [sep] + c, sep) == [a, b, c]
  {
    SplitAllAppend(a, sep, b);
    SplitAllAppend(a + [sep] + b, sep, c);
  }

  lemma FourFields(a: string, b: string, c: string, d: string, sep: char)
    requires sep !in a && sep !in b && sep !in c && sep !in d
    ensures SplitAll(a + [sep] + b + [sep] + c + [sep] + d, sep) == [a, b, c, d]
  {
    ThreeFields(a, b, c, sep);
    SplitAllAppend(a + [sep] + b + [sep] + c, sep, d);
  }

  lemma EightFields(a: string, b: string, c: string, d: string, e: string, f: string, g: string, h: string, sep: char)
    requires sep !in a && sep !in b && sep !in c && sep !in d
    requires sep !in e && sep !in f && sep !in g && sep !in h
    ensures SplitAll((a + [sep] + b + [sep] + c + [sep] + d) + [sep] + (e + [sep] + f + [sep] + g + [sep] + h), sep)
            == [a, b, c, d, e, f, g, h]
  {
    FourFields(a, b, c, d, sep);
    FourFields(e, f, g, h, sep);
    SplitAllAppend(a + [sep] + b + [sep] + c + [sep] + d, sep, e + [sep] + f + [sep] + g + [sep] + h);
    FourAndFour(a, b, c, d, e, f, g, h);
  }

  lemma FourAndFour(a: string, b: string, c: string, d: string, e: string, f: string, g: string, h: string)
    ensures [a, b, c, d] + [e, f, g, h] == [a, b, c, d, e, f, g, h]
  {
  }

  /** Four octets joined by '.' form an IPv4 address. */
  lemma DottedQuadForm(a: string, b: string, c: string, d: string)
    requires Octet(a) && Octet(b) && Octet(c) && Octet(d)
    ensures IsIPv4(a + ['.'] + b + ['.'] + c + ['.'] + d)
  {
    FourFields(a, b, c, d, '.');
  }

  /** One part that is not an octet spoils a dotted quad. */
  lemma BadOctetForm(a: string, b: string, c: string, d: string)
    requires '.' !in a && '.' !in b && '.' !in c && '.' !in d
    requires !Octet(a)
    ensures !IsIPv4(a + ['.'] + b + ['.'] + c + ['.'] + d)
  {
    FourFields(a, b, c, d, '.');
    assert SplitAll(a + ['.'] + b + ['.'] + c + ['.'] + d, '.')[0] == a;
  }

  lemma Ipv4IsValid(s: string)
    requires IsIPv4(s)
    ensures Orchestrator.IsValidIp(Some(s))
  {
  }

  /** A string with neither ':' nor '.' is no address. */
  lemma NoSeparatorNoAddress(s: string)
    requires ':' !in s && '.' !in s
    ensures !Orchestrator.IsValidIp(Some(s))
  {
    if Orchestrator.IsIPv6(s) {
      Ipv6HasColon(s);
    }
  }

  /** "127.0.0.1" is an IPv4 address and, for both patterns, not an IPv6 one. */
  lemma LoopbackV4Classified()
    ensures IsIPv4("127.0.0.1")
    ensures !Orchestrator.IsIPv6("127.0.0.1") && !Locations.IsIPv6("127.0.0.1")
  {
    AddressTexts.LoopbackV4Fields();
    DottedQuadForm("127", "0", "0", "1");
    NoAddressIsBoth("127.0.0.1");
  }

  /** An octet above 255 makes a dotted quad invalid; a leading zero does not. */
  lemma OctetRangeExamples()
    ensures !IsIPv4("256.0.0.1")
    ensures IsIPv4("099.0.0.1")
  {
    AddressTexts.OctetRangeFields();
    BadOctetForm("256", "0", "0", "1");
    DottedQuadForm("099", "0", "0", "1");
  }

  /** Eight groups written out are accepted by both patterns. */
  lemma EightGroupForm(a: string, b: string, c: string, d: string, e: string, f: string, g: string, h: string)
    requires HexGroup(a) && HexGroup(b) && HexGroup(c) && HexGroup(d)
    requires HexGroup(e) && HexGroup(f) && HexGroup(g) && HexGroup(h)
    ensures var s := (a + [':'] + b + [':'] + c + [':'] + d) + [':'] + (e + [':'] + f + [':'] + g + [':'] + h);
            Locations.IsIPv6(s) && Orchestrator.IsIPv6(s)
  {
    GroupsAvoidColon([a, b, c, d, e, f, g, h]);
    assert ':' !in a && ':' !in b && ':' !in c && ':' !in d;
    assert ':' !in e && ':' !in f && ':' !in g && ':' !in h;
    EightFields(a, b, c, d, e, f, g, h, ':');
  }

  /** The documentation address of the IPv6 test is accepted by both patterns. */
  lemma DocumentationAddressAccepted()
    ensures Locations.IsIPv6("2001:0db8:85a3:0000:0000:8a2e:0370:7334")
    ensures Orchestrator.IsIPv6("2001:0db8:85a3:0000:0000:8a2e:0370:7334")
  {
    AddressTexts.DocumentationAddressHalves();
    AddressTexts.DocumentationAddressFields();
    EightGroupForm("2001", "0db8", "85a3", "0000", "0000", "8a2e", "0370", "7334");
  }

  /** "::" and one group is accepted by both patterns. */
  lemma LeadingGapForm(g: string)
    requires HexGroup(g)
    ensures Locations.IsIPv6("" + [':'] + "" + [':'] + g) && Orchestrator.IsIPv6("" + [':'] + "" + [':'] + g)
  {
    assert ':' !in g by { assert HexGroup(g); }
    ThreeFields("", "", g, ':');
  }

  /** The long loopback literal is an eight-group address, accepted by both patterns. */
  lemma LongLoopbackIsIPv6()
    ensures Locations.IsIPv6("0:0:0:0:0:0:0:1") && Orchestrator.IsIPv6("0:0:0:0:0:0:0:1")
  {
    AddressTexts.LongLoopbackFields();
    EightGroupForm("0", "0", "0", "0", "0", "0", "0", "1");
  }

  /** "::1" is a compressed form, accepted by both patterns. */
  lemma ShortLoopbackIsIPv6()
    ensures Locations.IsIPv6("::1") && Orchestrator.IsIPv6("::1")
  {
    AddressTexts.ShortLoopbackFields();
    LeadingGapForm("1");
  }

  /** Six groups, "::" and one group, written out: valid for the orchestrator, not IPv6 for LocationService. */
  lemma SixThenOneForm(a: string, b: string, c: string, d: string, e: string, f: string, g: string)
    requires HexGroup(a) && HexGroup(b) && HexGroup(c) && HexGroup(d)
    requires HexGroup(e) && HexGroup(f) && HexGroup(g)
    ensures var s := (a + [':'] + b + [':'] + c + [':'] + d) + [':'] + (e + [':'] + f + [':'] + "" + [':'] + g);
            Orchestrator.IsIPv6(s) && !Locations.IsIPv6(s)
  {
    var s := (a + [':'] + b + [':'] + c + [':'] + d) + [':'] + (e + [':'] + f + [':'] + "" + [':'] + g);
    GroupsAvoidColon([a, b, c, d, e, f, g]);
    assert ':' !in a && ':' !in b && ':' !in c && ':' !in d;
    assert ':' !in e && ':' !in f && ':' !in g;
    EightFields(a, b, c, d, e, f, "", g, ':');
    SixThenOneFields(a, b, c, d, e, f, g);
    NarrowingGap(s);
  }

  lemma SixThenOneFields(a: string, b: string, c: string, d: string, e: string, f: string, g: string)
    requires HexGroup(a) && HexGroup(b) && HexGroup(c) && HexGroup(d)
    requires HexGroup(e) && HexGroup(f) && HexGroup(g)
    ensures SixThenOne([a, b, c, d, e, f, "", g])
  {
    var fields := [a, b, c, d, e, f, "", g];
    assert fields[..6] == [a, b, c, d, e, f] && fields[7..] == [g];
  }

  lemma SixThenOneExample()
    ensures Orchestrator.IsIPv6("1:2:3:4:5:6::7") && !Locations.IsIPv6("1:2:3:4:5:6::7")
  {
    AddressTexts.SixThenOneFields();
    SixThenOneForm("1", "2", "3", "4", "5", "6", "7");
  }

  /** "fe80::", one group and a zone: valid for the orchestrator, not IPv6 for LocationService. */
  lemma ZoneForm(g: string, zone: string)
    requires HexGroup(g) && ZoneId(zone)
    ensures var s := ("fe80" + [':'] + "" + [':'] + g) + ['%'] + zone;
            Orchestrator.IsIPv6(s) && !Locations.IsIPv6(s)
  {
    var s := ("fe80" + [':'] + "" + [':'] + g) + ['%'] + zone;
    ZoneFormIsLinkLocal(g, zone);
    NarrowingGap(s);
  }

  lemma ZoneFormIsLinkLocal(g: string, zone: string)
    requires HexGroup(g) && ZoneId(zone)
    ensures LinkLocalWithZone(("fe80" + [':'] + "" + [':'] + g) + ['%'] + zone)
  {
    var address := "fe80" + [':'] + "" + [':'] + g;
    var s := address + ['%'] + zone;
    assert ':' !in g && '%' !in g by { assert HexGroup(g); }
    FirstIndexAfterPrefix(address, '%', zone);
    assert s[..|address|] == address && s[|address| + 1..] == zone;
    ThreeFields("fe80", "", g, ':');
  }

  lemma ZoneExample()
    ensures Orchestrator.IsIPv6("fe80::1%eth0") && !Locations.IsIPv6("fe80::1%eth0")
  {
    AddressTexts.ZoneFields();
    ZoneForm("1", "eth0");
  }

  /** "FE80::", one group and a zone: rejected, as the pattern spells "fe80" in lower case. */
  lemma UpperZoneForm(g: string, zone: string)
    requires HexGroup(g) && ZoneId(zone)
    ensures !Orchestrator.IsIPv6(("FE80" + [':'] + "" + [':'] + g) + ['%'] + zone)
  {
    var address := "FE80" + [':'] + "" + [':'] + g;
    var s := address + ['%'] + zone;
    assert ':' !in g && '%' !in g by { assert HexGroup(g); }
    FirstIndexAfterPrefix(address, '%', zone);
    assert s[..|address|] == address;
    ThreeFields("FE80", "", g, ':');
    if Orchestrator.IsIPv6(s) {
      ZoneFormIsLowerCase(s);
    }
  }

  lemma UpperZoneExample()
    ensures !Orchestrator.IsIPv6("FE80::1%eth0")
  {
    AddressTexts.ZoneFields();
    UpperZoneForm("1", "eth0");
  }

  /** "::" alone, the unspecified address, is accepted by both patterns. */
  lemma UnspecifiedIsIPv6()
    ensures Locations.IsIPv6("::") && Orchestrator.IsIPv6("::")
  {
    AddressTexts.UnspecifiedFields();
    AllEmptyGap();
  }

  lemma AllEmptyGap()
    ensures var s := "" + [':'] + "" + [':'] + "";
            Locations.IsIPv6(s) && Orchestrator.IsIPv6(s)
  {
    ThreeFields("", "", "", ':');
  }

  /** "::ffff:" and a dotted quad: accepted by both patterns. */
  lemma MappedForm(quad: string)
    requires IsIPv4(quad)
    ensures var s := "" + [':'] + "" + [':'] + "ffff" + [':'] + quad;
            Orchestrator.IsIPv6(s) && Locations.IsIPv6(s)
  {
    Ipv4Avoids(quad, ':');
    FourFields("", "", "ffff", quad, ':');
  }

  /** With "FFFF" in capitals the mapped form is not IPv6... */
  lemma UpperMappedIsNotIPv6(quad: string)
    requires IsIPv4(quad)
    ensures !Orchestrator.IsIPv6("" + [':'] + "" + [':'] + "FFFF" + [':'] + quad)
  {
    var s := "" + [':'] + "" + [':'] + "FFFF" + [':'] + quad;
    Ipv4Avoids(quad, ':');
    Ipv4Avoids(quad, '%');
    FourFields("", "", "FFFF", quad, ':');
    Ipv4IsNoGroup(quad);
    UpperMappedFieldsNotIPv6(quad);
    UpperMappedAvoidsPercent(quad);
    NoFieldAlternative(s);
  }

  lemma UpperMappedAvoidsPercent(quad: string)
    requires '%' !in quad
    ensures '%' !in "" + [':'] + "" + [':'] + "FFFF" + [':'] + quad
  {
  }

  /** An address without '%' whose fields fit none of the field alternatives is not IPv6 for the orchestrator. */
  lemma NoFieldAlternative(s: string)
    requires '%' !in s
    requires var f := SplitAll(s, ':');
             && !EightGroups(f) && !GroupsThenGap(f) && !GapThenGroups(f) && !MappedIPv4(f) && !GroupsThenIPv4(f)
             && forall n :: !GapAt(f, n)
    ensures !Orchestrator.IsIPv6(s)
  {
  }

  /** A dotted quad holds a '.', so it is no hex group. */
  lemma Ipv4IsNoGroup(quad: string)
    requires IsIPv4(quad)
    ensures !HexGroup(quad)
  {
    assert '.' in quad;
    var k :| 0 <= k < |quad| && quad[k] == '.';
  }

  /** The fields "", "", "FFFF" and a non-group fit none of the field alternatives. */
  lemma UpperMappedFieldsNotIPv6(quad: string)
    requires !HexGroup(quad)
    ensures var f := ["", "", "FFFF", quad];
            && !EightGroups(f) && !GroupsThenGap(f) && !GapThenGroups(f) && !MappedIPv4(f) && !GroupsThenIPv4(f)
            && forall n :: !GapAt(f, n)
  {
    var f := ["", "", "FFFF", quad];
    assert "FFFF"[0] != "ffff"[0];
    assert !HexGroup(f[0]);
    assert f[2..][1] == quad;
  }

  /** ...and, as its first part holds ':', not IPv4 either. */
  lemma UpperMappedIsNotIPv4(a: string, b: string, c: string, d: string)
    requires Octet(a) && Octet(b) && Octet(c) && Octet(d)
    ensures !IsIPv4("" + [':'] + "" + [':'] + "FFFF" + [':'] + (a + ['.'] + b + ['.'] + c + ['.'] + d))
  {
    var head := "" + [':'] + "" + [':'] + "FFFF" + [':'] + a;
    assert "" + [':'] + "" + [':'] + "FFFF" + [':'] + (a + ['.'] + b + ['.'] + c + ['.'] + d)
        == head + ['.'] + b + ['.'] + c + ['.'] + d;
    assert head[0] == ':';
    BadOctetForm(head, b, c, d);
  }

  /** Hence "::FFFF:" and a dotted quad fails validation. */
  lemma UpperMappedIsInvalid(a: string, b: string, c: string, d: string)
    requires Octet(a) && Octet(b) && Octet(c) && Octet(d)
    ensures !Orchestrator.IsValidIp(Some("" + [':'] + "" + [':'] + "FFFF" + [':'] + (a + ['.'] + b + ['.'] + c + ['.'] + d)))
  {
    DottedQuadForm(a, b, c, d);
    UpperMappedIsNotIPv6(a + ['.'] + b + ['.'] + c + ['.'] + d);
    UpperMappedIsNotIPv4(a, b, c, d);
  }
}
