/**
 * The few behaviours of java.lang.String that the weather service relies on:
 * rendering null as text, splitting at a separator, trim(), and the
 * case-insensitive comparison with "unknown".
 */
module JavaStrings {
  import opened Wrappers

  /** How `"..." + s` and `String.format("%s", s)` render a possibly-null string. */
  function JavaText(s: Option<string>): (t: string)
    ensures s.Some? ==> t == s.value
    ensures s.None? ==> t == "null"
  {
    match s
    case Some(v) => v
    case None => "null"
  }

  /** Position of the first occurrence of `c` in `s` (String.indexOf). */
  function FirstIndex(s: string, c: char): (i: nat)
    requires c in s
    ensures i < |s| && s[i] == c
    ensures c !in s[..i]
  {
    if s[0] == c then 0
    else
      assert c in s[1..] by { var k :| 0 <= k < |s| && s[k] == c; assert s[1..][k - 1] == c; }
      var j := FirstIndex(s[1..], c);
      assert s[..j + 1] == [s[0]] + s[1..][..j];
      1 + j
  }

  /** The first occurrence of `c` after a prefix free of `c` is right after that prefix. */
  lemma FirstIndexAfterPrefix(a: string, c: char, b: string)
    requires c !in a
    ensures c in a + [c] + b
    ensures FirstIndex(a + [c] + b, c) == |a|
  {
    var s := a + [c] + b;
    assert s[|a|] == c;
    var i := FirstIndex(s, c);
    assert s[..|a|] == a;
    if i < |a| {
      assert false;
    } else if i > |a| {
      assert false;
    }
  }

  /** Inverse of SplitAll: the fields glued back together with the separator. */
  function Join(fields: seq<string>, sep: char): string
  {
    if |fields| == 0 then ""
    else if |fields| == 1 then fields[0]
    else fields[0] + [sep] + Join(fields[1..], sep)
  }

  /**
   * Every field of `s` between occurrences of `sep`, empty fields included, in order.
   * This is the lexical reading a regular expression such as `(H:){n}(:H){m}` relies on.
   */
  function SplitAll(s: string, sep: char): (fields: seq<string>)
    ensures |fields| >= 1
    ensures forall i :: 0 <= i < |fields| ==> sep !in fields[i]
    ensures sep !in s ==> fields == [s]
    decreases |s|
  {
    if sep !in s then [s]
    else
      var i := FirstIndex(s, sep);
      [s[..i]] + SplitAll(s[i + 1..], sep)
  }

  /** Joining the fields with the separator gives back the string. */
  lemma {:induction false} JoinSplitAll(s: string, sep: char)
    ensures Join(SplitAll(s, sep), sep) == s
    decreases |s|
  {
    if sep in s {
      var i := FirstIndex(s, sep);
      JoinSplitAll(s[i + 1..], sep);
      assert s == s[..i] + [sep] + s[i + 1..];
    }
  }

  /** Splitting peels off a leading field that holds no separator. */
  lemma SplitAllCons(a: string, sep: char, b: string)
    requires sep !in a
    ensures SplitAll(a + [sep] + b, sep) == [a] + SplitAll(b, sep)
  {
    var s := a + [sep] + b;
    FirstIndexAfterPrefix(a, sep, b);
    assert s[..|a|] == a;
    assert s[|a| + 1..] == b;
  }

  /** Join then SplitAll gives back the fields, provided none of them holds the separator. */
  lemma {:induction false} SplitAllJoin(fields: seq<string>, sep: char)
    requires |fields| >= 1
    requires forall i :: 0 <= i < |fields| ==> sep !in fields[i]
    ensures SplitAll(Join(fields, sep), sep) == fields
    decreases |fields|
  {
    if |fields| > 1 {
      SplitAllCons(fields[0], sep, Join(fields[1..], sep));
      SplitAllJoin(fields[1..], sep);
      assert fields == [fields[0]] + fields[1..];
    }
  }

  /** Joining two non-empty runs of fields puts one separator between their joins. */
  lemma {:induction false} JoinAppend(a: seq<string>, b: seq<string>, sep: char)
    requires |a| >= 1 && |b| >= 1
    ensures Join(a + b, sep) == Join(a, sep) + [sep] + Join(b, sep)
    decreases |a|
  {
    assert (a + b)[0] == a[0];
    if |a| == 1 {
      assert (a + b)[1..] == b;
    } else {
      assert (a + b)[1..] == a[1..] + b;
      JoinAppend(a[1..], b, sep);
    }
  }

  /** Splitting at one separator splits each side independently. */
  lemma SplitAllAppend(x: string, sep: char, y: string)
    ensures SplitAll(x + [sep] + y, sep) == SplitAll(x, sep) + SplitAll(y, sep)
  {
    JoinSplitAll(x, sep);
    JoinSplitAll(y, sep);
    SplitAllJoinAppend(SplitAll(x, sep), SplitAll(y, sep), sep);
  }

  /** Two runs of separator-free fields, joined and glued with one separator, split back into both runs. */
  lemma SplitAllJoinAppend(a: seq<string>, b: seq<string>, sep: char)
    requires |a| >= 1 && |b| >= 1
    requires forall i :: 0 <= i < |a| ==> sep !in a[i]
    requires forall i :: 0 <= i < |b| ==> sep !in b[i]
    ensures SplitAll(Join(a, sep) + [sep] + Join(b, sep), sep) == a + b
  {
    JoinAppend(a, b, sep);
    forall i | 0 <= i < |a + b| ensures sep !in (a + b)[i] {
      if i < |a| { assert (a + b)[i] == a[i]; }
      else { assert (a + b)[i] == b[i - |a|]; }
    }
    SplitAllJoin(a + b, sep);
  }

  /** A character absent from every field and distinct from the separator is absent from the join. */
  lemma {:induction false} JoinAvoids(fields: seq<string>, sep: char, c: char)
    requires c != sep
    requires forall i :: 0 <= i < |fields| ==> c !in fields[i]
    ensures c !in Join(fields, sep)
    decreases |fields|
  {
    if |fields| > 1 {
      JoinAvoids(fields[1..], sep, c);
    }
  }

  /**
   * Element 0 of Java's `s.split(sep)` for a one-character, non-regex separator:
   * the text before the first separator. Java drops trailing empty fields, so
   * a non-empty string made of separators only splits into an empty array and
   * element 0 does not exist (None).
   */
  function SplitFirst(s: string, sep: char): (first: Option<string>)
    ensures first.None? <==> |s| > 0 && forall i :: 0 <= i < |s| ==> s[i] == sep
    ensures first.Some? ==> first.value == SplitAll(s, sep)[0]
  {
    if sep !in s then
      assert |s| > 0 ==> s[0] != sep;
      Some(s)
    else if forall i :: 0 <= i < |s| ==> s[i] == sep then None
    else Some(s[..FirstIndex(s, sep)])
  }

  /** The characters trim() removes: every code point up to and including the space. */
  predicate IsTrimmable(c: char) { c <= ' ' }

  /** Index of the first character of `s` at or after `i` that trim() keeps, or |s|. */
  function StartOfKept(s: string, i: nat): (a: nat)
    requires i <= |s|
    ensures i <= a <= |s|
    ensures forall k :: i <= k < a ==> IsTrimmable(s[k])
    ensures a == |s| || !IsTrimmable(s[a])
    decreases |s| - i
  {
    if i < |s| && IsTrimmable(s[i]) then StartOfKept(s, i + 1) else i
  }

  /** Index just past the last character of `s[a..b]` that trim() keeps, or `a`. */
  function EndOfKept(s: string, a: nat, b: nat): (e: nat)
    requires a <= b <= |s|
    ensures a <= e <= b
    ensures forall k :: e <= k < b ==> IsTrimmable(s[k])
    ensures e == a || !IsTrimmable(s[e - 1])
  {
    if a < b && IsTrimmable(s[b - 1]) then EndOfKept(s, a, b - 1) else b
  }

  /** `r` is the slice of `s` that starts at `a`, and everything outside it is trimmable. */
  predicate TrimmedAt(s: string, a: int, r: string) {
    && 0 <= a <= a + |r| <= |s| && r == s[a..a + |r|]
    && (forall k :: 0 <= k < a ==> IsTrimmable(s[k]))
    && (forall k :: a + |r| <= k < |s| ==> IsTrimmable(s[k]))
  }

  /**
   * String.trim(): `s` without its leading and trailing characters up to the
   * space. The result is a slice of `s` framed by trimmable characters only,
   * and neither its first nor its last character is trimmable.
   */
  function Trim(s: string): (r: string)
    ensures exists a :: TrimmedAt(s, a, r)
    ensures r == [] || (!IsTrimmable(r[0]) && !IsTrimmable(r[|r| - 1]))
  {
    var a := StartOfKept(s, 0);
    var e := EndOfKept(s, a, |s|);
    assert TrimmedAt(s, a, s[a..e]);
    s[a..e]
  }

  /**
   * Whether one character of `s` equals the lower-case ASCII letter `lower`
   * under String.equalsIgnoreCase: the letter itself, its upper-case form, or,
   * for 'k', U+212A KELVIN SIGN, whose lower-case form Java takes to be 'k'.
   */
  predicate SameLetterIgnoringCase(c: char, lower: char)
    requires 'a' <= lower <= 'z'
  {
    c == lower || c == (lower as int - 32) as char || (lower == 'k' && c == '\U{212A}')
  }

  /** `"unknown".equalsIgnoreCase(s)` for a non-null `s`. */
  predicate IsUnknownIgnoringCase(s: string) {
    |s| == 7 && forall i :: 0 <= i < 7 ==> SameLetterIgnoringCase(s[i], "unknown"[i])
  }

  /** Trim keeps a string that neither starts nor ends with a trimmable character. */
  lemma TrimKeepsFramed(s: string)
    requires s == [] || (!IsTrimmable(s[0]) && !IsTrimmable(s[|s| - 1]))
    ensures Trim(s) == s
  {
    var a := StartOfKept(s, 0);
    var e := EndOfKept(s, a, |s|);
    if s != [] {
      assert a == 0;
      assert e == |s|;
    }
  }

  /** Trim only removes characters: whatever is absent from `s` is absent from Trim(s). */
  lemma TrimAvoids(s: string, c: char)
    requires c !in s
    ensures c !in Trim(s)
  {
  }
}
