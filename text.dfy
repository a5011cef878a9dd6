/**
 * The pieces of java.lang.String the command router relies on: `startsWith`,
 * `split(" ", limit)` with a positive limit, `toUpperCase` (restricted to
 * ASCII letters) and `trim`, plus the customer-key normalisation built from
 * the last two.
 */
module Text {

  /** Java `startsWith`. */
  predicate StartsWith(s: string, prefix: string) {
    |prefix| <= |s| && s[..|prefix|] == prefix
  }

  /**
   * Java `s.indexOf(' ')`, with "not found" (Java's -1) given as `|s|`: the
   * position of the first space.
   */
  function FirstSpace(s: string): (i: nat)
    ensures i <= |s|
    ensures forall j :: 0 <= j < i ==> s[j] != ' '
    ensures i < |s| ==> s[i] == ' '
  {
    if s == [] || s[0] == ' ' then 0 else 1 + FirstSpace(s[1..])
  }

  /**
   * Java `s.split(" ", limit)` for a positive limit: the separator is matched
   * at most `limit - 1` times, empty pieces are kept, and the last piece holds
   * everything after the last separator matched (spaces included).
   */
  function Split(s: string, limit: nat): (parts: seq<string>)
    requires limit >= 1
    ensures 1 <= |parts| <= limit
    decreases limit
  {
    var i := FirstSpace(s);
    if limit == 1 || i == |s| then [s]
    else [s[..i]] + Split(s[i + 1..], limit - 1)
  }

  /**
   * Every piece but the last is free of spaces, and so is the last one when
   * fewer than `limit` pieces came out.
   */
  lemma SplitPieces(s: string, limit: nat)
    requires limit >= 1
    ensures var parts := Split(s, limit);
      && (forall k :: 0 <= k < |parts| - 1 ==> ' ' !in parts[k])
      && (|parts| < limit ==> ' ' !in parts[|parts| - 1])
  {
    SplitHeadsNoSpace(s, limit);
    if |Split(s, limit)| < limit {
      SplitLastNoSpace(s, limit);
    }
  }

  lemma {:induction false} SplitHeadsNoSpace(s: string, limit: nat)
    requires limit >= 1
    ensures forall k :: 0 <= k < |Split(s, limit)| - 1 ==> ' ' !in Split(s, limit)[k]
    decreases limit
  {
    var i := FirstSpace(s);
    if limit > 1 && i < |s| {
      var rest := Split(s[i + 1..], limit - 1);
      SplitHeadsNoSpace(s[i + 1..], limit - 1);
      NoSpaceBefore(s, i);
      var parts := [s[..i]] + rest;
      assert Split(s, limit) == parts;
      forall k | 0 <= k < |parts| - 1 ensures ' ' !in parts[k] {
        if k > 0 {
          assert parts[k] == rest[k - 1];
        } else {
          assert parts[k] == s[..i];
        }
      }
    }
  }

  lemma NoSpaceBefore(s: string, i: nat)
    requires i <= |s| && forall j :: 0 <= j < i ==> s[j] != ' '
    ensures ' ' !in s[..i]
  {
    forall j | 0 <= j < i ensures s[..i][j] != ' ' {
    }
  }

  lemma {:induction false} SplitLastNoSpace(s: string, limit: nat)
    requires limit >= 1 && |Split(s, limit)| < limit
    ensures ' ' !in Split(s, limit)[|Split(s, limit)| - 1]
    decreases limit
  {
    var i := FirstSpace(s);
    if limit == 1 || i == |s| {
      assert Split(s, limit) == [s];
    } else {
      assert Split(s, limit) == [s[..i]] + Split(s[i + 1..], limit - 1);
      SplitLastNoSpace(s[i + 1..], limit - 1);
    }
  }

  /** Java `String.join(" ", parts)`. */
  function Join(parts: seq<string>): string {
    if parts == [] then ""
    else if |parts| == 1 then parts[0]
    else parts[0] + " " + Join(parts[1..])
  }

  /** Splitting loses nothing: joining the pieces back with spaces gives the text. */
  lemma {:induction false} JoinSplit(s: string, limit: nat)
    requires limit >= 1
    ensures Join(Split(s, limit)) == s
    decreases limit
  {
    var i := FirstSpace(s);
    if limit == 1 || i == |s| {
      assert Split(s, limit) == [s];
    } else {
      var head, tail := s[..i], s[i + 1..];
      var rest := Split(tail, limit - 1);
      calc {
        Join(Split(s, limit));
        { assert Split(s, limit) == [head] + rest; }
        Join([head] + rest);
        { JoinCons(head, rest); }
        head + " " + Join(rest);
        { JoinSplit(tail, limit - 1); }
        head + " " + tail;
        { CutAtSpace(s, i); }
        s;
      }
    }
  }

  /** A text is what comes before one of its spaces, the space, and what follows. */
  lemma CutAtSpace(s: string, i: nat)
    requires i < |s| && s[i] == ' '
    ensures s == s[..i] + " " + s[i + 1..]
  {
    assert s == s[..i] + [s[i]] + s[i + 1..];
  }

  lemma JoinCons(a: string, rest: seq<string>)
    requires rest != []
    ensures Join([a] + rest) == a + " " + Join(rest)
  {
    assert ([a] + rest)[1..] == rest;
  }

  /** The first space of `a + " " + b` is the one after `a` when `a` has none. */
  lemma {:induction false} FirstSpaceAfter(a: string, b: string)
    requires ' ' !in a
    ensures FirstSpace(a + " " + b) == |a|
  {
    var s := a + " " + b;
    if a != [] {
      assert s[1..] == a[1..] + " " + b;
      FirstSpaceAfter(a[1..], b);
    }
  }

  /** Splitting at the first space. */
  lemma SplitFirst(a: string, b: string, limit: nat)
    requires limit >= 2 && ' ' !in a
    ensures Split(a + " " + b, limit) == [a] + Split(b, limit - 1)
  {
    var s := a + " " + b;
    FirstSpaceAfter(a, b);
    assert s[..|a|] == a;
    assert s[|a| + 1..] == b;
  }

  /**
   * Conversely, the contract of Split determines its result: any pieces that
   * obey it are what Split returns for their join.
   */
  lemma {:induction false} SplitJoin(parts: seq<string>, limit: nat)
    requires 1 <= |parts| <= limit
    requires forall k :: 0 <= k < |parts| - 1 ==> ' ' !in parts[k]
    requires |parts| < limit ==> ' ' !in parts[|parts| - 1]
    ensures Split(Join(parts), limit) == parts
    decreases limit
  {
    if |parts| == 1 {
      assert Join(parts) == parts[0];
      if limit > 1 {
        assert FirstSpace(parts[0]) == |parts[0]|;
      }
    } else {
      SplitJoin(parts[1..], limit - 1);
      SplitFirst(parts[0], Join(parts[1..]), limit);
      assert [parts[0]] + parts[1..] == parts;
    }
  }

  /** Characters Java's `trim` strips: code points at or below the space. */
  predicate IsTrimmable(c: char) {
    c <= ' '
  }

  /** Leading trimmable characters removed. */
  function TrimStart(s: string): (r: string)
    ensures |r| <= |s|
  {
    if s != [] && IsTrimmable(s[0]) then TrimStart(s[1..]) else s
  }

  /** Trailing trimmable characters removed. */
  function TrimEnd(s: string): (r: string)
    ensures |r| <= |s|
  {
    if s != [] && IsTrimmable(s[|s| - 1]) then TrimEnd(s[..|s| - 1]) else s
  }

  /** Java `trim`. */
  function Trim(s: string): string {
    TrimEnd(TrimStart(s))
  }

  /** TrimStart drops a run of trimmable characters and stops at the first other one. */
  lemma {:induction false} TrimStartSpec(s: string)
    ensures var r := TrimStart(s);
      && r == s[|s| - |r|..]
      && (r == [] || !IsTrimmable(r[0]))
      && (forall k :: 0 <= k < |s| - |r| ==> IsTrimmable(s[k]))
  {
    if s != [] && IsTrimmable(s[0]) {
      TrimStartSpec(s[1..]);
      var r := TrimStart(s);
      forall k | 0 <= k < |s| - |r| ensures IsTrimmable(s[k]) {
        if k > 0 { assert s[k] == s[1..][k - 1]; }
      }
    }
  }

  /** TrimEnd drops a run of trimmable characters at the end and stops at the last other one. */
  lemma {:induction false} TrimEndSpec(s: string)
    ensures var r := TrimEnd(s);
      && r == s[..|r|]
      && (r == [] || !IsTrimmable(r[|r| - 1]))
      && (forall k :: |r| <= k < |s| ==> IsTrimmable(s[k]))
  {
    if s != [] && IsTrimmable(s[|s| - 1]) {
      TrimEndSpec(s[..|s| - 1]);
      var r := TrimEnd(s);
      forall k | |r| <= k < |s| ensures IsTrimmable(s[k]) {
        if k < |s| - 1 { assert s[k] == s[..|s| - 1][k]; }
      }
    }
  }

  /**
   * ASCII upper-casing of one character: the result is never a lower-case
   * letter, and only a lower-case letter changes, into its capital.
   */
  function UpperChar(c: char): (u: char)
    ensures !('a' <= u <= 'z')
    ensures u != c <==> 'a' <= c <= 'z'
    ensures 'a' <= c <= 'z' ==> 'A' <= u <= 'Z' && u as int - 'A' as int == c as int - 'a' as int
  {
    if 'a' <= c <= 'z' then (c as int - 32) as char else c
  }

  /** `toUpperCase`, restricted to the ASCII letters. */
  function ToUpper(s: string): (r: string)
    ensures |r| == |s|
    ensures forall k :: 0 <= k < |s| ==> r[k] == UpperChar(s[k])
    ensures forall k :: 0 <= k < |r| ==> !('a' <= r[k] <= 'z')
  {
    seq(|s|, k requires 0 <= k < |s| => UpperChar(s[k]))
  }

  /** Upper-casing twice is upper-casing once. */
  lemma ToUpperIdempotent(s: string)
    ensures ToUpper(ToUpper(s)) == ToUpper(s)
  {
    UpperOfUpper(ToUpper(s));
  }

  /** The customer key: `toUpperCase().trim()`. */
  function NormalizeKey(s: string): string {
    Trim(ToUpper(s))
  }

  /** A string that normalisation leaves as it is. */
  predicate IsKey(s: string) {
    NormalizeKey(s) == s
  }

  lemma TrimOfTrimmed(s: string)
    requires s == [] || (!IsTrimmable(s[0]) && !IsTrimmable(s[|s| - 1]))
    ensures Trim(s) == s
  {
    assert TrimStart(s) == s;
  }

  /** Trimmed text has no trimmable character at either end. */
  lemma TrimEnds(s: string)
    ensures var r := Trim(s);
      r == [] || (!IsTrimmable(r[0]) && !IsTrimmable(r[|r| - 1]))
  {
    var t := TrimStart(s);
    TrimStartSpec(s);
    TrimEndSpec(t);
    var r := TrimEnd(t);
    if r != [] {
      assert r[0] == t[0];
    }
  }

  /** Every character is its own upper case. */
  predicate IsUpper(s: string) {
    forall k :: 0 <= k < |s| ==> UpperChar(s[k]) == s[k]
  }

  lemma UpperOfUpper(s: string)
    requires IsUpper(s)
    ensures ToUpper(s) == s
  {
  }

  lemma UpperOfTrim(u: string)
    requires IsUpper(u)
    ensures IsUpper(Trim(u))
  {
    var ts := TrimStart(u);
    TrimStartSpec(u);
    assert IsUpper(ts) by {
      forall k | 0 <= k < |ts| ensures UpperChar(ts[k]) == ts[k] {
        assert ts[k] == u[|u| - |ts| + k];
      }
    }
    var k := TrimEnd(ts);
    TrimEndSpec(ts);
    forall i | 0 <= i < |k| ensures UpperChar(k[i]) == k[i] {
      assert k[i] == ts[i];
    }
  }

  /**
   * Normalising an already normalised key changes nothing, so a key stored by
   * one command matches the key computed again by a later lookup.
   */
  lemma NormalizeKeyIdempotent(s: string)
    ensures IsKey(NormalizeKey(s))
  {
    var u := ToUpper(s);
    assert IsUpper(u);
    var k := Trim(u);
    UpperOfTrim(u);
    UpperOfUpper(k);
    TrimEnds(u);
    TrimOfTrimmed(k);
  }

  /** Java `Integer.toString` for the decimal digits of a non-negative number. */
  function NatToDecimal(n: nat): (r: string)
    ensures |r| >= 1
    ensures forall k :: 0 <= k < |r| ==> '0' <= r[k] <= '9'
  {
    if n < 10 then [('0' as int + n) as char]
    else NatToDecimal(n / 10) + [('0' as int + n % 10) as char]
  }

  /** Java `Integer.toString`. */
  function IntToDecimal(n: int): (r: string)
    ensures |r| >= 1 && '0' <= r[|r| - 1] <= '9'
    ensures r[0] == '-' <==> n < 0
    ensures forall k :: 0 <= k < |r| && !(k == 0 && n < 0) ==> '0' <= r[k] <= '9'
  {
    if n < 0 then "-" + NatToDecimal(-n) else NatToDecimal(n)
  }

  /**
   * A character that is in no case a capital letter and is absent from a
   * text is absent from its customer key.
   */
  lemma NormalizeKeyWithout(s: string, c: char)
    requires c !in s && !('A' <= c <= 'Z')
    ensures c !in NormalizeKey(s)
  {
    var u := ToUpper(s);
    assert c !in u;
    var t := TrimStart(u);
    TrimStartSpec(u);
    TrimEndSpec(t);
  }
}
