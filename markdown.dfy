/**
 * Escaping for Telegram's MarkdownV2 parse mode, as `escapeMarkdown` does it:
 * eighteen `String.replace` calls in a row, each putting a backslash before
 * every occurrence of one special character. Also the way a MarkdownV2 reader
 * takes the escapes out again, which shows that a backslash in the input is
 * not escaped, and the corrected escaper that escapes it first.
 */
module Markdown {

  /** The characters `escapeMarkdown` escapes, in the order it replaces them. */
  const Specials: seq<char> :=
    ['_', '*', '[', ']', '(', ')', '~', '`', '>', '#', '+', '-', '=', '|', '{', '}', '.', '!']

  predicate Distinct(t: seq<char>) {
    forall i, j :: 0 <= i < j < |t| ==> t[i] != t[j]
  }

  /** Java `s.replace(c, "\\" + c)` for a one-character target. */
  function ReplaceChar(s: string, c: char): string {
    if s == [] then []
    else (if s[0] == c then ['\\', c] else [s[0]]) + ReplaceChar(s[1..], c)
  }

  /**
   * The replacements of `table`, applied one after the other, each to the
   * whole text: the last one is applied to what the others produced.
   */
  function ReplaceChain(s: string, table: seq<char>): string
    decreases |table|
  {
    if |table| == 0 then s
    else ReplaceChar(ReplaceChain(s, table[..|table| - 1]), table[|table| - 1])
  }

  /** `escapeMarkdown`: the chain of replacements over the whole table. */
  function EscapeMarkdown(text: string): string {
    ReplaceChain(text, Specials)
  }

  /** One character escaped against a table: a backslash before it if it is in the table. */
  function EscapeChar(c: char, table: seq<char>): string {
    if c in table then ['\\', c] else [c]
  }

  /** Character-by-character escaping against a table. */
  function EscapeEach(s: string, table: seq<char>): string {
    if s == [] then [] else EscapeChar(s[0], table) + EscapeEach(s[1..], table)
  }

  lemma {:induction false} EscapeEachConcat(a: string, b: string, table: seq<char>)
    ensures EscapeEach(a + b, table) == EscapeEach(a, table) + EscapeEach(b, table)
  {
    if a != [] {
      assert (a + b)[1..] == a[1..] + b;
      EscapeEachConcat(a[1..], b, table);
    } else {
      assert a + b == b;
    }
  }

  lemma {:induction false} ReplaceCharConcat(a: string, b: string, c: char)
    ensures ReplaceChar(a + b, c) == ReplaceChar(a, c) + ReplaceChar(b, c)
  {
    if a != [] {
      assert (a + b)[1..] == a[1..] + b;
      ReplaceCharConcat(a[1..], b, c);
    } else {
      assert a + b == b;
    }
  }

  lemma {:induction false} EscapeEachEmptyTable(s: string)
    ensures EscapeEach(s, []) == s
  {
    if s != [] {
      EscapeEachEmptyTable(s[1..]);
    }
  }

  /**
   * One more replacement on text already escaped against `done`: since `c` is
   * not already done, and not a backslash unless it is the first replacement,
   * it only touches the raw occurrences of `c`, and the result is the text
   * escaped against `done + [c]`.
   */
  lemma {:induction false} ReplaceAfterEscape(s: string, done: seq<char>, c: char)
    requires (c != '\\' || done == []) && c !in done
    ensures ReplaceChar(EscapeEach(s, done), c) == EscapeEach(s, done + [c])
  {
    if s != [] {
      var head := EscapeChar(s[0], done);
      ReplaceCharConcat(head, EscapeEach(s[1..], done), c);
      ReplaceAfterEscape(s[1..], done, c);
      if s[0] in done {
        assert ReplaceChar(head, c) == ['\\', s[0]];
      } else {
        assert ReplaceChar(head, c) == (if s[0] == c then ['\\', c] else [s[0]]);
      }
      assert ReplaceChar(head, c) == EscapeChar(s[0], done + [c]);
    }
  }

  /**
   * A chain of distinct replacements, none of a backslash except perhaps the
   * first, escapes character by character.
   */
  lemma {:induction false} ChainIsPerChar(s: string, table: seq<char>)
    requires Distinct(table) && forall i :: 0 < i < |table| ==> table[i] != '\\'
    ensures ReplaceChain(s, table) == EscapeEach(s, table)
    decreases |table|
  {
    if |table| == 0 {
      EscapeEachEmptyTable(s);
    } else {
      var init, c := table[..|table| - 1], table[|table| - 1];
      assert init + [c] == table;
      assert forall i :: 0 < i < |init| ==> init[i] == table[i];
      assert c !in init by {
        forall i | 0 <= i < |init| ensures init[i] != c {
          assert table[i] == init[i];
        }
      }
      ChainIsPerChar(s, init);
      ReplaceAfterEscape(s, init, c);
    }
  }

  lemma SpecialsDistinct()
    ensures Distinct(Specials) && '\\' !in Specials
  {
    forall i | 0 <= i < |Specials| ensures SpecialIndex(Specials[i]) == i {
    }
  }

  /** Where a character stands among the specials (18 when it is none of them). */
  function SpecialIndex(c: char): nat {
    if c == '_' then 0
    else if c == '*' then 1
    else if c == '[' then 2
    else if c == ']' then 3
    else if c == '(' then 4
    else if c == ')' then 5
    else if c == '~' then 6
    else if c == '`' then 7
    else if c == '>' then 8
    else if c == '#' then 9
    else if c == '+' then 10
    else if c == '-' then 11
    else if c == '=' then 12
    else if c == '|' then 13
    else if c == '{' then 14
    else if c == '}' then 15
    else if c == '.' then 16
    else if c == '!' then 17
    else 18
  }

  /**
   * The chain of eighteen replacements is exactly per-character escaping: each
   * special character is replaced by a backslash and itself, every other
   * character (backslash included) is kept, and no inserted backslash is
   * escaped again.
   */
  lemma EscapeMarkdownIsPerChar(text: string)
    ensures EscapeMarkdown(text) == EscapeEach(text, Specials)
  {
    SpecialsDistinct();
    ChainIsPerChar(text, Specials);
  }

  /** Number of special characters in a text. */
  function CountSpecials(s: string): nat {
    if s == [] then 0 else (if s[0] in Specials then 1 else 0) + CountSpecials(s[1..])
  }

  /** Escaping adds exactly one character per special character. */
  lemma {:induction false} EscapeMarkdownLength(text: string)
    ensures |EscapeMarkdown(text)| == |text| + CountSpecials(text)
  {
    EscapeMarkdownIsPerChar(text);
    EscapeEachLength(text);
  }

  lemma {:induction false} EscapeEachLength(s: string)
    ensures |EscapeEach(s, Specials)| == |s| + CountSpecials(s)
  {
    if s != [] {
      EscapeEachLength(s[1..]);
    }
  }

  /** Escaping distributes over concatenation. */
  lemma EscapeMarkdownConcat(a: string, b: string)
    ensures EscapeMarkdown(a + b) == EscapeMarkdown(a) + EscapeMarkdown(b)
  {
    EscapeMarkdownIsPerChar(a + b);
    EscapeMarkdownIsPerChar(a);
    EscapeMarkdownIsPerChar(b);
    EscapeEachConcat(a, b, Specials);
  }

  /** In escaped text every special character stands right after a backslash. */
  predicate Safe(t: string) {
    forall k :: 0 <= k < |t| && t[k] in Specials ==> k > 0 && t[k - 1] == '\\'
  }

  lemma {:induction false} EscapeEachSafe(s: string)
    ensures Safe(EscapeEach(s, Specials))
  {
    if s != [] {
      EscapeEachSafe(s[1..]);
      var head := EscapeChar(s[0], Specials);
      var tail := EscapeEach(s[1..], Specials);
      var t := head + tail;
      forall k | 0 <= k < |t| && t[k] in Specials ensures k > 0 && t[k - 1] == '\\' {
        if k >= |head| {
          assert t[k] == tail[k - |head|];
          if k > |head| {
            assert t[k - 1] == tail[k - 1 - |head|];
          }
        }
      }
    }
  }

  lemma EscapeMarkdownSafe(text: string)
    ensures Safe(EscapeMarkdown(text))
  {
    EscapeMarkdownIsPerChar(text);
    EscapeEachSafe(text);
  }

  /**
   * The inverse of `escapeMarkdown`: a backslash followed by a special
   * character stands for that character; every other character stands for
   * itself. This is not how MarkdownV2 reads a backslash (see `Read`).
   */
  function Unescape(t: string): string
    decreases |t|
  {
    if t == [] then []
    else if |t| >= 2 && t[0] == '\\' && t[1] in Specials then [t[1]] + Unescape(t[2..])
    else [t[0]] + Unescape(t[1..])
  }

  lemma {:induction false} UnescapeEscapeEach(s: string)
    ensures Unescape(EscapeEach(s, Specials)) == s
  {
    if s != [] {
      var tail := EscapeEach(s[1..], Specials);
      UnescapeEscapeEach(s[1..]);
      if s[1..] != [] {
        EscapeEachHead(s[1..]);
      }
      if s[0] in Specials {
        var t := ['\\', s[0]] + tail;
        assert t[2..] == tail;
      } else {
        var t := [s[0]] + tail;
        assert t[1..] == tail;
        assert |t| >= 2 ==> t[1] == tail[0];
      }
    }
  }

  lemma EscapeEachHead(s: string)
    requires s != []
    ensures EscapeEach(s, Specials) != [] && EscapeEach(s, Specials)[0] !in Specials
  {
    var head := EscapeChar(s[0], Specials);
    assert EscapeEach(s, Specials)[0] == head[0];
    assert '\\' !in Specials;
  }

  /** Reading back escaped text gives the original: no two texts escape alike. */
  lemma UnescapeEscapeMarkdown(text: string)
    ensures Unescape(EscapeMarkdown(text)) == text
  {
    EscapeMarkdownIsPerChar(text);
    UnescapeEscapeEach(text);
  }

  lemma EscapeMarkdownInjective(a: string, b: string)
    ensures EscapeMarkdown(a) == EscapeMarkdown(b) ==> a == b
  {
    UnescapeEscapeMarkdown(a);
    UnescapeEscapeMarkdown(b);
  }

  /** Escaped text never starts with a special character. */
  lemma EscapeMarkdownHead(text: string)
    ensures var e := EscapeMarkdown(text);
      e == [] || e[0] !in Specials
  {
    EscapeMarkdownSafe(text);
  }

  lemma {:induction false} EscapeEachLast(s: string)
    requires s != []
    ensures var e := EscapeEach(s, Specials);
      e != [] && e[|e| - 1] == s[|s| - 1]
  {
    var head := EscapeChar(s[0], Specials);
    if |s| == 1 {
      assert EscapeEach(s, Specials) == head + [];
    } else {
      EscapeEachLast(s[1..]);
      assert s[1..][|s[1..]| - 1] == s[|s| - 1];
    }
  }

  /** Escaping keeps the last character (a backslash is only ever put in front). */
  lemma EscapeMarkdownLast(text: string)
    requires text != []
    ensures var e := EscapeMarkdown(text);
      e != [] && e[|e| - 1] == text[|text| - 1]
  {
    EscapeMarkdownIsPerChar(text);
    EscapeEachLast(text);
  }

  // ---------------------------------------------------------------------------
  // How a MarkdownV2 reader takes the escapes out
  // ---------------------------------------------------------------------------

  /** The characters a backslash escapes under MarkdownV2: codes 1 to 126. */
  predicate Escapable(c: char) {
    1 <= c as int <= 126
  }

  /**
   * What a MarkdownV2 reader shows of a text, markup markers left in place:
   * a backslash followed by an escapable character stands for that
   * character, whatever it is; every other character stands for itself.
   */
  function Read(t: string): string
    decreases |t|
  {
    if t == [] then []
    else if |t| >= 2 && t[0] == '\\' && Escapable(t[1]) then [t[1]] + Read(t[2..])
    else [t[0]] + Read(t[1..])
  }

  /** Every backslash of the text opens an escape pair inside it. */
  predicate Paired(t: string)
    decreases |t|
  {
    if t == [] then true
    else if t[0] == '\\' then |t| >= 2 && Escapable(t[1]) && Paired(t[2..])
    else Paired(t[1..])
  }

  /**
   * Text without MarkdownV2 markup: every backslash opens an escape pair, and
   * no special character stands outside a pair.
   */
  predicate Plain(t: string)
    decreases |t|
  {
    if t == [] then true
    else if t[0] == '\\' then |t| >= 2 && Escapable(t[1]) && Plain(t[2..])
    else t[0] !in Specials && Plain(t[1..])
  }

  lemma {:induction false} PlainIsPaired(t: string)
    requires Plain(t)
    ensures Paired(t)
    decreases |t|
  {
    if t != [] {
      if t[0] == '\\' { PlainIsPaired(t[2..]); } else { PlainIsPaired(t[1..]); }
    }
  }

  /** A text whose backslashes all pair up inside it reads the same whatever follows it. */
  lemma {:induction false} ReadConcat(a: string, b: string)
    requires Paired(a)
    ensures Read(a + b) == Read(a) + Read(b)
    decreases |a|
  {
    var t := a + b;
    if a == [] {
      assert t == b;
    } else if a[0] == '\\' {
      assert t[0] == a[0] && t[1] == a[1];
      assert t[2..] == a[2..] + b;
      ReadConcat(a[2..], b);
    } else {
      assert t[0] == a[0];
      assert t[1..] == a[1..] + b;
      ReadConcat(a[1..], b);
    }
  }

  lemma {:induction false} PairedConcat(a: string, b: string)
    requires Paired(a) && Paired(b)
    ensures Paired(a + b)
    decreases |a|
  {
    var t := a + b;
    if a == [] {
      assert t == b;
    } else if a[0] == '\\' {
      assert t[2..] == a[2..] + b;
      PairedConcat(a[2..], b);
    } else {
      assert t[1..] == a[1..] + b;
      PairedConcat(a[1..], b);
    }
  }

  lemma {:induction false} PlainConcat(a: string, b: string)
    requires Plain(a) && Plain(b)
    ensures Plain(a + b)
    decreases |a|
  {
    var t := a + b;
    if a == [] {
      assert t == b;
    } else if a[0] == '\\' {
      assert t[2..] == a[2..] + b;
      PlainConcat(a[2..], b);
    } else {
      assert t[1..] == a[1..] + b;
      PlainConcat(a[1..], b);
    }
  }

  /**
   * `escapeMarkdown` as written leaves a backslash alone, and MarkdownV2 then
   * reads it as escaping the character after it: a backslash before `n` (as
   * in a GEO `C:\new`) is shown as `n` alone, and a backslash before `_` (as
   * in a tag `a\_b`) escapes to two backslashes and a `_`, which is a bare
   * italic marker once the reader has paired the two backslashes.
   */
  lemma EscapeMarkdownLosesBackslash()
    ensures EscapeMarkdown("\\n") == "\\n" && Read(EscapeMarkdown("\\n")) == "n"
    ensures EscapeMarkdown("\\_") == "\\\\_" && !Plain(EscapeMarkdown("\\_"))
  {
    BackslashShownAway();
    BackslashOpensMarkup();
  }

  lemma BackslashShownAway()
    ensures EscapeMarkdown("\\n") == "\\n" && Read("\\n") == "n"
  {
    var geo := "\\n";
    EscapeMarkdownIsPerChar(geo);
    assert '\\' !in Specials && 'n' !in Specials;
    NoSpecialsKept(geo);
    assert Read(geo) == [geo[1]] + Read(geo[2..]);
  }

  lemma BackslashOpensMarkup()
    ensures EscapeMarkdown("\\_") == "\\\\_" && !Plain("\\\\_")
  {
    var tag := "\\_";
    EscapeMarkdownIsPerChar(tag);
    assert '\\' !in Specials && '_' in Specials;
    assert EscapeEach(tag[1..], Specials) == "\\_" + EscapeEach(tag[2..], Specials);
    var e := "\\\\_";
    assert e[2..] == "_";
  }

  lemma {:induction false} NoSpecialsKept(s: string)
    requires forall k :: 0 <= k < |s| ==> s[k] !in Specials
    ensures EscapeEach(s, Specials) == s
  {
    if s != [] {
      NoSpecialsKept(s[1..]);
    }
  }

  /** The table of the corrected escaper: the backslash first, then the eighteen. */
  const Reserved: seq<char> := ['\\'] + Specials

  /** `escapeMarkdown` with `replace("\\", "\\\\")` put in front of the chain. */
  function EscapeMarkdownCorrected(text: string): string {
    ReplaceChain(text, Reserved)
  }

  lemma ReservedTable()
    ensures Distinct(Reserved) && forall i :: 0 < i < |Reserved| ==> Reserved[i] != '\\'
    ensures forall c :: c in Reserved ==> Escapable(c)
  {
    SpecialsDistinct();
    assert forall i :: 0 < i < |Reserved| ==> Reserved[i] == Specials[i - 1];
  }

  lemma EscapeMarkdownCorrectedIsPerChar(text: string)
    ensures EscapeMarkdownCorrected(text) == EscapeEach(text, Reserved)
  {
    ReservedTable();
    ChainIsPerChar(text, Reserved);
  }

  lemma {:induction false} ReadEscapeEach(s: string)
    ensures var e := EscapeEach(s, Reserved);
      Plain(e) && Read(e) == s
  {
    if s != [] {
      ReservedTable();
      var tail := EscapeEach(s[1..], Reserved);
      ReadEscapeEach(s[1..]);
      if s[0] in Reserved {
        var t := ['\\', s[0]] + tail;
        assert t[2..] == tail;
      } else {
        var t := [s[0]] + tail;
        assert t[1..] == tail;
      }
    }
  }

  /**
   * The corrected escaper does what MarkdownV2 needs of it for every input:
   * the reader sees exactly the text, and none of it is markup.
   */
  lemma EscapeMarkdownCorrectedReads(text: string)
    ensures Plain(EscapeMarkdownCorrected(text))
    ensures Read(EscapeMarkdownCorrected(text)) == text
  {
    EscapeMarkdownCorrectedIsPerChar(text);
    ReadEscapeEach(text);
  }

  lemma {:induction false} EscapeEachWithoutBackslash(s: string)
    requires '\\' !in s
    ensures EscapeEach(s, Specials) == EscapeEach(s, Reserved)
  {
    if s != [] {
      assert EscapeChar(s[0], Specials) == EscapeChar(s[0], Reserved);
      EscapeEachWithoutBackslash(s[1..]);
    }
  }

  /**
   * On text without a backslash the escaper as written agrees with the
   * corrected one, so it shows such text exactly and without markup.
   */
  lemma EscapeMarkdownWithoutBackslash(text: string)
    requires '\\' !in text
    ensures EscapeMarkdown(text) == EscapeMarkdownCorrected(text)
    ensures Plain(EscapeMarkdown(text)) && Read(EscapeMarkdown(text)) == text
  {
    EscapeMarkdownIsPerChar(text);
    EscapeMarkdownCorrectedIsPerChar(text);
    EscapeEachWithoutBackslash(text);
    EscapeMarkdownCorrectedReads(text);
  }
}
