// Lines, trimming and prefixes, as Rust's `str` has them.
module Text {
  import opened Base

  /** `char::is_whitespace`. */
  predicate IsSpace(c: char) {
    '\U{0009}' <= c <= '\U{000D}' || c == ' ' || c == '\U{0085}' || c == '\U{00A0}' || c == '\U{1680}' ||
    '\U{2000}' <= c <= '\U{200A}' || c == '\U{2028}' || c == '\U{2029}' || c == '\U{202F}' || c == '\U{205F}' ||
    c == '\U{3000}'
  }

  function TrimStart(s: string): string {
    if s != [] && IsSpace(s[0]) then TrimStart(s[1..]) else s
  }

  function TrimEnd(s: string): string {
    if s != [] && IsSpace(s[|s| - 1]) then TrimEnd(s[..|s| - 1]) else s
  }

  function Trim(s: string): string { TrimEnd(TrimStart(s)) }

  function StripPrefix(s: string, prefix: string): Option<string> {
    if prefix <= s then Some(s[|prefix|..]) else None
  }

  function WithoutCR(s: string): string {
    if s != [] && s[|s| - 1] == '\r' then s[..|s| - 1] else s
  }

  /** The lines of `text`; `current` is the one being read. */
  function LinesFrom(current: string, text: string): seq<string>
    decreases |text|
  {
    if text == [] then if current == [] then [] else [current]
    else if text[0] == '\n' then [WithoutCR(current)] + LinesFrom([], text[1..])
    else LinesFrom(current + [text[0]], text[1..])
  }

  function Lines(text: string): seq<string> { LinesFrom([], text) }

  function Unlines(lines: seq<string>): string {
    if lines == [] then [] else lines[0] + "\n" + Unlines(lines[1..])
  }

  predicate OneLine(s: string) { '\n' !in s }

  lemma {:induction false} UpToNewline(current: string, s: string, rest: string)
    requires OneLine(s)
    ensures LinesFrom(current, s + "\n" + rest) == [WithoutCR(current + s)] + LinesFrom([], rest)
    decreases |s|
  {
    var text := s + "\n" + rest;
    if s == [] {
      assert text[1..] == rest;
      assert current + s == current;
    } else {
      assert text[0] == s[0] && text[1..] == s[1..] + "\n" + rest;
      UpToNewline(current + [s[0]], s[1..], rest);
      assert current + [s[0]] + s[1..] == current + s;
    }
  }

  /** A finished line stays a line of its own whatever stands before it. */
  lemma {:induction false} LineAmong(current: string, before: string, s: string, rest: string)
    requires OneLine(s)
    ensures WithoutCR(s) in LinesFrom(current, before + "\n" + s + "\n" + rest)
    decreases |before|
  {
    var text := before + "\n" + s + "\n" + rest;
    if before == [] {
      assert text[0] == '\n' && text[1..] == s + "\n" + rest;
      UpToNewline([], s, rest);
      assert [] + s == s;
    } else {
      assert text[1..] == before[1..] + "\n" + s + "\n" + rest;
      if before[0] == '\n' {
        LineAmong([], before[1..], s, rest);
      } else {
        LineAmong(current + [before[0]], before[1..], s, rest);
      }
    }
  }

  function AllWithoutCR(lines: seq<string>): (r: seq<string>)
    ensures |r| == |lines|
  {
    if lines == [] then [] else [WithoutCR(lines[0])] + AllWithoutCR(lines[1..])
  }

  /** Printing lines and splitting the text again gives the lines. */
  lemma {:induction false} LinesReadBack(lines: seq<string>)
    requires forall i :: 0 <= i < |lines| ==> OneLine(lines[i])
    ensures Lines(Unlines(lines)) == AllWithoutCR(lines)
  {
    if lines != [] {
      LinesReadBack(lines[1..]);
      UpToNewline([], lines[0], Unlines(lines[1..]));
      assert [] + lines[0] == lines[0];
    }
  }

  lemma {:induction false} UnlinesParts(a: seq<string>, b: seq<string>)
    ensures Unlines(a + b) == Unlines(a) + Unlines(b)
  {
    if a == [] {
      assert a + b == b;
    } else {
      UnlinesParts(a[1..], b);
      assert (a + b)[1..] == a[1..] + b;
    }
  }

  lemma {:induction false} EndsInNewline(lines: seq<string>)
    requires lines != []
    ensures exists t: string :: Unlines(lines) == t + "\n"
  {
    if |lines| == 1 {
      assert Unlines(lines[1..]) == [];
      assert Unlines(lines) == lines[0] + "\n";
    } else {
      EndsInNewline(lines[1..]);
      var t: string :| Unlines(lines[1..]) == t + "\n";
      assert Unlines(lines) == (lines[0] + "\n" + t) + "\n";
    }
  }

  /** Every printed line but the first is found again, whatever the others
      hold, newlines included. */
  lemma PrintedLineIsFound(lines: seq<string>, i: nat)
    requires 0 < i < |lines| && OneLine(lines[i])
    ensures WithoutCR(lines[i]) in Lines(Unlines(lines))
  {
    hide Unlines, LinesFrom, WithoutCR;
    var before, rest := lines[..i], lines[i + 1..];
    assert lines == before + ([lines[i]] + rest);
    UnlinesParts(before, [lines[i]] + rest);
    UnlinesFirst(lines[i], rest);
    EndsInNewline(before);
    var t: string :| Unlines(before) == t + "\n";
    LineAmong([], t, lines[i], Unlines(rest));
    assert t + "\n" + lines[i] + "\n" + Unlines(rest) == Unlines(before) + (lines[i] + "\n" + Unlines(rest));
  }

  lemma UnlinesFirst(line: string, rest: seq<string>)
    ensures Unlines([line] + rest) == line + "\n" + Unlines(rest)
  {
    assert ([line] + rest)[1..] == rest;
  }

  // ---------------------------------------------------------------------
  // Trimming.

  predicate AllSpaces(s: string) { forall i :: 0 <= i < |s| ==> IsSpace(s[i]) }

  /** Not empty, and no white space at either end. */
  predicate Trimmed(s: string) { s != [] && !IsSpace(s[0]) && !IsSpace(s[|s| - 1]) }

  lemma {:induction false} TrimStartSpaces(gap: string, s: string)
    requires AllSpaces(gap) && (s == [] || !IsSpace(s[0]))
    ensures TrimStart(gap + s) == s
  {
    if gap == [] {
      assert gap + s == s;
    } else {
      assert (gap + s)[1..] == gap[1..] + s;
      TrimStartSpaces(gap[1..], s);
    }
  }

  /** Indentation trims away, and nothing else. */
  lemma TrimIndented(gap: string, s: string)
    requires AllSpaces(gap) && Trimmed(s)
    ensures Trim(gap + s) == s
  {
    TrimStartSpaces(gap, s);
  }

  lemma TrimAfterCR(s: string)
    ensures Trim(WithoutCR(s)) == Trim(s)
  {
    if s != [] && s[|s| - 1] == '\r' {
      TrimDropsLastSpace(s[..|s| - 1], '\r');
      assert s == s[..|s| - 1] + ['\r'];
    }
  }

  lemma {:induction false} TrimDropsLastSpace(s: string, c: char)
    requires IsSpace(c)
    ensures Trim(s + [c]) == Trim(s)
  {
    if s == [] {
      assert s + [c] == [c] && [c][1..] == [];
    } else if IsSpace(s[0]) {
      assert (s + [c])[1..] == s[1..] + [c];
      TrimDropsLastSpace(s[1..], c);
    } else {
      assert TrimStart(s + [c]) == s + [c];
      assert (s + [c])[..|s|] == s;
    }
  }
}
