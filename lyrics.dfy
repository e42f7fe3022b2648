/** The LRC lyric parser and lyric lookup of App.tsx: `parseLrc`, the intro entries the loader
    prepends, and the reverse-find that picks the active line. The regular expression
    `\[(\d{2}):(\d{2})(?:\.(\d{2,3}))?\]` is replaced by a hand-written matcher, `split('\n')`,
    `trim()` and `parseInt` by the functions below, and `Array.prototype.sort` by a stable
    insertion sort on values. */
module Lrc {
  import opened SceneTypes

  /** One `{ time, text }` lyric line; time in seconds. */
  datatype LyricEntry = LyricEntry(time: real, text: string)

  // ---------------------------------------------------------------------------------------
  // split('\n')

  /** `s.split('\n')`: the pieces between newline characters, always at least one. */
  function SplitLines(s: string): (lines: seq<string>)
    ensures |lines| >= 1
    ensures forall k :: 0 <= k < |lines| ==> '\n' !in lines[k]
  {
    if s == [] then [""]
    else
      var rest := SplitLines(s[1..]);
      if s[0] == '\n' then [""] + rest
      else [[s[0]] + rest[0]] + rest[1..]
  }

  /** `lines.join('\n')`, the inverse of SplitLines. */
  function JoinLines(lines: seq<string>): string
    requires |lines| >= 1
  {
    if |lines| == 1 then lines[0] else lines[0] + "\n" + JoinLines(lines[1..])
  }

  /** Splitting loses nothing: joining the pieces with newlines gives the text back. */
  lemma {:induction false} JoinSplit(s: string)
    ensures JoinLines(SplitLines(s)) == s
  {
    if s != [] {
      JoinSplit(s[1..]);
      var rest := SplitLines(s[1..]);
      if s[0] == '\n' {
        assert SplitLines(s)[1..] == rest;
      } else {
        var lines := SplitLines(s);
        assert lines[0] == [s[0]] + rest[0];
        if |rest| > 1 {
          assert lines[1..] == rest[1..];
          assert JoinLines(rest) == rest[0] + "\n" + JoinLines(rest[1..]);
        }
      }
    }
  }

  /** And splitting the join of newline-free pieces gives the pieces back. */
  lemma {:induction false} SplitJoin(lines: seq<string>)
    requires |lines| >= 1
    requires forall k :: 0 <= k < |lines| ==> '\n' !in lines[k]
    ensures SplitLines(JoinLines(lines)) == lines
  {
    if |lines| == 1 {
      SplitNoNewline(lines[0]);
    } else {
      SplitJoin(lines[1..]);
      SplitPrefix(lines[0], JoinLines(lines[1..]));
      assert [lines[0]] + lines[1..] == lines;
    }
  }

  lemma {:induction false} SplitNoNewline(s: string)
    requires '\n' !in s
    ensures SplitLines(s) == [s]
  {
    if s != [] {
      assert '\n' !in s[1..] by {
        forall k | 0 <= k < |s[1..]| ensures s[1..][k] != '\n' { assert s[1..][k] == s[k + 1]; }
      }
      SplitNoNewline(s[1..]);
      assert [s[0]] + s[1..] == s;
    }
  }

  lemma {:induction false} SplitPrefix(a: string, rest: string)
    requires '\n' !in a
    ensures SplitLines(a + "\n" + rest) == [a] + SplitLines(rest)
  {
    if a == [] {
      assert a + "\n" + rest == "\n" + rest;
      assert ("\n" + rest)[1..] == rest;
    } else {
      assert '\n' !in a[1..] by {
        forall k | 0 <= k < |a[1..]| ensures a[1..][k] != '\n' { assert a[1..][k] == a[k + 1]; }
      }
      SplitPrefix(a[1..], rest);
      var s := a + "\n" + rest;
      assert s[0] == a[0] && s[1..] == a[1..] + "\n" + rest;
      assert [a[0]] + a[1..] == a;
    }
  }

  // ---------------------------------------------------------------------------------------
  // trim()

  /** ECMAScript WhiteSpace and LineTerminator code points, which `trim()` strips. */
  predicate IsWhiteSpace(c: char)
  {
    c == ' ' || c == '\t' || c == '\n' || c == '\r' || c == '\U{0B}' || c == '\U{0C}'
    || c == '\U{A0}' || c == '\U{1680}' || ('\U{2000}' <= c <= '\U{200A}')
    || c == '\U{2028}' || c == '\U{2029}' || c == '\U{202F}' || c == '\U{205F}'
    || c == '\U{3000}' || c == '\U{FEFF}'
  }

  /** Leading white space removed: a suffix of s, what was cut is all white space, and the
      result does not start with white space. */
  function TrimStart(s: string): (r: string)
    ensures |r| <= |s| && r == s[|s| - |r|..]
    ensures forall k :: 0 <= k < |s| - |r| ==> IsWhiteSpace(s[k])
    ensures r != [] ==> !IsWhiteSpace(r[0])
  {
    if s != [] && IsWhiteSpace(s[0]) then TrimStart(s[1..]) else s
  }

  /** Trailing white space removed: a prefix of s, what was cut is all white space, and the
      result does not end with white space. */
  function TrimEnd(s: string): (r: string)
    ensures |r| <= |s| && r == s[..|r|]
    ensures forall k :: |r| <= k < |s| ==> IsWhiteSpace(s[k])
    ensures r != [] ==> !IsWhiteSpace(r[|r| - 1])
  {
    if s != [] && IsWhiteSpace(s[|s| - 1]) then TrimEnd(s[..|s| - 1]) else s
  }

  /** `s.trim()`. */
  function Trim(s: string): string
  {
    TrimEnd(TrimStart(s))
  }

  /** Trimming yields the empty string exactly when the text is all white space, and otherwise
      a contiguous slice of it that neither starts nor ends with white space. */
  lemma TrimSpec(s: string)
    ensures Trim(s) == [] <==> AllWhiteSpace(s)
    ensures Trim(s) != [] ==> !IsWhiteSpace(Trim(s)[0]) && !IsWhiteSpace(Trim(s)[|Trim(s)| - 1])
    ensures exists lo, hi :: 0 <= lo <= hi <= |s| && Trim(s) == s[lo..hi]
  {
    var lo := TrimSlice(s);
    TrimEmpty(s);
    if Trim(s) != [] {
      assert Trim(s)[0] == TrimStart(s)[0];
    }
  }

  /** The trimmed text is the slice of s from the first kept character on, of its own length;
      returns where that slice starts. */
  lemma TrimSlice(s: string) returns (lo: nat)
    ensures lo + |Trim(s)| <= |s| && Trim(s) == s[lo..lo + |Trim(s)|]
    ensures lo == |s| - |TrimStart(s)|
  {
    var a := TrimStart(s);
    var r := TrimEnd(a);
    lo := |s| - |a|;
    assert a == s[lo..];
    assert r == a[..|r|];
    assert r == s[lo..lo + |r|];
  }

  /** Trimming leaves nothing exactly when every character is white space. */
  lemma TrimEmpty(s: string)
    ensures Trim(s) == [] <==> AllWhiteSpace(s)
  {
    var a := TrimStart(s);
    var lo := |s| - |a|;
    if Trim(s) == [] {
      if a != [] {
        assert false;
      }
    } else {
      assert Trim(s)[0] == a[0] == s[lo];
    }
  }

  // ---------------------------------------------------------------------------------------
  // parseInt on digit strings

  predicate IsDigit(c: char) { '0' <= c <= '9' }

  predicate AllDigits(s: string) { forall k :: 0 <= k < |s| ==> IsDigit(s[k]) }

  function Pow10(n: nat): nat { if n == 0 then 1 else 10 * Pow10(n - 1) }

  /** `parseInt(s, 10)` on a string of decimal digits (an empty string counts as 0). */
  function ParseDigits(s: string): (n: nat)
    requires AllDigits(s)
    ensures n < Pow10(|s|)
  {
    if s == [] then 0
    else ParseDigits(s[..|s| - 1]) * 10 + ((s[|s| - 1] as int) - ('0' as int))
  }

  /** Appending a digit multiplies the leading digit's weight by ten. */
  lemma ShiftDigit(d: int, p: int, x: int)
    ensures (d * p + x) * 10 == d * (10 * p) + x * 10
  {
  }

  /** Positional reading from the most significant end: the leading digit weighs 10^(n-1)
      in an n-digit string, so a leading zero changes nothing. */
  lemma {:induction false} ParseDigitsLeading(c: char, s: string)
    requires IsDigit(c) && AllDigits(s)
    ensures AllDigits([c] + s)
    ensures ParseDigits([c] + s) == ((c as int) - ('0' as int)) * Pow10(|s|) + ParseDigits(s)
    decreases |s|
  {
    var cs := [c] + s;
    assert AllDigits(cs) by {
      forall k | 0 <= k < |cs| ensures IsDigit(cs[k]) {
        if k > 0 { assert cs[k] == s[k - 1]; }
      }
    }
    if s != [] {
      var init := s[..|s| - 1];
      assert AllDigits(init) by {
        forall k | 0 <= k < |init| ensures IsDigit(init[k]) { assert init[k] == s[k]; }
      }
      ParseDigitsLeading(c, init);
      assert cs[..|cs| - 1] == [c] + init;
      assert cs[|cs| - 1] == s[|s| - 1];
      assert ParseDigits(cs) == ParseDigits([c] + init) * 10 + ((s[|s| - 1] as int) - ('0' as int));
      assert ParseDigits(s) == ParseDigits(init) * 10 + ((s[|s| - 1] as int) - ('0' as int));
      ShiftDigit((c as int) - ('0' as int), Pow10(|init|), ParseDigits(init));
    }
  }

  // ---------------------------------------------------------------------------------------
  // The time tag

  /** One match of the time-tag pattern: where it starts and ends in the line, and its
      captured minutes, seconds and optional fraction. */
  datatype Tag = Tag(start: nat, end: nat, minutes: nat, seconds: nat, fraction: Option<nat>)

  /** The pattern anchored at position i: `[dd:dd]`, `[dd:dd.dd]` or `[dd:dd.ddd]`, the
      three-digit fraction tried before the two-digit one, as the greedy `\d{2,3}` does. */
  function MatchAt(line: string, i: nat): (r: Option<Tag>)
    ensures r.Some? ==> r.value.start == i && i + 7 <= r.value.end <= |line|
  {
    if i + 7 <= |line| && line[i] == '[' && IsDigit(line[i + 1]) && IsDigit(line[i + 2])
       && line[i + 3] == ':' && IsDigit(line[i + 4]) && IsDigit(line[i + 5])
    then
      var mm := ParseDigits(line[i + 1..i + 3]);
      var ss := ParseDigits(line[i + 4..i + 6]);
      if line[i + 6] == ']' then
        Some(Tag(i, i + 7, mm, ss, None))
      else if line[i + 6] == '.' && i + 11 <= |line| && IsDigit(line[i + 7]) && IsDigit(line[i + 8])
              && IsDigit(line[i + 9]) && line[i + 10] == ']' then
        Some(Tag(i, i + 11, mm, ss, Some(ParseDigits(line[i + 7..i + 10]))))
      else if line[i + 6] == '.' && i + 10 <= |line| && IsDigit(line[i + 7]) && IsDigit(line[i + 8])
              && line[i + 9] == ']' then
        Some(Tag(i, i + 10, mm, ss, Some(ParseDigits(line[i + 7..i + 9]))))
      else
        None
    else
      None
  }

  /** `timeExp.exec(line)` from position i on: the leftmost position where the pattern matches. */
  function FindTagFrom(line: string, i: nat): (r: Option<Tag>)
    ensures r.Some? ==> i <= r.value.start && MatchAt(line, r.value.start) == r
    ensures r.Some? ==> forall j :: i <= j < r.value.start ==> MatchAt(line, j).None?
    ensures r.None? ==> forall j :: i <= j ==> MatchAt(line, j).None?
    decreases |line| - i
  {
    if i >= |line| then None
    else if MatchAt(line, i).Some? then MatchAt(line, i)
    else FindTagFrom(line, i + 1)
  }

  function FindTag(line: string): Option<Tag>
  {
    FindTagFrom(line, 0)
  }

  /** `minutes * 60 + seconds + milliseconds / 1000`, a missing fraction counting as 0. */
  function TagTime(t: Tag): real
  {
    var ms := match t.fraction case Some(f) => f case None => 0;
    (t.minutes as real) * 60.0 + (t.seconds as real) + (ms as real) / 1000.0
  }

  /** The time a tag with these digit groups stands for, the fraction read as thousandths. */
  function TimeOf(mm: string, ss: string, frac: string): real
    requires AllDigits(mm) && AllDigits(ss) && AllDigits(frac)
  {
    (ParseDigits(mm) as real) * 60.0 + (ParseDigits(ss) as real) + (ParseDigits(frac) as real) / 1000.0
  }

  /** The text of a time tag with the given digit groups (frac empty for no fraction). */
  function TagText(mm: string, ss: string, frac: string): string
  {
    "[" + mm + ":" + ss + (if frac == [] then "" else "." + frac) + "]"
  }

  /** Digit groups the pattern accepts: two, two, and none, two or three. */
  predicate WellFormedTag(mm: string, ss: string, frac: string)
  {
    |mm| == 2 && |ss| == 2 && (|frac| == 0 || |frac| == 2 || |frac| == 3)
    && AllDigits(mm) && AllDigits(ss) && AllDigits(frac)
  }

  /** Every well-formed tag text is matched where it stands, with its digit groups read back. */
  lemma MatchAtTagText(pre: string, mm: string, ss: string, frac: string, post: string)
    requires WellFormedTag(mm, ss, frac)
    ensures var tag := TagText(mm, ss, frac);
      MatchAt(pre + tag + post, |pre|)
        == Some(Tag(|pre|, |pre| + |tag|, ParseDigits(mm), ParseDigits(ss),
                    if frac == [] then None else Some(ParseDigits(frac))))
  {
    var tag := TagText(mm, ss, frac);
    var line := pre + tag + post;
    var i := |pre|;
    var head := ['[', mm[0], mm[1], ':', ss[0], ss[1]];
    var tail := if frac == [] then "]" else ['.'] + frac + "]";
    assert mm == [mm[0], mm[1]] && ss == [ss[0], ss[1]];
    assert tag == head + tail;
    assert line[i..i + |tag|] == tag;
    assert line[i + 1..i + 3] == mm;
    assert line[i + 4..i + 6] == ss;
    if frac != [] {
      assert line[i + 7..i + 7 + |frac|] == frac;
      if |frac| == 2 {
        assert line[i + 9] == ']';
      } else {
        assert line[i + 10] == ']';
      }
    }
  }

  /** Conversely, whatever MatchAt accepts is the text of a well-formed tag. */
  lemma MatchAtIsTagText(line: string, i: nat)
    requires MatchAt(line, i).Some?
    ensures var t := MatchAt(line, i).value;
      var frac := if t.end == i + 7 then "" else line[i + 7..t.end - 1];
      WellFormedTag(line[i + 1..i + 3], line[i + 4..i + 6], frac)
      && line[i..t.end] == TagText(line[i + 1..i + 3], line[i + 4..i + 6], frac)
      && t.minutes == ParseDigits(line[i + 1..i + 3])
      && t.seconds == ParseDigits(line[i + 4..i + 6])
      && t.fraction == (if frac == [] then None else Some(ParseDigits(frac)))
  {
    var t := MatchAt(line, i).value;
    var mm, ss := line[i + 1..i + 3], line[i + 4..i + 6];
    var head := ['[', mm[0], mm[1], ':', ss[0], ss[1]];
    assert line[i..i + 6] == head;
    assert mm == [mm[0], mm[1]] && ss == [ss[0], ss[1]];
    if line[i + 6] == ']' {
      assert t.end == i + 7;
      assert line[i..t.end] == head + "]";
    } else {
      assert line[i + 6] == '.' && i + 10 <= t.end;
      var frac := line[i + 7..t.end - 1];
      assert line[i..t.end] == head + ['.'] + frac + "]";
    }
  }

  // ---------------------------------------------------------------------------------------
  // One line, and parseLrc

  /** The body of the `forEach`: the first tag gives the time, that tag alone is removed, the
      rest is trimmed, and a line with no tag or no text yields nothing. */
  function ParseLine(line: string): Option<LyricEntry>
  {
    match FindTag(line)
    case None => None
    case Some(t) =>
      var text := Trim(line[..t.start] + line[t.end..]);
      if text == [] then None else Some(LyricEntry(TagTime(t), text))
  }

  /** A line yields an entry exactly when the pattern matches somewhere in it and what is
      left after removing the leftmost match is not all white space; the entry's time is
      that match's time and its text is the trimmed rest of the line, wherever the match
      stands. */
  lemma ParseLineSpec(line: string)
    ensures ParseLine(line).Some? <==>
      exists i :: 0 <= i < |line| && MatchAt(line, i).Some? && FirstTag(line, i)
        && !AllWhiteSpace(line[..i] + line[MatchAt(line, i).value.end..])
    ensures forall i :: (0 <= i < |line| && MatchAt(line, i).Some? && FirstTag(line, i)
      && ParseLine(line).Some?) ==>
        && ParseLine(line).value.time == TagTime(MatchAt(line, i).value)
        && ParseLine(line).value.text == Trim(line[..i] + line[MatchAt(line, i).value.end..])
  {
    var r := FindTag(line);
    if r.Some? {
      var i := r.value.start;
      TrimSpec(line[..i] + line[r.value.end..]);
      forall i' | 0 <= i' < |line| && MatchAt(line, i').Some? && FirstTag(line, i') ensures i' == i {
      }
    } else {
      forall i' | 0 <= i' < |line| ensures MatchAt(line, i').None? { }
    }
  }

  /** No match starts before position i. */
  predicate FirstTag(line: string, i: nat)
  {
    forall j :: 0 <= j < i ==> MatchAt(line, j).None?
  }

  predicate AllWhiteSpace(s: string)
  {
    forall k :: 0 <= k < |s| ==> IsWhiteSpace(s[k])
  }

  /** A line that starts with a tag: its time is the tag's, its text the trimmed rest. */
  lemma ParseTaggedLine(mm: string, ss: string, frac: string, rest: string)
    requires WellFormedTag(mm, ss, frac)
    ensures ParseLine(TagText(mm, ss, frac) + rest)
      == if Trim(rest) == [] then None else Some(LyricEntry(TimeOf(mm, ss, frac), Trim(rest)))
  {
    var tag := TagText(mm, ss, frac);
    var line := tag + rest;
    MatchAtTagText([], mm, ss, frac, rest);
    assert [] + tag + rest == line;
    var t := MatchAt(line, 0).value;
    assert FindTag(line) == Some(t);
    assert TagTime(t) == TimeOf(mm, ss, frac);
    assert line[..0] + line[t.end..] == rest;
  }

  /** The fraction is always read as thousandths of a second, however many digits it has. */
  lemma FractionIsThousandths(mm: string, ss: string, frac: string, body: string)
    requires WellFormedTag(mm, ss, frac)
    requires !AllWhiteSpace(body)
    ensures var e := ParseLine(TagText(mm, ss, frac) + body);
      e.Some? && e.value.text == Trim(body) && e.value.time == TimeOf(mm, ss, frac)
  {
    ParseTaggedLine(mm, ss, frac, body);
    TrimSpec(body);
  }

  /** So a two-digit fraction is read as thousandths too: `[mm:ss.50]` is 0.05 s past the
      second while `[mm:ss.500]` is 0.5 s past it; the two readings differ by nine times the
      two-digit value, and agree only for `.00`. */
  lemma TwoDigitFraction(mm: string, ss: string, ff: string, body: string)
    requires WellFormedTag(mm, ss, ff) && |ff| == 2
    requires !AllWhiteSpace(body)
    ensures var two := ParseLine(TagText(mm, ss, ff) + body);
      var three := ParseLine(TagText(mm, ss, ff + "0") + body);
      two.Some? && three.Some?
      && three.value.time - two.value.time == 9.0 * (ParseDigits(ff) as real) / 1000.0
  {
    var ff0 := ff + "0";
    assert ff0[..|ff0| - 1] == ff;
    assert ParseDigits(ff0) == ParseDigits(ff) * 10;
    FractionIsThousandths(mm, ss, ff, body);
    FractionIsThousandths(mm, ss, ff0, body);
  }

  /** Only the leftmost tag is used and removed: in a line that starts with two tags the
      time is the first tag's, and the second tag stays at the front of the text. */
  lemma OnlyFirstTagRemoved(m1: string, s1: string, f1: string, m2: string, s2: string, f2: string, body: string)
    requires WellFormedTag(m1, s1, f1) && WellFormedTag(m2, s2, f2)
    ensures var first := TagText(m1, s1, f1);
      var second := TagText(m2, s2, f2);
      var e := ParseLine(first + second + body);
      e.Some? && e.value.time == TimeOf(m1, s1, f1)
      && |second| <= |e.value.text| && e.value.text[..|second|] == second
  {
    var first := TagText(m1, s1, f1);
    var second := TagText(m2, s2, f2);
    var rest := second + body;
    assert first + second + body == first + rest;
    TagTextShape(m2, s2, f2);
    KeepsLeadingTag(second, body);
    ParseTaggedLine(m1, s1, f1, rest);
  }

  lemma TagTextShape(mm: string, ss: string, frac: string)
    ensures var t := TagText(mm, ss, frac);
      |t| >= 2 && t[0] == '[' && t[|t| - 1] == ']'
  {
    var middle := mm + ":" + ss + (if frac == [] then "" else "." + frac);
    assert TagText(mm, ss, frac) == "[" + middle + "]";
  }

  /** Trimming text that starts with a tag keeps the whole tag at its front. */
  lemma KeepsLeadingTag(tag: string, body: string)
    requires |tag| >= 2 && tag[0] == '[' && tag[|tag| - 1] == ']'
    ensures var r := Trim(tag + body);
      |tag| <= |r| && r[..|tag|] == tag
  {
    var rest := tag + body;
    assert rest[0] == '[';
    assert TrimStart(rest) == rest;
    var r := TrimEnd(rest);
    assert rest[|tag| - 1] == ']';
    assert !IsWhiteSpace(rest[|tag| - 1]);
    assert |tag| <= |r|;
    assert r[..|tag|] == rest[..|tag|] == tag;
  }

  /** The entries the `forEach` pushes, in line order (before sorting). */
  function ParsedEntries(lines: seq<string>): seq<LyricEntry>
  {
    Pushed(lines, ParseLine)
  }

  /** The values a per-line step pushes, in line order. */
  function Pushed(lines: seq<string>, step: string -> Option<LyricEntry>): (r: seq<LyricEntry>)
    ensures |r| <= |lines|
  {
    if lines == [] then []
    else
      var rest := Pushed(lines[..|lines| - 1], step);
      match step(lines[|lines| - 1])
      case None => rest
      case Some(e) => rest + [e]
  }

  /** Every collected entry comes from some line, and every line that parses contributes its
      entry. */
  lemma ParsedEntriesSpec(lines: seq<string>)
    ensures forall k :: 0 <= k < |ParsedEntries(lines)| ==>
      exists j :: 0 <= j < |lines| && ParseLine(lines[j]) == Some(ParsedEntries(lines)[k])
    ensures forall j :: 0 <= j < |lines| && ParseLine(lines[j]).Some? ==>
      ParseLine(lines[j]).value in ParsedEntries(lines)
  {
    PushedSpec(lines, ParseLine);
    var step: string -> Option<LyricEntry> := ParseLine;
    var r := ParsedEntries(lines);
    forall k | 0 <= k < |r|
      ensures exists j :: 0 <= j < |lines| && ParseLine(lines[j]) == Some(r[k])
    {
      var j :| 0 <= j < |lines| && step(lines[j]) == Some(r[k]);
      assert ParseLine(lines[j]) == Some(r[k]);
    }
    forall j | 0 <= j < |lines| && ParseLine(lines[j]).Some?
      ensures ParseLine(lines[j]).value in ParsedEntries(lines)
    {
      assert step(lines[j]) == ParseLine(lines[j]);
    }
  }

  /** A line pushes its own entry or nothing. */
  lemma PushedSingle(line: string, step: string -> Option<LyricEntry>)
    ensures Pushed([line], step) == if step(line).Some? then [step(line).value] else []
  {
    assert [line][..0] == [];
  }

  /** The loop pushes each block of lines' entries after the previous block's, each entry as
      often as its line parses and in line order. */
  lemma {:induction false} PushedAppend(a: seq<string>, b: seq<string>, step: string -> Option<LyricEntry>)
    ensures Pushed(a + b, step) == Pushed(a, step) + Pushed(b, step)
    decreases |b|
  {
    if b == [] {
      assert a + b == a;
    } else {
      var init := b[..|b| - 1];
      PushedAppend(a, init, step);
      assert (a + b)[..|a + b| - 1] == a + init;
      assert (a + b)[|a + b| - 1] == b[|b| - 1];
    }
  }

  lemma {:induction false} PushedSpec(lines: seq<string>, step: string -> Option<LyricEntry>)
    ensures forall k :: 0 <= k < |Pushed(lines, step)| ==>
      exists j :: 0 <= j < |lines| && step(lines[j]) == Some(Pushed(lines, step)[k])
    ensures forall j :: 0 <= j < |lines| && step(lines[j]).Some? ==>
      step(lines[j]).value in Pushed(lines, step)
  {
    if lines != [] {
      var init := lines[..|lines| - 1];
      PushedSpec(init, step);
      var r := Pushed(lines, step);
      var rest := Pushed(init, step);
      var last := lines[|lines| - 1];
      if step(last).None? {
        assert r == rest;
      } else {
        assert r == rest + [step(last).value];
      }
      assert r[..|rest|] == rest;
      forall k | 0 <= k < |r|
        ensures exists j :: 0 <= j < |lines| && step(lines[j]) == Some(r[k])
      {
        if k < |rest| {
          var j :| 0 <= j < |init| && step(init[j]) == Some(rest[k]);
          assert lines[j] == init[j];
          assert r[k] == rest[k];
        } else {
          assert step(lines[|lines| - 1]) == Some(r[k]);
        }
      }
      forall j | 0 <= j < |lines| && step(lines[j]).Some?
        ensures step(lines[j]).value in r
      {
        if j < |init| {
          assert lines[j] == init[j];
          var idx :| 0 <= idx < |rest| && rest[idx] == step(init[j]).value;
          assert r[idx] == rest[idx];
        }
      }
    } else {
      assert Pushed(lines, step) == [];
    }
  }

  // ---------------------------------------------------------------------------------------
  // sort((a, b) => a.time - b.time): stable

  predicate SortedByTime(s: seq<LyricEntry>)
  {
    forall i, j :: 0 <= i < j < |s| ==> s[i].time <= s[j].time
  }

  /** The entries of s with the given time, in order. */
  function WithTime(s: seq<LyricEntry>, tau: real): seq<LyricEntry>
  {
    if s == [] then []
    else (if s[0].time == tau then [s[0]] else []) + WithTime(s[1..], tau)
  }

  /** Insert x after every entry whose time is not greater than its own. */
  function Insert(x: LyricEntry, s: seq<LyricEntry>): seq<LyricEntry>
  {
    if s == [] || x.time < s[0].time then [x] + s else [s[0]] + Insert(x, s[1..])
  }

  /** Insertion sort by time, taking the input from the front. */
  function SortByTime(s: seq<LyricEntry>): seq<LyricEntry>
  {
    if s == [] then [] else Insert(s[|s| - 1], SortByTime(s[..|s| - 1]))
  }

  lemma {:induction false} WithTimeAppend(a: seq<LyricEntry>, b: seq<LyricEntry>, tau: real)
    ensures WithTime(a + b, tau) == WithTime(a, tau) + WithTime(b, tau)
  {
    if a == [] {
      assert a + b == b;
    } else {
      var ab := a + b;
      WithTimeAppend(a[1..], b, tau);
      assert ab[0] == a[0];
      assert ab[1..] == a[1..] + b;
      var head := if a[0].time == tau then [a[0]] else [];
      assert WithTime(ab, tau) == head + WithTime(a[1..] + b, tau);
      assert WithTime(a, tau) == head + WithTime(a[1..], tau);
    }
  }

  lemma {:induction false} WithTimeNone(s: seq<LyricEntry>, tau: real)
    requires forall k :: 0 <= k < |s| ==> s[k].time != tau
    ensures WithTime(s, tau) == []
  {
    if s != [] {
      WithTimeNone(s[1..], tau);
    }
  }

  lemma {:induction false} InsertMultiset(x: LyricEntry, s: seq<LyricEntry>)
    ensures multiset(Insert(x, s)) == multiset(s) + multiset{x}
    ensures |Insert(x, s)| == |s| + 1
  {
    if s != [] && x.time >= s[0].time {
      InsertMultiset(x, s[1..]);
      assert s == [s[0]] + s[1..];
    }
  }

  /** A lower bound of x and of every entry of s bounds every entry of Insert(x, s). */
  lemma {:induction false} InsertLowerBound(x: LyricEntry, s: seq<LyricEntry>, lb: real)
    requires lb <= x.time && forall k :: 0 <= k < |s| ==> lb <= s[k].time
    ensures forall k :: 0 <= k < |Insert(x, s)| ==> lb <= Insert(x, s)[k].time
  {
    if s != [] && x.time >= s[0].time {
      InsertLowerBound(x, s[1..], lb);
      var ins := Insert(x, s[1..]);
      assert Insert(x, s) == [s[0]] + ins;
    }
  }

  lemma {:induction false} InsertSorted(x: LyricEntry, s: seq<LyricEntry>)
    requires SortedByTime(s)
    ensures SortedByTime(Insert(x, s))
  {
    if s != [] && x.time >= s[0].time {
      var tail := s[1..];
      InsertSorted(x, tail);
      InsertLowerBound(x, tail, s[0].time);
      var ins := Insert(x, tail);
      var r := [s[0]] + ins;
      assert Insert(x, s) == r;
      forall i, j | 0 <= i < j < |r| ensures r[i].time <= r[j].time {
        assert r[j] == ins[j - 1];
        if i > 0 {
          assert r[i] == ins[i - 1];
        }
      }
    }
  }

  lemma {:induction false} InsertWithTime(x: LyricEntry, s: seq<LyricEntry>, tau: real)
    requires SortedByTime(s)
    ensures WithTime(Insert(x, s), tau) == WithTime(s, tau) + (if x.time == tau then [x] else [])
  {
    if s == [] || x.time < s[0].time {
      var r := [x] + s;
      assert r[1..] == s;
      if x.time == tau {
        WithTimeNone(s, tau);
      }
    } else {
      var tail := s[1..];
      InsertWithTime(x, tail, tau);
      var r := [s[0]] + Insert(x, tail);
      assert r[1..] == Insert(x, tail);
    }
  }

  /** The sort returns the entries ordered by time, as a permutation of the input, keeping
      the input order of entries with equal times. */
  lemma SortByTimeSpec(s: seq<LyricEntry>)
    ensures SortedByTime(SortByTime(s))
    ensures multiset(SortByTime(s)) == multiset(s)
    ensures |SortByTime(s)| == |s|
    ensures forall tau :: WithTime(SortByTime(s), tau) == WithTime(s, tau)
  {
    SortSorted(s);
    SortPermutes(s);
    forall tau ensures WithTime(SortByTime(s), tau) == WithTime(s, tau) {
      SortStable(s, tau);
    }
  }

  lemma {:induction false} SortSorted(s: seq<LyricEntry>)
    ensures SortedByTime(SortByTime(s))
  {
    if s != [] {
      SortSorted(s[..|s| - 1]);
      InsertSorted(s[|s| - 1], SortByTime(s[..|s| - 1]));
    }
  }

  lemma {:induction false} SortPermutes(s: seq<LyricEntry>)
    ensures multiset(SortByTime(s)) == multiset(s)
    ensures |SortByTime(s)| == |s|
  {
    if s != [] {
      var init, last := s[..|s| - 1], s[|s| - 1];
      SortPermutes(init);
      InsertMultiset(last, SortByTime(init));
      assert s == init + [last];
    }
  }

  lemma {:induction false} SortStable(s: seq<LyricEntry>, tau: real)
    ensures WithTime(SortByTime(s), tau) == WithTime(s, tau)
  {
    if s != [] {
      var init, last := s[..|s| - 1], s[|s| - 1];
      SortStable(init, tau);
      SortSorted(init);
      InsertWithTime(last, SortByTime(init), tau);
      WithTimeAppend(init, [last], tau);
      assert s == init + [last];
      assert [last][1..] == [];
    }
  }

  /** What parseLrc returns, as a function of its input. */
  function LrcEntries(lrc: string): seq<LyricEntry>
  {
    SortByTime(ParsedEntries(SplitLines(lrc)))
  }

  /** parseLrc: split into lines, push the entry of every line that yields one, then sort. */
  method ParseLrc(lrc: string) returns (entries: seq<LyricEntry>)
    ensures entries == LrcEntries(lrc)
    ensures SortedByTime(entries)
    ensures |entries| <= |SplitLines(lrc)|
    ensures multiset(entries) == multiset(ParsedEntries(SplitLines(lrc)))
  {
    var lines := SplitLines(lrc);
    var result: seq<LyricEntry> := [];
    var i := 0;
    while i < |lines|
      invariant 0 <= i <= |lines|
      invariant result == ParsedEntries(lines[..i])
    {
      assert lines[..i + 1][..i] == lines[..i];
      match ParseLine(lines[i]) {
        case Some(e) => result := result + [e];
        case None =>
      }
      i := i + 1;
    }
    assert lines[..i] == lines;
    entries := SortByTime(result);
    SortByTimeSpec(result);
  }

  // ---------------------------------------------------------------------------------------
  // The loader's post-processing

  /** The two placeholder entries shown before a late first lyric. */
  const Intro: seq<LyricEntry> := [LyricEntry(0.0, "..."), LyricEntry(1.0, "(Listening...)")]

  /** After a successful load: an empty parse keeps the current map; a first lyric later than
      2 s gets the intro in front; otherwise the parse is used as is. */
  function WithIntro(parsed: seq<LyricEntry>, current: seq<LyricEntry>): (r: seq<LyricEntry>)
    ensures parsed == [] ==> r == current
    ensures parsed != [] ==> |parsed| <= |r| <= |parsed| + 2 && r[|r| - |parsed|..] == parsed
    ensures parsed != [] ==> r[0].time <= 2.0 || r == parsed
    ensures parsed != [] && parsed[0].time > 2.0 ==>
      r == [LyricEntry(0.0, "..."), LyricEntry(1.0, "(Listening...)")] + parsed
    ensures parsed != [] && parsed[0].time <= 2.0 ==> r == parsed
    ensures SortedByTime(parsed) && SortedByTime(current) ==> SortedByTime(r)
  {
    if |parsed| > 0 then
      if parsed[0].time > 2.0 then Intro + parsed else parsed
    else
      current
  }

  // ---------------------------------------------------------------------------------------
  // handleTimeUpdate's lookup

  /** `[...m].reverse()`. */
  function Reversed(m: seq<LyricEntry>): (r: seq<LyricEntry>)
    ensures |r| == |m|
    ensures forall k :: 0 <= k < |m| ==> r[k] == m[|m| - 1 - k]
  {
    if m == [] then [] else [m[|m| - 1]] + Reversed(m[..|m| - 1])
  }

  /** `.find(item => item.time <= t)`, by position: the first entry at or before t. */
  function FindAtOrBefore(s: seq<LyricEntry>, t: real): (r: Option<nat>)
    ensures r.None? <==> forall k :: 0 <= k < |s| ==> s[k].time > t
    ensures r.Some? ==>
      r.value < |s| && s[r.value].time <= t && forall j :: 0 <= j < r.value ==> s[j].time > t
  {
    if s == [] then None
    else if s[0].time <= t then Some(0)
    else
      match FindAtOrBefore(s[1..], t)
      case None => None
      case Some(k) => Some(k + 1)
  }

  /** The active entry for playback time t: the reverse-find over a copy of the map. */
  function ActiveEntry(m: seq<LyricEntry>, t: real): Option<LyricEntry>
  {
    var rev := Reversed(m);
    match FindAtOrBefore(rev, t)
    case None => None
    case Some(k) => Some(rev[k])
  }

  /** Entry i is the last one at or before t. */
  predicate LastAtOrBefore(m: seq<LyricEntry>, t: real, i: int)
  {
    0 <= i < |m| && m[i].time <= t && forall j :: i < j < |m| ==> m[j].time > t
  }

  /** The reverse-find returns the LAST entry whose time is at or before t, and nothing
      exactly when every entry is later than t. */
  lemma ActiveEntryIsLast(m: seq<LyricEntry>, t: real)
    ensures ActiveEntry(m, t).None? <==> forall j :: 0 <= j < |m| ==> m[j].time > t
    ensures ActiveEntry(m, t).Some? ==>
      exists i :: LastAtOrBefore(m, t, i) && m[i] == ActiveEntry(m, t).value
  {
    var rev := Reversed(m);
    var r := ActiveEntry(m, t);
    if r.None? {
      forall j | 0 <= j < |m| ensures m[j].time > t {
        assert rev[|m| - 1 - j] == m[j];
      }
    } else {
      var k := FindAtOrBefore(rev, t).value;
      var i := |m| - 1 - k;
      forall j | i < j < |m| ensures m[j].time > t {
        assert rev[|m| - 1 - j] == m[j];
      }
      assert LastAtOrBefore(m, t, i);
    }
  }

  /** On a sorted map the active entry is the latest one at or before t. */
  lemma ActiveEntryLatest(m: seq<LyricEntry>, t: real)
    requires SortedByTime(m)
    requires ActiveEntry(m, t).Some?
    ensures ActiveEntry(m, t).value.time <= t
    ensures forall j :: 0 <= j < |m| && m[j].time <= t ==> m[j].time <= ActiveEntry(m, t).value.time
  {
    ActiveEntryIsLast(m, t);
    var i :| LastAtOrBefore(m, t, i) && m[i] == ActiveEntry(m, t).value;
  }

  /** handleTimeUpdate: the current lyric becomes the active entry's text; with no active
      entry it stays (and an equal text changes nothing either). */
  function NextLyric(m: seq<LyricEntry>, t: real, current: string): (r: string)
    ensures ActiveEntry(m, t).None? ==> r == current
    ensures ActiveEntry(m, t).Some? ==> r == ActiveEntry(m, t).value.text
  {
    match ActiveEntry(m, t)
    case Some(e) => if e.text != current then e.text else current
    case None => current
  }
}
