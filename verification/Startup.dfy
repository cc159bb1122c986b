/** The managed line in a shell's startup file: appended by the installer, removed by the uninstaller. */
module Startup {
  import opened Types

  const MARKER := "# shellbell managed integration"

  predicate Contains(s: string, part: string) {
    part <= s || (s != "" && Contains(s[1..], part))
  }

  /** The first line feed, or the length of the text. */
  function LineEnd(t: string): (i: nat)
    ensures i <= |t| && '\n' !in t[..i] && (i < |t| ==> t[i] == '\n')
  {
    if t == "" || t[0] == '\n' then 0 else
      var i := 1 + LineEnd(t[1..]);
      assert t[..i] == [t[0]] + t[1..][..i - 1];
      i
  }

  function StripReturn(s: string): string {
    if s != "" && s[|s| - 1] == '\r' then s[..|s| - 1] else s
  }

  /** str::lines: a carriage return is dropped only before a line feed. */
  function Lines(t: string): (lines: seq<string>)
    decreases |t|
  {
    if t == "" then [] else
      var i := LineEnd(t);
      if i == |t| then [t] else [StripReturn(t[..i])] + Lines(t[i + 1..])
  }

  predicate HasCrLf(t: string) { exists i :: 0 <= i < |t| - 1 && t[i] == '\r' && t[i + 1] == '\n' }

  function Newline(t: string): string { if HasCrLf(t) then "\r\n" else "\n" }

  predicate EndsLine(t: string) { t == "" || t[|t| - 1] == '\n' }

  /** What precedes the appended line: the text, its last line completed. */
  function Completed(t: string): string { if EndsLine(t) then t else t + Newline(t) }

  function Appended(t: string, line: string): string { Completed(t) + line + Newline(t) }

  function Unmanaged(lines: seq<string>): seq<string> {
    if lines == [] then [] else
      (if Contains(lines[0], MARKER) then [] else [lines[0]]) + Unmanaged(lines[1..])
  }

  function Join(lines: seq<string>, newline: string): string {
    if lines == [] then "" else if |lines| == 1 then lines[0] else lines[0] + newline + Join(lines[1..], newline)
  }

  function Removed(t: string): string {
    var output := Join(Unmanaged(Lines(t)), Newline(t));
    if t != "" && EndsLine(t) && output != "" then output + Newline(t) else output
  }

  predicate HasMarker(t: string) { exists line :: line in Lines(t) && Contains(line, MARKER) }

  // ----- lines -----

  /** Every line terminated. */
  function Terminated(lines: seq<string>, newline: string): string {
    if lines == [] then "" else lines[0] + newline + Terminated(lines[1..], newline)
  }

  lemma {:induction false} LineEndOf(s: string, rest: string)
    requires '\n' !in s
    ensures LineEnd(s + "\n" + rest) == |s|
    ensures LineEnd(s) == |s|
  {
    if s == "" {
    } else {
      assert s == [s[0]] + s[1..];
      LineEndOf(s[1..], rest);
      assert (s + "\n" + rest)[1..] == s[1..] + "\n" + rest;
    }
  }

  lemma FirstLine(s: string, rest: string)
    requires '\n' !in s
    ensures Lines(s + "\n" + rest) == [StripReturn(s)] + Lines(rest)
  {
    LineEndOf(s, rest);
    var t := s + "\n" + rest;
    assert t[..|s|] == s && t[|s| + 1..] == rest;
  }

  /** A text is its first line, a line feed and the rest, or has no line feed. */
  lemma Split(t: string) returns (s: string, rest: string)
    requires '\n' in t
    ensures '\n' !in s && t == s + "\n" + rest && |rest| < |t|
  {
    var i := LineEnd(t);
    assert t[..|t|] == t;
    s, rest := t[..i], t[i + 1..];
  }

  lemma Associate<T>(a: seq<T>, b: seq<T>, c: seq<T>)
    ensures a + (b + c) == a + b + c
  {
  }

  /** Appending to complete lines appends the lines. */
  lemma {:induction false} LinesAppend(t: string, more: string)
    requires EndsLine(t)
    ensures Lines(t + more) == Lines(t) + Lines(more)
    decreases |t|
  {
    if t == "" {
      assert t + more == more;
      assert Lines(t) + Lines(more) == Lines(more);
    } else {
      var s, rest := Split(t);
      assert t[|t| - 1] == '\n' && (rest != "" ==> rest[|rest| - 1] == t[|t| - 1]);
      LinesAppend(rest, more);
      FirstLine(s, rest);
      FirstLine(s, rest + more);
      hide *;
      Associate(s + "\n", rest, more);
      Associate([StripReturn(s)], Lines(rest), Lines(more));
    }
  }

  lemma {:induction false} LinesHaveNoLineFeed(t: string)
    ensures forall line :: line in Lines(t) ==> '\n' !in line
    decreases |t|
  {
    if '\n' in t {
      var s, rest := Split(t);
      FirstLine(s, rest);
      LinesHaveNoLineFeed(rest);
    } else if t != "" {
      LineEndOf(t, "");
    }
  }

  lemma {:induction false} PrefixContains(s: string, n: nat, part: string)
    requires n <= |s| && Contains(s[..n], part)
    ensures Contains(s, part)
    decreases |s|
  {
    if !(part <= s[..n]) {
      assert s[..n][1..] == s[1..][..n - 1];
      PrefixContains(s[1..], n - 1, part);
    }
  }

  // ----- line endings -----

  /** Every line feed follows a carriage return. */
  predicate AllCrLf(t: string) { forall i :: 0 <= i < |t| && t[i] == '\n' ==> i > 0 && t[i - 1] == '\r' }

  /** One line-ending style throughout. */
  predicate Uniform(t: string) { !HasCrLf(t) || AllCrLf(t) }

  lemma CrLfConcat(x: string, y: string)
    ensures HasCrLf(x + y) <==> HasCrLf(x) || HasCrLf(y) || (x != "" && y != "" && x[|x| - 1] == '\r' && y[0] == '\n')
  {
    var t, n := x + y, |x|;
    if i :| 0 <= i < |t| - 1 && t[i] == '\r' && t[i + 1] == '\n' {
      if i + 1 < n {
        assert x[i] == '\r' && x[i + 1] == '\n';
      } else if n <= i {
        var j := i - n;
        assert y[j] == '\r' && y[j + 1] == '\n';
      }
    }
    if i :| 0 <= i < n - 1 && x[i] == '\r' && x[i + 1] == '\n' {
      assert t[i] == '\r' && t[i + 1] == '\n';
    }
    if j :| 0 <= j < |y| - 1 && y[j] == '\r' && y[j + 1] == '\n' {
      var i := j + n;
      assert t[i] == '\r' && t[i + 1] == '\n';
    }
    if x != "" && y != "" && x[n - 1] == '\r' && y[0] == '\n' {
      var i := n - 1;
      assert t[i] == '\r' && t[i + 1] == '\n';
    }
  }

  lemma NoCrLfInRest(s: string, rest: string)
    requires !HasCrLf(s + "\n" + rest)
    ensures StripReturn(s) == s && !HasCrLf(rest)
  {
    CrLfConcat(s, "\n");
    CrLfConcat(s + "\n", rest);
  }

  lemma AllCrLfConcat(x: string, y: string)
    requires AllCrLf(x) && AllCrLf(y)
    ensures AllCrLf(x + y)
  {
    var t := x + y;
    forall i | 0 <= i < |t| && t[i] == '\n' ensures i > 0 && t[i - 1] == '\r' {
      if |x| <= i {
        assert y[i - |x|] == '\n';
      } else {
        assert x[i] == '\n';
      }
    }
  }

  lemma AllCrLfInRest(s: string, rest: string)
    requires AllCrLf(s + "\n" + rest)
    ensures StripReturn(s) + "\r\n" == s + "\n" && AllCrLf(rest)
  {
    var t := s + "\n" + rest;
    assert t[|s|] == '\n' && |s| > 0 && t[|s| - 1] == s[|s| - 1];
    forall i | 0 <= i < |rest| && rest[i] == '\n' ensures i > 0 && rest[i - 1] == '\r' {
      var j := i + |s| + 1;
      assert t[j] == '\n' && t[j - 1] == '\r';
    }
  }

  lemma {:induction false} TerminatedLines(t: string, newline: string)
    requires EndsLine(t)
    requires (newline == "\n" && !HasCrLf(t)) || (newline == "\r\n" && AllCrLf(t))
    ensures Terminated(Lines(t), newline) == t
    decreases |t|
  {
    if t == "" {
    } else {
      var s, rest := Split(t);
      FirstLine(s, rest);
      if newline == "\n" {
        NoCrLfInRest(s, rest);
      } else {
        AllCrLfInRest(s, rest);
      }
      TerminatedLines(rest, newline);
      hide Lines, HasCrLf, AllCrLf;
      assert ([StripReturn(s)] + Lines(rest))[1..] == Lines(rest);
      assert Terminated([StripReturn(s)] + Lines(rest), newline) == StripReturn(s) + newline + rest;
    }
  }

  lemma {:induction false} TerminatedIsAllCrLf(lines: seq<string>)
    requires forall line :: line in lines ==> '\n' !in line
    ensures AllCrLf(Terminated(lines, "\r\n"))
  {
    if lines == [] {
    } else {
      TerminatedIsAllCrLf(lines[1..]);
      var first, rest := lines[0], Terminated(lines[1..], "\r\n");
      assert first in lines;
      AllCrLfConcat(first, "\r\n");
      AllCrLfConcat(first + "\r\n", rest);
    }
  }

  // ----- removing -----

  lemma {:induction false} JoinTerminates(lines: seq<string>, newline: string)
    requires newline != ""
    ensures lines != [] ==> Join(lines, newline) + newline == Terminated(lines, newline)
    ensures Join(lines, newline) == "" <==> lines == [] || lines == [""]
  {
    if |lines| > 1 {
      JoinTerminates(lines[1..], newline);
      assert lines[0] + newline + Join(lines[1..], newline) + newline == lines[0] + newline + (Join(lines[1..], newline) + newline);
    }
  }

  lemma {:induction false} UnmanagedKeepsAll(lines: seq<string>)
    requires forall line :: line in lines ==> !Contains(line, MARKER)
    ensures Unmanaged(lines) == lines
  {
    if lines == [] {
    } else {
      assert lines[0] in lines;
      assert forall line :: line in lines[1..] ==> line in lines;
      UnmanagedKeepsAll(lines[1..]);
      hide Contains;
      assert lines == [lines[0]] + lines[1..];
    }
  }

  lemma {:induction false} UnmanagedAppend(a: seq<string>, b: seq<string>)
    ensures Unmanaged(a + b) == Unmanaged(a) + Unmanaged(b)
  {
    hide Contains;
    if a == [] {
      assert a + b == b;
    } else {
      UnmanagedAppend(a[1..], b);
      assert (a + b)[1..] == a[1..] + b && (a + b)[0] == a[0];
      var first := if Contains(a[0], MARKER) then [] else [a[0]];
      assert Unmanaged(a) == first + Unmanaged(a[1..]);
      assert Unmanaged(a + b) == first + Unmanaged(a[1..] + b);
      hide Unmanaged;
      Associate(first, Unmanaged(a[1..]), Unmanaged(b));
    }
  }

  // ----- the round trip -----

  /** A line the installer writes: marked, without a line feed, and not ending in a carriage return. */
  predicate IsManaged(line: string) {
    Contains(line, MARKER) && '\n' !in line && StripReturn(line) == line
  }

  lemma OneLine(line: string, newline: string)
    requires '\n' !in line && StripReturn(line) == line && (newline == "\n" || newline == "\r\n")
    ensures Lines(line + newline) == [line]
  {
    LastLine(line, newline);
  }

  /** A terminated last line. */
  lemma LastLine(s: string, newline: string)
    requires '\n' !in s && (newline == "\n" || newline == "\r\n")
    ensures Lines(s + newline) == [if newline == "\n" then StripReturn(s) else s]
  {
    var body := if newline == "\n" then s else s + "\r";
    FirstLine(body, "");
    hide Lines, LineEnd;
    assert body + "\n" + "" == s + newline;
    assert StripReturn(s + "\r") == s;
    NoLines();
  }

  lemma NoLines()
    ensures Lines("") == []
  {
  }

  /** The lines of the text are kept, and the appended line is the last one. */
  lemma AppendedLines(t: string, line: string)
    requires '\n' !in line && StripReturn(line) == line
    ensures Lines(Appended(t, line)) == Lines(Completed(t)) + [line]
  {
    LinesAppend(Completed(t), line + Newline(t));
    OneLine(line, Newline(t));
    Associate(Completed(t), line, Newline(t));
  }

  /** Completing the last line at most drops a carriage return from it. */
  lemma {:induction false} CompletedLines(t: string, newline: string)
    requires !EndsLine(t) && (newline == "\n" || newline == "\r\n")
    ensures |Lines(t + newline)| == |Lines(t)| > 0
    ensures forall k :: 0 <= k < |Lines(t)| ==> Lines(t + newline)[k] <= Lines(t)[k]
    decreases |t|
  {
    if '\n' in t {
      var s, rest := Split(t);
      assert EndsLine(s + "\n" + rest) <==> EndsLine(rest);
      CompletedLines(rest, newline);
      FirstLine(s, rest);
      FirstLine(s, rest + newline);
      hide *;
      Associate(s + "\n", rest, newline);
    } else {
      LineEndOf(t, "");
      LastLine(t, newline);
    }
  }

  lemma CompletedHasNoMarker(t: string)
    requires !HasMarker(t)
    ensures forall line :: line in Lines(Completed(t)) ==> !Contains(line, MARKER)
  {
    if !EndsLine(t) {
      hide Contains, Lines;
      CompletedLines(t, Newline(t));
      forall line | line in Lines(Completed(t)) ensures !Contains(line, MARKER) {
        var k :| 0 <= k < |Lines(Completed(t))| && Lines(Completed(t))[k] == line;
        var whole := Lines(t)[k];
        assert whole in Lines(t) && line == whole[..|line|];
        if Contains(line, MARKER) { PrefixContains(whole, |line|, MARKER); }
      }
    }
  }

  /** Appending a managed line does not change which style the text seems to have. */
  lemma SameNewline(t: string, line: string)
    requires IsManaged(line)
    ensures HasCrLf(Appended(t, line)) <==> HasCrLf(Completed(t))
    ensures EndsLine(Appended(t, line)) && Appended(t, line) != ""
  {
    hide Contains;
    var c := Completed(t);
    CrLfConcat(t, Newline(t));
    CrLfConcat(c, line);
    CrLfConcat(c + line, Newline(t));
    assert !HasCrLf(line);
    assert line != "" ==> line[0] in line && (c + line)[|c + line| - 1] == line[|line| - 1];
  }

  /** What is left when the managed line is removed again. */
  lemma RemovedAppended(t: string, line: string)
    requires IsManaged(line) && !HasMarker(t)
    ensures var c := Completed(t);
            Removed(Appended(t, line)) == if Lines(c) == [] || Lines(c) == [""] then "" else Terminated(Lines(c), Newline(c))
  {
    var c, a := Completed(t), Appended(t, line);
    AppendedLines(t, line);
    CompletedHasNoMarker(t);
    UnmanagedKeepsAll(Lines(c));
    UnmanagedAppend(Lines(c), [line]);
    assert Unmanaged([line]) == [];
    assert Unmanaged(Lines(a)) == Lines(c);
    SameNewline(t, line);
    JoinTerminates(Lines(c), Newline(c));
  }

  lemma BlankLines(c: string)
    requires EndsLine(c)
    ensures Lines(c) == [] <==> c == ""
    ensures Lines(c) == [""] <==> c == "\n" || c == "\r\n"
  {
    if c != "" {
      var s, rest := Split(c);
      FirstLine(s, rest);
      if Lines(c) == [""] {
        assert Lines(c)[0] == StripReturn(s) && |Lines(c)| == 1 + |Lines(rest)|;
        assert s == "" || s == "\r";
      }
      if c == "\n" || c == "\r\n" {
        assert c[|s|] == '\n' && rest == c[|s| + 1..];
        assert s == c[..|s|];
      }
    }
  }

  /** Every line is one of the others, up to its end. */
  ghost predicate PrefixesOf(lines: seq<string>, wholes: seq<string>) {
    forall line :: line in lines ==> exists whole :: whole in wholes && line <= whole
  }

  lemma PrefixesAppend(line: string, lines: seq<string>, wholes: seq<string>)
    requires wholes != [] && line <= wholes[0] && PrefixesOf(lines, wholes[1..])
    ensures PrefixesOf([line] + lines, wholes)
  {
    forall x | x in [line] + lines ensures exists whole :: whole in wholes && x <= whole {
      if x in lines {
        var whole :| whole in wholes[1..] && x <= whole;
        assert whole in wholes;
      } else {
        assert wholes[0] in wholes;
      }
    }
  }

  /** The lines of a text are those it was put together from, up to a carriage return at the end of each. */
  lemma {:induction false} TextLines(lines: seq<string>, newline: string, terminated: bool)
    requires newline == "\n" || newline == "\r\n"
    requires forall line :: line in lines ==> '\n' !in line
    ensures PrefixesOf(Lines(if terminated then Terminated(lines, newline) else Join(lines, newline)), lines)
  {
    if lines == [] {
    } else {
      var first, rest := lines[0], lines[1..];
      assert first in lines;
      if |lines| == 1 && !terminated {
        LineEndOf(first, "");
        assert Lines(first) == if first == "" then [] else [first];
        PrefixesAppend(first, [], lines);
      } else {
        TextLines(rest, newline, terminated);
        LastLine(first, newline);
        var more := if terminated then Terminated(rest, newline) else Join(rest, newline);
        LinesAppend(first + newline, more);
        var text := if terminated then Terminated(lines, newline) else Join(lines, newline);
        assert text == first + newline + more;
        hide *;
        var line := if newline == "\n" then StripReturn(first) else first;
        PrefixesAppend(line, Lines(more), lines);
      }
    }
  }

  lemma Unmarked(lines: seq<string>, wholes: seq<string>)
    requires PrefixesOf(lines, wholes) && forall whole :: whole in wholes ==> !Contains(whole, MARKER)
    ensures forall line :: line in lines ==> !Contains(line, MARKER)
  {
    forall line | line in lines && Contains(line, MARKER) ensures false {
      var whole :| whole in wholes && line <= whole;
      assert line == whole[..|line|];
      PrefixContains(whole, |line|, MARKER);
    }
  }

  /** Whatever the text, no managed line survives removal. */
  lemma RemovalLeavesNone(t: string)
    ensures !HasMarker(Removed(t))
  {
    var kept := Unmanaged(Lines(t));
    LinesHaveNoLineFeed(t);
    UnmanagedSelects(Lines(t));
    JoinTerminates(kept, Newline(t));
    TextLines(kept, Newline(t), false);
    TextLines(kept, Newline(t), true);
    Unmarked(Lines(Removed(t)), kept);
  }

  lemma {:induction false} UnmanagedSelects(lines: seq<string>)
    ensures forall line :: line in Unmanaged(lines) ==> line in lines && !Contains(line, MARKER)
  {
    if lines == [] {
    } else {
      UnmanagedSelects(lines[1..]);
    }
  }

  /**
   For every text without a managed line: removing an appended managed line returns the text, with its last line
   completed, exactly if that has one line-ending style throughout and is not a single blank line.
   */
  lemma RoundTripExactly(t: string, line: string)
    requires IsManaged(line) && !HasMarker(t)
    ensures var c := Completed(t);
            Removed(Appended(t, line)) == c <==> c == "" || (Uniform(c) && c != "\n" && c != "\r\n")
    ensures var c := Completed(t);
            c == "\n" || c == "\r\n" ==> Removed(Appended(t, line)) == ""
  {
    var c := Completed(t);
    RemovedAppended(t, line);
    BlankLines(c);
    if Uniform(c) {
      TerminatedLines(c, Newline(c));
    } else {
      LinesHaveNoLineFeed(c);
      TerminatedIsAllCrLf(Lines(c));
    }
  }

  /** A text in one style that ends with a line feed, or is empty, comes back as it was. */
  lemma RoundTrip(t: string, line: string)
    requires IsManaged(line) && !HasMarker(t) && Uniform(t) && EndsLine(t) && t != "\n" && t != "\r\n"
    ensures Removed(Appended(t, line)) == t
  {
    RoundTripExactly(t, line);
  }

  /** A text in one style whose last line is not terminated comes back with that line terminated in its style. */
  lemma RoundTripUnterminated(t: string, line: string)
    requires IsManaged(line) && !HasMarker(t) && Uniform(t) && !EndsLine(t) && t[|t| - 1] != '\r'
    ensures Removed(Appended(t, line)) == t + Newline(t)
  {
    var c := t + Newline(t);
    CrLfConcat(t, Newline(t));
    if HasCrLf(t) {
      assert c == t + "\r\n";
      assert AllCrLf(c);
    }
    RoundTripExactly(t, line);
  }

  /** An appended line is found again exactly if it has no line feed. */
  lemma Detectable(t: string, line: string)
    requires StripReturn(line) == line
    ensures line in Lines(Appended(t, line)) <==> '\n' !in line
  {
    if '\n' !in line {
      AppendedLines(t, line);
    } else {
      LinesHaveNoLineFeed(Appended(t, line));
    }
  }

  // ----- the installer's line -----

  /** A path in single quotes, with each quote inside it closed, escaped and reopened. */
  function Quoted(path: string): string {
    if path == "" then "" else (if path[0] == '\'' then "'\\''" else [path[0]]) + Quoted(path[1..])
  }

  function SourceLine(path: string): string { "source '" + Quoted(path) + "' " + MARKER }

  lemma {:induction false} QuotedLineFeeds(path: string)
    ensures '\n' in Quoted(path) <==> '\n' in path
  {
    if path == "" {
    } else {
      QuotedLineFeeds(path[1..]);
      assert path == [path[0]] + path[1..];
    }
  }

  lemma {:induction false} SuffixContains(s: string, part: string)
    ensures Contains(s + part, part)
  {
    if s == "" {
      assert s + part == part;
    } else {
      SuffixContains(s[1..], part);
      assert (s + part)[1..] == s[1..] + part;
    }
  }

  /**
   What a shell makes of a word of quoted text and escaped characters, as sections 2.2.1 and 2.2.2 of the POSIX Shell
   Command Language have it: nothing, if a quote is left open or anything else comes between the quotes.
   */
  function Word(s: string, inQuotes: bool): Option<string> {
    if s == "" then (if inQuotes then None else Some(""))
    else if s[0] == '\'' then Word(s[1..], !inQuotes)
    else if inQuotes then Prepended(s[0], Word(s[1..], true))
    else if s[0] == '\\' && |s| >= 2 && s[1] != '\n' then Prepended(s[1], Word(s[2..], false))
    else None
  }

  function Prepended(c: char, s: Option<string>): Option<string> { if s.Some? then Some([c] + s.value) else None }

  lemma {:induction false} QuotedReadsBack(path: string)
    ensures Word(Quoted(path) + "'", true) == Some(path)
  {
    if path == "" {
      assert Word("'", true) == Word("", false);
    } else {
      QuotedReadsBack(path[1..]);
      var more := Quoted(path[1..]) + "'";
      if path[0] == '\'' {
        EscapedQuote(more);
        assert Quoted(path) + "'" == "'\\''" + more;
      } else {
        assert (Quoted(path) + "'")[1..] == more;
      }
      assert path == [path[0]] + path[1..];
    }
  }

  lemma EscapedQuote(more: string)
    ensures Word("'\\''" + more, true) == Prepended('\'', Word(more, true))
  {
    var s := "'\\''" + more;
    var inner, open := "\\''" + more, "'" + more;
    assert s[1..] == inner && inner[2..] == open && open[1..] == more;
    assert s[0] == '\'' && Word(s, true) == Word(inner, false);
    assert inner[0] == '\\' && inner[1] == '\'' && Word(inner, false) == Prepended('\'', Word(open, false));
    assert open[0] == '\'' && Word(open, false) == Word(more, true);
  }

  /** The installer's line is the command, the path as one word of the shell, whatever is in it, and the marker. */
  lemma SourceLineNamesPath(path: string) returns (word: string)
    ensures SourceLine(path) == "source " + word + " # shellbell managed integration" && Word(word, false) == Some(path)
  {
    word := "'" + (Quoted(path) + "'");
    QuotedReadsBack(path);
    OpenedWord(Quoted(path) + "'");
    hide Word;
    WordInLine(Quoted(path), MARKER);
    hide Quoted;
    assert SourceLine(path) == "source '" + Quoted(path) + "' " + MARKER;
    assert " " + MARKER == " # shellbell managed integration";
  }

  lemma OpenedWord(more: string)
    ensures Word("'" + more, false) == Word(more, true)
  {
    assert ("'" + more)[1..] == more && ("'" + more)[0] == '\'';
  }

  lemma WordInLine(quoted: string, marker: string)
    ensures "source '" + quoted + "' " + marker == "source " + ("'" + (quoted + "'")) + (" " + marker)
  {
    assert "source '" == "source " + "'" && "' " == "'" + " ";
    Associates("source ", "'", quoted, "'", " ", marker);
  }

  lemma Associates(a: string, b: string, c: string, d: string, e: string, f: string)
    ensures (a + b) + c + (d + e) + f == a + (b + (c + d)) + (e + f)
  {
  }

  /** The installer's line is one it can find and remove again, unless the path itself has a line feed. */
  lemma SourceLineIsManaged(path: string)
    ensures IsManaged(SourceLine(path)) <==> '\n' !in path
  {
    QuotedLineFeeds(path);
    var before := "source '" + Quoted(path) + "' ";
    SuffixContains(before, MARKER);
    hide Contains, Quoted;
    assert SourceLine(path) == before + MARKER;
    assert '\n' !in MARKER && '\n' !in "source '" && '\n' !in "' ";
  }

  // ----- the file -----

  datatype Failure = NoSuchFile

  datatype Result = Done | Failed(error: Failure)

  class StartupFile {
    var content: Option<string>

    constructor (initial: Option<string>)
      ensures content == initial
    {
      content := initial;
    }

    method ContainsLine(expected: string) returns (found: bool)
      ensures found <==> content.Some? && expected in Lines(content.value)
    {
      if content.None? {
        return false;
      }
      return expected in Lines(content.value);
    }

    /** The write is made in steps; a missing file is created. */
    method AppendLine(line: string)
      modifies this
      ensures content == Some(Appended(if old(content).Some? then old(content).value else "", line))
    {
      var existing := if content.Some? then content.value else "";
      var newline := if HasCrLf(existing) then "\r\n" else "\n";
      var file := existing;
      if existing != "" && !EndsLine(existing) {
        file := file + newline;
      }
      file := file + line;
      file := file + newline;
      content := Some(file);
    }

    method RemoveManagedLines() returns (r: Result)
      modifies this
      ensures old(content).None? ==> r == Failed(NoSuchFile) && content == old(content)
      ensures old(content).Some? ==> r == Done && content == Some(Removed(old(content).value))
    {
      if content.None? {
        return Failed(NoSuchFile);
      }
      var text := content.value;
      var newline := if HasCrLf(text) then "\r\n" else "\n";
      var hadFinalNewline := text != "" && text[|text| - 1] == '\n';
      var retained := Unmanaged(Lines(text));
      var output := Join(retained, newline);
      if hadFinalNewline && output != "" {
        output := output + newline;
      }
      content := Some(output);
      return Done;
    }
  }
}
