/** Text as lines: `str.splitlines` on line feeds, `"\n".join`, and the scripts'
    `join(...).rstrip("\n") + "\n"`. */
module Lines {
  import opened Versions

  predicate OneLine(s: string) {
    '\n' !in s
  }

  predicate AllOneLine(lines: seq<string>) {
    forall line <- lines :: OneLine(line)
  }

  function SplitLines(text: string): (lines: seq<string>)
    ensures AllOneLine(lines)
    ensures text != "" ==> lines != []
    decreases |text|
  {
    if text == "" then []
    else
      var i := IndexOf(text, '\n');
      if i == |text| then [text] else [text[..i]] + SplitLines(text[i + 1..])
  }

  function Join(lines: seq<string>): string {
    if lines == [] then ""
    else if |lines| == 1 then lines[0]
    else lines[0] + "\n" + Join(lines[1..])
  }

  /** `rstrip("\n")` */
  function RStrip(text: string): string {
    if text != "" && text[|text| - 1] == '\n' then RStrip(text[..|text| - 1]) else text
  }

  /** How every rewritten file ends. */
  function Finish(lines: seq<string>): string {
    RStrip(Join(lines)) + "\n"
  }

  /** The lines without the empty ones at the end. */
  function Trimmed(lines: seq<string>): (r: seq<string>)
    ensures r <= lines
    ensures r != [] ==> r[|r| - 1] != ""
  {
    if lines != [] && lines[|lines| - 1] == "" then Trimmed(lines[..|lines| - 1]) else lines
  }

  lemma {:induction false} JoinSnoc(lines: seq<string>, last: string)
    ensures Join(lines + [last]) == if lines == [] then last else Join(lines) + "\n" + last
  {
    if |lines| == 0 {
    } else {
      JoinSnoc(lines[1..], last);
      assert (lines + [last])[1..] == lines[1..] + [last];
    }
  }

  lemma {:induction false} RStripOfJoin(lines: seq<string>)
    requires AllOneLine(lines)
    ensures RStrip(Join(lines)) == Join(Trimmed(lines))
  {
    if lines == [] {
    } else {
      var init, last := lines[..|lines| - 1], lines[|lines| - 1];
      assert lines == init + [last];
      JoinSnoc(init, last);
      if last == "" {
        RStripOfJoin(init);
        if init != [] {
          assert Join(lines)[..|Join(lines)| - 1] == Join(init);
        }
      } else {
        assert last in lines && last[|last| - 1] in last;
        assert Join(lines)[|Join(lines)| - 1] == last[|last| - 1];
      }
    }
  }

  /** A first line and what follows it. */
  lemma SplitCons(line: string, rest: string)
    requires OneLine(line)
    ensures SplitLines(line + "\n" + rest) == [line] + SplitLines(rest)
  {
    assert line + "\n" + rest == line + ['\n'] + rest;
    IndexOfConcat(line, '\n', rest);
  }

  lemma SplitNothing()
    ensures SplitLines("") == []
  {
  }

  lemma {:induction false} SplitOfJoin(lines: seq<string>)
    requires AllOneLine(lines) && lines != []
    ensures SplitLines(Join(lines) + "\n") == lines
  {
    hide SplitLines;
    assert lines[0] in lines;
    if |lines| == 1 {
      SplitCons(lines[0], "");
      assert Join(lines) + "\n" == lines[0] + "\n" + "";
      SplitNothing();
    } else {
      SplitOfJoin(lines[1..]);
      SplitCons(lines[0], Join(lines[1..]) + "\n");
      assert Join(lines) + "\n" == lines[0] + "\n" + (Join(lines[1..]) + "\n");
    }
  }

  /** Reading back a finished file gives its lines, less the empty ones at its end. */
  lemma SplitOfFinish(lines: seq<string>)
    requires AllOneLine(lines) && Trimmed(lines) != []
    ensures SplitLines(Finish(lines)) == Trimmed(lines)
  {
    RStripOfJoin(lines);
    SplitOfJoin(Trimmed(lines));
  }

  lemma {:induction false} FinishIgnoresTrailingBlanks(lines: seq<string>)
    requires AllOneLine(lines)
    ensures Finish(lines + [""]) == Finish(lines)
  {
    assert (lines + [""])[..|lines|] == lines;
    RStripOfJoin(lines);
    RStripOfJoin(lines + [""]);
  }

  /** `part in text` */
  predicate Contains(text: string, part: string) {
    exists i | 0 <= i <= |text| :: part <= text[i..]
  }

  lemma {:induction false} RStripIsShorter(s: string)
    ensures |RStrip(s)| <= |s|
  {
    if s == "" || s[|s| - 1] != '\n' {
    } else {
      RStripIsShorter(s[..|s| - 1]);
    }
  }
}
