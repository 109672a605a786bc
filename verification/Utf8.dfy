/** Sizes in UTF-8 bytes. */
module Utf8 {
  import opened Lines

  function CharSize(c: char): (n: nat)
    ensures 1 <= n <= 4
  {
    if c < '\U{80}' then 1 else if c < '\U{800}' then 2 else if c < '\U{10000}' then 3 else 4
  }

  /** `body_size` */
  function Size(s: string): nat {
    if s == "" then 0 else CharSize(s[0]) + Size(s[1..])
  }

  lemma {:induction false} SizeOfConcat(a: string, b: string)
    ensures Size(a + b) == Size(a) + Size(b)
  {
    if a != "" {
      SizeOfConcat(a[1..], b);
      assert (a + b)[1..] == a[1..] + b;
    } else {
      assert a + b == b;
    }
  }

  lemma {:induction false} AsciiSize(s: string)
    requires forall c <- s :: c < '\U{80}'
    ensures Size(s) == |s|
  {
    if s == "" {
    } else {
      assert s[0] in s && forall c <- s[1..] :: c in s;
      AsciiSize(s[1..]);
    }
  }

  lemma {:induction false} SizeIsBounded(s: string)
    ensures Size(s) <= 4 * |s|
  {
    if s == "" {
    } else {
      SizeIsBounded(s[1..]);
    }
  }

  /** Every line with its line feed. */
  function LinesSize(lines: seq<string>): nat {
    if lines == [] then 0 else Size(lines[0]) + 1 + LinesSize(lines[1..])
  }

  lemma {:induction false} LinesSizeOfConcat(a: seq<string>, b: seq<string>)
    ensures LinesSize(a + b) == LinesSize(a) + LinesSize(b)
  {
    if a != [] {
      LinesSizeOfConcat(a[1..], b);
      assert (a + b)[1..] == a[1..] + b;
    } else {
      assert a + b == b;
    }
  }

  lemma {:induction false} SizeOfJoin(lines: seq<string>)
    requires lines != []
    ensures Size(Join(lines)) + 1 == LinesSize(lines)
  {
    if |lines| <= 1 {
    } else {
      SizeOfJoin(lines[1..]);
      SizeOfConcat(lines[0] + "\n", Join(lines[1..]));
      SizeOfConcat(lines[0], "\n");
      assert Join(lines) == lines[0] + "\n" + Join(lines[1..]);
      assert Size("\n") == 1;
    }
  }

  lemma LastOfConcat(a: string, b: string)
    requires b != ""
    ensures (a + b)[|a + b| - 1] == b[|b| - 1]
  {
  }

  lemma {:induction false} JoinEndsWithLast(lines: seq<string>)
    requires lines != [] && lines[|lines| - 1] != ""
    ensures Join(lines) != ""
    ensures Join(lines)[|Join(lines)| - 1] == lines[|lines| - 1][|lines[|lines| - 1]| - 1]
  {
    if |lines| <= 1 {
      assert Join(lines) == lines[0];
    } else {
      var rest := lines[1..];
      JoinEndsWithLast(rest);
      assert rest[|rest| - 1] == lines[|lines| - 1];
      assert Join(lines) == (lines[0] + "\n") + Join(rest);
      LastOfConcat(lines[0] + "\n", Join(rest));
    }
  }

  /** A finished text that does not end in blank lines is its lines, each with a line feed. */
  lemma SizeOfFinish(lines: seq<string>)
    requires lines != [] && lines[|lines| - 1] != ""
    requires lines[|lines| - 1][|lines[|lines| - 1]| - 1] != '\n'
    ensures Size(Finish(lines)) == LinesSize(lines)
  {
    JoinEndsWithLast(lines);
    SizeOfJoin(lines);
    SizeOfConcat(Join(lines), "\n");
    assert Size("\n") == 1;
  }
}
