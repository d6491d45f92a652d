/** Concrete runs of the chunker. */
module ChunkerExamples {
  import opened Text
  import opened Chunker

  /** `n` copies of `c`. */
  function Repeat(c: char, n: nat): string
  {
    seq(n, _ => c)
  }

  lemma IntroMethodsLines(x: string, y: string)
    requires x == Repeat('x', 501) && y == Repeat('y', 10)
    ensures Split("# Intro\n" + x + "\n# Methods\n" + y, '\n') == ["# Intro", x, "# Methods", y]
  {
    var lines := ["# Intro", x, "# Methods", y];
    assert Join(["# Methods", y], "\n") == "# Methods\n" + y by { assert ["# Methods", y][1..] == [y]; }
    assert Join([x, "# Methods", y], "\n") == x + "\n# Methods\n" + y by {
      assert [x, "# Methods", y][1..] == ["# Methods", y];
    }
    assert Join(lines, "\n") == "# Intro\n" + x + "\n# Methods\n" + y by {
      assert lines[1..] == [x, "# Methods", y];
    }
    SplitJoin(lines, '\n');
  }

  lemma IntroMethodsFold(x: string, y: string)
    requires x == Repeat('x', 501) && y == Repeat('y', 10)
    ensures Fold(Buffer([], ""), ["# Intro", x, "# Methods", y])
            == Buffer(["# Intro\n" + x + "\n"], "# Methods\n" + y + "\n")
  {
    var c1 := "# Intro\n" + x + "\n";
    var c2 := "# Methods\n" + y + "\n";
    var b1 := Buffer([], "# Intro\n");
    var b2 := Buffer([], c1);
    var b3 := Buffer([c1], "# Methods\n");
    var b4 := Buffer([c1], c2);
    assert Step(Buffer([], ""), "# Intro") == b1;
    assert Step(b1, x) == b2 by { assert !IsHeading(x); assert |c1| == 510; }
    assert Step(b2, "# Methods") == b3;
    assert Step(b3, y) == b4 by { assert !IsHeading(y); }
    assert Fold(b3, [y]) == b4 by { assert [y][1..] == []; }
    assert Fold(b2, ["# Methods", y]) == b4 by { assert ["# Methods", y][1..] == [y]; }
    assert Fold(b1, [x, "# Methods", y]) == b4 by { assert [x, "# Methods", y][1..] == ["# Methods", y]; }
    assert ["# Intro", x, "# Methods", y][1..] == [x, "# Methods", y];
  }

  /**
   * "# Intro\n" + 501 x's + "\n# Methods\n" + 10 y's: the buffer is past 500
   * characters when "# Methods" arrives, so the text splits there into two chunks.
   */
  lemma IntroMethodsExample()
    ensures var x, y := Repeat('x', 501), Repeat('y', 10);
            Chunks("# Intro\n" + x + "\n# Methods\n" + y)
            == ["# Intro\n" + x + "\n", "# Methods\n" + y + "\n"]
  {
    var x, y := Repeat('x', 501), Repeat('y', 10);
    var md := "# Intro\n" + x + "\n# Methods\n" + y;
    var c1 := "# Intro\n" + x + "\n";
    var c2 := "# Methods\n" + y + "\n";
    IntroMethodsLines(x, y);
    IntroMethodsFold(x, y);
    assert Group(md) == [c1, c2];
    assert c1[0] == '#' && c2[0] == '#';
    TrimNonEmpty(c1);
    TrimNonEmpty(c2);
    KeepNonBlankOne(c2);
    assert KeepNonBlank([c1, c2]) == [c1] + KeepNonBlank([c2]) by { assert [c1, c2][1..] == [c2]; }
  }

  lemma OverlongLines(a: string, b: string)
    requires a == Repeat('a', 3400) && b == Repeat('b', 200)
    ensures Split(a + "\n" + b, '\n') == [a, b]
  {
    var lines := [a, b];
    assert Join(lines, "\n") == a + "\n" + b by { assert lines[1..] == [b]; }
    SplitJoin(lines, '\n');
  }

  lemma OverlongFold(a: string, b: string)
    requires a == Repeat('a', 3400) && b == Repeat('b', 200)
    ensures Fold(Buffer([], ""), [a, b]) == Buffer([a + "\n" + b + "\n"], "")
  {
    var c := a + "\n" + b + "\n";
    var b1 := Buffer([], a + "\n");
    assert Step(Buffer([], ""), a) == b1 by { assert !IsHeading(a); }
    assert Step(b1, b) == Buffer([c], "") by { assert !IsHeading(b); assert |c| == 3602; }
    assert Fold(b1, [b]) == Buffer([c], "") by { assert [b][1..] == []; }
    assert [a, b][1..] == [b];
  }

  /**
   * A 3400-character line followed by a 200-character line gives one chunk of
   * 3602 characters although no line is longer than 3500: the size check runs
   * after a line is appended.
   */
  lemma OverlongChunkExample()
    ensures var a, b := Repeat('a', 3400), Repeat('b', 200);
            && (forall i :: 0 <= i < |Split(a + "\n" + b, '\n')| ==> |Split(a + "\n" + b, '\n')[i]| <= HardMax)
            && Chunks(a + "\n" + b) == [a + "\n" + b + "\n"]
            && |a + "\n" + b + "\n"| == 3602
  {
    var a, b := Repeat('a', 3400), Repeat('b', 200);
    var c := a + "\n" + b + "\n";
    OverlongLines(a, b);
    OverlongFold(a, b);
    assert Group(a + "\n" + b) == [c];
    assert c[0] == 'a';
    TrimNonEmpty(c);
    KeepNonBlankOne(c);
  }
}
