/**
 * The output file: one line written per recorded name, and the reading of
 * newline-delimited text back into lines.
 */
module Output {
  /** The text of the file after writing each of `lines` followed by a newline. */
  function Serialise(lines: seq<string>): (text: string)
    ensures |text| >= |lines|
    ensures lines != [] ==> text[|text| - 1] == '\n'
  {
    if lines == [] then [] else lines[0] + "\n" + Serialise(lines[1..])
  }

  /** Writing one more line appends it and its newline to the text. */
  lemma {:induction false} SerialiseSnoc(lines: seq<string>, line: string)
    ensures Serialise(lines + [line]) == Serialise(lines) + line + "\n"
  {
    if lines == [] {
      assert [line][1..] == [];
      assert Serialise([line]) == line + "\n" + Serialise([]);
    } else {
      var head, tail := lines[0], lines[1..];
      assert (lines + [line])[0] == head;
      assert (lines + [line])[1..] == tail + [line];
      assert Serialise(lines + [line]) == head + "\n" + Serialise(tail + [line]);
      SerialiseSnoc(tail, line);
      assert Serialise(lines) == head + "\n" + Serialise(tail);
    }
  }

  /** The length of the first line of `text`: the position of its first newline, or `|text|`. */
  function LineEnd(text: string): (i: nat)
    ensures i <= |text|
    ensures forall k :: 0 <= k < i ==> text[k] != '\n'
    ensures i < |text| ==> text[i] == '\n'
  {
    if text == [] || text[0] == '\n' then 0 else 1 + LineEnd(text[1..])
  }

  /**
   * Newline-delimited text as lines: the pieces between newlines, where a
   * final newline ends the last line rather than starting an empty one.
   */
  function SplitLines(text: string): (lines: seq<string>)
    ensures forall l :: l in lines ==> '\n' !in l
    decreases |text|
  {
    if text == [] then []
    else
      var i := LineEnd(text);
      [text[..i]] + (if i == |text| then [] else SplitLines(text[i + 1..]))
  }

  /** The first line of `line + "\n" + rest` is `line`, when `line` holds no newline. */
  lemma {:induction false} LineEndAt(line: string, rest: string)
    requires '\n' !in line
    ensures LineEnd(line + "\n" + rest) == |line|
  {
    if line != [] {
      assert line[0] in line;
      assert (line + "\n" + rest)[1..] == line[1..] + "\n" + rest;
      assert forall c :: c in line[1..] ==> c in line;
      LineEndAt(line[1..], rest);
    }
  }

  /** Splitting `line + "\n" + rest` yields `line`, then the lines of `rest`. */
  lemma SplitLinesCons(line: string, rest: string)
    requires '\n' !in line
    ensures SplitLines(line + "\n" + rest) == [line] + SplitLines(rest)
  {
    var text := line + "\n" + rest;
    LineEndAt(line, rest);
    assert text[..|line|] == line;
    assert text[|line| + 1..] == rest;
  }

  /** Reading the written file back gives the list of names exactly. */
  lemma {:induction false} SplitSerialise(lines: seq<string>)
    requires forall l :: l in lines ==> '\n' !in l
    ensures SplitLines(Serialise(lines)) == lines
  {
    if lines != [] {
      var line, tail := lines[0], lines[1..];
      assert line in lines;
      SplitLinesCons(line, Serialise(tail));
      assert forall l :: l in tail ==> l in lines;
      SplitSerialise(tail);
      assert lines == [line] + tail;
    }
  }

  /** A file opened with `File::create`: what has been written to it so far. */
  class OutputFile {
    var contents: string

    /** Creating the file truncates it. */
    constructor Create()
      ensures contents == []
    {
      contents := [];
    }

    /** Write one line: its text, then a newline. */
    method WriteLine(line: string)
      modifies this
      ensures contents == old(contents) + line + "\n"
    {
      contents := contents + line + "\n";
    }
  }

  /** Create the output file and write the results into it in list order. */
  method SaveResults(results: seq<string>) returns (file: OutputFile)
    ensures fresh(file)
    ensures file.contents == Serialise(results)
  {
    file := new OutputFile.Create();
    var i := 0;
    while i < |results|
      invariant 0 <= i <= |results|
      invariant file.contents == Serialise(results[..i])
    {
      file.WriteLine(results[i]);
      SerialiseSnoc(results[..i], results[i]);
      assert results[..i + 1] == results[..i] + [results[i]];
      i := i + 1;
    }
    assert results[..|results|] == results;
  }
}
