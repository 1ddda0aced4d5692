/**
 * The wordlist loader: every line is trimmed, and the lines that are then
 * empty or start with `#` are dropped; the rest keep their order.
 */
module Wordlist {
  import opened Wrappers
  import Seqs

  /** Rust's `char::is_whitespace`: the Unicode White_Space property. */
  predicate IsWhitespace(c: char) {
    var n := c as int;
    (0x09 <= n <= 0x0D) || n == 0x20 || n == 0x85 || n == 0xA0 || n == 0x1680
    || (0x2000 <= n <= 0x200A) || n == 0x2028 || n == 0x2029 || n == 0x202F
    || n == 0x205F || n == 0x3000
  }

  /** Every character of `s` is whitespace. */
  predicate AllWhitespace(s: string) {
    forall k :: 0 <= k < |s| ==> IsWhitespace(s[k])
  }

  /** Neither end of `s` is a whitespace character. */
  predicate IsTrimmed(s: string) {
    s == [] || (!IsWhitespace(s[0]) && !IsWhitespace(s[|s| - 1]))
  }

  /** `str::trim_start`: the suffix left after the leading whitespace. */
  function TrimStart(s: string): (r: string)
    ensures |r| <= |s| && r == s[|s| - |r|..]
    ensures AllWhitespace(s[..|s| - |r|])
    ensures r != [] ==> !IsWhitespace(r[0])
  {
    if s != [] && IsWhitespace(s[0]) then
      var r := TrimStart(s[1..]);
      assert s[..|s| - |r|] == [s[0]] + s[1..][..|s| - 1 - |r|];
      r
    else s
  }

  /** `str::trim_end`: the prefix left before the trailing whitespace. */
  function TrimEnd(s: string): (r: string)
    ensures |r| <= |s| && r == s[..|r|]
    ensures AllWhitespace(s[|r|..])
    ensures r != [] ==> !IsWhitespace(r[|r| - 1])
  {
    if s != [] && IsWhitespace(s[|s| - 1]) then
      var r := TrimEnd(s[..|s| - 1]);
      assert s[|r|..] == s[..|s| - 1][|r|..] + [s[|s| - 1]];
      r
    else s
  }

  /** `r` is the slice of `s` at offset `i`, with only whitespace around it. */
  predicate SliceAt(s: string, r: string, i: nat) {
    i + |r| <= |s| && r == s[i..i + |r|]
    && AllWhitespace(s[..i]) && AllWhitespace(s[i + |r|..])
  }

  /**
   * A prefix `r` of a suffix `t` of `s`, with only whitespace cut off on
   * each side, is a slice of `s` with only whitespace around it.
   */
  lemma SliceOfSuffix(s: string, t: string, r: string)
    requires |t| <= |s| && t == s[|s| - |t|..] && AllWhitespace(s[..|s| - |t|])
    requires |r| <= |t| && r == t[..|r|] && AllWhitespace(t[|r|..])
    ensures SliceAt(s, r, |s| - |t|)
  {
    var i := |s| - |t|;
    assert s[i..][..|r|] == s[i..i + |r|];
    assert s[i..][|r|..] == s[i + |r|..];
  }

  /** `str::trim`: a trimmed slice of `s` with only whitespace around it. */
  function Trim(s: string): (r: string)
    ensures IsTrimmed(r)
    ensures exists i :: SliceAt(s, r, i)
  {
    var t := TrimStart(s);
    var r := TrimEnd(t);
    assert r != [] ==> r[0] == t[0];
    SliceOfSuffix(s, t, r);
    r
  }

  /** A word the loader keeps: non-empty, trimmed, not a `#` comment. */
  predicate IsWord(w: string) {
    w != [] && IsTrimmed(w) && w[0] != '#'
  }

  /** What the loader makes of one line: its trim, unless that is blank or a comment. */
  function KeepLine(line: string): (r: Option<string>)
    ensures r.Some? <==> IsWord(Trim(line))
    ensures r.Some? ==> r.value == Trim(line)
  {
    var l := Trim(line);
    if l == [] || l[0] == '#' then None else Some(l)
  }

  /** `load_wordlist` on lines that have already been read and decoded. */
  function LoadWordlist(lines: seq<string>): (words: seq<string>)
    ensures |words| <= |lines|
  {
    Seqs.FilterMap(KeepLine, lines)
  }

  /**
   * The loader keeps exactly the lines whose trim is a word, as their
   * trims, in their original relative order.
   */
  lemma LoadWordlistKeeps(lines: seq<string>)
    ensures var words, kept := LoadWordlist(lines), Seqs.Kept(KeepLine, lines);
      |kept| == |words|
      && (forall k, m :: 0 <= k < m < |kept| ==> kept[k] < kept[m])
      && (forall k :: 0 <= k < |kept| ==> kept[k] < |lines| && words[k] == Trim(lines[kept[k]]))
      && (forall j :: 0 <= j < |lines| ==> (j in kept <==> IsWord(Trim(lines[j]))))
  {
    Seqs.FilterMapKept(KeepLine, lines);
  }

  /** Every word the loader returns is non-empty, trimmed and not a comment. */
  lemma LoadWordlistWords(lines: seq<string>)
    ensures forall w :: w in LoadWordlist(lines) ==> IsWord(w)
  {
    var words, kept := LoadWordlist(lines), Seqs.Kept(KeepLine, lines);
    Seqs.FilterMapKept(KeepLine, lines);
    forall k | 0 <= k < |words| ensures IsWord(words[k]) {
      assert KeepLine(lines[kept[k]]) == Some(words[k]);
    }
  }

  /** Trimming a trimmed string changes nothing. */
  lemma TrimTrimmed(s: string)
    requires IsTrimmed(s)
    ensures Trim(s) == s
  {
  }

  /** The loader is idempotent: its output loads to itself. */
  lemma LoadWordlistIdempotent(lines: seq<string>)
    ensures LoadWordlist(LoadWordlist(lines)) == LoadWordlist(lines)
  {
    var words := LoadWordlist(lines);
    LoadWordlistWords(lines);
    forall w | w in words ensures KeepLine(w) == Some(w) {
      TrimTrimmed(w);
    }
    Seqs.FilterMapFixed(KeepLine, words);
  }

  /** Leading whitespace does not change `trim_start`. */
  lemma {:induction false} TrimStartSkipsWhitespace(ws: string, s: string)
    requires AllWhitespace(ws)
    ensures TrimStart(ws + s) == TrimStart(s)
  {
    if ws == [] {
      assert ws + s == s;
    } else {
      assert (ws + s)[1..] == ws[1..] + s;
      TrimStartSkipsWhitespace(ws[1..], s);
    }
  }

  /** `str::trim_end` keeps a first character that is not whitespace. */
  lemma TrimEndKeepsFirst(t: string)
    requires t != [] && !IsWhitespace(t[0])
    ensures TrimEnd(t) != [] && TrimEnd(t)[0] == t[0]
  {
    assert t[0..] == t;
  }

  /** A line whose trim starts with `#` loads to nothing. */
  lemma CommentLineDropped(line: string)
    requires Trim(line) != [] && Trim(line)[0] == '#'
    ensures LoadWordlist([line]) == []
  {
    assert KeepLine(line) == None;
    assert [line][..0] == [];
    assert LoadWordlist([line]) == Seqs.FilterMap(KeepLine, []) + Seqs.ToSeq(KeepLine(line));
  }

  /** Whitespace before a `#` is trimmed away, leaving the `#` first. */
  lemma CommentTrim(ws: string, tail: string)
    requires AllWhitespace(ws)
    requires tail != [] && tail[0] == '#'
    ensures Trim(ws + tail) != [] && Trim(ws + tail)[0] == '#'
  {
    TrimStartSkipsWhitespace(ws, tail);
    assert TrimStart(tail) == tail by {
      assert !IsWhitespace(tail[0]);
    }
    TrimEndKeepsFirst(tail);
  }

  /**
   * The `#` test follows the trim, so an indented comment line is dropped
   * just like one that starts in the first column.
   */
  lemma IndentedCommentDropped(ws: string, rest: string)
    requires AllWhitespace(ws)
    ensures LoadWordlist([ws + "#" + rest]) == []
  {
    var tail := "#" + rest;
    assert ws + "#" + rest == ws + tail;
    CommentTrim(ws, tail);
    CommentLineDropped(ws + tail);
  }

  /** A trim holds no character that the line does not. */
  lemma TrimWithin(s: string, c: char)
    requires c !in s
    ensures c !in Trim(s)
  {
  }

  /** A character that no line holds is in no word either. */
  lemma LoadWordlistWithout(lines: seq<string>, c: char)
    requires forall l :: l in lines ==> c !in l
    ensures forall w :: w in LoadWordlist(lines) ==> c !in w
  {
    var words, kept := LoadWordlist(lines), Seqs.Kept(KeepLine, lines);
    LoadWordlistKeeps(lines);
    forall k | 0 <= k < |words| ensures c !in words[k] {
      assert lines[kept[k]] in lines;
      TrimWithin(lines[kept[k]], c);
    }
  }
}
