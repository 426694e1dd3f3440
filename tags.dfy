/** The coefficient tags of a data file: every `<name>` found by the regular
    expression `<([^>]*)>`, line by line, then deduplicated keeping the first
    occurrence (`list(dict.fromkeys(tags))`). */
module Tags {
  import opened Common

  /** The index of the first `c` in `s` at or after `from`, or `|s|`. */
  function Next(s: string, from: nat, c: char): (k: nat)
    requires from <= |s|
    ensures from <= k <= |s|
    ensures k < |s| ==> s[k] == c
    decreases |s| - from
  {
    if from == |s| || s[from] == c then from else Next(s, from + 1, c)
  }

  /** No `c` stands between `from` and the index `Next` returns, so that
      index is the first `c`. */
  lemma {:induction false} NextFirst(s: string, from: nat, c: char)
    requires from <= |s|
    ensures forall j :: from <= j < Next(s, from, c) ==> s[j] != c
    decreases |s| - from
  {
    if from < |s| && s[from] != c {
      NextFirst(s, from + 1, c);
    }
  }

  /** `re.findall('<([^>]*)>', line)` from position `from` on: the text
      between each `<` and the first `>` after it; matches do not overlap. */
  function Matches(line: string, from: nat): (tags: seq<string>)
    requires from <= |line|
    ensures forall t :: t in tags ==> '>' !in t
    decreases |line| - from
  {
    var open := Next(line, from, '<');
    if open == |line| then []
    else
      var close := Next(line, open + 1, '>');
      if close == |line| then []
      else
        var tag := line[open + 1..close];
        TagHasNoClose(line, open, close);
        [tag] + Matches(line, close + 1)
  }

  /** The text up to the first `>` holds no `>`. */
  lemma TagHasNoClose(line: string, open: nat, close: nat)
    requires open < |line| && close == Next(line, open + 1, '>')
    ensures '>' !in line[open + 1..close]
  {
    NextFirst(line, open + 1, '>');
    var tag := line[open + 1..close];
    assert forall j :: 0 <= j < |tag| ==> tag[j] == line[open + 1 + j];
  }

  /** `t` stands between a `<` at `i` and the `>` right after it. */
  predicate EnclosedAt(line: string, i: nat, t: string) {
    i + |t| + 2 <= |line| && line[i] == '<' && line[i + 1..i + 1 + |t|] == t && line[i + 1 + |t|] == '>'
  }

  /** Each match is enclosed in `<` and `>` in the line. */
  lemma {:induction false} MatchesEnclosed(line: string, from: nat, t: string)
    requires from <= |line| && t in Matches(line, from)
    ensures exists i :: from <= i && EnclosedAt(line, i, t)
    decreases |line| - from
  {
    var open := Next(line, from, '<');
    var close := Next(line, open + 1, '>');
    if t == line[open + 1..close] {
      assert EnclosedAt(line, open, t);
    } else {
      MatchesEnclosed(line, close + 1, t);
    }
  }

  /** A line without `<` has no tags. */
  lemma {:induction false} NoOpenNoTags(line: string, from: nat)
    requires from <= |line| && forall j :: from <= j < |line| ==> line[j] != '<'
    ensures Matches(line, from) == []
  {
    assert Next(line, from, '<') == |line|;
  }

  /** The first match is the text between the first `<` from `from` on and
      the first `>` after it; the search then resumes after that `>`. */
  lemma MatchesFirst(line: string, from: nat, i: nat, j: nat)
    requires from <= i < j < |line| && line[i] == '<' && line[j] == '>'
    requires forall k :: from <= k < i ==> line[k] != '<'
    requires forall k :: i < k < j ==> line[k] != '>'
    ensures Matches(line, from) == [line[i + 1..j]] + Matches(line, j + 1)
  {
    NextFirst(line, from, '<');
    assert Next(line, from, '<') == i;
    NextFirst(line, i + 1, '>');
    assert Next(line, i + 1, '>') == j;
  }

  /** A line has a match from `from` on exactly when a `<` there is followed
      later by a `>`. */
  lemma SomeMatchIff(line: string, from: nat)
    requires from <= |line|
    ensures Matches(line, from) != [] <==>
      exists i, j :: from <= i < j < |line| && line[i] == '<' && line[j] == '>'
  {
    if Matches(line, from) != [] {
      MatchHasPair(line, from);
    }
    if exists i, j :: from <= i < j < |line| && line[i] == '<' && line[j] == '>' {
      var i, j :| from <= i < j < |line| && line[i] == '<' && line[j] == '>';
      PairHasMatch(line, from, i, j);
    }
  }

  lemma MatchHasPair(line: string, from: nat)
    requires from <= |line| && Matches(line, from) != []
    ensures exists i, j :: from <= i < j < |line| && line[i] == '<' && line[j] == '>'
  {
    var t := Matches(line, from)[0];
    MatchesEnclosed(line, from, t);
    var i :| from <= i && EnclosedAt(line, i, t);
    assert line[i] == '<' && line[i + 1 + |t|] == '>';
  }

  lemma PairHasMatch(line: string, from: nat, i: nat, j: nat)
    requires from <= i < j < |line| && line[i] == '<' && line[j] == '>'
    ensures Matches(line, from) != []
  {
    var open := Next(line, from, '<');
    NextFirst(line, from, '<');
    NextFirst(line, open + 1, '>');
  }

  /** The tags of all lines, in order, repetitions included. */
  function AllTags(lines: seq<string>): seq<string>
    decreases |lines|
  {
    if |lines| == 0 then [] else AllTags(lines[..|lines| - 1]) + Matches(lines[|lines| - 1], 0)
  }

  /** Keep the first occurrence of each tag. */
  function Dedup(s: seq<string>): (d: seq<string>)
    decreases |s|
  {
    if |s| == 0 then []
    else
      var front := Dedup(s[..|s| - 1]);
      if s[|s| - 1] in s[..|s| - 1] then front else front + [s[|s| - 1]]
  }

  /** The deduplicated tags are exactly the tags, each once, in order of
      first occurrence. */
  lemma {:induction false} DedupFacts(s: seq<string>)
    ensures Distinct(Dedup(s))
    ensures forall x :: x in Dedup(s) <==> x in s
    ensures forall a, b :: 0 <= a < b < |Dedup(s)| ==> IndexOf(s, Dedup(s)[a]) < IndexOf(s, Dedup(s)[b])
    decreases |s|
  {
    if |s| > 0 {
      var front := s[..|s| - 1];
      var last := s[|s| - 1];
      DedupFacts(front);
      var d := Dedup(s);
      forall x | x in front ensures IndexOf(s, x) == IndexOf(front, x) {
        PrefixIndex(front, s, x);
      }
      if last !in front {
        assert forall x :: x in s <==> x in front || x == last;
        assert IndexOf(s, last) == |s| - 1;
      } else {
        assert forall x :: x in s <==> x in front;
      }
    }
  }

  lemma {:induction false} PrefixIndex(p: seq<string>, s: seq<string>, x: string)
    requires |p| <= |s| && p == s[..|p|] && x in p
    ensures x in s && IndexOf(s, x) == IndexOf(p, x)
  {
    if p[0] != x {
      assert p[1..] == s[1..][..|p| - 1];
      PrefixIndex(p[1..], s[1..], x);
    }
  }

  /** The `for line in data: tags.extend(...)` loop. */
  method ExtractTags(lines: seq<string>) returns (tags: seq<string>)
    ensures tags == AllTags(lines)
  {
    tags := [];
    for i := 0 to |lines|
      invariant tags == AllTags(lines[..i])
    {
      assert lines[..i + 1][..i] == lines[..i];
      tags := tags + Matches(lines[i], 0);
    }
    assert lines[..|lines|] == lines;
  }

  /** `list(dict.fromkeys(tags))`: insert each tag unless already present. */
  method UniqueTags(tags: seq<string>) returns (unique: seq<string>)
    ensures unique == Dedup(tags)
  {
    unique := [];
    for i := 0 to |tags|
      invariant unique == Dedup(tags[..i])
    {
      DedupFacts(tags[..i]);
      assert tags[..i + 1][..i] == tags[..i];
      if tags[i] !in unique {
        unique := unique + [tags[i]];
      }
    }
    assert tags[..|tags|] == tags;
  }
}
