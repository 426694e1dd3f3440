/** The element names at the head of a ChemSage data file, as `parseDatabase`
    (python/thermoOptima.py, python/findTransition.py) and the older
    constructor (thermoOptima.py) read them: after the header, the first line
    holding a letter starts the names, three per line in fields 25 wide;
    names that are not chemical elements are dropped. */
module Database {
  import opened Elements

  /** `elLen`. */
  const FieldWidth: nat := 25

  predicate IsAlpha(c: char) {
    ('a' <= c <= 'z') || ('A' <= c <= 'Z')
  }

  predicate HasAlpha(line: string) {
    exists k :: 0 <= k < |line| && IsAlpha(line[k])
  }

  /** The ASCII whitespace `str.strip` removes: blank, tab, the line and
      page breaks, and the separators `\x1c` to `\x1f`. */
  predicate IsSpace(c: char) {
    || c == ' ' || c == '\t' || c == '\n' || c == '\r' || c == '\U{0B}' || c == '\U{0C}'
    || ('\U{1C}' <= c <= '\U{1F}')
  }

  /** `s[lo:hi]` for `0 <= lo`: both ends are cut back to the length. */
  function Slice(s: string, lo: nat, hi: nat): (r: string)
    ensures |r| <= |s|
    ensures lo <= hi && hi <= |s| ==> r == s[lo..hi]
    ensures |s| <= lo ==> r == []
  {
    var a := if lo <= |s| then lo else |s|;
    var b := if hi <= |s| then hi else |s|;
    if a <= b then s[a..b] else []
  }

  /** `s.strip()`. */
  function Strip(s: string): (r: string)
    ensures |r| == 0 || (!IsSpace(r[0]) && !IsSpace(r[|r| - 1]))
    decreases |s|
  {
    if |s| == 0 then s
    else if IsSpace(s[0]) then Strip(s[1..])
    else if IsSpace(s[|s| - 1]) then Strip(s[..|s| - 1])
    else s
  }

  /** Every character of `s[a..b]` is whitespace. */
  predicate Spaces(s: string, a: nat, b: nat)
    requires a <= b <= |s|
  {
    forall k :: a <= k < b ==> IsSpace(s[k])
  }

  /** Stripping removes only surrounding whitespace: the result is the
      piece `s[a..b]` of `s` with nothing but whitespace around it. */
  lemma {:induction false} StripIsPiece(s: string) returns (a: nat, b: nat)
    ensures a <= b <= |s| && Strip(s) == s[a..b]
    ensures Spaces(s, 0, a) && Spaces(s, b, |s|)
    decreases |s|
  {
    if |s| == 0 {
      a, b := 0, 0;
    } else if IsSpace(s[0]) {
      var a', b' := StripIsPiece(s[1..]);
      a, b := a' + 1, b' + 1;
      DropFirst(s, a', b');
    } else if IsSpace(s[|s| - 1]) {
      a, b := StripIsPiece(s[..|s| - 1]);
      DropLast(s, a, b);
    } else {
      a, b := 0, |s|;
    }
  }

  lemma DropFirst(s: string, a: nat, b: nat)
    requires 0 < |s| && IsSpace(s[0]) && a <= b <= |s| - 1
    requires Spaces(s[1..], 0, a) && Spaces(s[1..], b, |s| - 1)
    ensures s[1..][a..b] == s[a + 1..b + 1]
    ensures Spaces(s, 0, a + 1) && Spaces(s, b + 1, |s|)
  {
    var t := s[1..];
    forall k | 0 < k < a + 1 ensures IsSpace(s[k]) {
      assert s[k] == t[k - 1];
    }
    forall k | b + 1 <= k < |s| ensures IsSpace(s[k]) {
      assert s[k] == t[k - 1];
    }
  }

  lemma DropLast(s: string, a: nat, b: nat)
    requires 0 < |s| && IsSpace(s[|s| - 1]) && a <= b <= |s| - 1
    requires Spaces(s[..|s| - 1], 0, a) && Spaces(s[..|s| - 1], b, |s| - 1)
    ensures s[..|s| - 1][a..b] == s[a..b]
    ensures Spaces(s, 0, a) && Spaces(s, b, |s|)
  {
    var t := s[..|s| - 1];
    forall k | 0 <= k < a ensures IsSpace(s[k]) {
      assert s[k] == t[k];
    }
    forall k | b <= k < |s| - 1 ensures IsSpace(s[k]) {
      assert s[k] == t[k];
    }
  }

  /** Stripping twice is stripping once. */
  lemma StripIdempotent(s: string)
    ensures Strip(Strip(s)) == Strip(s)
  {
    var r := Strip(s);
    if |r| > 0 {
      assert !IsSpace(r[0]) && !IsSpace(r[|r| - 1]);
    }
  }

  /** `math.ceil(nElements / 3)` lines of names, none for `nElements <= 0`. */
  function LineCount(nElements: int): (k: nat)
    ensures nElements <= 0 ==> k == 0
    ensures nElements > 0 ==> 3 * k - 3 < nElements <= 3 * k
  {
    if nElements <= 0 then 0 else (nElements + 2) / 3
  }

  /** The line at `k`, or `''` past the end of the file. */
  function LineAt(lines: seq<string>, k: nat): string {
    if k < |lines| then lines[k] else ""
  }

  /** Name `j` of a line of names. */
  function NameField(line: string, j: nat): string
    requires j < 3
  {
    Strip(Slice(line, FieldStart(j), FieldStart(j) + FieldWidth - 1))
  }

  /** The three names of a line of names. */
  function Fields(line: string): (names: seq<string>)
    ensures |names| == 3
  {
    [NameField(line, 0), NameField(line, 1), NameField(line, 2)]
  }

  /** Where field `j` of a line starts: after one leading column, `elLen`
      columns per field (the field ends one column short of the next). */
  function FieldStart(j: nat): (start: nat)
    requires j < 3
    ensures start == 1 + FieldWidth * j
  {
    if j == 0 then 1 else if j == 1 then 1 + FieldWidth else 1 + 2 * FieldWidth
  }

  /** The index of the first line holding a letter. */
  function FirstNamesLine(lines: seq<string>): (k: nat)
    requires exists k :: 0 <= k < |lines| && HasAlpha(lines[k])
    ensures k < |lines| && HasAlpha(lines[k]) && forall i :: 0 <= i < k ==> !HasAlpha(lines[i])
  {
    if HasAlpha(lines[0]) then 0 else 1 + FirstNamesLine(lines[1..])
  }

  /** The names as read: three per line over `LineCount(nElements)` lines from
      `start` on. */
  function Names(lines: seq<string>, start: nat, count: nat): (names: seq<string>)
    ensures |names| == 3 * count
  {
    Chunks(LineFields(lines, start), count)
  }

  /** The fields of the `k`-th line from `start`. */
  function LineFields(lines: seq<string>, start: nat): (f: nat -> seq<string>)
    ensures forall k :: |f(k)| == 3
  {
    var f := (k: nat) => Fields(LineAt(lines, start + k));
    assert forall k: nat :: f(k) == Fields(LineAt(lines, start + k));
    f
  }

  /** `f(0) + f(1) + ... + f(count - 1)`. */
  function Chunks<T>(f: nat -> seq<T>, count: nat): (r: seq<T>)
    ensures (forall k :: |f(k)| == 3) ==> |r| == 3 * count
    decreases count
  {
    if count == 0 then [] else Chunks(f, count - 1) + f(count - 1)
  }

  /** Items `3 * i` to `3 * i + 2` of the chunks are chunk `i`. */
  lemma {:induction false} ChunkAt<T>(f: nat -> seq<T>, count: nat, i: nat)
    requires forall k :: |f(k)| == 3
    requires i < count
    ensures Chunks(f, count)[3 * i..3 * i + 3] == f(i)
    decreases count
  {
    var front := Chunks(f, count - 1);
    if i < count - 1 {
      ChunkAt(f, count - 1, i);
      assert (front + f(count - 1))[3 * i..3 * i + 3] == front[3 * i..3 * i + 3];
    } else {
      assert (front + f(count - 1))[3 * i..3 * i + 3] == f(count - 1);
    }
  }

  /** Names `3 * i` to `3 * i + 2` are the three fields of line
      `start + i`. */
  lemma NamesAt(lines: seq<string>, start: nat, count: nat, i: nat)
    requires i < count
    ensures Names(lines, start, count)[3 * i..3 * i + 3] == Fields(LineAt(lines, start + i))
  {
    ChunkAt(LineFields(lines, start), count, i);
  }

  /** The names that are listed in `table`, in order. */
  function Known(names: seq<string>, table: seq<string>): (r: seq<string>)
    ensures forall x :: x in r <==> x in names && x in table
    decreases |names|
  {
    if |names| == 0 then []
    else
      var front := Known(names[..|names| - 1], table);
      assert names == names[..|names| - 1] + [names[|names| - 1]];
      if names[|names| - 1] in table then front + [names[|names| - 1]] else front
  }

  /** `list(filter(lambda a: a != el, elements))`. */
  function Without(names: seq<string>, el: string): (r: seq<string>)
    ensures forall x :: x in r <==> x in names && x != el
    decreases |names|
  {
    if |names| == 0 then []
    else
      var front := Without(names[..|names| - 1], el);
      assert names == names[..|names| - 1] + [names[|names| - 1]];
      if names[|names| - 1] != el then front + [names[|names| - 1]] else front
  }

  /** Removing a name that is not listed does not change which listed names
      are kept. */
  lemma {:induction false} WithoutUnknown(names: seq<string>, el: string, table: seq<string>)
    requires el !in table
    ensures Known(Without(names, el), table) == Known(names, table)
    decreases |names|
  {
    if |names| > 0 {
      var front := names[..|names| - 1];
      WithoutUnknown(front, el, table);
      if names[|names| - 1] != el {
        assert (Without(front, el) + [names[|names| - 1]])[..|Without(front, el)|] == Without(front, el);
      }
    }
  }

  /** A list of names that are all listed is kept whole. */
  lemma {:induction false} KnownOfKnown(names: seq<string>, table: seq<string>)
    requires forall x :: x in names ==> x in table
    ensures Known(names, table) == names
    decreases |names|
  {
    if |names| > 0 {
      KnownOfKnown(names[..|names| - 1], table);
      assert names == names[..|names| - 1] + [names[|names| - 1]];
    }
  }

  /** The element names of a data file whose lines after the header are
      `lines`, when the header announces `nElements`, checked against the
      symbols of `table`. */
  function ElementNames(lines: seq<string>, nElements: int, table: seq<string>): seq<string>
    requires exists k :: 0 <= k < |lines| && HasAlpha(lines[k])
  {
    Known(Names(lines, FirstNamesLine(lines), LineCount(nElements)), table)
  }

  /** The names kept are listed symbols read from the name lines (names
      `3 * i` to `3 * i + 2` are the fields of line `i`, by `NamesAt`), and
      every name read that is a listed symbol is kept. */
  lemma ElementNamesFacts(lines: seq<string>, nElements: int, table: seq<string>)
    requires exists k :: 0 <= k < |lines| && HasAlpha(lines[k])
    ensures var names := Names(lines, FirstNamesLine(lines), LineCount(nElements));
      && (forall x :: x in ElementNames(lines, nElements, table) ==> x in table && x in names)
      && (forall p :: 0 <= p < |names| ==> (names[p] in ElementNames(lines, nElements, table) <==> names[p] in table))
  {
  }

  /** The reading loop: skip to the first line with a letter, take three
      fields per line, then drop every name that is not in `table`, one
      `filter` per unknown name. */
  method ParseNames(lines: seq<string>, nElements: int, table: seq<string>) returns (elements: seq<string>)
    requires exists k :: 0 <= k < |lines| && HasAlpha(lines[k])
    ensures elements == ElementNames(lines, nElements, table)
  {
    var start := SkipToNames(lines);
    var read := ReadNames(lines, start, LineCount(nElements));
    elements := DropUnknown(read, table);
  }

  /** `while True: line = f.readline(); if any(c.isalpha() ...): break`. */
  method SkipToNames(lines: seq<string>) returns (k: nat)
    requires exists k :: 0 <= k < |lines| && HasAlpha(lines[k])
    ensures k == FirstNamesLine(lines)
  {
    k := 0;
    while !HasAlpha(lines[k])
      invariant k <= FirstNamesLine(lines)
      decreases FirstNamesLine(lines) - k
    {
      k := k + 1;
    }
  }

  /** The two nested `for` loops: three fields of each line, then the next
      line (`''` once the file is exhausted). */
  method ReadNames(lines: seq<string>, start: nat, count: nat) returns (read: seq<string>)
    ensures read == Names(lines, start, count)
  {
    read := [];
    var k := start;
    var els := LineAt(lines, k);
    for i := 0 to count
      invariant k == start + i
      invariant read == Chunks(LineFields(lines, start), i)
      invariant els == LineAt(lines, k)
    {
      var fields := LineNames(els);
      read := read + fields;
      k := k + 1;
      els := if k < |lines| then lines[k] else "";
    }
  }

  /** `for j in range(3)`: the three fields of one line. */
  method LineNames(els: string) returns (fields: seq<string>)
    ensures fields == Fields(els)
  {
    fields := [];
    for j := 0 to 3
      invariant |fields| == j
      invariant forall f :: 0 <= f < j ==> fields[f] == NameField(els, f)
    {
      fields := fields + [NameField(els, j)];
    }
  }

  /** `for el in self.elements:` over the list as read; each name that is
      not in `table` is filtered out of the current list. */
  method DropUnknown(read: seq<string>, table: seq<string>) returns (elements: seq<string>)
    ensures elements == Known(read, table)
  {
    elements := read;
    for n := 0 to |read|
      invariant Known(elements, table) == Known(read, table)
      invariant forall x :: x in read[..n] && x !in table ==> x !in elements
      invariant forall x :: x in elements ==> x in read
    {
      var el := read[n];
      if el !in table {
        WithoutUnknown(elements, el, table);
        elements := Without(elements, el);
      }
    }
    assert read[..|read|] == read;
    KnownOfKnown(elements, table);
  }

  /** `parseDatabase` with the periodic table of the programs. */
  method ParseDatabase(lines: seq<string>, nElements: int) returns (elements: seq<string>)
    requires exists k :: 0 <= k < |lines| && HasAlpha(lines[k])
    ensures elements == ElementNames(lines, nElements, AtomicNumberMap)
  {
    elements := ParseNames(lines, nElements, AtomicNumberMap);
  }
}
