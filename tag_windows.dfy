/** The tag tables behind the two `TagWindow`s: python/dataThermoOptima.py keeps
    initial values, an optimize flag and a scale per tag and edits one tag at a
    time; optimaData.py keeps `[[v1, v2], optimize]` per tag and reads all of
    them on Accept. */
module TagWindows {
  import opened Common
  import opened Outcomes
  import opened Tags

  /** `{'initial': [v1, v2], 'optimize': flag, 'scale': s}`. */
  datatype TagSettings = TagSettings(initial: Guess, optimize: bool, scale: real)

  /** What a new tag starts with, and what 'Reset to Defaults' restores. */
  const Default := TagSettings(Guess(0.0, 0.0), true, 1.0)

  /** The Update event: the fields are stored in the order value 1, value 2,
      optimize, scale; a blank number field keeps the stored value, and the
      first number that does not parse stops the update there. */
  function Updated(s: TagSettings, in1: Field<real>, in2: Field<real>, optimize: bool, scale: Field<real>): (r: TagSettings)
    ensures in1.Unparseable? ==> r == s
    ensures !in1.Unparseable? && in2.Unparseable? ==>
      r == s.(initial := s.initial.(first := if in1.Parsed? then in1.value else s.initial.first))
    ensures !in1.Unparseable? && !in2.Unparseable? ==>
      r.initial.first == (if in1.Parsed? then in1.value else s.initial.first)
      && r.initial.second == (if in2.Parsed? then in2.value else s.initial.second)
      && r.optimize == optimize
      && r.scale == (if scale.Parsed? then scale.value else s.scale)
  {
    match in1
    case Unparseable => s
    case Blank => AfterValue1(s, in2, optimize, scale)
    case Parsed(v) => AfterValue1(s.(initial := s.initial.(first := v)), in2, optimize, scale)
  }

  function AfterValue1(s: TagSettings, in2: Field<real>, optimize: bool, scale: Field<real>): TagSettings {
    match in2
    case Unparseable => s
    case Blank => AfterValue2(s, optimize, scale)
    case Parsed(v) => AfterValue2(s.(initial := s.initial.(second := v)), optimize, scale)
  }

  function AfterValue2(s: TagSettings, optimize: bool, scale: Field<real>): TagSettings {
    match scale
    case Parsed(v) => s.(optimize := optimize, scale := v)
    case _ => s.(optimize := optimize)
  }

  /** Blank fields and an unchanged flag leave the stored settings as they
      are. */
  lemma {:induction false} BlankUpdateKeeps(s: TagSettings)
    ensures Updated(s, Blank, Blank, s.optimize, Blank) == s
  {
    var r := Updated(s, Blank, Blank, s.optimize, Blank);
    assert r.initial == s.initial;
  }

  /** The field-by-field update of one entry: each parsed field is stored,
      a blank one keeps the stored value, and the first field that does not
      parse ends the update. */
  method UpdateEntry(s0: TagSettings, in1: Field<real>, in2: Field<real>, optimize: bool, scale: Field<real>)
    returns (s: TagSettings)
    ensures s == Updated(s0, in1, in2, optimize, scale)
  {
    s := s0;
    if in1.Unparseable? {
      return;
    } else if in1.Parsed? {
      s := s.(initial := s.initial.(first := in1.value));
    }
    if in2.Unparseable? {
      return;
    } else if in2.Parsed? {
      s := s.(initial := s.initial.(second := in2.value));
    }
    s := s.(optimize := optimize);
    if scale.Unparseable? {
      return;
    } else if scale.Parsed? {
      s := s.(scale := scale.value);
    }
  }

  /** The newer tag table, one window per data file. */
  class TagWindow {
    var tags: seq<string>
    var settings: map<string, TagSettings>
    var tag: string

    ghost predicate Valid()
      reads this
    {
      |tags| > 0 && Distinct(tags) && (forall t :: t in settings <==> t in tags) && tag in tags
    }

    /** `TagWindow.__init__`: one entry per distinct tag of the data file, in
        order of first appearance, each with the default settings; the first
        tag is selected. A file without tags makes the window fail before it
        opens, so at least one tag is required. */
    constructor(lines: seq<string>)
      requires AllTags(lines) != []
      ensures Valid()
      ensures tags == Dedup(AllTags(lines)) && tag == tags[0]
      ensures forall t :: t in tags ==> settings[t] == Default
    {
      var found := ExtractTags(lines);
      DedupFacts(found);
      var unique := UniqueTags(found);
      assert found[0] in unique;
      var table := map[];
      for i := 0 to |unique|
        invariant forall t :: t in table <==> t in unique[..i]
        invariant forall t :: t in table ==> table[t] == Default
      {
        table := table[unique[i] := Default];
      }
      assert unique[..|unique|] == unique;
      tags, settings, tag := unique, table, unique[0];
    }

    /** The Update button (and the two radio buttons) for the selected tag.
        The source writes the entry back after each field; only the last
        write stays visible, so it is written once here. */
    method Update(in1: Field<real>, in2: Field<real>, optimize: bool, scale: Field<real>)
      requires Valid()
      modifies this`settings
      ensures Valid()
      ensures settings == old(settings)[tag := Updated(old(settings)[tag], in1, in2, optimize, scale)]
    {
      var s := UpdateEntry(settings[tag], in1, in2, optimize, scale);
      settings := settings[tag := s];
    }

    /** Choosing a tag in the list selects it. */
    method Select(choice: string)
      requires Valid() && choice in tags
      modifies this
      ensures Valid() && tags == old(tags) && settings == old(settings) && tag == choice
    {
      tag := choice;
    }

    /** 'Reset to Defaults' for the selected tag. */
    method Reset()
      requires Valid()
      modifies this
      ensures Valid() && tags == old(tags) && tag == old(tag)
      ensures settings == old(settings)[tag := Default]
    {
      settings := settings[tag := Default];
    }
  }

  /** `[[v1, v2], optimize]` in the older table. */
  datatype LegacyTag = LegacyTag(values: Guess, optimize: bool)

  /** The two value fields and the Optimize radio button of one row. */
  datatype TagInput = TagInput(in1: Field<real>, in2: Field<real>, optimize: bool)

  /** A blank value field means 0. */
  function ValueOrZero(f: Field<real>): (r: Option<real>)
    ensures r.None? <==> f.Unparseable?
    ensures f.Parsed? ==> r == Some(f.value)
    ensures f.Blank? ==> r == Some(0.0)
  {
    match f
    case Blank => Some(0.0)
    case Parsed(v) => Some(v)
    case Unparseable => None
  }

  predicate Parses(input: TagInput) {
    !input.in1.Unparseable? && !input.in2.Unparseable?
  }

  /** The number of leading rows that parse: Accept stops at the first other. */
  function ParsedPrefix(inputs: seq<TagInput>): (k: nat)
    ensures k <= |inputs|
    ensures forall i :: 0 <= i < k ==> Parses(inputs[i])
    ensures k < |inputs| ==> !Parses(inputs[k])
  {
    if |inputs| == 0 || !Parses(inputs[0]) then 0 else 1 + ParsedPrefix(inputs[1..])
  }

  function Entry(input: TagInput): LegacyTag
    requires Parses(input)
  {
    LegacyTag(Guess(ValueOrZero(input.in1).value, ValueOrZero(input.in2).value), input.optimize)
  }

  /** The table after the first `k` rows have been stored. */
  function StoredRows(entries: map<string, LegacyTag>, tags: seq<string>, inputs: seq<TagInput>, k: nat): (r: map<string, LegacyTag>)
    requires |inputs| == |tags| && k <= ParsedPrefix(inputs)
    ensures r.Keys == entries.Keys + set i | 0 <= i < k :: tags[i]
    decreases k
  {
    if k == 0 then entries else StoredRows(entries, tags, inputs, k - 1)[tags[k - 1] := Entry(inputs[k - 1])]
  }

  /** With distinct tags, row `i` ends up in `tags[i]` when it was stored, and
      every other tag keeps its entry. */
  lemma {:induction false} StoredRowsContents(entries: map<string, LegacyTag>, tags: seq<string>, inputs: seq<TagInput>, k: nat)
    requires |inputs| == |tags| && k <= ParsedPrefix(inputs) && Distinct(tags)
    ensures forall i :: 0 <= i < k ==> StoredRows(entries, tags, inputs, k)[tags[i]] == Entry(inputs[i])
    ensures forall t :: t in entries && t !in tags[..k] ==> StoredRows(entries, tags, inputs, k)[t] == entries[t]
  {
    StoredRowsStored(entries, tags, inputs, k);
    StoredRowsKept(entries, tags, inputs, k);
  }

  lemma {:induction false} StoredRowsStored(entries: map<string, LegacyTag>, tags: seq<string>, inputs: seq<TagInput>, k: nat)
    requires |inputs| == |tags| && k <= ParsedPrefix(inputs) && Distinct(tags)
    ensures forall i :: 0 <= i < k ==> StoredRows(entries, tags, inputs, k)[tags[i]] == Entry(inputs[i])
  {
    forall i | 0 <= i < k
      ensures StoredRows(entries, tags, inputs, k)[tags[i]] == Entry(inputs[i])
    {
      StoredRowAt(entries, tags, inputs, k, i);
    }
  }

  lemma {:induction false} StoredRowAt(entries: map<string, LegacyTag>, tags: seq<string>, inputs: seq<TagInput>, k: nat, i: nat)
    requires |inputs| == |tags| && k <= ParsedPrefix(inputs) && Distinct(tags) && i < k
    ensures StoredRows(entries, tags, inputs, k)[tags[i]] == Entry(inputs[i])
    decreases k
  {
    if i < k - 1 {
      StoredRowAt(entries, tags, inputs, k - 1, i);
      assert tags[i] != tags[k - 1];
    }
  }

  lemma {:induction false} StoredRowsKept(entries: map<string, LegacyTag>, tags: seq<string>, inputs: seq<TagInput>, k: nat)
    requires |inputs| == |tags| && k <= ParsedPrefix(inputs)
    ensures forall t :: t in entries && t !in tags[..k] ==> StoredRows(entries, tags, inputs, k)[t] == entries[t]
    decreases k
  {
    if k > 0 {
      StoredRowsKept(entries, tags, inputs, k - 1);
      assert tags[..k] == tags[..k - 1] + [tags[k - 1]];
    }
  }

  /** Storing rows of a table that already holds every tag adds no key. */
  lemma StoredRowsKeys(entries: map<string, LegacyTag>, tags: seq<string>, inputs: seq<TagInput>, k: nat)
    requires |inputs| == |tags| && k <= ParsedPrefix(inputs)
    requires forall t :: t in entries <==> t in tags
    ensures forall t :: t in StoredRows(entries, tags, inputs, k) <==> t in tags
  {
  }

  /** The older tag table. */
  class LegacyTagWindow {
    var tags: seq<string>
    var entries: map<string, LegacyTag>
    var valid: bool

    ghost predicate Valid()
      reads this
    {
      Distinct(tags) && forall t :: t in entries <==> t in tags
    }

    /** Every distinct tag maps to `[[0, 0], True]`; `valid` starts False. */
    constructor(lines: seq<string>)
      requires AllTags(lines) != []
      ensures Valid() && !valid && tags == Dedup(AllTags(lines))
      ensures forall t :: t in tags ==> entries[t] == LegacyTag(Guess(0.0, 0.0), true)
    {
      var found := ExtractTags(lines);
      DedupFacts(found);
      var unique := UniqueTags(found);
      var table := map[];
      for i := 0 to |unique|
        invariant forall t :: t in table <==> t in unique[..i]
        invariant forall t :: t in table ==> table[t] == LegacyTag(Guess(0.0, 0.0), true)
      {
        table := table[unique[i] := LegacyTag(Guess(0.0, 0.0), true)];
      }
      assert unique[..|unique|] == unique;
      tags, entries, valid := unique, table, false;
    }

    /** Accept: each row is stored in turn; the first row that does not parse
        stops the loop, leaving the rows before it stored and `valid` as it
        was. Only when every row parses does `valid` become True. */
    method Accept(inputs: seq<TagInput>)
      requires Valid() && |inputs| == |tags|
      modifies this`entries, this`valid
      ensures Valid()
      ensures entries == StoredRows(old(entries), tags, inputs, ParsedPrefix(inputs))
      ensures valid == (ParsedPrefix(inputs) == |inputs| || old(valid))
    {
      ghost var start := entries;
      for i := 0 to |tags|
        invariant valid == old(valid)
        invariant i <= ParsedPrefix(inputs)
        invariant entries == StoredRows(start, tags, inputs, i)
      {
        var v1 := ValueOrZero(inputs[i].in1);
        var v2 := ValueOrZero(inputs[i].in2);
        if v1.None? || v2.None? {
          StoredRowsKeys(start, tags, inputs, i);
          return;
        }
        entries := entries[tags[i] := LegacyTag(Guess(v1.value, v2.value), inputs[i].optimize)];
      }
      StoredRowsKeys(start, tags, inputs, |tags|);
      valid := true;
    }
  }
}
