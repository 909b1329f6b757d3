/**
 * The text format of the syscall table: one line "0x<hex id>,<name>\n" per
 * record. Render writes records out; ParseListing reads such text back and
 * is its exact inverse, which pins the format down.
 */
module Listing {
  import opened Wrappers
  import opened Hex

  /** One output record: a sequential identifier and a stub name. */
  datatype Record = Record(id: nat, name: string)

  /** The line written for one record. */
  function Line(r: Record): string {
    "0x" + ToHex(r.id) + "," + r.name + "\n"
  }

  /** The lines of the records, in order, concatenated. */
  function Render(records: seq<Record>): string {
    if records == [] then "" else Line(records[0]) + Render(records[1..])
  }

  /** Writing one more record appends exactly its line. */
  lemma {:induction false} RenderAppend(records: seq<Record>, r: Record)
    ensures Render(records + [r]) == Render(records) + Line(r)
    decreases |records|
  {
    if records == [] {
      assert [r][1..] == [];
    } else {
      assert (records + [r])[1..] == records[1..] + [r];
      RenderAppend(records[1..], r);
    }
  }

  lemma RenderEmptyIff(records: seq<Record>)
    ensures Render(records) == "" <==> records == []
  {
    if records != [] {
      assert |Line(records[0])| > 0;
    }
  }

  /** The position of the first `c` in `s`, or |s| when there is none. */
  function FirstIndex(s: string, c: char): (r: nat)
    ensures r <= |s|
    ensures r < |s| ==> s[r] == c
    ensures forall j :: 0 <= j < r ==> s[j] != c
    decreases |s|
  {
    if s == [] then 0 else if s[0] == c then 0 else 1 + FirstIndex(s[1..], c)
  }

  lemma {:induction false} FirstIndexAfter(a: string, b: string, c: char)
    requires forall j :: 0 <= j < |a| ==> a[j] != c
    requires |b| > 0 && b[0] == c
    ensures FirstIndex(a + b, c) == |a|
  {
    assert (a + b)[|a|] == c;
    forall j | 0 <= j < |a| ensures (a + b)[j] != c {
      assert (a + b)[j] == a[j];
    }
  }

  /** Reads one line "0x<canonical hex>,<name>\n"; None for anything else. */
  function ParseLine(line: string): (r: Option<Record>)
    ensures r.Some? ==> Line(r.value) == line
  {
    if |line| < 3 || line[..2] != "0x" || line[|line| - 1] != '\n' then None
    else
      var body := line[2..|line| - 1];
      var comma := FirstIndex(body, ',');
      if comma == |body| || !IsCanonical(body[..comma]) then None
      else
        var digits := body[..comma];
        ToHexOfHexValue(digits);
        assert body == digits + "," + body[comma + 1..];
        assert line == "0x" + body + "\n";
        Some(Record(HexValue(digits), body[comma + 1..]))
  }

  /** A line that ParseLine reads back as the record it was written for. */
  lemma ParseLineOfLine(r: Record)
    ensures ParseLine(Line(r)) == Some(r)
  {
    var line := Line(r);
    var hex := ToHex(r.id);
    var body := line[2..|line| - 1];
    assert line == "0x" + (hex + "," + r.name) + "\n";
    assert body == hex + ("," + r.name);
    FirstIndexAfter(hex, "," + r.name, ',');
    assert body[..|hex|] == hex;
    assert body[|hex| + 1..] == r.name;
    HexValueOfToHex(r.id);
  }

  /** Reads a whole listing, line by line; None when a line is malformed or the last line lacks its newline. */
  function ParseListing(s: string): (r: Option<seq<Record>>)
    decreases |s|
  {
    if s == [] then Some([])
    else
      var e := FirstIndex(s, '\n');
      if e == |s| then None
      else
        var first := ParseLine(s[..e + 1]);
        var rest := ParseListing(s[e + 1..]);
        if first.None? || rest.None? then None else Some([first.value] + rest.value)
  }

  ghost predicate NoNewlineInNames(records: seq<Record>) {
    forall i :: 0 <= i < |records| ==> '\n' !in records[i].name
  }

  /** The first line of a rendered listing ends at the newline of its first record. */
  lemma LineBreakAt(r: Record, rest: string)
    requires '\n' !in r.name
    ensures FirstIndex(Line(r) + rest, '\n') == |Line(r)| - 1
  {
    var hex := ToHex(r.id);
    var head := "0x" + hex + "," + r.name;
    assert Line(r) + rest == head + ("\n" + rest);
    forall j | 0 <= j < |head| ensures head[j] != '\n' {
      if 2 <= j < 2 + |hex| {
        assert head[j] == hex[j - 2];
      } else if j >= 3 + |hex| {
        assert head[j] == r.name[j - 3 - |hex|];
      }
    }
    FirstIndexAfter(head, "\n" + rest, '\n');
  }

  /** Parsing a text that starts with one record's line reads that record, then parses the rest. */
  lemma ParseListingCons(r: Record, rest: string)
    requires '\n' !in r.name
    ensures ParseListing(Line(r) + rest) ==
      if ParseListing(rest).Some? then Some([r] + ParseListing(rest).value) else None
  {
    var s := Line(r) + rest;
    LineBreakAt(r, rest);
    var e := |Line(r)| - 1;
    assert s[..e + 1] == Line(r);
    assert s[e + 1..] == rest;
    ParseLineOfLine(r);
  }

  /** Parsing what Render wrote gives back the records. */
  lemma {:induction false} ParseRender(records: seq<Record>)
    requires NoNewlineInNames(records)
    ensures ParseListing(Render(records)) == Some(records)
    decreases |records|
  {
    if records != [] {
      ParseRender(records[1..]);
      ParseListingCons(records[0], Render(records[1..]));
      assert records == [records[0]] + records[1..];
    }
  }

  lemma RenderCons(r: Record, rest: seq<Record>)
    ensures Render([r] + rest) == Line(r) + Render(rest)
  {
    assert ([r] + rest)[1..] == rest;
  }

  /** A listing that parses splits into a first line that parses and a remainder that parses. */
  lemma ParseListingSplit(s: string) returns (line: string, tail: string)
    requires s != [] && ParseListing(s).Some?
    ensures s == line + tail && |tail| < |s|
    ensures ParseLine(line).Some? && ParseListing(tail).Some?
    ensures ParseListing(s).value == [ParseLine(line).value] + ParseListing(tail).value
  {
    var e := FirstIndex(s, '\n');
    line, tail := s[..e + 1], s[e + 1..];
  }

  /** Whatever ParseListing accepts is exactly the rendering of what it returns. */
  lemma {:induction false} RenderParse(s: string)
    requires ParseListing(s).Some?
    ensures Render(ParseListing(s).value) == s
    decreases |s|
  {
    if s != [] {
      var line, tail := ParseListingSplit(s);
      RenderParse(tail);
      RenderCons(ParseLine(line).value, ParseListing(tail).value);
    }
  }
}
