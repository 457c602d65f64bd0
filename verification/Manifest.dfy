/** The strict source manifest: one row `<digest>  ./<name>` for each required file, in
    byte order of the names. The parsers of `standalone-initial-intro.py` and
    `standalone-intro-transport.py` and the printer undo each other. */
module Manifest {
  import opened Power

  // ---- Splitting and joining.

  function Split(s: string, at: char): (parts: seq<string>)
    ensures parts != []
  {
    if s == "" then [""]
    else
      var rest := Split(s[1..], at);
      if s[0] == at then [""] + rest else [[s[0]] + rest[0]] + rest[1..]
  }

  function Join(parts: seq<string>, at: char): string
    requires parts != []
  {
    if |parts| == 1 then parts[0] else parts[0] + [at] + Join(parts[1..], at)
  }

  lemma {:induction false} JoinSplit(s: string, at: char)
    ensures Join(Split(s, at), at) == s
  {
    if s != "" {
      JoinSplit(s[1..], at);
      var rest := Split(s[1..], at);
      if s[0] == at {
        assert ([""] + rest)[1..] == rest;
        assert "" + [at] + s[1..] == s;
      } else {
        var parts := [[s[0]] + rest[0]] + rest[1..];
        if |rest| > 1 {
          assert parts[1..] == rest[1..];
          assert [s[0]] + rest[0] + [at] + Join(rest[1..], at) == [s[0]] + (rest[0] + [at] + Join(rest[1..], at));
        }
      }
    }
  }

  /** Text in front of the first part stays in it. */
  lemma {:induction false} SplitAfter(part: string, s: string, at: char)
    requires at !in part
    ensures Split(part + s, at) == [part + Split(s, at)[0]] + Split(s, at)[1..]
  {
    if part == "" {
      assert part + s == s;
      assert Split(s, at) == [Split(s, at)[0]] + Split(s, at)[1..];
      assert "" + Split(s, at)[0] == Split(s, at)[0];
    } else {
      SplitAfter(part[1..], s, at);
      assert (part + s)[1..] == part[1..] + s;
      assert [part[0]] + (part[1..] + Split(s, at)[0]) == part + Split(s, at)[0];
    }
  }

  lemma {:induction false} SplitJoin(parts: seq<string>, at: char)
    requires parts != [] && forall i :: 0 <= i < |parts| ==> at !in parts[i]
    ensures Split(Join(parts, at), at) == parts
  {
    if |parts| == 1 {
      SplitAfter(parts[0], "", at);
      assert parts[0] + "" == parts[0];
    } else {
      var rest := Join(parts[1..], at);
      SplitJoin(parts[1..], at);
      SplitAfter(parts[0], [at] + rest, at);
      assert parts[0] + [at] + rest == parts[0] + ([at] + rest);
      assert ([at] + rest)[1..] == rest;
      assert parts[0] + "" == parts[0];
    }
  }

  // ---- Byte order.

  /** Names are ASCII, so the order of their bytes is the order of their characters. */
  predicate Less(a: string, b: string) {
    b != "" && (a == "" || a[0] < b[0] || (a[0] == b[0] && Less(a[1..], b[1..])))
  }

  lemma {:induction false} LessIsStrict(a: string, b: string)
    ensures Less(a, b) ==> a != b && !Less(b, a)
  {
    if a != "" && b != "" {
      LessIsStrict(a[1..], b[1..]);
    }
  }

  lemma {:induction false} LessIsTransitive(a: string, b: string, c: string)
    requires Less(a, b) && Less(b, c)
    ensures Less(a, c)
  {
    if a != "" && a[0] == b[0] && b[0] == c[0] {
      LessIsTransitive(a[1..], b[1..], c[1..]);
    }
  }

  predicate FirstDiffer(a: string, b: string, k: nat) {
    && k <= |a| && k < |b| && (k == |a| || a[k] < b[k])
    && forall i :: 0 <= i < k ==> a[i] == b[i]
  }

  /** One name comes before another where they first differ, or where it ends first. */
  lemma {:induction false} LessIsBefore(a: string, b: string)
    ensures Less(a, b) <==> exists k: nat :: FirstDiffer(a, b, k)
  {
    if a != "" && b != "" && a[0] == b[0] {
      LessIsBefore(a[1..], b[1..]);
      if Less(a, b) {
        var k: nat :| FirstDiffer(a[1..], b[1..], k);
        assert FirstDiffer(a, b, k + 1);
      }
      if k: nat :| FirstDiffer(a, b, k) {
        assert FirstDiffer(a[1..], b[1..], k - 1);
      }
    } else if Less(a, b) {
      assert FirstDiffer(a, b, 0);
    }
  }

  predicate Ascending(names: seq<string>) {
    forall i, j :: 0 <= i < j < |names| ==> Less(names[i], names[j])
  }

  function Names(names: seq<string>): set<string> {
    set n | n in names
  }

  lemma NoNames(names: seq<string>)
    ensures Names(names) == {} ==> names == []
  {
    if names != [] {
      assert names[0] in Names(names);
    }
  }

  lemma FirstOfAscending(names: seq<string>)
    requires Ascending(names) && names != []
    ensures names[0] !in names[1..] && Names(names[1..]) == Names(names) - {names[0]}
    ensures forall n :: n in names ==> n == names[0] || Less(names[0], n)
  {
    forall i | 0 < i < |names|
      ensures names[i] != names[0]
    {
      LessIsStrict(names[0], names[i]);
    }
  }

  /** A set of names has one byte-ordered listing. */
  lemma {:induction false} AscendingUnique(a: seq<string>, b: seq<string>)
    requires Ascending(a) && Ascending(b) && Names(a) == Names(b)
    ensures a == b
  {
    if a == [] {
      NoNames(b);
    } else {
      NoNames(a);
      FirstOfAscending(a);
      assert b != [];
      FirstOfAscending(b);
      assert a[0] in Names(b) && b[0] in Names(a);
      LessIsStrict(a[0], b[0]);
      LessIsStrict(b[0], a[0]);
      AscendingUnique(a[1..], b[1..]);
    }
  }

  // ---- Rows.

  predicate Hex(c: char) {
    '0' <= c <= '9' || 'a' <= c <= 'f'
  }

  predicate Digest(s: string) {
    |s| == 64 && forall i :: 0 <= i < 64 ==> Hex(s[i])
  }

  predicate PathChar(c: char) {
    '0' <= c <= '9' || 'a' <= c <= 'z' || 'A' <= c <= 'Z' || c in "_.@+/-"
  }

  /** `safe_relative`. Such a name is its own normal form. */
  predicate Safe(name: string) {
    && 0 < |name| <= 4096 && (forall i :: 0 <= i < |name| ==> PathChar(name[i]))
    && forall part :: part in Split(name, '/') ==> part !in {"", ".", ".."}
  }

  const MARK := "  ./"

  datatype Row = Row(digest: string, name: string)

  function Line(row: Row): string {
    row.digest + MARK + row.name
  }

  function ParseRow(line: string): Option<Row> {
    if |line| > 68 && Digest(line[..64]) && line[64..68] == MARK && Safe(line[68..])
    then Some(Row(line[..64], line[68..]))
    else None
  }

  /** The text of a row, character by character: 64 small hexadecimal figures, two
      spaces, a relative path of at most 4096 portable characters that no segment
      escapes. */
  predicate IsRow(line: string) {
    && 68 < |line| <= 4164 && line[64..68] == "  ./"
    && (forall i :: 0 <= i < 64 ==> line[i] in "0123456789abcdef")
    && (forall i :: 68 <= i < |line| ==>
          || 'a' <= line[i] <= 'z' || 'A' <= line[i] <= 'Z' || '0' <= line[i] <= '9'
          || line[i] in "_.@+/-")
    && forall part :: part in Split(line[68..], '/') ==> part != "" && part != "." && part != ".."
  }

  lemma ParsesExactlyRows(line: string)
    ensures ParseRow(line).Some? <==> IsRow(line)
  {
    if |line| > 68 {
      forall i | 0 <= i < |line|
        ensures i < 64 ==> line[..64][i] == line[i]
        ensures i >= 68 ==> line[68..][i - 68] == line[i]
      {
      }
      forall c: char
        ensures Hex(c) <==> c in "0123456789abcdef"
      {
        HexDigits(c);
      }
    }
  }

  lemma HexDigits(c: char)
    ensures Hex(c) <==> c in "0123456789abcdef"
  {
  }

  predicate Printable(row: Row) {
    Digest(row.digest) && Safe(row.name)
  }

  /** A row and its text determine each other. */
  lemma RowRoundTrip(line: string, row: Row)
    requires Printable(row)
    ensures ParseRow(line) == Some(row) <==> line == Line(row)
    ensures '\n' !in Line(row)
  {
    var text := Line(row);
    assert text[..64] == row.digest && text[64..68] == MARK && text[68..] == row.name;
    if ParseRow(line).Some? {
      assert line == line[..64] + line[64..68] + line[68..];
    }
    forall i | 0 <= i < |text|
      ensures text[i] != '\n'
    {
      if i < 64 {
        assert text[i] == row.digest[i] && Hex(row.digest[i]);
      } else if i >= 68 {
        assert text[i] == row.name[i - 68] && PathChar(row.name[i - 68]);
      }
    }
  }

  // ---- The printer and the parser.

  function Lines(names: seq<string>, m: map<string, string>): seq<string>
    requires forall n :: n in names ==> n in m
  {
    seq(|names|, i requires 0 <= i < |names| => Line(Row(m[names[i]], names[i])))
  }

  /** The manifest of `m` over these names, in their order. */
  function Print(names: seq<string>, m: map<string, string>): string
    requires names != [] && forall n :: n in names ==> n in m
  {
    Join(Lines(names, m), '\n') + "\n"
  }

  /** A digest for each of exactly these names. */
  predicate Covers(names: seq<string>, m: map<string, string>) {
    m.Keys == Names(names) && forall n :: n in m ==> Digest(m[n])
  }

  /** What the loop has accepted: the rows of the lines so far, in order. */
  predicate Reads(lines: seq<string>, seen: seq<string>, rows: map<string, string>) {
    && |seen| == |lines| && Ascending(seen) && rows.Keys == Names(seen)
    && forall i :: 0 <= i < |lines| ==> seen[i] in rows && ParseRow(lines[i]) == Some(Row(rows[seen[i]], seen[i]))
  }

  lemma ExtendAscending(seen: seq<string>, name: string)
    requires Ascending(seen) && (seen != [] ==> Less(seen[|seen| - 1], name))
    ensures Ascending(seen + [name]) && name !in seen
  {
    forall i | 0 <= i < |seen|
      ensures Less(seen[i], name) && seen[i] != name
    {
      if i < |seen| - 1 {
        LessIsTransitive(seen[i], seen[|seen| - 1], name);
      }
      LessIsStrict(seen[i], name);
    }
  }

  /** The loop of `parse_manifest`, over lines. `reserved` are names the introduction
      refuses outright; the transport has none. */
  method ParseLines(lines: seq<string>, reserved: set<string>)
    returns (rows: Option<map<string, string>>, ghost seen: seq<string>)
    ensures rows.Some? ==> Reads(lines, seen, rows.value) && forall n :: n in seen ==> n !in reserved
    ensures rows.None? ==> !exists s, m :: Reads(lines, s, m) && forall n :: n in s ==> n !in reserved
  {
    var entries: map<string, string> := map[];
    var prior: Option<string> := None;
    seen := [];
    for i := 0 to |lines|
      invariant Reads(lines[..i], seen, entries)
      invariant prior == if i == 0 then None else Some(seen[i - 1])
      invariant forall n :: n in seen ==> n !in reserved
    {
      var row := ParseRow(lines[i]);
      if row.None? || row.value.name in reserved || row.value.name in entries
         || (prior.Some? && !Less(prior.value, row.value.name)) {
        NoReading(lines, i, seen, entries, reserved);
        return None, seen;
      }
      ExtendAscending(seen, row.value.name);
      ghost var before := seen;
      entries, prior := entries[row.value.name := row.value.digest], Some(row.value.name);
      seen := seen + [row.value.name];
      ReadsExtended(lines, i, before, row.value, entries);
    }
    assert lines[..|lines|] == lines;
    return Some(entries), seen;
  }

  lemma ReadsExtended(lines: seq<string>, i: nat, seen: seq<string>, row: Row, rows: map<string, string>)
    requires i < |lines| && |seen| == i && ParseRow(lines[i]) == Some(row)
    requires Ascending(seen + [row.name]) && row.name !in seen && row.name in rows && rows[row.name] == row.digest
    requires Reads(lines[..i], seen, rows - {row.name})
    requires rows.Keys == Names(seen) + {row.name}
    ensures Reads(lines[..i + 1], seen + [row.name], rows)
  {
    var more := seen + [row.name];
    assert Names(more) == Names(seen) + {row.name};
    forall k | 0 <= k < i + 1
      ensures more[k] in rows && ParseRow(lines[..i + 1][k]) == Some(Row(rows[more[k]], more[k]))
    {
      if k < i {
        assert lines[..i + 1][k] == lines[..i][k] && more[k] == seen[k] && seen[k] in seen;
      }
    }
  }

  /** A line the loop rejects leaves no reading of the whole. */
  lemma NoReading(lines: seq<string>, i: nat, seen: seq<string>, rows: map<string, string>, reserved: set<string>)
    requires i < |lines| && Reads(lines[..i], seen, rows)
    requires var row := ParseRow(lines[i]);
             || row.None? || row.value.name in reserved || row.value.name in rows
             || (i > 0 && !Less(seen[i - 1], row.value.name))
    ensures !exists s, m :: Reads(lines, s, m) && forall n :: n in s ==> n !in reserved
  {
    forall s, m | Reads(lines, s, m)
      ensures exists n :: n in s && n in reserved
    {
      assert ParseRow(lines[i]) == Some(Row(m[s[i]], s[i]));
      forall k | 0 <= k < i
        ensures seen[k] == s[k]
      {
        assert lines[..i][k] == lines[k];
      }
      if s[i] in rows {
        var k :| 0 <= k < |seen| && seen[k] == s[i];
        LessIsStrict(s[k], s[i]);
        assert false;
      }
      if i > 0 {
        assert Less(s[i - 1], s[i]);
      }
      assert s[i] in reserved;
    }
  }

  /** The lines of a manifest read back as the map it was printed from, and as nothing else. */
  lemma LinesReadBack(names: seq<string>, m: map<string, string>, lines: seq<string>)
    requires Ascending(names) && Covers(names, m) && (forall n :: n in names ==> Safe(n))
    ensures lines == Lines(names, m) <==> Reads(lines, names, m)
    ensures forall i :: 0 <= i < |Lines(names, m)| ==> '\n' !in Lines(names, m)[i]
  {
    forall i | 0 <= i < |names|
      ensures i < |lines| ==>
                (lines[i] == Lines(names, m)[i] <==> ParseRow(lines[i]) == Some(Row(m[names[i]], names[i])))
      ensures '\n' !in Lines(names, m)[i]
    {
      assert names[i] in Names(names);
      RowRoundTrip(if i < |lines| then lines[i] else "", Row(m[names[i]], names[i]));
    }
  }

  /** A text is the manifest of `m` exactly when it ends in one newline and its lines are. */
  lemma PrintedText(names: seq<string>, m: map<string, string>, text: string)
    requires names != [] && Ascending(names) && Covers(names, m) && forall n :: n in names ==> Safe(n)
    ensures text == Print(names, m) <==>
              text != "" && text[|text| - 1] == '\n' && Split(text[..|text| - 1], '\n') == Lines(names, m)
  {
    LinesReadBack(names, m, []);
    SplitJoin(Lines(names, m), '\n');
    if text != "" {
      JoinSplit(text[..|text| - 1], '\n');
      if text[|text| - 1] == '\n' {
        assert text == text[..|text| - 1] + "\n";
      }
    }
    if text == Print(names, m) {
      assert text[..|text| - 1] == Join(Lines(names, m), '\n');
    }
  }

  /** `parse_manifest`, for the required names: it accepts exactly the texts the printer
      produces, and gives back exactly the map that was printed. */
  method ParseManifest(text: string, names: seq<string>, reserved: set<string>)
    returns (rows: Option<map<string, string>>)
    requires names != [] && Ascending(names) && forall n :: n in names ==> Safe(n) && n !in reserved
    ensures rows.Some? ==> Covers(names, rows.value) && text == Print(names, rows.value)
    ensures forall m :: Covers(names, m) ==> (rows == Some(m) <==> text == Print(names, m))
  {
    forall m | Covers(names, m)
      ensures text == Print(names, m) ==> text != "" && text[|text| - 1] == '\n' && !EndsTwice(text)
      ensures text == Print(names, m) ==> Reads(Split(text[..|text| - 1], '\n'), names, m)
    {
      PrintedText(names, m, text);
      LinesReadBack(names, m, Lines(names, m));
      if text == Print(names, m) {
        NotTwice(names, m, text);
      }
    }
    if text == "" || text[|text| - 1] != '\n' || EndsTwice(text) {
      return None;
    }
    var lines := Split(text[..|text| - 1], '\n');
    ghost var seen;
    rows, seen := ParseLines(lines, reserved);
    if rows.Some? && rows.value.Keys == Names(names) {
      AscendingUnique(seen, names);
      ReadCovers(lines, names, rows.value);
      LinesReadBack(names, rows.value, lines);
      PrintedText(names, rows.value, text);
      forall m | Covers(names, m) && text == Print(names, m)
        ensures m == rows.value
      {
        assert Reads(lines, names, m);
        ReadOnce(lines, names, m, rows.value);
      }
    } else {
      if rows.Some? {
        forall m | Covers(names, m) && text == Print(names, m)
          ensures false
        {
          assert Reads(lines, names, m);
          SameReading(lines, names, m, seen, rows.value);
        }
      }
      rows := None;
    }
  }

  predicate EndsTwice(text: string) {
    |text| >= 2 && text[|text| - 2] == '\n' && text[|text| - 1] == '\n'
  }

  lemma NotTwice(names: seq<string>, m: map<string, string>, text: string)
    requires names != [] && Ascending(names) && Covers(names, m) && (forall n :: n in names ==> Safe(n))
    requires text == Print(names, m)
    ensures !EndsTwice(text)
  {
    var lines := Lines(names, m);
    LinesReadBack(names, m, lines);
    JoinEnd(lines, '\n');
    var last := lines[|lines| - 1];
    assert last == Line(Row(m[names[|names| - 1]], names[|names| - 1]));
    assert names[|names| - 1] in Names(names);
    assert |last| > 68 && last[|last| - 1] in last;
  }

  lemma {:induction false} JoinEnd(parts: seq<string>, at: char)
    requires parts != [] && parts[|parts| - 1] != ""
    ensures var s := Join(parts, at); var last := parts[|parts| - 1]; s != "" && s[|s| - 1] == last[|last| - 1]
  {
    if |parts| > 1 {
      JoinEnd(parts[1..], at);
    }
  }

  lemma ReadCovers(lines: seq<string>, names: seq<string>, rows: map<string, string>)
    requires Reads(lines, names, rows)
    ensures Covers(names, rows)
  {
    forall n | n in rows
      ensures Digest(rows[n])
    {
      assert n in Names(names);
      var i :| 0 <= i < |names| && names[i] == n;
      assert ParseRow(lines[i]).Some?;
    }
  }

  lemma SameReading(lines: seq<string>, a: seq<string>, m: map<string, string>,
                    b: seq<string>, rows: map<string, string>)
    requires Reads(lines, a, m) && Reads(lines, b, rows)
    ensures a == b
  {
    forall i | 0 <= i < |lines|
      ensures a[i] == b[i]
    {
      assert ParseRow(lines[i]) == Some(Row(m[a[i]], a[i]));
    }
  }

  lemma ReadOnce(lines: seq<string>, names: seq<string>, m: map<string, string>, rows: map<string, string>)
    requires Reads(lines, names, m) && Reads(lines, names, rows)
    ensures m == rows
  {
    forall n | n in m
      ensures m[n] == rows[n]
    {
      assert n in Names(names);
      var i :| 0 <= i < |names| && names[i] == n;
      assert ParseRow(lines[i]) == Some(Row(m[n], n));
    }
  }
}
