/** The text file a group's committed offsets are kept in:
    broker/src/offset_manager.rs, persist_group and load. */
module OffsetText {
  import opened Bytes

  datatype Place = Place(topic: string, partition: u32)

  /** One group's committed offsets. */
  type Offsets = map<Place, u64>

  datatype Entry = Entry(place: Place, offset: u64)

  // ------------------------------------------------------------------ numbers

  predicate IsDigit(c: char) {
    '0' <= c <= '9'
  }

  predicate AllDigits(s: string) {
    forall i :: 0 <= i < |s| ==> IsDigit(s[i])
  }

  /** The decimal form the formatter prints. */
  function Decimal(n: nat): (s: string)
    ensures |s| > 0 && AllDigits(s)
  {
    if n < 10 then [('0' as int + n) as char]
    else Decimal(n / 10) + [('0' as int + n % 10) as char]
  }

  function Value(s: string): nat
    requires AllDigits(s)
  {
    if |s| == 0 then 0 else Value(s[..|s| - 1]) * 10 + (s[|s| - 1] as int - '0' as int)
  }

  /** str::parse for an unsigned type: an optional plus sign, then at least
      one digit, and a value below the type's limit. */
  function ParseUnsigned(s: string, limit: nat): (n: Option<nat>)
    ensures n.Some? ==> n.value < limit
  {
    var digits := if |s| > 0 && s[0] == '+' then s[1..] else s;
    if |digits| == 0 || !AllDigits(digits) || Value(digits) >= limit then None
    else Some(Value(digits))
  }

  lemma {:induction false} DecimalRoundTrip(n: nat, limit: nat)
    ensures Value(Decimal(n)) == n
    ensures n < limit ==> ParseUnsigned(Decimal(n), limit) == Some(n)
  {
    if n >= 10 {
      DecimalRoundTrip(n / 10, limit);
      assert Decimal(n)[..|Decimal(n)| - 1] == Decimal(n / 10);
    }
    assert IsDigit(Decimal(n)[0]);
  }

  function PowerOfTen(k: nat): (p: nat)
    ensures p > 0
  {
    if k == 0 then 1 else 10 * PowerOfTen(k - 1)
  }

  /** The number has as many digits as it takes to hold it, and no more. */
  lemma {:induction false} DecimalLength(n: nat)
    ensures var k := |Decimal(n)|;
            n < PowerOfTen(k) && (k > 1 ==> PowerOfTen(k - 1) <= n)
  {
    if n >= 10 {
      DecimalLength(n / 10);
    }
  }

  /** The most significant digit comes first: digit i counts what the digits
      after it cannot hold. */
  lemma {:induction false} DecimalDigit(n: nat, i: nat)
    requires i < |Decimal(n)|
    ensures Decimal(n)[i] as int == '0' as int + (n / PowerOfTen(|Decimal(n)| - 1 - i)) % 10
  {
    var k := |Decimal(n)|;
    if n < 10 {
      assert PowerOfTen(0) == 1;
    } else if i == k - 1 {
      assert PowerOfTen(0) == 1;
    } else {
      DecimalDigit(n / 10, i);
      DivideTwice(n, 10, PowerOfTen(k - 2 - i));
    }
  }

  // -------------------------------------------------------------------- lines

  /** Where c first occurs, or the length when it does not. */
  function IndexOf(s: string, c: char): (i: nat)
    ensures i <= |s|
    ensures c !in s[..i]
    ensures i < |s| ==> s[i] == c
  {
    if |s| == 0 || s[0] == c then 0 else 1 + IndexOf(s[1..], c)
  }

  /** str::split_once */
  function SplitOnce(s: string, c: char): Option<(string, string)> {
    var i := IndexOf(s, c);
    if i == |s| then None else Some((s[..i], s[i + 1..]))
  }

  function StripReturn(s: string): string {
    if |s| > 0 && s[|s| - 1] == '\r' then s[..|s| - 1] else s
  }

  /** str::lines: a last line need not be ended, and a carriage return goes
      only together with the newline after it. */
  function Lines(s: string): seq<string>
    decreases |s|
  {
    var i := IndexOf(s, '\n');
    if |s| == 0 then []
    else if i == |s| then [s]
    else [StripReturn(s[..i])] + Lines(s[i + 1..])
  }

  function LineOf(e: Entry): string {
    e.place.topic + ":" + Decimal(e.place.partition) + "=" + Decimal(e.offset)
  }

  function TextOf(entries: seq<Entry>): string {
    if |entries| == 0 then "" else LineOf(entries[0]) + "\n" + TextOf(entries[1..])
  }

  /** What load reads out of one line; a malformed line is skipped. */
  function ParseLine(line: string): Option<Entry> {
    match SplitOnce(line, '=')
    case None => None
    case Some((key, value)) =>
      match SplitOnce(key, ':')
      case None => None
      case Some((topic, partition)) =>
        match (ParseUnsigned(partition, TWO_32), ParseUnsigned(value, TWO_64))
        case (Some(p), Some(o)) => Some(Entry(Place(topic, p), o))
        case _ => None
  }

  function ParseLines(lines: seq<string>): (parsed: seq<Option<Entry>>)
    ensures |parsed| == |lines| && forall i :: 0 <= i < |lines| ==> parsed[i] == ParseLine(lines[i])
  {
    seq(|lines|, i requires 0 <= i < |lines| => ParseLine(lines[i]))
  }

  function Insert(m: Offsets, e: Option<Entry>): Offsets {
    if e.Some? then m[e.value.place := e.value.offset] else m
  }

  function InsertAll(m: Offsets, parsed: seq<Option<Entry>>): Offsets {
    if |parsed| == 0 then m
    else Insert(InsertAll(m, parsed[..|parsed| - 1]), parsed[|parsed| - 1])
  }

  lemma OneMoreInserted(m: Offsets, parsed: seq<Option<Entry>>, i: nat)
    requires i < |parsed|
    ensures InsertAll(m, parsed[..i + 1]) == Insert(InsertAll(m, parsed[..i]), parsed[i])
  {
    assert parsed[..i + 1][..i] == parsed[..i];
  }

  /** What load makes of a whole file. */
  function Absorb(m: Offsets, contents: string): Offsets {
    InsertAll(m, ParseLines(Lines(contents)))
  }

  // ----------------------------------------------------------------- the code

  /** The entries are the map's, each once, in some order. */
  ghost predicate Lists(entries: seq<Entry>, m: Offsets) {
    && (forall i, j :: 0 <= i < j < |entries| ==> entries[i].place != entries[j].place)
    && (forall i :: 0 <= i < |entries| ==> entries[i].place in m && m[entries[i].place] == entries[i].offset)
    && (forall p :: p in m ==> Entry(p, m[p]) in entries)
  }

  lemma ListsSnoc(entries: seq<Entry>, m: Offsets, e: Entry)
    requires Lists(entries, m) && e.place !in m
    ensures Lists(entries + [e], m[e.place := e.offset])
  {
    assert (entries + [e])[|entries|] == e;
  }

  /** persist_group writes one line an offset, in the map's own order. */
  method Persist(m: Offsets) returns (text: string)
    ensures exists entries :: Lists(entries, m) && text == TextOf(entries)
  {
    text := "";
    ghost var entries: seq<Entry> := [];
    var rest := m.Keys;
    while rest != {}
      invariant rest <= m.Keys && text == TextOf(entries)
      invariant Lists(entries, m - rest)
      decreases rest
    {
      var p :| p in rest;
      var e := Entry(p, m[p]);
      TextOfSnoc(entries, e);
      ListsSnoc(entries, m - rest, e);
      assert m - (rest - {p}) == (m - rest)[p := m[p]];
      text := text + LineOf(e) + "\n";
      entries := entries + [e];
      rest := rest - {p};
    }
    assert m - {} == m;
  }

  /** load inserts the entry of every well-formed line. */
  method Load(contents: string, before: Offsets) returns (offsets: Offsets)
    ensures offsets == Absorb(before, contents)
  {
    offsets := before;
    var lines := Lines(contents);
    ghost var parsed := ParseLines(lines);
    for i := 0 to |lines|
      invariant offsets == InsertAll(before, parsed[..i])
    {
      OneMoreInserted(before, parsed, i);
      match SplitOnce(lines[i], '=') {
        case None =>
        case Some((key, value)) =>
          match SplitOnce(key, ':') {
            case None =>
            case Some((topic, text)) =>
              var partition, offset := ParseUnsigned(text, TWO_32), ParseUnsigned(value, TWO_64);
              if partition.Some? && offset.Some? {
                offsets := offsets[Place(topic, partition.value) := offset.value];
              }
          }
      }
    }
    assert parsed[..|lines|] == parsed;
  }

  // --------------------------------------------------------------- round trip

  /** A topic the file format can carry. */
  predicate CleanTopic(topic: string) {
    ':' !in topic && '=' !in topic && '\n' !in topic
  }

  ghost predicate Clean(m: Offsets) {
    forall p :: p in m ==> CleanTopic(p.topic)
  }

  lemma {:induction false} TextOfSnoc(entries: seq<Entry>, e: Entry)
    ensures TextOf(entries + [e]) == TextOf(entries) + LineOf(e) + "\n"
  {
    if |entries| > 0 {
      TextOfSnoc(entries[1..], e);
      assert (entries + [e])[1..] == entries[1..] + [e];
    } else {
      assert TextOf([e]) == LineOf(e) + "\n" + "";
    }
  }

  /** The first c of a + [c] + b is right after a, when a has none. */
  lemma {:induction false} IndexAfter(a: string, c: char, b: string)
    requires c !in a
    ensures IndexOf(a + [c] + b, c) == |a|
  {
    if |a| > 0 {
      assert (a + [c] + b)[1..] == a[1..] + [c] + b;
      IndexAfter(a[1..], c, b);
    }
  }

  lemma NoDigitIs(s: string, c: char)
    requires AllDigits(s) && !IsDigit(c)
    ensures c !in s
  {
  }

  /** A separator between a part without it and the rest is found. */
  lemma SplitsAt(a: string, c: char, b: string)
    requires c !in a
    ensures SplitOnce(a + [c] + b, c) == Some((a, b))
  {
    IndexAfter(a, c, b);
    var s := a + [c] + b;
    assert s[..|a|] == a && s[|a| + 1..] == b;
  }

  lemma LineParses(e: Entry)
    requires CleanTopic(e.place.topic)
    ensures ParseLine(LineOf(e)) == Some(e)
  {
    var topic, p, o := e.place.topic, Decimal(e.place.partition), Decimal(e.offset);
    NoDigitIs(p, '=');
    SplitsAt(topic + ":" + p, '=', o);
    SplitsAt(topic, ':', p);
    DecimalRoundTrip(e.place.partition, TWO_32);
    DecimalRoundTrip(e.offset, TWO_64);
  }

  lemma LineStaysWhole(e: Entry)
    requires CleanTopic(e.place.topic)
    ensures '\n' !in LineOf(e) && StripReturn(LineOf(e)) == LineOf(e)
  {
    var line, o := LineOf(e), Decimal(e.offset);
    NoDigitIs(Decimal(e.place.partition), '\n');
    NoDigitIs(o, '\n');
    assert line[|line| - 1] == o[|o| - 1] && IsDigit(o[|o| - 1]);
  }

  /** s is n written in digits, perhaps behind a plus sign. */
  ghost predicate Reads(s: string, n: nat, limit: nat) {
    n < limit && exists digits :: Spells(digits, n) && (s == digits || s == "+" + digits)
  }

  ghost predicate Spells(digits: string, n: nat) {
    |digits| > 0 && AllDigits(digits) && Value(digits) == n
  }

  ghost predicate HasParts(line: string, topic: string, p: string, o: string) {
    line == topic + ":" + p + "=" + o && ':' !in topic && '=' !in topic && '=' !in p
  }

  ghost predicate Carries(line: string, e: Entry, p: string, o: string) {
    HasParts(line, e.place.topic, p, o) && Reads(p, e.place.partition, TWO_32) && Reads(o, e.offset, TWO_64)
  }

  lemma ParseUnsignedExactly(s: string, n: nat, limit: nat)
    ensures ParseUnsigned(s, limit) == Some(n) <==> Reads(s, n, limit)
  {
    if ParseUnsigned(s, limit) == Some(n) {
      var digits := if s[0] == '+' then s[1..] else s;
      assert Spells(digits, n) && (s == digits || s == "+" + digits);
    }
    if Reads(s, n, limit) {
      var digits :| Spells(digits, n) && (s == digits || s == "+" + digits);
      assert IsDigit(digits[0]) && !IsDigit('+');
      assert s == "+" + digits ==> s[1..] == digits;
    }
  }

  lemma PartsParse(line: string, e: Entry, p: string, o: string)
    requires Carries(line, e, p, o)
    ensures ParseLine(line) == Some(e)
  {
    SplitsAt(e.place.topic + ":" + p, '=', o);
    SplitsAt(e.place.topic, ':', p);
    ParseUnsignedExactly(p, e.place.partition, TWO_32);
    ParseUnsignedExactly(o, e.offset, TWO_64);
  }

  lemma SplitParts(s: string, c: char)
    requires SplitOnce(s, c).Some?
    ensures var (a, b) := SplitOnce(s, c).value; s == a + [c] + b && c !in a
  {
  }

  lemma ParsedHasParts(line: string, e: Entry) returns (p: string, o: string)
    requires ParseLine(line) == Some(e)
    ensures Carries(line, e, p, o)
  {
    var key := SplitOnce(line, '=').value.0;
    var topic := SplitOnce(key, ':').value.0;
    p, o := SplitOnce(key, ':').value.1, SplitOnce(line, '=').value.1;
    SplitParts(line, '=');
    SplitParts(key, ':');
    PartsOfKey(topic, p);
    ParseUnsignedExactly(p, e.place.partition, TWO_32);
    ParseUnsignedExactly(o, e.offset, TWO_64);
  }

  lemma PartsOfKey(topic: string, p: string)
    ensures '=' !in topic + ":" + p ==> '=' !in topic && '=' !in p
  {
    var key := topic + ":" + p;
    assert forall i :: 0 <= i < |topic| ==> key[i] == topic[i];
    assert forall i :: 0 <= i < |p| ==> key[|topic| + 1 + i] == p[i];
  }

  /** Exactly the lines "topic:partition=offset" are read, where the topic has
      neither separator and the numbers are digits within their type's range;
      load skips every other line. */
  lemma ParseLineExactly(line: string, e: Entry)
    ensures ParseLine(line) == Some(e) <==> exists p, o :: Carries(line, e, p, o)
  {
    if ParseLine(line) == Some(e) {
      var p, o := ParsedHasParts(line, e);
    }
    if p, o :| Carries(line, e, p, o) {
      PartsParse(line, e, p, o);
    }
  }

  /** A newline ends a line, together with a carriage return before it. */
  lemma LineEnds(line: string, rest: string)
    requires '\n' !in line
    ensures Lines(line + "\n" + rest)
         == [if |line| > 0 && line[|line| - 1] == '\r' then line[..|line| - 1] else line] + Lines(rest)
  {
    var s := line + "\n" + rest;
    IndexAfter(line, '\n', rest);
    assert s[..|line|] == line && s[|line| + 1..] == rest;
  }

  /** A last line without a newline is read as it is. */
  lemma LastLine(line: string)
    requires '\n' !in line && line != ""
    ensures Lines(line) == [line]
  {
    var i := IndexOf(line, '\n');
  }

  function LinesOf(entries: seq<Entry>): (lines: seq<string>)
    ensures |lines| == |entries| && forall i :: 0 <= i < |entries| ==> lines[i] == LineOf(entries[i])
  {
    seq(|entries|, i requires 0 <= i < |entries| => LineOf(entries[i]))
  }

  lemma FirstLine(line: string, rest: string)
    requires '\n' !in line && StripReturn(line) == line
    ensures Lines(line + "\n" + rest) == [line] + Lines(rest)
  {
    var s := line + "\n" + rest;
    IndexAfter(line, '\n', rest);
    assert s[..|line|] == line && s[|line| + 1..] == rest;
  }

  lemma FirstOfLines(entries: seq<Entry>)
    requires |entries| > 0
    ensures LinesOf(entries) == [LineOf(entries[0])] + LinesOf(entries[1..])
  {
  }

  lemma {:induction false} TextSplits(entries: seq<Entry>)
    requires forall i :: 0 <= i < |entries| ==> CleanTopic(entries[i].place.topic)
    ensures Lines(TextOf(entries)) == LinesOf(entries)
  {
    if |entries| > 0 {
      LineStaysWhole(entries[0]);
      FirstLine(LineOf(entries[0]), TextOf(entries[1..]));
      TextSplits(entries[1..]);
      FirstOfLines(entries);
    }
  }

  lemma ListsFront(entries: seq<Entry>, m: Offsets)
    requires Lists(entries, m) && |entries| > 0
    ensures var last := entries[|entries| - 1];
            && Lists(entries[..|entries| - 1], m - {last.place})
            && m == (m - {last.place})[last.place := last.offset]
  {
    var front, last := entries[..|entries| - 1], entries[|entries| - 1];
    forall p | p in m && p != last.place
      ensures Entry(p, m[p]) in front
    {
      var i :| 0 <= i < |entries| && entries[i] == Entry(p, m[p]);
      assert front[i] == entries[i];
    }
  }

  function Somes(entries: seq<Entry>): (parsed: seq<Option<Entry>>)
    ensures |parsed| == |entries| && forall i :: 0 <= i < |entries| ==> parsed[i] == Some(entries[i])
  {
    seq(|entries|, i requires 0 <= i < |entries| => Some(entries[i]))
  }

  lemma SomesFront(entries: seq<Entry>)
    requires |entries| > 0
    ensures Somes(entries)[..|entries| - 1] == Somes(entries[..|entries| - 1])
  {
  }

  lemma {:induction false} InsertsEntries(before: Offsets, entries: seq<Entry>, m: Offsets)
    requires Lists(entries, m)
    ensures InsertAll(before, Somes(entries)) == before + m
  {
    if |entries| == 0 {
      assert m == map[];
    } else {
      var last := entries[|entries| - 1];
      ListsFront(entries, m);
      InsertsEntries(before, entries[..|entries| - 1], m - {last.place});
      SomesFront(entries);
      PutAfter(before, m - {last.place}, last);
    }
  }

  lemma PutAfter(before: Offsets, m: Offsets, e: Entry)
    ensures (before + m)[e.place := e.offset] == before + m[e.place := e.offset]
  {
  }

  lemma EntriesParse(entries: seq<Entry>)
    requires forall i :: 0 <= i < |entries| ==> CleanTopic(entries[i].place.topic)
    ensures ParseLines(LinesOf(entries)) == Somes(entries)
  {
    forall i | 0 <= i < |entries|
      ensures ParseLine(LineOf(entries[i])) == Some(entries[i])
    {
      LineParses(entries[i]);
    }
  }

  /** Whatever a line holds, a topic read out of it is clean. */
  lemma ParsedIsClean(line: string)
    requires '\n' !in line
    ensures ParseLine(line).Some? ==> CleanTopic(ParseLine(line).value.place.topic)
  {
    var i := IndexOf(line, '=');
    var j := IndexOf(line[..i], ':');
    assert forall c :: c in line[..i][..j] ==> c in line[..i] && c in line;
  }

  lemma {:induction false} LinesHaveNoNewline(s: string, i: nat)
    requires i < |Lines(s)|
    ensures '\n' !in Lines(s)[i]
    decreases |s|
  {
    var k := IndexOf(s, '\n');
    if i == 0 {
      assert k == |s| ==> s[..k] == s;
      assert forall c :: c in StripReturn(s[..k]) ==> c in s[..k];
    } else {
      LinesHaveNoNewline(s[k + 1..], i - 1);
    }
  }

  lemma {:induction false} InsertedIsClean(before: Offsets, parsed: seq<Option<Entry>>)
    requires Clean(before)
    requires forall i :: 0 <= i < |parsed| ==> parsed[i].Some? ==> CleanTopic(parsed[i].value.place.topic)
    ensures Clean(InsertAll(before, parsed))
  {
    if |parsed| > 0 {
      InsertedIsClean(before, parsed[..|parsed| - 1]);
    }
  }

  lemma LoadedIsClean(before: Offsets, contents: string)
    requires Clean(before)
    ensures Clean(Absorb(before, contents))
  {
    var lines := Lines(contents);
    forall i | 0 <= i < |lines|
      ensures ParseLine(lines[i]).Some? ==> CleanTopic(ParseLine(lines[i]).value.place.topic)
    {
      LinesHaveNoNewline(contents, i);
      ParsedIsClean(lines[i]);
    }
    InsertedIsClean(before, ParseLines(lines));
  }

  lemma CleanComesBack(before: Offsets, entries: seq<Entry>, m: Offsets)
    requires Lists(entries, m) && Clean(m)
    ensures Absorb(before, TextOf(entries)) == before + m
  {
    TextSplits(entries);
    EntriesParse(entries);
    InsertsEntries(before, entries, m);
  }

  /** What was persisted comes back exactly, in whatever order its lines were
      written, if and only if no topic contains a colon, an equals sign or a
      newline. */
  lemma RoundTrip(entries: seq<Entry>, m: Offsets)
    requires Lists(entries, m)
    ensures Absorb(map[], TextOf(entries)) == m <==> Clean(m)
  {
    LoadedIsClean(map[], TextOf(entries));
    if Clean(m) {
      CleanComesBack(map[], entries, m);
      assert map[] + m == m;
    }
  }

  /** Persist, then load into an empty map: the restart of the broker. */
  method Restart(m: Offsets) returns (restored: Offsets)
    ensures restored == m <==> Clean(m)
  {
    var text := Persist(m);
    restored := Load(text, map[]);
    ghost var entries :| Lists(entries, m) && text == TextOf(entries);
    RoundTrip(entries, m);
  }
}
