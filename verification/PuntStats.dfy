/** The punt-stats receiver: parsing counter lines in two formats and forwarding consistent scrapes. */
module PuntStats {
  import opened Text
  import opened Decimals

  datatype Format = Original | Protocol

  const ORIGINAL_LABELS: set<string> := {"punt_miss", "punt_control", "acl"}
  const RECOGNIZED: set<string> := {"catch_all", "arp", "bfd", "bgp", "dhcp", "ip2me", "icmp", "icmp6_neigh"}

  /** A successfully parsed line. */
  datatype Stat = Stat(format: Format, protocol: string, dropped: bool, pkts: nat, bytes: nat)

  /** The protocol label and the fields from the one before the counters (or before `drop`) on. */
  function Head(fields: seq<string>): Option<(Format, string, seq<string>)>
    requires |fields| >= 3
  {
    if fields[0] == "PUNT" then
      if fields[1] == "miss" then Some((Original, "punt_miss", fields[1..]))
      else if fields[1] == "control" then Some((Original, "punt_control", fields[1..]))
      else None
    else if fields[0] == "ACL" then
      if fields[1] == "PUNT" then Some((Original, "acl", fields[1..]))
      else if fields[1] == "drop" then Some((Original, "acl", fields))
      else None
    else if fields[0] in RECOGNIZED then Some((Protocol, fields[0], fields))
    else None
  }

  function Counters(pkts: string, bytes: string): Option<(nat, nat)> {
    match (ParseUint(TrimPrefix(pkts, "pkts:")), ParseUint(TrimPrefix(bytes, "bytes:")))
    case (Some(p), Some(b)) => Some((p, b))
    case _ => None
  }

  function WithCounters(format: Format, protocol: string, dropped: bool, counters: Option<(nat, nat)>): Option<Stat> {
    match counters
    case Some((pkts, bytes)) => Some(Stat(format, protocol, dropped, pkts, bytes))
    case None => None
  }

  function ParsedFields(fields: seq<string>): Option<Stat> {
    if |fields| < 3 then None
    else match Head(fields)
      case None => None
      case Some((format, protocol, rest)) =>
        if |rest| < 3 then None
        else if rest[1] == "drop" then
          if |rest| < 4 then None
          else WithCounters(format, protocol, true, Counters(rest[2], rest[3]))
        else WithCounters(format, protocol, false, Counters(rest[1], rest[2]))
  }

  method ParseLine(line: string) returns (r: Option<Stat>)
    ensures r == ParsedFields(Fields(line))
  {
    var fields := Fields(line);
    if |fields| < 3 {
      return None;
    }
    var format, protocol, dropped := Protocol, fields[0], false;
    if protocol == "PUNT" || protocol == "ACL" {
      format := Original;
      if protocol == "PUNT" && fields[1] == "miss" {
        protocol := "punt_miss";
      } else if protocol == "PUNT" && fields[1] == "control" {
        protocol := "punt_control";
      } else if protocol == "ACL" && (fields[1] == "PUNT" || fields[1] == "drop") {
        protocol := "acl";
      } else {
        return None;
      }
      if fields[1] != "drop" {
        fields := fields[1..];
        if |fields| < 3 {
          return None;
        }
      }
    } else if protocol !in RECOGNIZED {
      return None;
    }
    var pkts, bytes;
    if fields[1] == "drop" {
      dropped := true;
      if |fields| < 4 {
        return None;
      }
      pkts, bytes := TrimPrefix(fields[2], "pkts:"), TrimPrefix(fields[3], "bytes:");
    } else {
      pkts, bytes := TrimPrefix(fields[1], "pkts:"), TrimPrefix(fields[2], "bytes:");
    }
    var pktsVal := ParseUint(pkts);
    if pktsVal.None? {
      return None;
    }
    var bytesVal := ParseUint(bytes);
    if bytesVal.None? {
      return None;
    }
    return Some(Stat(format, protocol, dropped, pktsVal.value, bytesVal.value));
  }

  // ---------------------------------------------------------------- the documented lines

  predicate IsDocumented(s: Stat) {
    && s.protocol in (if s.format == Original then ORIGINAL_LABELS else RECOGNIZED)
    && s.pkts < U64_LIMIT && s.bytes < U64_LIMIT
  }

  /** The words before the counters, as the counter file prints them. */
  function HeadWords(s: Stat): seq<string>
    requires IsDocumented(s)
  {
    if s.format == Protocol then [s.protocol] + (if s.dropped then ["drop"] else [])
    else if s.protocol == "acl" then (if s.dropped then ["ACL", "drop"] else ["ACL", "PUNT"])
    else ["PUNT", if s.protocol == "punt_miss" then "miss" else "control"] + (if s.dropped then ["drop"] else [])
  }

  function Words(s: Stat): seq<string>
    requires IsDocumented(s)
  {
    HeadWords(s) + ["pkts:" + Print(s.pkts), "bytes:" + Print(s.bytes)]
  }

  function Printed(s: Stat): string
    requires IsDocumented(s)
  {
    Join(Words(s), " ")
  }

  lemma CountersParse(pkts: nat, bytes: nat)
    requires pkts < U64_LIMIT && bytes < U64_LIMIT
    ensures Counters("pkts:" + Print(pkts), "bytes:" + Print(bytes)) == Some((pkts, bytes))
    ensures IsWord("pkts:" + Print(pkts)) && IsWord("bytes:" + Print(bytes))
    ensures "pkts:" + Print(pkts) != "drop"
  {
    ParseOfPrint(pkts);
    ParseOfPrint(bytes);
    assert ("pkts:" + Print(pkts))[5..] == Print(pkts) && ("bytes:" + Print(bytes))[6..] == Print(bytes);
    assert ("pkts:" + Print(pkts))[0] == 'p';
    PrintIsWord(pkts);
    PrintIsWord(bytes);
  }

  lemma PrintIsWord(n: nat)
    ensures forall i :: 0 <= i < |Print(n)| ==> !IsSpace(Print(n)[i])
  {
    forall i | 0 <= i < |Print(n)|
      ensures !IsSpace(Print(n)[i])
    {
      assert IsDigit(Print(n)[i]);
    }
  }

  lemma HeadWordsAreWords(s: Stat)
    requires IsDocumented(s)
    ensures forall i :: 0 <= i < |HeadWords(s)| ==> IsWord(HeadWords(s)[i])
  {
    if s.format == Protocol {
      RecognizedAreWords(s.protocol);
    }
  }

  lemma RecognizedAreWords(p: string)
    requires p in RECOGNIZED
    ensures IsWord(p) && p != "PUNT" && p != "ACL"
  {
  }

  lemma WordsParse(s: Stat, pkts: string, bytes: string)
    requires IsDocumented(s)
    requires Counters(pkts, bytes) == Some((s.pkts, s.bytes)) && pkts != "drop"
    ensures ParsedFields(HeadWords(s) + [pkts, bytes]) == Some(s)
  {
    hide Counters;
    var fields := HeadWords(s) + [pkts, bytes];
    if s.format == Protocol {
      RecognizedAreWords(s.protocol);
      assert fields[0] == s.protocol;
    } else {
      OriginalWordsParse(s, pkts, bytes);
    }
  }

  lemma OriginalWordsParse(s: Stat, pkts: string, bytes: string)
    requires IsDocumented(s) && s.format == Original
    requires Counters(pkts, bytes) == Some((s.pkts, s.bytes)) && pkts != "drop"
    ensures ParsedFields(HeadWords(s) + [pkts, bytes]) == Some(s)
  {
    hide Counters;
    var fields := HeadWords(s) + [pkts, bytes];
    if s.protocol == "acl" {
      if s.dropped {
        assert fields == ["ACL", "drop", pkts, bytes];
      } else {
        assert fields == ["ACL", "PUNT", pkts, bytes];
        assert fields[1..] == ["PUNT", pkts, bytes];
      }
    } else {
      assert s.protocol == "punt_miss" || s.protocol == "punt_control";
      var word := if s.protocol == "punt_miss" then "miss" else "control";
      if s.dropped {
        assert fields == ["PUNT", word, "drop", pkts, bytes];
        assert fields[1..] == [word, "drop", pkts, bytes];
      } else {
        assert fields == ["PUNT", word, pkts, bytes];
        assert fields[1..] == [word, pkts, bytes];
      }
    }
  }

  /** The parser inverts the printer on every documented line: every label, drop flag and pair of 64-bit counters. */
  lemma ParseOfPrinted(s: Stat)
    requires IsDocumented(s)
    ensures ParsedFields(Fields(Printed(s))) == Some(s)
  {
    CountersParse(s.pkts, s.bytes);
    HeadWordsAreWords(s);
    hide Fields, Join, IsWord, Counters, Print, ParsedFields, HeadWords;
    FieldsJoin(Words(s));
    WordsParse(s, "pkts:" + Print(s.pkts), "bytes:" + Print(s.bytes));
  }

  /** Whatever the line, the label comes from a fixed finite set that tells the format, and the counters fit 64 bits. */
  lemma ParsedIsDocumented(line: string)
    ensures ParsedFields(Fields(line)).Some? ==> IsDocumented(ParsedFields(Fields(line)).value)
  {
  }

  // ---------------------------------------------------------------- forwarding a scrape

  /** `int64(uint64)`. */
  function AsInt64(n: nat): int {
    if n < U64_LIMIT / 2 then n else n - U64_LIMIT
  }

  datatype Point = Point(protocol: string, dropped: bool, value: int)

  /** The lines that parse, in order. */
  function Readable(lines: seq<string>): seq<Stat> {
    if lines == [] then []
    else
      Readable(lines[..|lines| - 1])
      + match ParsedFields(Fields(Trim(lines[|lines| - 1]))) case Some(s) => [s] case None => []
  }

  predicate Uniform(stats: seq<Stat>) {
    forall i, j :: 0 <= i < j < |stats| ==> stats[i].format == stats[j].format
  }

  function PktPoints(stats: seq<Stat>): seq<Point> {
    seq(|stats|, i requires 0 <= i < |stats| => Point(stats[i].protocol, stats[i].dropped, AsInt64(stats[i].pkts)))
  }

  function BytePoints(stats: seq<Stat>): seq<Point> {
    seq(|stats|, i requires 0 <= i < |stats| => Point(stats[i].protocol, stats[i].dropped, AsInt64(stats[i].bytes)))
  }

  /** `bufio.MaxScanTokenSize`: a scanner gives up on a line that fills its buffer. */
  const MAX_LINE := 65536

  predicate Scannable(lines: seq<string>) {
    forall i :: 0 <= i < |lines| ==> |lines[i]| < MAX_LINE
  }

  /**
   * A scrape is forwarded exactly when no line is too long and all its readable lines have one format, and then with
   * one packet and one byte point per readable line, in order.
   */
  method Scrape(lines: seq<string>) returns (r: Option<(seq<Point>, seq<Point>)>)
    ensures r.Some? <==> Scannable(lines) && Uniform(Readable(lines))
    ensures r.Some? ==> r.value == (PktPoints(Readable(lines)), BytePoints(Readable(lines)))
  {
    hide ParsedFields, Fields, Trim, AsInt64, Readable;
    var prevFormat: Option<Format> := None;
    var pkts: seq<Point>, bytes: seq<Point> := [], [];
    ghost var seen: seq<Stat> := [];
    ReadableOfNone(lines);
    for i := 0 to |lines|
      invariant seen == Readable(lines[..i]) && Scannable(lines[..i])
      invariant prevFormat.None? <==> seen == []
      invariant forall k :: 0 <= k < |seen| ==> seen[k].format == prevFormat.value
      invariant pkts == PktPoints(seen) && bytes == BytePoints(seen)
    {
      if |lines[i]| >= MAX_LINE {
        return None;
      }
      ReadableStep(lines, i);
      var line := Trim(lines[i]);
      if line == "" {
        EmptyLineIsUnreadable();
        continue;
      }
      var parsed := ParseLine(line);
      if parsed.None? {
        continue;
      }
      var s := parsed.value;
      seen := seen + [s];
      if prevFormat.Some? && s.format != prevFormat.value {
        ReadablePrefix(lines, i + 1);
        assert Readable(lines)[0] == seen[0] && Readable(lines)[|seen| - 1] == s;
        return None;
      }
      prevFormat := Some(s.format);
      pkts := pkts + [Point(s.protocol, s.dropped, AsInt64(s.pkts))];
      bytes := bytes + [Point(s.protocol, s.dropped, AsInt64(s.bytes))];
    }
    assert lines[..|lines|] == lines;
    return Some((pkts, bytes));
  }

  lemma ReadableOfNone(lines: seq<string>)
    ensures Readable(lines[..0]) == []
  {
  }

  lemma ReadableStep(lines: seq<string>, i: nat)
    requires i < |lines|
    ensures Readable(lines[..i + 1])
         == Readable(lines[..i]) + match ParsedFields(Fields(Trim(lines[i]))) case Some(s) => [s] case None => []
  {
    assert lines[..i + 1][..i] == lines[..i];
  }

  lemma EmptyLineIsUnreadable()
    ensures ParsedFields(Fields("")) == None
  {
  }

  lemma {:induction false} ReadablePrefix(lines: seq<string>, i: nat)
    requires i <= |lines|
    ensures Readable(lines[..i]) <= Readable(lines)
    decreases lines
  {
    if i < |lines| {
      ReadablePrefix(lines[..|lines| - 1], i);
      assert lines[..|lines| - 1][..i] == lines[..i];
    } else {
      assert lines[..i] == lines;
    }
  }

  lemma {:induction false} ReadableIsDocumented(lines: seq<string>)
    ensures forall i :: 0 <= i < |Readable(lines)| ==> IsDocumented(Readable(lines)[i])
  {
    hide ParsedFields, Fields, Trim, IsDocumented;
    if lines != [] {
      ReadableIsDocumented(lines[..|lines| - 1]);
      ParsedIsDocumented(Trim(lines[|lines| - 1]));
    }
  }

  const SIGN_BIT: nat := 0x8000_0000_0000_0000

  predicate Fits(s: Stat) {
    s.pkts < SIGN_BIT && s.bytes < SIGN_BIT
  }

  /** The points of a scrape carry the counters exactly when these are below 2^63; otherwise one of them is negative. */
  lemma ForwardedExactlyWhen(lines: seq<string>)
    ensures var stats := Readable(lines);
      var pkts, bytes := PktPoints(stats), BytePoints(stats);
      var fits := forall i :: 0 <= i < |stats| ==> Fits(stats[i]);
      && ((forall i :: 0 <= i < |stats| ==> pkts[i].value == stats[i].pkts && bytes[i].value == stats[i].bytes) <==>
           fits)
      && ((forall i :: 0 <= i < |stats| ==> pkts[i].value >= 0 && bytes[i].value >= 0) <==> fits)
  {
    hide Readable;
    ReadableIsDocumented(lines);
    var stats := Readable(lines);
    forall i | 0 <= i < |stats|
      ensures PktPoints(stats)[i].value == stats[i].pkts && BytePoints(stats)[i].value == stats[i].bytes <==>
        Fits(stats[i])
      ensures PktPoints(stats)[i].value >= 0 && BytePoints(stats)[i].value >= 0 <==> Fits(stats[i])
    {
      assert IsDocumented(stats[i]);
    }
  }

  /** A counter passes 2^63 between two scrapes. */
  predicate Crosses(before: nat, after: nat) {
    before < SIGN_BIT <= after
  }

  /** The values of every series, that is, of every protocol and drop flag, do not decrease. */
  predicate Grows(before: seq<Point>, after: seq<Point>) {
    forall i, j | 0 <= i < |before| && 0 <= j < |after| && SameLabels(before[i], after[j]) ::
      before[i].value <= after[j].value
  }

  predicate SameLabels(p: Point, q: Point) {
    p.protocol == q.protocol && p.dropped == q.dropped
  }

  predicate SameSeries(s: Stat, t: Stat) {
    s.protocol == t.protocol && s.dropped == t.dropped
  }

  /**
   * The sums are declared monotonic. Between two scrapes in which the counters of no series decrease, the forwarded
   * values of no series decrease exactly when no counter passes 2^63.
   */
  lemma SumsAreMonotonicExactlyWhen(before: seq<string>, after: seq<string>)
    requires var b, a := Readable(before), Readable(after);
      forall i, j | 0 <= i < |b| && 0 <= j < |a| && SameSeries(b[i], a[j]) ::
        b[i].pkts <= a[j].pkts && b[i].bytes <= a[j].bytes
    ensures var b, a := Readable(before), Readable(after);
      Grows(PktPoints(b), PktPoints(a)) && Grows(BytePoints(b), BytePoints(a)) <==>
      forall i, j :: 0 <= i < |b| && 0 <= j < |a| && SameSeries(b[i], a[j]) ==>
        !Crosses(b[i].pkts, a[j].pkts) && !Crosses(b[i].bytes, a[j].bytes)
  {
    hide Readable;
    ReadableIsDocumented(before);
    ReadableIsDocumented(after);
    var b, a := Readable(before), Readable(after);
    var bp, ap, bb, ab := PktPoints(b), PktPoints(a), BytePoints(b), BytePoints(a);
    forall i, j | 0 <= i < |b| && 0 <= j < |a| && SameSeries(b[i], a[j])
      ensures bp[i].value <= ap[j].value <==> !Crosses(b[i].pkts, a[j].pkts)
      ensures bb[i].value <= ab[j].value <==> !Crosses(b[i].bytes, a[j].bytes)
    {
      assert IsDocumented(a[j]) && IsDocumented(b[i]);
    }
    hide AsInt64, Crosses, IsDocumented;
    if Grows(bp, ap) && Grows(bb, ab) {
      forall i, j | 0 <= i < |b| && 0 <= j < |a| && SameSeries(b[i], a[j])
        ensures !Crosses(b[i].pkts, a[j].pkts) && !Crosses(b[i].bytes, a[j].bytes)
      {
        assert SameLabels(bp[i], ap[j]) && SameLabels(bb[i], ab[j]);
      }
    }
  }

  // ---------------------------------------------------------------- a printed file

  /** The documented lines of a file, one per statistic. */
  function PrintedLines(stats: seq<Stat>): seq<string>
    requires forall i :: 0 <= i < |stats| ==> IsDocumented(stats[i])
  {
    if stats == [] then [] else PrintedLines(stats[..|stats| - 1]) + [Printed(stats[|stats| - 1])]
  }

  /** Scraping a file of documented lines yields exactly its statistics, in order. */
  lemma {:induction false} ReadableOfPrinted(stats: seq<Stat>)
    requires forall i :: 0 <= i < |stats| ==> IsDocumented(stats[i])
    ensures Readable(PrintedLines(stats)) == stats
  {
    hide ParsedFields, Fields, Trim, Printed, IsDocumented, Readable;
    if stats == [] {
      ReadableOfNone([]);
    } else {
      var n := |stats| - 1;
      ReadableOfPrinted(stats[..n]);
      ReadableOfOneMore(PrintedLines(stats[..n]), Printed(stats[n]));
      FieldsOfTrimmed(Printed(stats[n]));
      ParseOfPrinted(stats[n]);
    }
  }

  lemma ReadableOfOneMore(lines: seq<string>, line: string)
    ensures Readable(lines + [line])
         == Readable(lines) + match ParsedFields(Fields(Trim(line))) case Some(s) => [s] case None => []
  {
    hide ParsedFields, Fields, Trim;
    assert (lines + [line])[..|lines|] == lines;
  }
}
