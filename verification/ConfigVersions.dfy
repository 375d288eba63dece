/** `ConfigVersion` of crates/config-version: ordering and the wire format `V<nr>-T<microseconds>`. */
module ConfigVersions {
  import opened Text
  import opened Decimals

  /** The timestamp is kept in microseconds since the epoch, the precision of the wire format. */
  datatype ConfigVersion = ConfigVersion(versionNr: nat, timestamp: nat)

  /** The order `min_by_timestamp` decides by: timestamp first, version number on ties. */
  predicate AtMost(a: ConfigVersion, b: ConfigVersion) {
    a.timestamp < b.timestamp || (a.timestamp == b.timestamp && a.versionNr <= b.versionNr)
  }

  function MinByTimestamp(a: ConfigVersion, b: ConfigVersion): (r: ConfigVersion)
    ensures r == a || r == b
    ensures AtMost(r, a) && AtMost(r, b)
    ensures r.timestamp <= a.timestamp && r.timestamp <= b.timestamp
    ensures a.timestamp == b.timestamp ==> r.versionNr <= a.versionNr && r.versionNr <= b.versionNr
  {
    if a.timestamp < b.timestamp then a
    else if a.timestamp > b.timestamp then b
    else if a.versionNr <= b.versionNr then a else b
  }

  function VersionString(v: ConfigVersion): string {
    "V" + Print(v.versionNr) + "-T" + Print(v.timestamp)
  }

  /** The last whole second that the date library can represent. */
  const MAX_TIMESTAMP_SECS: nat := 8_210_266_876_799

  /** `ConfigVersion::from_str`. */
  function Parse(s: string): Option<ConfigVersion> {
    var parts := Split(Trim(s), '-');
    if |parts| != 2 || !HasPrefix(parts[0], "V") || !HasPrefix(parts[1], "T") then None
    else match (ParseU64(parts[0][1..]), ParseU64(parts[1][1..]))
      case (Some(nr), Some(micros)) =>
        if micros / 1_000_000 <= MAX_TIMESTAMP_SECS then Some(ConfigVersion(nr, micros)) else None
      case _ => None
  }

  /** The versions that can be on the wire. */
  predicate Representable(v: ConfigVersion) {
    v.versionNr < U64_LIMIT && v.timestamp < U64_LIMIT && v.timestamp / 1_000_000 <= MAX_TIMESTAMP_SECS
  }

  lemma ParsedIsRepresentable(s: string)
    ensures Parse(s).Some? ==> Representable(Parse(s).value)
  {
  }

  /** Printing loses nothing: every representable version is read back unchanged. */
  lemma ParseOfVersionString(v: ConfigVersion)
    requires Representable(v)
    ensures Parse(VersionString(v)) == Some(v)
  {
    var nr, micros := "V" + Print(v.versionNr), "T" + Print(v.timestamp);
    var s := VersionString(v);
    assert s == nr + ['-'] + micros;
    assert s[0] == 'V' && IsDigit(Print(v.timestamp)[|Print(v.timestamp)| - 1]);
    assert Trim(s) == s;
    SplitPrefix(nr, micros, '-');
    SplitUnbroken(micros, '-');
    assert nr[1..] == Print(v.versionNr) && micros[1..] == Print(v.timestamp);
    ParseOfPrint(v.versionNr);
    ParseOfPrint(v.timestamp);
  }

  /** The text, without surrounding space, is `V`, a number, `-T`, a number. */
  predicate IsVersionText(s: string, nr: string, micros: string) {
    Trim(s) == "V" + nr + "-T" + micros && '-' !in nr && '-' !in micros
  }

  lemma {:induction false} SplitTwo(s: string, sep: char)
    requires |Split(s, sep)| <= 2
    ensures |Split(s, sep)| == 1 ==> s == Split(s, sep)[0]
    ensures |Split(s, sep)| == 2 ==> s == Split(s, sep)[0] + [sep] + Split(s, sep)[1]
  {
    if s != "" {
      SplitTwo(s[1..], sep);
      assert s == [s[0]] + s[1..];
    }
  }

  predicate Spells(s: string, v: ConfigVersion, nr: string, micros: string) {
    && IsVersionText(s, nr, micros) && ParseU64(nr) == Some(v.versionNr) && ParseU64(micros) == Some(v.timestamp)
    && v.timestamp <= 8_210_266_876_799_999_999
  }

  /** What is read as a version: exactly the texts of that form whose numbers are in range, and as those numbers. */
  lemma ReadsExactlyVersionTexts(s: string, v: ConfigVersion)
    ensures Parse(s) == Some(v) <==> exists nr, micros :: Spells(s, v, nr, micros)
  {
    hide Trim, ParseU64;
    var parts := Split(Trim(s), '-');
    if Parse(s) == Some(v) {
      SplitTwo(Trim(s), '-');
      var nr, micros := parts[0][1..], parts[1][1..];
      assert parts[0] == "V" + nr && parts[1] == "T" + micros;
      assert Trim(s) == "V" + nr + "-T" + micros;
      assert Spells(s, v, nr, micros);
    }
    if nr, micros :| Spells(s, v, nr, micros) {
      assert Trim(s) == ("V" + nr) + ['-'] + ("T" + micros);
      SplitPrefix("V" + nr, "T" + micros, '-');
      SplitUnbroken("T" + micros, '-');
      assert ("V" + nr)[1..] == nr && ("T" + micros)[1..] == micros;
    }
  }
}
