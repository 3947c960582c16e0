/**
 * The `beacons` query string of the proximity request: the aggregated entries
 * joined by `,`, each written `hash(name):rssi` with the hash as produced by
 * `cityHash64().toString(16)` and the strength as Kotlin prints an `Int`.
 * The decoder at the end is this model's reading of the `hash:rssi,…`
 * format, standing in for the backend; the round-trip contracts show that
 * nothing is lost or merged on the way.
 */
module Payload {
  import opened Wrappers
  import opened Beacons

  predicate IsDigit(c: char) {
    '0' <= c <= '9'
  }

  function DigitChar(d: nat): (c: char)
    requires d < 10
    ensures IsDigit(c)
  {
    ('0' as int + d) as char
  }

  function DigitValue(c: char): (d: nat)
    requires IsDigit(c)
    ensures d < 10
  {
    c as int - '0' as int
  }

  /** Decimal digits of `n`, most significant first, without leading zeros; they read back as `n`. */
  function NatToString(n: nat): (s: string)
    ensures |s| > 0
    ensures forall c :: c in s ==> IsDigit(c)
    ensures ParseDigits(s) == n
    decreases n
  {
    if n < 10 then [DigitChar(n)]
    else
      var prefix := NatToString(n / 10);
      var s := prefix + [DigitChar(n % 10)];
      assert s[..|s| - 1] == prefix;
      s
  }

  /**
   * Kotlin's `Int.toString()`: a minus sign before the digits of a negative
   * value. Reading the text back gives the integer.
   */
  function IntToString(i: int): (s: string)
    ensures |s| > 0
    ensures forall c :: c in s ==> IsDigit(c) || c == '-'
    ensures ParseInt(s) == Some(i)
  {
    if i < 0 then
      var s := "-" + NatToString(-i);
      assert s[1..] == NatToString(-i);
      s
    else
      var s := NatToString(i);
      assert s[0] in s;
      s
  }

  function ParseDigits(s: string): nat
    requires forall c :: c in s ==> IsDigit(c)
  {
    if s == [] then 0
    else
      var last := s[|s| - 1];
      assert last in s;
      ParseDigits(s[..|s| - 1]) * 10 + DigitValue(last)
  }

  /** Reads an optionally signed decimal integer; `None` for anything else. */
  function ParseInt(s: string): Option<int> {
    if |s| > 1 && s[0] == '-' && forall c :: c in s[1..] ==> IsDigit(c) then Some(0 - ParseDigits(s[1..]))
    else if |s| > 0 && forall c :: c in s ==> IsDigit(c) then Some(ParseDigits(s))
    else None
  }

  /** Kotlin's `split(sep)`: the pieces between separators; there is always at least one. */
  function Split(s: string, sep: char): (parts: seq<string>)
    ensures |parts| > 0
  {
    if s == [] then [""]
    else
      var rest := Split(s[1..], sep);
      if s[0] == sep then [""] + rest
      else [[s[0]] + rest[0]] + rest[1..]
  }

  lemma {:induction false} SplitNoSeparator(p: string, sep: char)
    ensures sep !in p ==> Split(p, sep) == [p]
  {
    if p != [] && sep !in p {
      SplitNoSeparator(p[1..], sep);
      assert [p[0]] + p[1..] == p;
    }
  }

  lemma {:induction false} SplitAfterPiece(p: string, sep: char, t: string)
    ensures sep !in p ==> Split(p + [sep] + t, sep) == [p] + Split(t, sep)
  {
    if sep !in p {
      if p == [] {
        assert p + [sep] + t == [sep] + t;
        assert ([sep] + t)[1..] == t;
      } else {
        assert (p + [sep] + t)[1..] == p[1..] + [sep] + t;
        SplitAfterPiece(p[1..], sep, t);
        assert [p[0]] + p[1..] == p;
      }
    }
  }

  /**
   * Kotlin's `joinToString(separator)`. Splitting the result at the separator
   * gives the list back when it is non-empty and no piece holds the separator.
   */
  function JoinToString(parts: seq<string>, sep: char): (r: string)
    ensures |parts| > 0 && (forall i :: 0 <= i < |parts| ==> sep !in parts[i]) ==> Split(r, sep) == parts
  {
    if |parts| == 0 then ""
    else if |parts| == 1 then
      SplitNoSeparator(parts[0], sep);
      parts[0]
    else
      var rest := JoinToString(parts[1..], sep);
      SplitAfterPiece(parts[0], sep, rest);
      assert [parts[0]] + parts[1..] == parts;
      parts[0] + [sep] + rest
  }

  /** The hash never produces the two separators of the query (true of hexadecimal output). */
  ghost predicate SeparatorFree(hash: string -> string) {
    forall name :: ',' !in hash(name) && ':' !in hash(name)
  }

  /**
   * One entry of the query: `"${name.cityHash64().toString(16)}:${rssi}"`.
   * When the hash holds no `:` the decoder reads back the hash and the
   * strength; when it holds no `,` neither does the entry.
   */
  function EntryString(b: BeaconInfo, hash: string -> string): (r: string)
    ensures ':' !in hash(b.name) ==> DecodeEntry(r) == Some((hash(b.name), b.rssi))
    ensures ',' !in hash(b.name) ==> ',' !in r
  {
    var h, v := hash(b.name), IntToString(b.rssi);
    assert ':' !in v && ',' !in v;
    SplitAfterPiece(h, ':', v);
    SplitNoSeparator(v, ':');
    h + [':'] + v
  }

  /** The entries of a list, in order. */
  function EntryStrings(bs: seq<BeaconInfo>, hash: string -> string): seq<string> {
    if bs == [] then [] else [EntryString(bs[0], hash)] + EntryStrings(bs[1..], hash)
  }

  /** The reading of one `hash:rssi` piece. */
  function DecodeEntry(piece: string): Option<(string, int)> {
    var fields := Split(piece, ':');
    if |fields| != 2 then None
    else match ParseInt(fields[1])
      case Some(v) => Some((fields[0], v))
      case None => None
  }

  function DecodeEntries(pieces: seq<string>): Option<seq<(string, int)>> {
    if pieces == [] then Some([])
    else match (DecodeEntry(pieces[0]), DecodeEntries(pieces[1..]))
      case (Some(e), Some(rest)) => Some([e] + rest)
      case _ => None
  }

  /** The reading of the whole `beacons` query string, standing in for the backend. */
  function DecodeBeacons(query: string): Option<seq<(string, int)>> {
    DecodeEntries(Split(query, ','))
  }

  /** The (hash, strength) pairs a list of entries stands for. */
  function Pairs(bs: seq<BeaconInfo>, hash: string -> string): seq<(string, int)> {
    if bs == [] then [] else [(hash(bs[0].name), bs[0].rssi)] + Pairs(bs[1..], hash)
  }

  /** No entry holds a comma, so each one is a single piece of the query. */
  lemma {:induction false} EntryStringsCommaFree(bs: seq<BeaconInfo>, hash: string -> string)
    ensures |EntryStrings(bs, hash)| == |bs|
    ensures SeparatorFree(hash) ==> forall i :: 0 <= i < |bs| ==> ',' !in EntryStrings(bs, hash)[i]
  {
    if bs != [] {
      var rest := EntryStrings(bs[1..], hash);
      EntryStringsCommaFree(bs[1..], hash);
      if SeparatorFree(hash) {
        assert ',' !in hash(bs[0].name);
        forall i | 0 < i < |bs| ensures ',' !in EntryStrings(bs, hash)[i] {
          assert EntryStrings(bs, hash)[i] == rest[i - 1];
        }
      }
    }
  }

  /** Every entry decodes to its pair, in order. */
  lemma {:induction false} EntryStringsRoundTrip(bs: seq<BeaconInfo>, hash: string -> string)
    ensures SeparatorFree(hash) ==> DecodeEntries(EntryStrings(bs, hash)) == Some(Pairs(bs, hash))
  {
    if bs != [] && SeparatorFree(hash) {
      var pieces := EntryStrings(bs, hash);
      assert ':' !in hash(bs[0].name);
      assert pieces[1..] == EntryStrings(bs[1..], hash);
      EntryStringsRoundTrip(bs[1..], hash);
    }
  }

  /**
   * `joinToString(separator = ",") { … }` over the entries. For a non-empty
   * list, the decoder reads back exactly one (hash, strength) pair per entry,
   * in order, so the number of comma-separated pieces is the number of entries.
   */
  function BeaconsString(bs: seq<BeaconInfo>, hash: string -> string): (r: string)
    ensures |bs| > 0 && SeparatorFree(hash) ==> |Split(r, ',')| == |bs|
    ensures |bs| > 0 && SeparatorFree(hash) ==> DecodeBeacons(r) == Some(Pairs(bs, hash))
  {
    EntryStringsCommaFree(bs, hash);
    EntryStringsRoundTrip(bs, hash);
    JoinToString(EntryStrings(bs, hash), ',')
  }
}
