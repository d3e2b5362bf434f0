/**
 * String helpers the service relies on, written out so that their
 * properties can be proved: Go's strings.Split for a one-character
 * separator, lowercase hexadecimal (encoding/hex) and base-10 rendering
 * of a 64-bit timestamp (how the Redis client stores an integer field).
 */
module Text {

  newtype byte = x: int | 0 <= x < 256

  type Bytes = seq<byte>

  // ---------------------------------------------------------------------
  // Splitting on a separator (strings.Split / String.prototype.split)
  // ---------------------------------------------------------------------

  /** The pieces of `s` between occurrences of `sep`; "" gives [""]. */
  function Split(s: string, sep: char): (parts: seq<string>)
    ensures |parts| == multiset(s)[sep] + 1
    ensures forall i :: 0 <= i < |parts| ==> sep !in parts[i]
    decreases |s|
  {
    if |s| == 0 then [""]
    else
      var rest := Split(s[1..], sep);
      assert s == [s[0]] + s[1..];
      assert multiset(s) == multiset([s[0]]) + multiset(s[1..]);
      if s[0] == sep then [""] + rest
      else [[s[0]] + rest[0]] + rest[1..]
  }

  /** The inverse of Split: the pieces glued back with `sep` between them. */
  function Join(parts: seq<string>, sep: char): string
    decreases |parts|
  {
    if |parts| == 0 then ""
    else if |parts| == 1 then parts[0]
    else parts[0] + [sep] + Join(parts[1..], sep)
  }

  /** Splitting loses nothing: joining the pieces gives the text back. */
  lemma {:induction false} JoinSplit(s: string, sep: char)
    ensures Join(Split(s, sep), sep) == s
    decreases |s|
  {
    if |s| > 0 {
      JoinSplit(s[1..], sep);
      var rest := Split(s[1..], sep);
      if s[0] == sep {
        assert Split(s, sep) == [""] + rest;
        assert ([""] + rest)[1..] == rest;
        assert Join([""] + rest, sep) == "" + [sep] + Join(rest, sep);
        assert s == [s[0]] + s[1..];
      } else {
        var head := [s[0]] + rest[0];
        assert Split(s, sep) == [head] + rest[1..];
        JoinCons(s[0], rest, sep);
        assert s == [s[0]] + s[1..];
      }
    }
  }

  /** Prepending a character to the first piece prepends it to the joined text. */
  lemma {:induction false} JoinCons(c: char, parts: seq<string>, sep: char)
    requires |parts| >= 1
    ensures Join([[c] + parts[0]] + parts[1..], sep) == [c] + Join(parts, sep)
  {
    var p := [[c] + parts[0]] + parts[1..];
    assert p[1..] == parts[1..];
    if |parts| > 1 {
      assert Join(p, sep) == ([c] + parts[0]) + [sep] + Join(parts[1..], sep);
    }
  }

  /** A text without the separator, followed by more text, only extends the first piece. */
  lemma {:induction false} SplitPrefix(a: string, t: string, sep: char)
    requires sep !in a
    ensures Split(a + t, sep) == [a + Split(t, sep)[0]] + Split(t, sep)[1..]
    decreases |a|
  {
    if |a| == 0 {
      assert a + t == t;
      var p := Split(t, sep);
      assert |p| >= 1;
      assert a + p[0] == p[0];
      assert p == [a + p[0]] + p[1..];
    } else {
      assert (a + t)[0] == a[0];
      assert (a + t)[1..] == a[1..] + t;
      SplitPrefix(a[1..], t, sep);
      assert [a[0]] + (a[1..] + Split(t, sep)[0]) == a + Split(t, sep)[0];
    }
  }

  /** A leading separator contributes an empty first piece. */
  lemma SplitSep(t: string, sep: char)
    ensures Split([sep] + t, sep) == [""] + Split(t, sep)
  {
    assert ([sep] + t)[1..] == t;
  }

  /** Split undoes Join when no piece contains the separator. */
  lemma {:induction false} SplitJoin(parts: seq<string>, sep: char)
    requires |parts| >= 1
    requires forall i :: 0 <= i < |parts| ==> sep !in parts[i]
    ensures Split(Join(parts, sep), sep) == parts
    decreases |parts|
  {
    if |parts| == 1 {
      SplitPrefix(parts[0], "", sep);
      assert parts[0] + "" == parts[0];
    } else {
      var tail := parts[1..];
      assert forall i :: 0 <= i < |tail| ==> sep !in tail[i] by {
        forall i | 0 <= i < |tail| ensures sep !in tail[i] {
          assert tail[i] == parts[i + 1];
        }
      }
      SplitJoin(tail, sep);
      var t := [sep] + Join(tail, sep);
      assert Join(parts, sep) == parts[0] + t;
      SplitSep(Join(tail, sep), sep);
      assert Split(t, sep) == [""] + tail;
      SplitPrefix(parts[0], t, sep);
      assert Split(t, sep)[0] == "" && Split(t, sep)[1..] == tail;
      assert parts[0] + "" == parts[0];
      assert parts == [parts[0]] + tail;
    }
  }

  /** The two-field form "a<sep>b" splits into exactly [a, b]. */
  lemma SplitPair(a: string, b: string, sep: char)
    requires sep !in a && sep !in b
    ensures Split(a + [sep] + b, sep) == [a, b]
  {
    assert Join([a, b], sep) == a + [sep] + b by {
      assert [a, b][1..] == [b];
    }
    SplitJoin([a, b], sep);
  }

  /** Any text that splits into two pieces is exactly "piece0<sep>piece1". */
  lemma SplitPairShape(s: string, sep: char)
    requires |Split(s, sep)| == 2
    ensures s == Split(s, sep)[0] + [sep] + Split(s, sep)[1]
    ensures sep !in Split(s, sep)[0] && sep !in Split(s, sep)[1]
  {
    var p := Split(s, sep);
    JoinSplit(s, sep);
    assert p[1..] == [p[1]];
  }

  // ---------------------------------------------------------------------
  // Lowercase hexadecimal (hex.EncodeToString / Buffer.toString("hex"))
  // ---------------------------------------------------------------------

  function HexDigit(d: int): (c: char)
    requires 0 <= d < 16
    ensures IsHexDigit(c) && HexValue(c) == d
  {
    if d < 10 then ('0' as int + d) as char else ('a' as int + d - 10) as char
  }

  predicate IsHexDigit(c: char) {
    '0' <= c <= '9' || 'a' <= c <= 'f'
  }

  function HexValue(c: char): (d: int)
    requires IsHexDigit(c)
  {
    if c <= '9' then c as int - '0' as int else c as int - 'a' as int + 10
  }

  /** Two lowercase hex digits per byte, high nibble first. */
  function HexEncode(bytes: Bytes): (s: string)
    ensures |s| == 2 * |bytes|
    ensures forall i :: 0 <= i < |s| ==> IsHexDigit(s[i])
  {
    if |bytes| == 0 then ""
    else
      var b := bytes[0] as int;
      [HexDigit(b / 16), HexDigit(b % 16)] + HexEncode(bytes[1..])
  }

  /** Reference decoder, used only to show that HexEncode loses no information. */
  function HexDecode(s: string): (bytes: Bytes)
    requires |s| % 2 == 0
    requires forall i :: 0 <= i < |s| ==> IsHexDigit(s[i])
    decreases |s|
  {
    if |s| == 0 then []
    else [(16 * HexValue(s[0]) + HexValue(s[1])) as byte] + HexDecode(s[2..])
  }

  lemma {:induction false} HexRoundTrip(bytes: Bytes)
    ensures HexDecode(HexEncode(bytes)) == bytes
  {
    if |bytes| > 0 {
      var s := HexEncode(bytes);
      HexRoundTrip(bytes[1..]);
      assert s[2..] == HexEncode(bytes[1..]);
      var b := bytes[0] as int;
      assert 16 * (b / 16) + b % 16 == b;
      assert bytes == [bytes[0]] + bytes[1..];
    }
  }

  /** Different random keys never give the same secret text. */
  lemma HexInjective(a: Bytes, b: Bytes)
    requires HexEncode(a) == HexEncode(b)
    ensures a == b
  {
    HexRoundTrip(a);
    HexRoundTrip(b);
  }

  // ---------------------------------------------------------------------
  // Base-10 rendering of an integer (strconv.AppendInt(.., 10))
  // ---------------------------------------------------------------------

  predicate IsDigit(c: char) {
    '0' <= c <= '9'
  }

  function DecimalNat(n: nat): (s: string)
    ensures |s| >= 1
    ensures forall i :: 0 <= i < |s| ==> IsDigit(s[i])
    ensures n > 0 || |s| > 1 ==> s[0] != '0'
  {
    var d := ('0' as int + n % 10) as char;
    if n < 10 then [d] else DecimalNat(n / 10) + [d]
  }

  /** The decimal text of `n`, with a leading '-' when negative. */
  function Decimal(n: int): (s: string)
    ensures s != ""
    ensures s[0] == '-' <==> n < 0
    ensures n < 0 ==> |s| > 1 && s[1] != '0'
    ensures n > 0 ==> s[0] != '0'
    ensures n == 0 ==> s == "0"
  {
    if n < 0 then "-" + DecimalNat(-n) else DecimalNat(n)
  }

  /** Reference parser for DecimalNat's output. */
  function ParseNat(s: string): int
    requires forall i :: 0 <= i < |s| ==> IsDigit(s[i])
    decreases |s|
  {
    if |s| == 0 then 0
    else 10 * ParseNat(s[..|s| - 1]) + (s[|s| - 1] as int - '0' as int)
  }

  function ParseDecimal(s: string): int
    requires s != ""
    requires s[0] == '-' ==> forall i :: 1 <= i < |s| ==> IsDigit(s[i])
    requires s[0] != '-' ==> forall i :: 0 <= i < |s| ==> IsDigit(s[i])
  {
    if s[0] == '-' then -ParseNat(s[1..]) else ParseNat(s)
  }

  lemma {:induction false} ParseDecimalNat(n: nat)
    ensures ParseNat(DecimalNat(n)) == n
  {
    var s := DecimalNat(n);
    if n >= 10 {
      ParseDecimalNat(n / 10);
      assert s[..|s| - 1] == DecimalNat(n / 10);
    }
  }

  lemma DecimalRoundTrip(n: int)
    ensures ParseDecimal(Decimal(n)) == n
  {
    if n < 0 {
      assert Decimal(n)[1..] == DecimalNat(-n);
      ParseDecimalNat(-n);
    } else {
      ParseDecimalNat(n);
    }
  }

  /** Distinct timestamps render to distinct validators. */
  lemma DecimalInjective(a: int, b: int)
    requires Decimal(a) == Decimal(b)
    ensures a == b
  {
    DecimalRoundTrip(a);
    DecimalRoundTrip(b);
  }
}
