/** The length-prefixed key encoding `ScopedKey`: every part is trimmed and
    written as `<byte length>:<part>|`.  The module gives a decoder and proves
    that it recovers the parts, so no two part lists share a key. */
module ScopedKeys {
  import opened Text

  const DEFAULT_ENVIRONMENT_NAME := "default"

  /** Bytes that UTF-8 needs for one code point. */
  function Utf8Width(c: char): (w: nat)
    ensures 1 <= w <= 4
  {
    if c < '\U{80}' then 1 else if c < '\U{800}' then 2 else if c < '\U{10000}' then 3 else 4
  }

  /** Go's `len` of a string. */
  function Utf8Len(s: string): nat {
    if s == "" then 0 else Utf8Width(s[0]) + Utf8Len(s[1..])
  }

  /** The bytes of one code point (section 3 of RFC 3629). */
  function Utf8(c: char): seq<nat> {
    var n := c as nat;
    if n < 0x80 then [n]
    else if n < 0x800 then [0xC0 + n / 0x40, 0x80 + n % 0x40]
    else if n < 0x10000 then [0xE0 + n / 0x1000, 0x80 + n / 0x40 % 0x40, 0x80 + n % 0x40]
    else [0xF0 + n / 0x40000, 0x80 + n / 0x1000 % 0x40, 0x80 + n / 0x40 % 0x40, 0x80 + n % 0x40]
  }

  /** The code point that a sequence of bytes stands for: the first byte tells how many
      there are, the others carry six bits each. */
  function CodePoint(bytes: seq<nat>): int
    requires 1 <= |bytes| <= 4
  {
    var mark: int := if |bytes| == 1 then 0 else if |bytes| == 2 then 0xC0 else if |bytes| == 3 then 0xE0 else 0xF0;
    var high := bytes[0] - mark;
    var a: int := if |bytes| > 1 then high * 0x40 + bytes[1] - 0x80 else high;
    var b: int := if |bytes| > 2 then a * 0x40 + bytes[2] - 0x80 else a;
    if |bytes| > 3 then b * 0x40 + bytes[3] - 0x80 else b
  }

  lemma Utf8Decodes(c: char)
    ensures |Utf8(c)| == Utf8Width(c) && CodePoint(Utf8(c)) == c as int
    ensures forall b <- Utf8(c)[1..] :: 0x80 <= b < 0xC0
    ensures
      var lead := Utf8(c)[0];
      |Utf8(c)| == if lead < 0x80 then 1 else if 0xC0 <= lead < 0xE0 then 2 else if 0xE0 <= lead < 0xF0 then 3 else 4
    ensures Utf8(c)[0] < 0x80 || 0xC0 <= Utf8(c)[0] < 0xF8
  {
    var n := c as nat;
    assert n / 0x40 / 0x40 == n / 0x1000 && n / 0x1000 / 0x40 == n / 0x40000;
  }

  function Bytes(s: string): seq<nat> {
    if s == "" then [] else Utf8(s[0]) + Bytes(s[1..])
  }

  /** The length is that of the UTF-8 encoding. */
  lemma {:induction false} Utf8LenIs(s: string)
    ensures Utf8Len(s) == |Bytes(s)|
  {
    if s != "" {
      Utf8Decodes(s[0]);
      Utf8LenIs(s[1..]);
    }
  }

  function Digit(d: nat): char
    requires d < 10
  {
    "0123456789"[d]
  }

  /** `%d` of a non-negative number. */
  function Decimal(n: nat): string {
    if n < 10 then [Digit(n)] else Decimal(n / 10) + [Digit(n % 10)]
  }

  function EncodePart(part: string): string {
    Decimal(Utf8Len(part)) + ":" + part + "|"
  }

  function ScopedKeyOf(parts: seq<string>): string {
    if parts == [] then "" else EncodePart(Trim(parts[0])) + ScopedKeyOf(parts[1..])
  }

  function TrimAll(parts: seq<string>): (r: seq<string>)
    ensures |r| == |parts| && forall i :: 0 <= i < |parts| ==> r[i] == Trim(parts[i])
  {
    seq(|parts|, i requires 0 <= i < |parts| => Trim(parts[i]))
  }

  lemma {:induction false} ScopedKeyAppend(parts: seq<string>, last: string)
    ensures ScopedKeyOf(parts + [last]) == ScopedKeyOf(parts) + EncodePart(Trim(last))
  {
    var more := parts + [last];
    if parts == [] {
      assert more[1..] == [];
    } else {
      ScopedKeyAppend(parts[1..], last);
      assert more[0] == parts[0] && more[1..] == parts[1..] + [last];
      var head, middle, tail := EncodePart(Trim(parts[0])), ScopedKeyOf(parts[1..]), EncodePart(Trim(last));
      assert head + (middle + tail) == (head + middle) + tail;
    }
  }

  method ScopedKey(parts: seq<string>) returns (key: string)
    ensures key == ScopedKeyOf(parts)
    ensures Decode(key) == Some(TrimAll(parts))
  {
    key := "";
    for i := 0 to |parts|
      invariant key == ScopedKeyOf(parts[..i])
    {
      var part := Trim(parts[i]);
      key := key + EncodePart(part);
      ScopedKeyAppend(parts[..i], parts[i]);
      assert parts[..i + 1] == parts[..i] + [parts[i]];
    }
    assert parts[..|parts|] == parts;
    DecodeInvertsScopedKey(parts);
  }

  // ---- decoding ----

  function DigitValue(c: char): (r: Option<nat>)
    ensures r.Some? ==> r.value < 10 && Digit(r.value) == c
  {
    if '0' <= c <= '9' then Some((c as int - '0' as int) as nat) else None
  }

  /** Reads decimal digits, accumulating on top of `acc`. */
  function ParseDigits(s: string, acc: nat): (r: (nat, string))
    ensures |r.1| <= |s|
  {
    if s != "" && DigitValue(s[0]).Some? then ParseDigits(s[1..], 10 * acc + DigitValue(s[0]).value) else (acc, s)
  }

  /** Splits off the shortest prefix that is `n` bytes long, if there is one. */
  function TakeBytes(s: string, n: nat): (r: Option<(string, string)>)
    ensures r.Some? ==> |r.value.1| <= |s|
  {
    if n == 0 then Some(("", s))
    else if s == "" || Utf8Width(s[0]) > n then None
    else
      match TakeBytes(s[1..], n - Utf8Width(s[0]))
      case None => None
      case Some((head, rest)) => Some(([s[0]] + head, rest))
  }

  function DecodePart(s: string): (r: Option<(string, string)>)
    ensures r.Some? ==> |r.value.1| < |s|
  {
    var (n, afterDigits) := ParseDigits(s, 0);
    if afterDigits == "" || afterDigits[0] != ':' then None
    else
      match TakeBytes(afterDigits[1..], n)
      case None => None
      case Some((part, rest)) => if rest == "" || rest[0] != '|' then None else Some((part, rest[1..]))
  }

  function Decode(s: string): Option<seq<string>>
    decreases |s|
  {
    if s == "" then Some([])
    else
      match DecodePart(s)
      case None => None
      case Some((part, rest)) =>
        match Decode(rest)
        case None => None
        case Some(parts) => Some([part] + parts)
  }

  lemma {:induction false} ParseDecimal(n: nat, t: string)
    ensures ParseDigits(Decimal(n) + t, 0) == ParseDigits(t, n)
  {
    if n < 10 {
      assert ([Digit(n)] + t)[1..] == t;
    } else {
      var d := Digit(n % 10);
      ParseDecimal(n / 10, [d] + t);
      assert Decimal(n) + t == Decimal(n / 10) + ([d] + t);
      assert ([d] + t)[1..] == t;
    }
  }

  lemma {:induction false} TakeOwnBytes(p: string, rest: string)
    ensures TakeBytes(p + rest, Utf8Len(p)) == Some((p, rest))
  {
    if p == "" {
      assert p + rest == rest;
    } else {
      TakeOwnBytes(p[1..], rest);
      assert (p + rest)[1..] == p[1..] + rest;
      assert p == [p[0]] + p[1..];
    }
  }

  lemma DecodeEncodedPart(p: string, rest: string)
    ensures DecodePart(EncodePart(p) + rest) == Some((p, rest))
  {
    var tail := ":" + (p + ("|" + rest));
    assert EncodePart(p) + rest == Decimal(Utf8Len(p)) + tail;
    ParseDecimal(Utf8Len(p), tail);
    assert tail[1..] == p + ("|" + rest);
    TakeOwnBytes(p, "|" + rest);
    assert ("|" + rest)[1..] == rest;
  }

  /** The encoding is uniquely decodable. */
  lemma {:induction false} DecodeInvertsScopedKey(parts: seq<string>)
    ensures Decode(ScopedKeyOf(parts)) == Some(TrimAll(parts))
  {
    if parts == [] {
      assert TrimAll(parts) == [];
    } else {
      DecodeEncodedPart(Trim(parts[0]), ScopedKeyOf(parts[1..]));
      DecodeInvertsScopedKey(parts[1..]);
      assert TrimAll(parts) == [Trim(parts[0])] + TrimAll(parts[1..]);
    }
  }

  /** Two part lists share a key exactly when they agree after trimming. */
  lemma ScopedKeyInjective(a: seq<string>, b: seq<string>)
    ensures ScopedKeyOf(a) == ScopedKeyOf(b) <==> TrimAll(a) == TrimAll(b)
  {
    DecodeInvertsScopedKey(a);
    DecodeInvertsScopedKey(b);
    if TrimAll(a) == TrimAll(b) {
      KeyOfTrimmed(a);
      KeyOfTrimmed(b);
    }
  }

  lemma {:induction false} KeyOfTrimmed(a: seq<string>)
    ensures ScopedKeyOf(TrimAll(a)) == ScopedKeyOf(a)
  {
    if a != [] {
      KeyOfTrimmed(a[1..]);
      TrimTrims(a[0]);
      assert TrimAll(a)[0] == Trim(a[0]);
      assert TrimAll(a)[1..] == TrimAll(a[1..]);
    }
  }

  lemma PairsTrimmed(p: seq<string>, q: seq<string>)
    requires |p| == 2 && |q| == 2
    ensures TrimAll(p) == TrimAll(q) <==> Trim(p[0]) == Trim(q[0]) && Trim(p[1]) == Trim(q[1])
  {
    var r, t := TrimAll(p), TrimAll(q);
    assert r == t <==> r[0] == t[0] && r[1] == t[1];
  }

  /** The two-part case, which every key of the agent uses. */
  lemma PairKeyInjective(p: seq<string>, q: seq<string>)
    requires |p| == 2 && |q| == 2
    ensures ScopedKeyOf(p) == ScopedKeyOf(q) <==> Trim(p[0]) == Trim(q[0]) && Trim(p[1]) == Trim(q[1])
  {
    ScopedKeyInjective(p, q);
    PairsTrimmed(p, q);
  }

  // ---- keys built from it ----

  /** A blank environment name stands for the default environment. */
  function EnvironmentOrDefault(environmentName: string): string {
    if Blank(environmentName) then DEFAULT_ENVIRONMENT_NAME else Trim(environmentName)
  }

  /** `runtimeServiceKey`. */
  function ServiceKey(environmentName: string, serviceName: string): string {
    ScopedKeyOf([EnvironmentOrDefault(environmentName), serviceName])
  }

  lemma EnvironmentOrDefaultTrimmed(environmentName: string)
    ensures Trimmed(EnvironmentOrDefault(environmentName))
  {
    TrimTrims(environmentName);
    VisibleAscii('d');
    VisibleAscii('t');
    TrimmedEnds(DEFAULT_ENVIRONMENT_NAME);
  }

  /** Service keys agree exactly when the services agree, up to white space and
      the default environment name. */
  lemma ServiceKeyInjective(e1: string, s1: string, e2: string, s2: string)
    ensures ServiceKey(e1, s1) == ServiceKey(e2, s2) <==>
            && (if Trim(e1) == "" then "default" else Trim(e1)) == (if Trim(e2) == "" then "default" else Trim(e2))
            && Trim(s1) == Trim(s2)
  {
    hide Trim, ScopedKeyOf;
    PairKeyInjective([EnvironmentOrDefault(e1), s1], [EnvironmentOrDefault(e2), s2]);
    EnvironmentOrDefaultTrimmed(e1);
    EnvironmentOrDefaultTrimmed(e2);
  }

  /** `taskStoreName`: the name of a task's lifecycle record. */
  function TaskStoreName(environmentName: string, taskName: string): string {
    if Blank(environmentName) then Trim(taskName) else ScopedKeyOf([Trim(environmentName), Trim(taskName)])
  }

  /** With an environment name (which validation demands), two tasks share a
      lifecycle record exactly when environment and task name agree; and so do two
      without one. */
  lemma TaskStoreNameInjective(e1: string, t1: string, e2: string, t2: string)
    requires Blank(e1) <==> Blank(e2)
    ensures TaskStoreName(e1, t1) == TaskStoreName(e2, t2) <==> Trim(e1) == Trim(e2) && Trim(t1) == Trim(t2)
  {
    hide ScopedKeyOf, Trim, TrimAll;
    if !Blank(e1) {
      TrimTrims(e1);
      TrimTrims(t1);
      TrimTrims(e2);
      TrimTrims(t2);
      PairKeyInjective([Trim(e1), Trim(t1)], [Trim(e2), Trim(t2)]);
    }
  }

  /** Without one, a task can be named so that it takes another task's record. */
  lemma BlankEnvironmentCollides()
    ensures TaskStoreName("", "1:e|1:t|") == TaskStoreName("e", "t")
  {
    VisibleAscii('1');
    VisibleAscii('|');
    VisibleAscii('e');
    VisibleAscii('t');
    TrimmedEnds("1:e|1:t|");
    TrimmedEnds("e");
    TrimmedEnds("t");
    assert Decimal(1) == "1";
    assert Utf8Len("e") == 1 by { assert Utf8Len("e"[1..]) == 0; }
    assert Utf8Len("t") == 1 by { assert Utf8Len("t"[1..]) == 0; }
    assert EncodePart("e") == "1:e|" && EncodePart("t") == "1:t|";
    assert ["e", "t"][1..] == ["t"] && ["t"][1..] == [];
    assert ScopedKeyOf(["t"]) == EncodePart("t") + ScopedKeyOf([]);
    assert ScopedKeyOf(["e", "t"]) == "1:e|" + "1:t|";
  }
}
