/** The evidence record's text (src/boot.rs, `encode` and `decode`), for any checksum. */
module Codec {
  import opened Options

  const U64 := 0x1_0000_0000_0000_0000

  type u64 = n: nat | n < U64

  const MAGIC := "speakerguardd-evidence 1"

  datatype Stamp = Stamp(
    bootId: Option<string>,
    machineId: Option<string>,
    rtc: Option<u64>,
    realtime: Option<nat>,
    synced: bool)

  /** `realtime` and `pairing` are whole nanoseconds of any size. */
  datatype Record = Record(clean: bool, stamp: Stamp, config: u64, pairing: nat, state: string)

  // ---- numbers --------------------------------------------------------------------------------

  function DigitChar(d: nat): char
    requires d < 16
  {
    "0123456789abcdef"[d]
  }

  predicate Radix(base: nat) {
    base == 10 || base == 16
  }

  function Print(n: nat, base: nat): string
    requires Radix(base)
  {
    if n < base then [DigitChar(n)] else Print(n / base, base) + [DigitChar(n % base)]
  }

  function Zeros(n: nat): string {
    if n == 0 then "" else Zeros(n - 1) + "0"
  }

  /** `{:016x}`. */
  function Hex16(n: nat): string {
    var h := Print(n, 16);
    if |h| < 16 then Zeros(16 - |h|) + h else h
  }

  /** `char::to_digit`. */
  function DigitOf(c: char, base: nat): Option<nat>
    requires Radix(base)
  {
    var d :=
      if '0' <= c <= '9' then c as int - '0' as int
      else if 'a' <= c <= 'f' then c as int - 'a' as int + 10
      else if 'A' <= c <= 'F' then c as int - 'A' as int + 10
      else 16;
    if d < base then Some(d) else None
  }

  /** The digits' value, as long as no prefix of it overflows. */
  function ParseDigits(s: string, base: nat): Option<u64>
    requires Radix(base)
  {
    if s == "" then Some(0)
    else
      var front, d := ParseDigits(s[..|s| - 1], base), DigitOf(s[|s| - 1], base);
      if front.None? || d.None? then None
      else
        var n := front.value * base + d.value;
        if n < U64 then Some(n) else None
  }

  /** An unsigned integer: an optional plus sign, then digits. */
  function ParseU64(s: string, base: nat): Option<u64>
    requires Radix(base)
  {
    var t := if s != "" && s[0] == '+' then s[1..] else s;
    if t == "" then None else ParseDigits(t, base)
  }

  lemma DigitRoundTrip(d: nat, base: nat)
    requires Radix(base) && d < base
    ensures DigitOf(DigitChar(d), base) == Some(d)
    ensures DigitChar(d) != '+' && DigitChar(d) != '\n' && DigitChar(d) != '-'
  {}

  lemma SplitLast(n: nat, base: nat) returns (q: nat, r: nat)
    requires Radix(base) && n >= base
    ensures r < base && q < n && n == q * base + r
    ensures q >= U64 ==> n >= U64
    ensures Print(n, base) == Print(q, base) + [DigitChar(r)]
  {
    if base == 10 {
      q, r := n / 10, n % 10;
    } else {
      q, r := n / 16, n % 16;
    }
  }

  lemma ParseLast(s: string, c: char, base: nat)
    requires Radix(base)
    ensures var front, d := ParseDigits(s, base), DigitOf(c, base);
      ParseDigits(s + [c], base)
        == if front.None? || d.None? then None
           else if front.value * base + d.value < U64 then Some(front.value * base + d.value) else None
  {
    assert (s + [c])[..|s|] == s;
  }

  lemma AppendDigit(p: string, q: nat, r: nat, base: nat, n: nat)
    requires Radix(base) && r < base && n == q * base + r && (q >= U64 ==> n >= U64)
    requires ParseDigits(p, base) == if q < U64 then Some(q) else None
    ensures ParseDigits(p + [DigitChar(r)], base) == if n < U64 then Some(n) else None
  {
    DigitRoundTrip(r, base);
    ParseLast(p, DigitChar(r), base);
  }

  lemma {:induction false} PrintRoundTrip(n: nat, base: nat)
    requires Radix(base)
    ensures Print(n, base) != "" && Print(n, base)[0] != '+'
    ensures ParseDigits(Print(n, base), base) == if n < U64 then Some(n) else None
  {
    if n < base {
      DigitRoundTrip(n, base);
      AppendDigit("", 0, n, base, n);
      assert "" + [DigitChar(n)] == Print(n, base);
    } else {
      var q, r := SplitLast(n, base);
      PrintRoundTrip(q, base);
      AppendDigit(Print(q, base), q, r, base, n);
    }
  }

  lemma ParsePrinted(n: nat, base: nat)
    requires Radix(base)
    ensures ParseU64(Print(n, base), base) == if n < U64 then Some(n) else None
  {
    PrintRoundTrip(n, base);
  }

  /** A number under base^k prints in at most k digits. */
  lemma {:induction false} HexLength(n: nat, k: nat)
    requires k > 0 && n < Pow16(k)
    ensures |Print(n, 16)| <= k
  {
    if n >= 16 {
      HexLength(n / 16, k - 1);
    }
  }

  function Pow16(k: nat): nat {
    if k == 0 then 1 else 16 * Pow16(k - 1)
  }

  lemma {:induction false} ParseZeros(k: nat, s: string, base: nat)
    requires Radix(base)
    ensures ParseDigits(Zeros(k) + s, base) == ParseDigits(s, base)
    decreases k + |s|
  {
    if s != "" {
      var t := Zeros(k) + s;
      assert t[..|t| - 1] == Zeros(k) + s[..|s| - 1];
      ParseZeros(k, s[..|s| - 1], base);
    } else if k > 0 {
      assert Zeros(k) + s == Zeros(k);
      assert Zeros(k)[..k - 1] == Zeros(k - 1) by { ZerosLength(k - 1); }
      ZerosLength(k);
      ParseZeros(k - 1, "", base);
      assert Zeros(k - 1) + "" == Zeros(k - 1);
      DigitRoundTrip(0, base);
    }
  }

  lemma {:induction false} ZerosLength(k: nat)
    ensures |Zeros(k)| == k && forall i :: 0 <= i < k ==> Zeros(k)[i] == '0'
  {
    if k > 0 { ZerosLength(k - 1); }
  }

  lemma PowOfSixteen()
    ensures Pow16(16) == U64
  {
    assert Pow16(4) == 0x1_0000;
    assert Pow16(8) == 0x1_0000_0000;
    assert Pow16(12) == 0x1_0000_0000_0000;
  }

  lemma Hex16RoundTrip(n: u64)
    ensures |Hex16(n)| == 16
    ensures ParseU64(Hex16(n), 16) == Some(n)
  {
    PowOfSixteen();
    HexLength(n, 16);
    PrintRoundTrip(n, 16);
    var h := Print(n, 16);
    hide Print, ParseU64;
    if |h| < 16 {
      ZerosLength(16 - |h|);
      ParseZeros(16 - |h|, h, 16);
    }
  }

  // ---- lines ----------------------------------------------------------------------------------

  /** `char::is_whitespace`. */
  predicate IsSpace(c: char) {
    var n := c as int;
    || 9 <= n <= 13 || n == 0x20 || n == 0x85 || n == 0xA0 || n == 0x1680
    || 0x2000 <= n <= 0x200A || n == 0x2028 || n == 0x2029 || n == 0x202F || n == 0x205F || n == 0x3000
  }

  predicate HasSpace(s: string) {
    exists i :: 0 <= i < |s| && IsSpace(s[i])
  }

  /** Up to the first `c`, and what follows it. */
  function SplitOnce(s: string, c: char): Option<(string, string)> {
    if s == "" then None
    else if s[0] == c then Some(("", s[1..]))
    else
      var rest := SplitOnce(s[1..], c);
      if rest.None? then None else Some(([s[0]] + rest.value.0, rest.value.1))
  }

  function StripPrefix(s: string, prefix: string): Option<string> {
    if prefix <= s then Some(s[|prefix|..]) else None
  }

  /** One line off the cursor: nothing once the text has run out. */
  function NextLine(cursor: Option<string>): (r: (Option<string>, Option<string>)) {
    if cursor.None? then (None, None)
    else
      var cut := SplitOnce(cursor.value, '\n');
      if cut.None? then (Some(cursor.value), None) else (Some(cut.value.0), Some(cut.value.1))
  }

  /** The value of the next line, which must be the key, a space and the value. */
  function Field(cursor: Option<string>, key: string): (Option<string>, Option<string>) {
    var (line, rest) := NextLine(cursor);
    if line.None? then (None, rest)
    else
      var v := StripPrefix(line.value, key);
      if v.None? then (None, rest) else (StripPrefix(v.value, " "), rest)
  }

  function Line(key: string, value: string): string {
    key + " " + value + "\n"
  }

  lemma {:induction false} SplitAt(a: string, c: char, b: string)
    requires forall i :: 0 <= i < |a| ==> a[i] != c
    ensures SplitOnce(a + [c] + b, c) == Some((a, b))
  {
    if a == "" {
      assert a + [c] + b == [c] + b;
    } else {
      SplitAt(a[1..], c, b);
      assert (a + [c] + b)[1..] == a[1..] + [c] + b;
      assert [a[0]] + a[1..] == a;
    }
  }

  predicate OneLine(s: string) {
    forall i :: 0 <= i < |s| ==> s[i] != '\n'
  }

  lemma FieldOfLine(key: string, value: string, rest: string)
    requires OneLine(key) && OneLine(value)
    ensures Field(Some(Line(key, value) + rest), key) == (Some(value), Some(rest))
  {
    var line := key + " " + value;
    assert Line(key, value) + rest == line + ['\n'] + rest;
    SplitAt(line, '\n', rest);
    assert line == key + (" " + value) && line[|key|..] == " " + value;
    assert (" " + value)[1..] == value;
  }

  // ---- the record -------------------------------------------------------------------------------

  /** An id as it is written: a dash for none, or for one that would not stay one word. */
  function Word(s: Option<string>): string {
    if s.Some? && s.value != "" && !HasSpace(s.value) then s.value else "-"
  }

  function Decimal(n: Option<nat>): string {
    if n.Some? then Print(n.value, 10) else "-"
  }

  function Rtc(n: Option<u64>): Option<nat> {
    if n.Some? then Some(n.value) else None
  }

  function Tail5(r: Record): string {
    Line("synced", if r.stamp.synced then "1" else "0") + (Line("pairing_ns", Print(r.pairing, 10)) + r.state)
  }

  function Body(r: Record): string {
    Line("kind", if r.clean then "clean" else "running")
    + (Line("boot_id", Word(r.stamp.bootId))
    + (Line("machine_id", Word(r.stamp.machineId))
    + (Line("config", Hex16(r.config))
    + (Line("rtc_s", Decimal(Rtc(r.stamp.rtc)))
    + (Line("realtime_ns", Decimal(r.stamp.realtime))
    + Tail5(r))))))
  }

  function Encode(r: Record, sum: string -> u64): string {
    MAGIC + "\n" + Line("sum", Hex16(sum(MAGIC + "\n" + Body(r)))) + Body(r)
  }

  function Id(v: string): Option<string> {
    if v != "-" then Some(v) else None
  }

  /** A field that may be absent: none, a number, or an error. */
  function Number(v: string): Option<Option<u64>> {
    if v == "-" then Some(None)
    else
      var n := ParseU64(v, 10);
      if n.None? then None else Some(Some(n.value))
  }

  function Flag(v: string, off: string, on: string): Option<bool> {
    if v == off then Some(false) else if v == on then Some(true) else None
  }

  /** The last fields and the state text. */
  function DecodeTail(cursor: Option<string>): Option<(bool, u64, string)> {
    var (syncText, c7) := Field(cursor, "synced");
    var sync := if syncText.None? then None else Flag(syncText.value, "0", "1");
    if sync.None? then None else
    var (pairText, c8) := Field(c7, "pairing_ns");
    var pair := if pairText.None? then None else ParseU64(pairText.value, 10);
    if pair.None? || c8.None? then None else
    Some((sync.value, pair.value, c8.value))
  }

  /** The clocks and what follows them. */
  function DecodeClocks(cursor: Option<string>, clean: bool, bootId: Option<string>, machineId: Option<string>,
                        config: u64): Option<Record> {
    var (rtcText, c5) := Field(cursor, "rtc_s");
    var rtc := if rtcText.None? then None else Number(rtcText.value);
    if rtc.None? then None else
    var (timeText, c6) := Field(c5, "realtime_ns");
    var time := if timeText.None? then None else Number(timeText.value);
    if time.None? then None else
    var tail := DecodeTail(c6);
    if tail.None? then None else
    var realtime: Option<nat> := if time.value.None? then None else Some(time.value.value);
    Some(Record(clean, Stamp(bootId, machineId, rtc.value, realtime, tail.value.0), config, tail.value.1, tail.value.2))
  }

  function DecodeBody(body: string): Option<Record> {
    var (kindText, c1) := Field(Some(body), "kind");
    var kind := if kindText.None? then None else Flag(kindText.value, "running", "clean");
    if kind.None? then None else
    var (bootText, c2) := Field(c1, "boot_id");
    if bootText.None? then None else
    var (machineText, c3) := Field(c2, "machine_id");
    if machineText.None? then None else
    var (configText, c4) := Field(c3, "config");
    var config := if configText.None? then None else ParseU64(configText.value, 16);
    if config.None? then None else
    DecodeClocks(c4, kind.value, Id(bootText.value), Id(machineText.value), config.value)
  }

  function Decode(text: string, sum: string -> u64): Option<Record> {
    var rest := StripPrefix(text, MAGIC + "\n");
    if rest.None? then None else
    var line := StripPrefix(rest.value, "sum ");
    if line.None? then None else
    var cut := SplitOnce(line.value, '\n');
    if cut.None? then None else
    var (written, body) := cut.value;
    if |written| != 16 || ParseU64(written, 16) != Some(sum(MAGIC + "\n" + body)) then None
    else DecodeBody(body)
  }

  // ---- the round trip ---------------------------------------------------------------------------

  predicate CleanId(s: Option<string>) {
    s.None? || (s.value != "" && !HasSpace(s.value) && s.value != "-")
  }

  /** What a caller can check before writing: ids that stay one word and are no dash, and times
      that fit 64 bits of nanoseconds. */
  predicate Fits(r: Record) {
    && CleanId(r.stamp.bootId) && CleanId(r.stamp.machineId)
    && (r.stamp.realtime.Some? ==> r.stamp.realtime.value < U64)
    && r.pairing < U64
  }

  lemma {:induction false} PrintIsOneLine(n: nat, base: nat)
    requires Radix(base)
    ensures OneLine(Print(n, base)) && Print(n, base) != "-"
  {
    if n < base {
      DigitRoundTrip(n, base);
    } else {
      var q, r := SplitLast(n, base);
      DigitRoundTrip(r, base);
      PrintIsOneLine(q, base);
      PrintRoundTrip(q, base);
    }
  }

  lemma HexIsOneLine(n: u64)
    ensures OneLine(Hex16(n))
  {
    PrintIsOneLine(n, 16);
    if |Print(n, 16)| < 16 { ZerosLength(16 - |Print(n, 16)|); }
  }

  lemma WordIsOneLine(s: Option<string>)
    ensures OneLine(Word(s))
    ensures Id(Word(s)) == s <==> CleanId(s)
  {
    if s.Some? && s.value != "" && !HasSpace(s.value) {
      forall i | 0 <= i < |s.value| ensures s.value[i] != '\n' {
        assert !IsSpace(s.value[i]);
      }
    }
  }

  lemma NumberRoundTrip(n: Option<nat>)
    ensures OneLine(Decimal(n))
    ensures Number(Decimal(n))
         == if n.None? then Some(None) else if n.value < U64 then Some(Some(n.value)) else None
  {
    if n.Some? {
      PrintIsOneLine(n.value, 10);
      ParsePrinted(n.value, 10);
    }
  }

  lemma TailRoundTrip(r: Record)
    ensures DecodeTail(Some(Tail5(r)))
         == if r.pairing < U64 then Some((r.stamp.synced, r.pairing, r.state)) else None
  {
    PrintIsOneLine(r.pairing, 10);
    ParsePrinted(r.pairing, 10);
    var sync, last := if r.stamp.synced then "1" else "0", Line("pairing_ns", Print(r.pairing, 10)) + r.state;
    FieldOfLine("synced", sync, last);
    FieldOfLine("pairing_ns", Print(r.pairing, 10), r.state);
  }

  lemma ClocksRoundTrip(r: Record, boot: Option<string>, machine: Option<string>)
    ensures DecodeClocks(Some(Line("rtc_s", Decimal(Rtc(r.stamp.rtc))) + (Line("realtime_ns", Decimal(r.stamp.realtime)) + Tail5(r))),
                         r.clean, boot, machine, r.config)
         == if (r.stamp.realtime.Some? ==> r.stamp.realtime.value < U64) && r.pairing < U64
            then Some(r.(stamp := r.stamp.(bootId := boot, machineId := machine))) else None
  {
    hide Decimal, Tail5, ParseU64, OneLine, Field, Line;
    NumberRoundTrip(Rtc(r.stamp.rtc));
    NumberRoundTrip(r.stamp.realtime);
    TailRoundTrip(r);
    FieldOfLine("rtc_s", Decimal(Rtc(r.stamp.rtc)), Line("realtime_ns", Decimal(r.stamp.realtime)) + Tail5(r));
    FieldOfLine("realtime_ns", Decimal(r.stamp.realtime), Tail5(r));
  }

  lemma BodyRoundTrip(r: Record)
    ensures DecodeBody(Body(r))
         == if (r.stamp.realtime.Some? ==> r.stamp.realtime.value < U64) && r.pairing < U64
            then Some(r.(stamp := r.stamp.(bootId := Id(Word(r.stamp.bootId)), machineId := Id(Word(r.stamp.machineId))))) else None
  {
    hide DecodeClocks, Hex16, Word, Decimal, Tail5, ParseU64, OneLine, Id, Field;
    var d := Line("rtc_s", Decimal(Rtc(r.stamp.rtc))) + (Line("realtime_ns", Decimal(r.stamp.realtime)) + Tail5(r));
    var c := Line("config", Hex16(r.config)) + d;
    var b := Line("machine_id", Word(r.stamp.machineId)) + c;
    var a := Line("boot_id", Word(r.stamp.bootId)) + b;
    WordIsOneLine(r.stamp.bootId);
    WordIsOneLine(r.stamp.machineId);
    HexIsOneLine(r.config);
    Hex16RoundTrip(r.config);
    FieldOfLine("kind", if r.clean then "clean" else "running", a);
    FieldOfLine("boot_id", Word(r.stamp.bootId), b);
    FieldOfLine("machine_id", Word(r.stamp.machineId), c);
    FieldOfLine("config", Hex16(r.config), d);
    ClocksRoundTrip(r, Id(Word(r.stamp.bootId)), Id(Word(r.stamp.machineId)));
  }

  /** For any checksum and any state text, of however many lines: a record comes back as it was
      written if and only if its ids and its times fit. */
  lemma RoundTrip(r: Record, sum: string -> u64)
    ensures Decode(Encode(r, sum), sum) == Some(r) <==> Fits(r)
  {
    var s := sum(MAGIC + "\n" + Body(r));
    Unwrap(r, sum, s);
    BodyRoundTrip(r);
    WordIsOneLine(r.stamp.bootId);
    WordIsOneLine(r.stamp.machineId);
  }

  lemma StripOwn(prefix: string, rest: string)
    ensures StripPrefix(prefix + rest, prefix) == Some(rest)
  {
    assert (prefix + rest)[|prefix|..] == rest;
  }

  /** A record is read exactly as far as its checksum is that of what follows. */
  lemma DecodesSummed(written: string, body: string, sum: string -> u64)
    requires OneLine(written)
    ensures Decode(MAGIC + "\n" + Line("sum", written) + body, sum)
         == if |written| == 16 && ParseU64(written, 16) == Some(sum(MAGIC + "\n" + body)) then DecodeBody(body) else None
  {
    var head, key := MAGIC + "\n", "sum ";
    var line := written + ['\n'] + body;
    assert head + Line("sum", written) + body == head + (key + line);
    StripOwn(head, key + line);
    StripOwn(key, line);
    SplitAt(written, '\n', body);
  }

  /** So one whose body changed since it was written, and the checksum with it, is refused. */
  lemma ChangedIsRefused(r: Record, body: string, sum: string -> u64)
    requires sum(MAGIC + "\n" + body) != sum(MAGIC + "\n" + Body(r))
    ensures Decode(MAGIC + "\n" + Line("sum", Hex16(sum(MAGIC + "\n" + Body(r)))) + body, sum).None?
  {
    var s := sum(MAGIC + "\n" + Body(r));
    HexIsOneLine(s);
    Hex16RoundTrip(s);
    DecodesSummed(Hex16(s), body, sum);
  }

  lemma Unwrap(r: Record, sum: string -> u64, s: u64)
    requires s == sum(MAGIC + "\n" + Body(r))
    ensures Decode(Encode(r, sum), sum) == DecodeBody(Body(r))
  {
    HexIsOneLine(s);
    Hex16RoundTrip(s);
    DecodesSummed(Hex16(s), Body(r), sum);
    assert Encode(r, sum) == MAGIC + "\n" + Line("sum", Hex16(s)) + Body(r);
  }
}
