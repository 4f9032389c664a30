/** The per-PID decoders: each turns the pruned reply to one mode 01 or mode
    09 request into the value the engine hands back. A reply is a string of
    hex digits, two per data byte; `Byte(data, i)` is data byte `i`. */
module Decoders {
  import opened PyStr

  /** A value in a record: a number or a label. */
  datatype Field = FInt(i: int) | FText(s: string)

  /** What a PID function returns. Python floats are the exact reals here;
      the sentinel strings ("N/A", "!ERROR!", ...) are plain text, as they
      are in Python. */
  datatype Value =
    | Int(i: int)
    | Real(r: real)
    | Reals(rs: set<real>)
    | Text(s: string)
    | Record(fields: map<string, Field>)
    | Codes(codes: map<string, string>)
    | NoneValue

  /** The lookup tables the engine loads when it starts. */
  datatype Tables = Tables(
    fuelSystemStatus: map<string, string>,
    secondaryAirStatus: map<string, string>,
    obdStandards: map<string, string>,
    troubleCodePrefix: map<string, string>,
    troubleCodeDescriptions: map<string, string>,
    pidsMode01: map<string, string>,
    pidsMode05: map<string, string>,
    pidsMode09: map<string, string>)

  // ---------------------------------------------------------------- reading bytes

  /** At most two hex digits denote a number below 256. */
  lemma ShortValue(s: string)
    requires AllHex(s) && |s| <= 2
    ensures HexValue(s) < 256
  {
    HexValueBound(s);
    Pow2Monotone(4 * |s|, 8);
    assert Pow2(8) == 256;
  }

  /** `int(data[2*i:2*i+2], 16)`: data byte `i`. A missing byte is an empty
      slice, which `int` rejects; a byte cut short at the end of the reply
      is a single digit, which it accepts. */
  function Byte(data: string, i: nat): (r: Py<nat>)
    ensures r.Ok? <==> 2 * i < |data| && AllHex(Slice(data, 2 * i, 2 * i + 2))
    ensures r.Ok? ==> r.value < 256
    ensures r.Raise? ==> r.error == ValueError
  {
    var s := Slice(data, 2 * i, 2 * i + 2);
    if s != [] && AllHex(s) then
      ShortValue(s);
      Ok(HexValue(s))
    else Raise(ValueError)
  }

  /** `int(data, 16)`: the whole reply as one number. */
  function Whole(data: string): (r: Py<nat>)
    ensures r.Ok? <==> data != [] && AllHex(data)
    ensures r.Ok? && |data| <= 2 ==> r.value < 256
    ensures r.Raise? ==> r.error == ValueError
  {
    if data != [] && AllHex(data) then
      if |data| <= 2 then
        ShortValue(data);
        Ok(HexValue(data))
      else Ok(HexValue(data))
    else Raise(ValueError)
  }

  // ---------------------------------------------------------------- the ECU's encoding

  /** A reply as the ECU sends it: each data byte as two upper-case hex digits. */
  function Encode(bs: seq<byte>): (s: string)
    ensures |s| == 2 * |bs| && AllHex(s)
  {
    if bs == [] then "" else Encode(bs[..|bs| - 1]) + Hex2(bs[|bs| - 1] as nat)
  }

  /** The data bytes as one big-endian number. */
  function BigEndian(bs: seq<byte>): nat
  {
    if bs == [] then 0 else 256 * BigEndian(bs[..|bs| - 1]) + bs[|bs| - 1] as nat
  }

  lemma {:induction false} HexValueAppend(s: string, t: string)
    requires AllHex(s) && AllHex(t)
    ensures AllHex(s + t)
    ensures HexValue(s + t) == HexValue(s) * Pow2(4 * |t|) + HexValue(t)
    decreases |t|
  {
    if t == [] {
      assert s + t == s;
    } else {
      var t' := t[..|t| - 1];
      var st := s + t;
      assert st[..|st| - 1] == s + t';
      assert st[|st| - 1] == t[|t| - 1];
      HexValueAppend(s, t');
      var p := Pow2(4 * |t'|);
      Pow2Add(4 * |t'|, 4);
      assert Pow2(4) == 16;
      assert Pow2(4 * |t|) == p * 16;
      Shift16(HexValue(s), p, HexValue(t'), HexDigitValue(t[|t| - 1]));
    }
  }

  /** Shifting `x * p + y` one hex digit to the left. */
  lemma Shift16(x: nat, p: nat, y: nat, d: nat)
    ensures 16 * (x * p + y) + d == x * (p * 16) + (16 * y + d)
  {
  }

  lemma HexValueOfHex2(n: nat)
    ensures HexValue(Hex2(n)) == n
  {
    ParseHex2(n);
  }

  /** Reading an encoded reply as one number gives its bytes, big-endian. */
  lemma {:induction false} WholeOfEncoded(bs: seq<byte>)
    ensures HexValue(Encode(bs)) == BigEndian(bs)
  {
    if bs != [] {
      var init := bs[..|bs| - 1];
      var last := bs[|bs| - 1] as nat;
      var e := Encode(init);
      var h := Hex2(last);
      assert Encode(bs) == e + h;
      WholeOfEncoded(init);
      HexValueAppend(e, h);
      HexValueOfHex2(last);
      assert Pow2(8) == 256;
      assert HexValue(e + h) == HexValue(e) * 256 + last;
    }
  }

  lemma {:induction false} SliceOfEncoded(bs: seq<byte>, i: nat)
    requires i < |bs|
    ensures Slice(Encode(bs), 2 * i, 2 * i + 2) == Hex2(bs[i] as nat)
  {
    var init := bs[..|bs| - 1];
    var last := Hex2(bs[|bs| - 1] as nat);
    assert Encode(bs) == Encode(init) + last;
    if i < |bs| - 1 {
      SliceOfEncoded(init, i);
      SliceInFront(Encode(init), last, 2 * i, 2 * i + 2);
    } else {
      SliceAtEnd(Encode(init), last);
    }
  }

  lemma SliceInFront(x: string, y: string, lo: nat, hi: nat)
    requires lo <= hi <= |x|
    ensures (x + y)[lo..hi] == x[lo..hi]
  {
  }

  lemma SliceAtEnd(x: string, y: string)
    ensures (x + y)[|x|..|x| + |y|] == y
  {
  }

  /** Byte `i` of an encoded reply is data byte `i`. */
  lemma ByteOfEncoded(bs: seq<byte>, i: nat)
    requires i < |bs|
    ensures Byte(Encode(bs), i) == Ok(bs[i] as nat)
  {
    SliceOfEncoded(bs, i);
    ParseHex2(bs[i] as nat);
  }

  lemma {:induction false} EncodeCons(b: byte, bs: seq<byte>)
    ensures Encode([b] + bs) == Hex2(b as nat) + Encode(bs)
    decreases |bs|
  {
    if bs == [] {
      assert [b] + bs == [b];
      assert [b][..0] == [];
    } else {
      var bs' := bs[..|bs| - 1];
      var cs := [b] + bs;
      assert cs[..|cs| - 1] == [b] + bs';
      assert cs[|cs| - 1] == bs[|bs| - 1];
      EncodeCons(b, bs');
    }
  }

  /** `bytearray.fromhex` recovers the bytes of an encoded reply. */
  lemma {:induction false} FromHexOfEncoded(bs: seq<byte>)
    ensures FromHex(Encode(bs)) == Ok(bs)
    decreases |bs|
  {
    if bs != [] {
      assert bs == [bs[0]] + bs[1..];
      FirstByteOfEncoded(bs[0], bs[1..]);
      FromHexOfEncoded(bs[1..]);
    }
  }

  /** Bytes printed as the adapter does when spaces are on: each byte as two
      hex digits followed by a space. */
  function SpaceSeparated(bs: seq<byte>): string
  {
    if bs == [] then "" else Hex2(bs[0] as nat) + " " + SpaceSeparated(bs[1..])
  }

  /** `bytearray.fromhex` skips the spaces between pairs, so a reply printed
      with spaces gives the same bytes as one printed without. */
  lemma {:induction false} FromHexSpaceSeparated(bs: seq<byte>)
    ensures FromHex(SpaceSeparated(bs)) == Ok(bs)
    decreases |bs|
  {
    if bs != [] {
      var h := Hex2(bs[0] as nat);
      var rest := SpaceSeparated(bs[1..]);
      DigitsOfHex2(bs[0]);
      assert h + " " + rest == [h[0], h[1], ' '] + rest;
      FromHexPairThenSpace(h[0], h[1], rest);
      FromHexSpaceSeparated(bs[1..]);
      assert bs == [bs[0]] + bs[1..];
    }
  }

  /** The two digits of a byte's hex text read back as that byte. */
  lemma DigitsOfHex2(b: byte)
    ensures var h := Hex2(b as nat);
            && |h| == 2 && IsHexDigit(h[0]) && IsHexDigit(h[1])
            && 16 * HexDigitValue(h[0]) + HexDigitValue(h[1]) == b as nat
  {
    var h := Hex2(b as nat);
    HexValueOfHex2(b as nat);
    assert h[..1] == [h[0]];
    assert HexValue(h) == 16 * HexValue(h[..1]) + HexDigitValue(h[1]);
    assert HexValue(h[..1]) == HexDigitValue(h[0]);
  }

  /** One step of `fromhex` over a pair of hex digits and a space. */
  lemma FromHexPairThenSpace(a: char, b: char, rest: string)
    requires IsHexDigit(a) && IsHexDigit(b)
    ensures FromHex([a, b, ' '] + rest) ==
      match FromHex(rest)
      case Raise(e) => Raise(e)
      case Ok(t) => Ok([(16 * HexDigitValue(a) + HexDigitValue(b)) as byte] + t)
  {
    var s := [a, b, ' '] + rest;
    assert s[2..] == [' '] + rest;
    assert s[2..][1..] == rest;
  }

  /** The first two digits of an encoded reply are its first byte. */
  lemma FirstByteOfEncoded(b: byte, rest: seq<byte>)
    ensures var s := Encode([b] + rest);
            && |s| >= 2 && IsHexDigit(s[0]) && IsHexDigit(s[1])
            && 16 * HexDigitValue(s[0]) + HexDigitValue(s[1]) == b as nat
            && s[2..] == Encode(rest)
  {
    EncodeCons(b, rest);
    var h := Hex2(b as nat);
    var s := Encode([b] + rest);
    assert s[0] == h[0] && s[1] == h[1];
    HexValueOfHex2(b as nat);
    assert h[..1] == [h[0]];
    assert HexValue(h) == 16 * HexValue(h[..1]) + HexDigitValue(h[1]);
    assert HexValue(h[..1]) == HexDigitValue(h[0]);
  }

  // ---------------------------------------------------------------- numeric decoders

  /** PID0104, calculated engine load: `100 * A / 255` percent, A being the whole reply. */
  function DecodeLoad(data: string): (r: Py<Value>)
    ensures r.Ok? <==> data != [] && AllHex(data)
    ensures r.Ok? ==> r.value.Real? && 0.0 <= r.value.r
    ensures r.Ok? && |data| <= 2 ==> r.value.r <= 100.0
  {
    var x :- Whole(data);
    Ok(Real(100.0 * x as real / 255.0))
  }

  /** PID0105, engine coolant temperature: `A - 40` degrees C, A being the whole reply. */
  function DecodeCoolant(data: string): (r: Py<Value>)
    ensures r.Ok? <==> data != [] && AllHex(data)
    ensures r.Ok? ==> r.value.Int? && -40 <= r.value.i
    ensures r.Ok? && |data| <= 2 ==> r.value.i < 216
  {
    var x :- Whole(data);
    Ok(Int(x - 40))
  }

  /** PID0106 to PID0109, fuel trims: `100 * A / 128 - 100` percent, A being the whole reply. */
  function DecodeFuelTrim(data: string): (r: Py<Value>)
    ensures r.Ok? <==> data != [] && AllHex(data)
    ensures r.Ok? ==> r.value.Real? && -100.0 <= r.value.r
    ensures r.Ok? && |data| <= 2 ==> r.value.r < 100.0
  {
    var x :- Whole(data);
    Ok(Real(100.0 * x as real / 128.0 - 100.0))
  }

  /** PID010A, fuel gauge pressure: `3 * A` kPa, A being the whole reply. */
  function DecodeFuelPressure(data: string): (r: Py<Value>)
    ensures r.Ok? <==> data != [] && AllHex(data)
    ensures r.Ok? ==> r.value.Int? && 0 <= r.value.i && r.value.i % 3 == 0
    ensures r.Ok? && |data| <= 2 ==> r.value.i <= 765
  {
    var x :- Whole(data);
    Ok(Int(3 * x))
  }

  /** PID010B (intake manifold pressure, kPa) and the mode 09 message
      counts 0901, 0903, 0905, 0907 and 0909: the whole reply as a number. */
  function DecodeNumber(data: string): (r: Py<Value>)
    ensures r.Ok? <==> data != [] && AllHex(data)
    ensures r.Ok? ==> r.value.Int? && 0 <= r.value.i
    ensures r.Ok? && |data| <= 2 ==> r.value.i < 256
  {
    var x :- Whole(data);
    Ok(Int(x))
  }

  /** PID010C, engine speed: `(256 * A + B) / 4` rpm. */
  function DecodeRpm(data: string): (r: Py<Value>)
    ensures r.Ok? <==> Byte(data, 0).Ok? && Byte(data, 1).Ok?
    ensures r.Ok? ==> r.value.Real? && 0.0 <= r.value.r < 16384.0
  {
    var a :- Byte(data, 0);
    var b :- Byte(data, 1);
    Ok(Real((256 * a + b) as real / 4.0))
  }

  /** PID010D, vehicle speed: A km/h; the rest of the reply is ignored. */
  function DecodeSpeed(data: string): (r: Py<Value>)
    ensures r.Ok? <==> Byte(data, 0).Ok?
    ensures r.Ok? ==> r.value.Int? && 0 <= r.value.i < 256
  {
    var a :- Byte(data, 0);
    Ok(Int(a))
  }

  /** PID010E, timing advance: `A / 2 - 64` degrees before TDC. */
  function DecodeTimingAdvance(data: string): (r: Py<Value>)
    ensures r.Ok? <==> Byte(data, 0).Ok?
    ensures r.Ok? ==> r.value.Real? && -64.0 <= r.value.r < 64.0
  {
    var a :- Byte(data, 0);
    Ok(Real(a as real / 2.0 - 64.0))
  }

  /** PID010F, intake air temperature: `A - 40` degrees C. */
  function DecodeIntakeAir(data: string): (r: Py<Value>)
    ensures r.Ok? <==> Byte(data, 0).Ok?
    ensures r.Ok? ==> r.value.Int? && -40 <= r.value.i < 216
  {
    var a :- Byte(data, 0);
    Ok(Int(a - 40))
  }

  /** PID0110, mass air flow rate: `(256 * A + B) / 100` g/s. */
  function DecodeAirFlow(data: string): (r: Py<Value>)
    ensures r.Ok? <==> Byte(data, 0).Ok? && Byte(data, 1).Ok?
    ensures r.Ok? ==> r.value.Real? && 0.0 <= r.value.r < 655.36
  {
    var a :- Byte(data, 0);
    var b :- Byte(data, 1);
    Ok(Real((256 * a + b) as real / 100.0))
  }

  /** PID0111, throttle position: `100 * A / 255` percent. */
  function DecodeThrottle(data: string): (r: Py<Value>)
    ensures r.Ok? <==> Byte(data, 0).Ok?
    ensures r.Ok? ==> r.value.Real? && 0.0 <= r.value.r <= 100.0
  {
    var a :- Byte(data, 0);
    Ok(Real(100.0 * a as real / 255.0))
  }

  /** PID0113, oxygen sensors present: bank 1 in the low nibble of A, bank 2
      in the high nibble (`(A & 0xF0) >> 4`, which is `A / 16` for a byte). */
  function DecodeSensorsPresent(data: string): (r: Py<Value>)
    ensures r.Ok? <==> Byte(data, 0).Ok?
    ensures r.Ok? ==> r.value.Record? && r.value.fields.Keys == {"BANK1", "BANK2"}
    ensures r.Ok? ==> var f := r.value.fields;
                      && f["BANK1"].FInt? && f["BANK2"].FInt?
                      && 0 <= f["BANK1"].i < 16 && 0 <= f["BANK2"].i < 16
                      && 16 * f["BANK2"].i + f["BANK1"].i == Byte(data, 0).value
  {
    var a :- Byte(data, 0);
    Ok(Record(map["BANK1" := FInt(a % 16), "BANK2" := FInt(a / 16)]))
  }

  /** PID0114 to PID011B, oxygen sensor: the Python set `{A / 200, 100 * B / 128 - 100}`
      of the sensor voltage and its short-term fuel trim. */
  function DecodeOxygenSensor(data: string): (r: Py<Value>)
    ensures r.Ok? <==> Byte(data, 0).Ok? && Byte(data, 1).Ok?
    ensures r.Ok? ==> r.value.Reals? && 1 <= |r.value.rs| <= 2
  {
    var a :- Byte(data, 0);
    var b :- Byte(data, 1);
    var voltage := a as real / 200.0;
    var trim := 100.0 * b as real / 128.0 - 100.0;
    assert |{voltage, trim}| == if voltage == trim then 1 else 2;
    Ok(Reals({voltage, trim}))
  }

  /** PID0121, distance travelled with the MIL on: `256 * A + B` km. */
  function DecodeDistance(data: string): (r: Py<Value>)
    ensures r.Ok? <==> Byte(data, 0).Ok? && Byte(data, 1).Ok?
    ensures r.Ok? ==> r.value.Int? && 0 <= r.value.i < 65536
  {
    var a :- Byte(data, 0);
    var b :- Byte(data, 1);
    Ok(Int(256 * a + b))
  }

  // ---------------------------------------------------------------- round trips

  /** A coolant temperature the ECU encodes as one byte reads back as itself. */
  lemma CoolantRoundTrip(celsius: int)
    requires -40 <= celsius < 216
    ensures DecodeCoolant(Encode([(celsius + 40) as byte])) == Ok(Int(celsius))
  {
    var bs := [(celsius + 40) as byte];
    WholeOfEncoded(bs);
    assert bs[..0] == [];
  }

  /** The whole-reply decoders read every digit: a reply of several bytes (two
      ECUs answering, say) is one big number, not its first byte. */
  lemma CoolantReadsWholeReply(bs: seq<byte>)
    requires bs != []
    ensures DecodeCoolant(Encode(bs)) == Ok(Int(BigEndian(bs) - 40))
  {
    WholeOfEncoded(bs);
  }

  /** A fuel pressure that is a multiple of 3 kPa below 768 reads back as itself. */
  lemma FuelPressureRoundTrip(kpa: nat)
    requires kpa % 3 == 0 && kpa < 768
    ensures DecodeFuelPressure(Encode([(kpa / 3) as byte])) == Ok(Int(kpa))
  {
    var bs := [(kpa / 3) as byte];
    WholeOfEncoded(bs);
    assert bs[..0] == [];
  }

  /** A one-byte manifold pressure (or message count) reads back as itself. */
  lemma NumberRoundTrip(n: byte)
    ensures DecodeNumber(Encode([n])) == Ok(Int(n as int))
  {
    WholeOfEncoded([n]);
    assert [n][..0] == [];
  }

  /** A one-byte engine load reads back as `100 * A / 255` percent. */
  lemma LoadRoundTrip(a: byte)
    ensures DecodeLoad(Encode([a])) == Ok(Real(100.0 * a as real / 255.0))
  {
    WholeOfEncoded([a]);
    assert [a][..0] == [];
  }

  /** A one-byte fuel trim reads back as `100 * A / 128 - 100` percent. */
  lemma FuelTrimRoundTrip(a: byte)
    ensures DecodeFuelTrim(Encode([a])) == Ok(Real(100.0 * a as real / 128.0 - 100.0))
  {
    WholeOfEncoded([a]);
    assert [a][..0] == [];
  }

  /** Engine speed in quarter revolutions per minute, as two bytes, reads
      back as itself; bytes after the second are ignored. */
  lemma RpmRoundTrip(quarters: nat, rest: seq<byte>)
    requires quarters < 65536
    ensures DecodeRpm(Encode([(quarters / 256) as byte, (quarters % 256) as byte] + rest)) == Ok(Real(quarters as real / 4.0))
  {
    var bs := [(quarters / 256) as byte, (quarters % 256) as byte] + rest;
    ByteOfEncoded(bs, 0);
    ByteOfEncoded(bs, 1);
  }

  /** The speed byte reads back as itself; bytes after it are ignored. */
  lemma SpeedRoundTrip(kmh: byte, rest: seq<byte>)
    ensures DecodeSpeed(Encode([kmh] + rest)) == Ok(Int(kmh as int))
  {
    ByteOfEncoded([kmh] + rest, 0);
  }

  /** The throttle byte reads back as `100 * A / 255` percent; bytes after
      it are ignored. */
  lemma ThrottleRoundTrip(a: byte, rest: seq<byte>)
    ensures DecodeThrottle(Encode([a] + rest)) == Ok(Real(100.0 * a as real / 255.0))
  {
    ByteOfEncoded([a] + rest, 0);
  }

  /** An intake air temperature encoded as `t + 40` reads back as `t`. */
  lemma IntakeAirRoundTrip(celsius: int, rest: seq<byte>)
    requires -40 <= celsius < 216
    ensures DecodeIntakeAir(Encode([(celsius + 40) as byte] + rest)) == Ok(Int(celsius))
  {
    ByteOfEncoded([(celsius + 40) as byte] + rest, 0);
  }

  /** A timing advance in half degrees, offset by 128, reads back in degrees. */
  lemma TimingAdvanceRoundTrip(halfDegrees: int, rest: seq<byte>)
    requires -128 <= halfDegrees < 128
    ensures DecodeTimingAdvance(Encode([(halfDegrees + 128) as byte] + rest)) == Ok(Real(halfDegrees as real / 2.0))
  {
    ByteOfEncoded([(halfDegrees + 128) as byte] + rest, 0);
  }

  /** An air flow in hundredths of g/s, as two bytes, reads back as itself. */
  lemma AirFlowRoundTrip(hundredths: nat, rest: seq<byte>)
    requires hundredths < 65536
    ensures DecodeAirFlow(Encode([(hundredths / 256) as byte, (hundredths % 256) as byte] + rest)) == Ok(Real(hundredths as real / 100.0))
  {
    var bs := [(hundredths / 256) as byte, (hundredths % 256) as byte] + rest;
    ByteOfEncoded(bs, 0);
    ByteOfEncoded(bs, 1);
  }

  /** A distance in km, as two bytes, reads back as itself. */
  lemma DistanceRoundTrip(km: nat, rest: seq<byte>)
    requires km < 65536
    ensures DecodeDistance(Encode([(km / 256) as byte, (km % 256) as byte] + rest)) == Ok(Int(km))
  {
    var bs := [(km / 256) as byte, (km % 256) as byte] + rest;
    ByteOfEncoded(bs, 0);
    ByteOfEncoded(bs, 1);
  }

  /** The two sensor counts packed into one byte come back out, one per bank. */
  lemma SensorsPresentRoundTrip(bank1: nat, bank2: nat, rest: seq<byte>)
    requires bank1 < 16 && bank2 < 16
    ensures DecodeSensorsPresent(Encode([(16 * bank2 + bank1) as byte] + rest))
            == Ok(Record(map["BANK1" := FInt(bank1), "BANK2" := FInt(bank2)]))
  {
    ByteOfEncoded([(16 * bank2 + bank1) as byte] + rest, 0);
  }

  /** PID0114-011B: the first byte is the sensor voltage `A/200` and the
      second the short-term fuel trim `100 * B/128 - 100`, whatever follows. */
  lemma OxygenSensorRoundTrip(a: byte, b: byte, rest: seq<byte>)
    ensures DecodeOxygenSensor(Encode([a, b] + rest)) ==
            Ok(Reals({a as real / 200.0, 100.0 * b as real / 128.0 - 100.0}))
  {
    ByteOfEncoded([a, b] + rest, 0);
    ByteOfEncoded([a, b] + rest, 1);
  }

  /** The Python set literal collapses when the voltage equals the trim,
      which happens for exactly one pair of bytes: A = 0 and B = 128. */
  lemma OxygenSensorCollapses(a: byte, b: byte, rest: seq<byte>)
    ensures var r := DecodeOxygenSensor(Encode([a, b] + rest));
            r.Ok? && (|r.value.rs| == 1 <==> a == 0 && b == 128)
  {
    var bs := [a, b] + rest;
    ByteOfEncoded(bs, 0);
    ByteOfEncoded(bs, 1);
    var voltage := a as real / 200.0;
    var trim := 100.0 * b as real / 128.0 - 100.0;
    if voltage == trim {
      SameReadingOnlyAtZero(a as int, b as int);
    }
  }

  lemma SameReadingOnlyAtZero(a: int, b: int)
    requires 0 <= a < 256 && 0 <= b < 256
    requires a as real / 200.0 == 100.0 * b as real / 128.0 - 100.0
    ensures a == 0 && b == 128
  {
    assert 625 * (b - 128) == 4 * a;
    assert b - 128 == 4 * (a - 156 * (b - 128));
    assert 0 <= b - 128 < 4;
  }

  // ---------------------------------------------------------------- lookups

  /** PID0103, fuel system status: bytes A and B (as text) looked up in the
      fuel-system table. A code missing from the table reaches an undefined
      name in the source and raises NameError. */
  function DecodeFuelSystem(data: string, table: map<string, string>): (r: Py<Value>)
    ensures r.Ok? <==> Slice(data, 0, 2) in table && Slice(data, 2, 4) in table
    ensures r.Raise? ==> r.error == NameError
    ensures r.Ok? ==> r.value.Record? && r.value.fields.Keys == {"Fuel System 1", "Fuel System 2"}
  {
    var first := Slice(data, 0, 2);
    var second := Slice(data, 2, 4);
    if first !in table then Raise(NameError)
    else if second !in table then Raise(NameError)
    else Ok(Record(map["Fuel System 1" := FText(table[first]), "Fuel System 2" := FText(table[second])]))
  }

  /** PID0112 (commanded secondary air status) and PID011C (OBD standards):
      the whole reply looked up in a table; a miss raises NameError. */
  function DecodeLookup(data: string, table: map<string, string>): (r: Py<Value>)
    ensures r.Ok? <==> data in table
    ensures r.Raise? ==> r.error == NameError
    ensures r.Ok? ==> r.value == Text(table[data])
  {
    if data in table then Ok(Text(table[data])) else Raise(NameError)
  }

  /** The fuel-system status of both systems, encoded as one byte each. */
  lemma FuelSystemOfEncoded(s1: byte, s2: byte, rest: seq<byte>, table: map<string, string>)
    ensures var r := DecodeFuelSystem(Encode([s1, s2] + rest), table);
            && (r.Ok? <==> Hex2(s1 as nat) in table && Hex2(s2 as nat) in table)
            && (r.Ok? ==> r.value.fields == map["Fuel System 1" := FText(table[Hex2(s1 as nat)]),
                                                "Fuel System 2" := FText(table[Hex2(s2 as nat)])])
  {
    SliceOfEncoded([s1, s2] + rest, 0);
    SliceOfEncoded([s1, s2] + rest, 1);
  }

  // ---------------------------------------------------------------- text

  /** `bytearray.replace(b'\x00', b' ')`: every zero byte becomes a space. */
  function Blank(bytes: seq<byte>): seq<byte>
  {
    seq(|bytes|, k requires 0 <= k < |bytes| => if bytes[k] == 0 then 0x20 else bytes[k])
  }

  /** PID0902, PID0904 and PID090A (VIN, calibration ID, ECU name): the
      reply as bytes, zero padding turned into spaces, decoded as text. */
  function DecodeText(data: string): (r: Py<Value>)
    ensures r.Raise? ==> r.error == ValueError || r.error == UnicodeDecodeError
    ensures r.Ok? ==> r.value.Text? && |r.value.s| <= |data| / 2
    ensures r.Ok? && AllHex(data) ==> |r.value.s| == |data| / 2
    ensures r.Ok? ==> forall k :: 0 <= k < |r.value.s| ==> r.value.s[k] != 0 as char
  {
    var bytes :- FromHex(data);
    var text :- DecodeAscii(Blank(bytes));
    Ok(Text(text))
  }

  /** The text an ASCII reply stands for, zero padding read as spaces. */
  function Spaced(bs: seq<byte>): string
  {
    seq(|bs|, k requires 0 <= k < |bs| => if bs[k] == 0 then ' ' else bs[k] as int as char)
  }

  /** Text the ECU sends as ASCII bytes, padded with zeros, reads back with
      the padding as spaces. */
  lemma TextRoundTrip(bs: seq<byte>)
    requires forall k :: 0 <= k < |bs| ==> bs[k] < 128
    ensures DecodeText(Encode(bs)) == Ok(Text(Spaced(bs)))
  {
    FromHexOfEncoded(bs);
    BlankedAscii(bs);
  }

  /** Vehicle text printed with spaces between the bytes decodes to the same
      text as without. */
  lemma SpacedTextRoundTrip(bs: seq<byte>)
    requires forall k :: 0 <= k < |bs| ==> bs[k] < 128
    ensures DecodeText(SpaceSeparated(bs)) == Ok(Text(Spaced(bs)))
  {
    FromHexSpaceSeparated(bs);
    BlankedAscii(bs);
  }

  lemma BlankedAscii(bs: seq<byte>)
    requires forall k :: 0 <= k < |bs| ==> bs[k] < 128
    ensures DecodeAscii(Blank(bs)) == Ok(Spaced(bs))
  {
    var blank := Blank(bs);
    assert forall k :: 0 <= k < |blank| ==> blank[k] < 128;
    var text := DecodeAscii(blank).value;
    forall k | 0 <= k < |bs|
      ensures text[k] == Spaced(bs)[k]
    {
      assert text[k] == AsciiChar(blank[k]);
    }
    assert text == Spaced(bs);
  }

  // ---------------------------------------------------------------- monitor status

  /** The tests every vehicle reports, in byte B (available in bits 0-2,
      incomplete in bits 4-6). */
  const CommonTests: seq<string> := ["MISSFIRE", "FUEL SYSTEM", "COMPONENTS"]

  /** The tests of a compression-ignition engine, bits 0-7 of bytes C and D. */
  const CompressionTests: seq<string> := ["NMHC CATALYST", "NOx/SCR MONITOR", "Reserved 1", "BOOST PRESSURE",
                                          "Reserved 2", "EXHAUST GAS SENSOR", "PM FILTER MONITORING", "EGR/VVT SYSTEM"]

  /** The tests of a spark-ignition engine, bits 0-7 of bytes C and D. */
  const SparkTests: seq<string> := ["CATALYST", "HEATED CATALYST", "EVAPORATIVE SYSTEM", "SECONDARY AIR SYSTEM",
                                    "A/C REFRIGERANT", "OXYGEN SENSOR", "OXYGEN SENSOR HEATER", "EGR SYSTEM"]

  const Incomplete := " [INCOMPLETE]"

  /** The test family bit 3 of byte B selects. */
  function Family(b: nat): seq<string>
  {
    if Bit(b, 3) then CompressionTests else SparkTests
  }

  /** `d[key] += suffix` on a dictionary: KeyError when the key is absent,
      TypeError when its value is a number. */
  function AppendTo(d: map<string, Field>, key: string, suffix: string): (r: Py<map<string, Field>>)
    ensures r.Ok? <==> key in d && d[key].FText?
    ensures r.Raise? ==> r.error == (if key in d then TypeError else KeyError)
    ensures r.Ok? ==> r.value.Keys == d.Keys && r.value[key] == FText(d[key].s + suffix)
    ensures r.Ok? ==> forall k :: k in d && k != key ==> r.value[k] == d[k]
  {
    if key !in d then Raise(KeyError)
    else match d[key]
      case FInt(_) => Raise(TypeError)
      case FText(s) => Ok(d[key := FText(s + suffix)])
  }

  /** One test, as the source writes it: "TEST" when its available bit is
      set, then " [INCOMPLETE]" appended when its incomplete bit is set. */
  function TestStep(d: map<string, Field>, name: string, available: bool, incomplete: bool): Py<map<string, Field>>
  {
    var d' := if available then d[name := FText("TEST")] else d;
    if incomplete then AppendTo(d', name, Incomplete) else Ok(d')
  }

  /** The two conditional statements of one test. */
  method RecordTest(d: map<string, Field>, name: string, available: bool, incomplete: bool) returns (r: Py<map<string, Field>>)
    ensures r == TestStep(d, name, available, incomplete)
  {
    var result := d;
    if available {
      result := result[name := FText("TEST")];
    }
    if incomplete {
      r := AppendTo(result, name, Incomplete);
      return;
    }
    r := Ok(result);
  }

  /** The tests `names[i..]` in order: test `j` is available when bit `j` of
      `avail` is set and incomplete when bit `j + shift` of `incomplete` is. */
  function RunTests(d: map<string, Field>, names: seq<string>, avail: nat, incomplete: nat, shift: nat, i: nat): Py<map<string, Field>>
    decreases |names| - i
  {
    if i >= |names| then Ok(d)
    else
      var d' :- TestStep(d, names[i], Bit(avail, i), Bit(incomplete, i + shift));
      RunTests(d', names, avail, incomplete, shift, i + 1)
  }

  predicate Distinct(names: seq<string>)
  {
    forall i, j :: 0 <= i < j < |names| ==> names[i] != names[j]
  }

  /** Some test from `i` on is marked incomplete but not available. */
  predicate Orphan(names: seq<string>, avail: nat, incomplete: nat, shift: nat, i: nat)
  {
    exists j :: i <= j < |names| && !Bit(avail, j) && Bit(incomplete, j + shift)
  }

  /** The status text of an available test. */
  function Status(incomplete: bool): Field
  {
    FText(if incomplete then "TEST" + Incomplete else "TEST")
  }

  /** The record entries of the tests from `i` on, one test at a time
      without KeyError: an available test is recorded with its status. */
  function Tests(names: seq<string>, avail: nat, incomplete: nat, shift: nat, i: nat): map<string, Field>
    decreases |names| - i
  {
    if i >= |names| then map[]
    else if Bit(avail, i) then Tests(names, avail, incomplete, shift, i + 1)[names[i] := Status(Bit(incomplete, i + shift))]
    else Tests(names, avail, incomplete, shift, i + 1)
  }

  /** The reference reading of the tests: a label is present exactly when
      its test is available, and says "[INCOMPLETE]" exactly when the test
      is also incomplete; nothing else is recorded. */
  lemma {:induction false} TestsLabels(names: seq<string>, avail: nat, incomplete: nat, shift: nat, i: nat)
    requires Distinct(names) && i <= |names|
    ensures forall j :: i <= j < |names| ==> (names[j] in Tests(names, avail, incomplete, shift, i) <==> Bit(avail, j))
    ensures forall j :: i <= j < |names| && Bit(avail, j) ==>
              Tests(names, avail, incomplete, shift, i)[names[j]] == Status(Bit(incomplete, j + shift))
    ensures forall k :: k in Tests(names, avail, incomplete, shift, i) ==> k in names[i..]
    ensures forall j :: 0 <= j < i ==> names[j] !in Tests(names, avail, incomplete, shift, i)
    decreases |names| - i
  {
    if i < |names| {
      TestsLabels(names, avail, incomplete, shift, i + 1);
      var t := Tests(names, avail, incomplete, shift, i);
      var t' := Tests(names, avail, incomplete, shift, i + 1);
      assert names[i..] == [names[i]] + names[i + 1..];
      forall j | i + 1 <= j < |names|
        ensures (names[j] in t <==> names[j] in t') && (names[j] in t' ==> t[names[j]] == t'[names[j]])
      {
        assert names[j] != names[i];
      }
      forall j | 0 <= j < i
        ensures names[j] !in t
      {
        assert names[j] != names[i];
      }
    }
  }

  lemma OrphanStep(names: seq<string>, avail: nat, incomplete: nat, shift: nat, i: nat)
    requires i < |names|
    ensures Orphan(names, avail, incomplete, shift, i)
            <==> (!Bit(avail, i) && Bit(incomplete, i + shift)) || Orphan(names, avail, incomplete, shift, i + 1)
  {
    if Orphan(names, avail, incomplete, shift, i) && !(!Bit(avail, i) && Bit(incomplete, i + shift)) {
      var j :| i <= j < |names| && !Bit(avail, j) && Bit(incomplete, j + shift);
      assert i + 1 <= j;
    }
  }

  /** Running the tests one after the other, as the source does, adds the
      reference reading to the record, or raises KeyError exactly when a
      test is marked incomplete without being available. */
  lemma {:induction false} RunTestsReference(d: map<string, Field>, names: seq<string>, avail: nat, incomplete: nat, shift: nat, i: nat)
    requires Distinct(names) && i <= |names|
    requires forall j :: i <= j < |names| ==> names[j] !in d
    ensures RunTests(d, names, avail, incomplete, shift, i)
            == if Orphan(names, avail, incomplete, shift, i) then Raise(KeyError)
               else Ok(d + Tests(names, avail, incomplete, shift, i))
    decreases |names| - i
  {
    if i == |names| {
      assert Tests(names, avail, incomplete, shift, i) == map[];
      assert d + map[] == d;
    } else {
      TestsLabels(names, avail, incomplete, shift, i + 1);
      OrphanStep(names, avail, incomplete, shift, i);
      var name := names[i];
      assert name !in d;
      var t' := Tests(names, avail, incomplete, shift, i + 1);
      var av := Bit(avail, i);
      var inc := Bit(incomplete, i + shift);
      TestStepReference(d, name, av, inc);
      if !(!av && inc) {
        var d' := if av then d[name := Status(inc)] else d;
        forall j | i + 1 <= j < |names|
          ensures names[j] !in d'
        {
          assert names[j] != name;
        }
        RunTestsReference(d', names, avail, incomplete, shift, i + 1);
        if av {
          UpdateThenMerge(d, t', name, Status(inc));
        }
      }
    }
  }

  /** One test on a record that does not hold its label yet. */
  lemma TestStepReference(d: map<string, Field>, name: string, available: bool, incomplete: bool)
    requires name !in d
    ensures TestStep(d, name, available, incomplete)
            == if !available && incomplete then Raise(KeyError)
               else Ok(if available then d[name := Status(incomplete)] else d)
  {
    if available && incomplete {
      var marked := d[name := FText("TEST")];
      assert AppendTo(marked, name, Incomplete) == Ok(marked[name := FText("TEST" + Incomplete)]);
      assert marked[name := FText("TEST" + Incomplete)] == d[name := Status(incomplete)];
    }
  }

  /** The labels of the record never clash. */
  lemma LabelsDistinct()
    ensures Distinct(CommonTests) && Distinct(CompressionTests) && Distinct(SparkTests)
    ensures forall n :: n in CommonTests ==> n != "MIL" && n != "TROUBLE CODE COUNT" && n != "IGNITION"
    ensures forall n :: n in CompressionTests || n in SparkTests ==>
              n !in CommonTests && n != "MIL" && n != "TROUBLE CODE COUNT" && n != "IGNITION"
  {
  }

  /** The header of the record: the MIL, the trouble-code count and the ignition type. */
  function Header(a: nat, b: nat): map<string, Field>
  {
    map["MIL" := FText(if Bit(a, 7) then "ON" else "OFF"),
        "TROUBLE CODE COUNT" := FInt(a % 128),
        "IGNITION" := FText(if Bit(b, 3) then "COMPRESSION" else "SPARK")]
  }

  /** The record PID0101 builds, by the reference reading of its four bytes. */
  function MonitorRecord(a: nat, b: nat, c: nat, d: nat): map<string, Field>
  {
    Header(a, b) + Tests(CommonTests, b, b, 4, 0) + Tests(Family(b), c, d, 0, 0)
  }

  /** PID0101, monitor status since the trouble codes were cleared, step by
      step as the source builds its dictionary. */
  function MonitorStatusOf(data: string): Py<Value>
  {
    var a :- Byte(data, 0);
    var b :- Byte(data, 1);
    var common :- RunTests(Counts(a), CommonTests, b, b, 4, 0);
    var withIgnition := common["IGNITION" := Ignition(b)];
    var c :- Byte(data, 2);
    var d :- Byte(data, 3);
    var all :- RunTests(withIgnition, Family(b), c, d, 0, 0);
    Ok(Record(all))
  }

  /** The entries byte A sets: the MIL and the trouble-code count. */
  function Counts(a: nat): map<string, Field>
  {
    map["MIL" := FText(if Bit(a, 7) then "ON" else "OFF"), "TROUBLE CODE COUNT" := FInt(a % 128)]
  }

  function Ignition(b: nat): Field
  {
    FText(if Bit(b, 3) then "COMPRESSION" else "SPARK")
  }

  lemma CommonTestsReference(a: nat, b: nat)
    ensures RunTests(Counts(a), CommonTests, b, b, 4, 0)
            == if Orphan(CommonTests, b, b, 4, 0) then Raise(KeyError) else Ok(Counts(a) + Tests(CommonTests, b, b, 4, 0))
  {
    LabelsDistinct();
    forall j | 0 <= j < |CommonTests|
      ensures CommonTests[j] !in Counts(a)
    {
      assert CommonTests[j] in CommonTests;
    }
    RunTestsReference(Counts(a), CommonTests, b, b, 4, 0);
  }

  /** No family label and not "IGNITION" is among the common entries. */
  lemma CommonEntriesApart(a: nat, b: nat, k: string)
    requires k == "IGNITION" || k in CompressionTests || k in SparkTests
    ensures k !in Counts(a) + Tests(CommonTests, b, b, 4, 0)
  {
    LabelsDistinct();
    TestsLabels(CommonTests, b, b, 4, 0);
    assert CommonTests[0..] == CommonTests;
  }

  lemma FamilyReference(a: nat, b: nat, c: nat, d: nat)
    ensures var withIgnition := (Counts(a) + Tests(CommonTests, b, b, 4, 0))["IGNITION" := Ignition(b)];
            RunTests(withIgnition, Family(b), c, d, 0, 0)
            == if Orphan(Family(b), c, d, 0, 0) then Raise(KeyError) else Ok(MonitorRecord(a, b, c, d))
  {
    LabelsDistinct();
    var common := Counts(a) + Tests(CommonTests, b, b, 4, 0);
    var withIgnition := common["IGNITION" := Ignition(b)];
    var names := Family(b);
    forall j | 0 <= j < |names|
      ensures names[j] !in withIgnition
    {
      assert names[j] in names;
      CommonEntriesApart(a, b, names[j]);
    }
    RunTestsReference(withIgnition, names, c, d, 0, 0);
    CommonEntriesApart(a, b, "IGNITION");
    UpdateThenMerge(Counts(a), Tests(CommonTests, b, b, 4, 0), "IGNITION", Ignition(b));
    assert Counts(a)["IGNITION" := Ignition(b)] == Header(a, b);
  }

  /** PID0101 on a reply of four bytes A B C D: MIL on exactly when bit 7 of
      A is set, the trouble-code count in the low seven bits of A, bit 3 of B
      selecting the compression or spark tests, and every test present
      exactly when available; KeyError exactly when a test is incomplete
      without being available. */
  lemma MonitorStatusReference(data: string)
    requires Byte(data, 0).Ok? && Byte(data, 1).Ok? && Byte(data, 2).Ok? && Byte(data, 3).Ok?
    ensures var a, b, c, d := Byte(data, 0).value, Byte(data, 1).value, Byte(data, 2).value, Byte(data, 3).value;
            MonitorStatusOf(data)
            == if Orphan(CommonTests, b, b, 4, 0) || Orphan(Family(b), c, d, 0, 0) then Raise(KeyError)
               else Ok(Record(MonitorRecord(a, b, c, d)))
  {
    var a, b, c, d := Byte(data, 0).value, Byte(data, 1).value, Byte(data, 2).value, Byte(data, 3).value;
    CommonTestsReference(a, b);
    if !Orphan(CommonTests, b, b, 4, 0) {
      FamilyReference(a, b, c, d);
    }
  }

  /** A reply of only two bytes raises ValueError when byte C is read,
      unless a common test raised KeyError before. */
  lemma MonitorStatusShortReply(data: string)
    requires Byte(data, 0).Ok? && Byte(data, 1).Ok? && |data| <= 4
    ensures var b := Byte(data, 1).value;
            MonitorStatusOf(data) == if Orphan(CommonTests, b, b, 4, 0) then Raise(KeyError) else Raise(ValueError)
  {
    CommonTestsReference(Byte(data, 0).value, Byte(data, 1).value);
  }

  /** One step of RunTests. */
  lemma RunTestsStep(d: map<string, Field>, names: seq<string>, avail: nat, incomplete: nat, shift: nat, i: nat, step: Py<map<string, Field>>)
    requires i < |names| && step == TestStep(d, names[i], Bit(avail, i), Bit(incomplete, i + shift))
    ensures RunTests(d, names, avail, incomplete, shift, i)
            == if step.Raise? then Raise(step.error) else RunTests(step.value, names, avail, incomplete, shift, i + 1)
  {
  }

  /** PID0101 as the source writes it: a dictionary filled by conditional
      inserts and appends, one test after the other. */
  method MonitorStatus(data: string) returns (r: Py<Value>)
    ensures r == MonitorStatusOf(data)
  {
    var v1 := Byte(data, 0);
    if v1.Raise? {
      return Raise(v1.error);
    }
    var a := v1.value;
    var result: map<string, Field> := map[];
    if Bit(a, 7) {
      result := result["MIL" := FText("ON")];
    } else {
      result := result["MIL" := FText("OFF")];
    }
    result := result["TROUBLE CODE COUNT" := FInt(a % 128)];
    assert result == Counts(a);
    var v2 := Byte(data, 1);
    if v2.Raise? {
      return Raise(v2.error);
    }
    var b := v2.value;
    var common := RecordCommonTests(result, b);
    if common.Raise? {
      return Raise(common.error);
    }
    result := common.value;
    if Bit(b, 3) {
      result := result["IGNITION" := FText("COMPRESSION")];
    } else {
      result := result["IGNITION" := FText("SPARK")];
    }
    var v3 := Byte(data, 2);
    if v3.Raise? {
      return Raise(v3.error);
    }
    var v4 := Byte(data, 3);
    if v4.Raise? {
      return Raise(v4.error);
    }
    var all := RecordFamilyTests(result, Family(b), v3.value, v4.value);
    if all.Raise? {
      return Raise(all.error);
    }
    r := Ok(Record(all.value));
  }

  /** The common tests of PID0101: available in bits 0-2 of B, incomplete in bits 4-6. */
  method RecordCommonTests(d: map<string, Field>, b: nat) returns (r: Py<map<string, Field>>)
    ensures r == RunTests(d, CommonTests, b, b, 4, 0)
  {
    var result := d;
    var step := RecordTest(result, "MISSFIRE", Bit(b, 0), Bit(b, 4));
    RunTestsStep(result, CommonTests, b, b, 4, 0, step);
    if step.Raise? { return Raise(step.error); }
    result := step.value;
    step := RecordTest(result, "FUEL SYSTEM", Bit(b, 1), Bit(b, 5));
    RunTestsStep(result, CommonTests, b, b, 4, 1, step);
    if step.Raise? { return Raise(step.error); }
    result := step.value;
    step := RecordTest(result, "COMPONENTS", Bit(b, 2), Bit(b, 6));
    RunTestsStep(result, CommonTests, b, b, 4, 2, step);
    if step.Raise? { return Raise(step.error); }
    result := step.value;
    r := Ok(result);
  }

  /** The eight tests of the selected family, one after the other:
      available in bits 0-7 of C, incomplete in bits 0-7 of D. */
  method RecordFamilyTests(d: map<string, Field>, names: seq<string>, c: nat, incomplete: nat) returns (r: Py<map<string, Field>>)
    requires |names| == 8
    ensures r == RunTests(d, names, c, incomplete, 0, 0)
  {
    var first := RecordFourTests(d, names, c, incomplete, 0);
    if first.Raise? {
      return Raise(first.error);
    }
    var second := RecordFourTests(first.value, names, c, incomplete, 4);
    if second.Raise? {
      return Raise(second.error);
    }
    assert RunTests(second.value, names, c, incomplete, 0, 8) == Ok(second.value);
    r := second;
  }

  /** Four consecutive family tests, from test `i` on. */
  method RecordFourTests(d: map<string, Field>, names: seq<string>, c: nat, incomplete: nat, i: nat) returns (r: Py<map<string, Field>>)
    requires i + 4 <= |names|
    ensures RunTests(d, names, c, incomplete, 0, i)
            == if r.Raise? then Raise(r.error) else RunTests(r.value, names, c, incomplete, 0, i + 4)
  {
    var result := d;
    var step := RecordTest(result, names[i], Bit(c, i), Bit(incomplete, i));
    RunTestsStep(result, names, c, incomplete, 0, i, step);
    if step.Raise? { return Raise(step.error); }
    result := step.value;
    step := RecordTest(result, names[i + 1], Bit(c, i + 1), Bit(incomplete, i + 1));
    RunTestsStep(result, names, c, incomplete, 0, i + 1, step);
    if step.Raise? { return Raise(step.error); }
    result := step.value;
    step := RecordTest(result, names[i + 2], Bit(c, i + 2), Bit(incomplete, i + 2));
    RunTestsStep(result, names, c, incomplete, 0, i + 2, step);
    if step.Raise? { return Raise(step.error); }
    result := step.value;
    step := RecordTest(result, names[i + 3], Bit(c, i + 3), Bit(incomplete, i + 3));
    RunTestsStep(result, names, c, incomplete, 0, i + 3, step);
    if step.Raise? { return Raise(step.error); }
    result := step.value;
    r := Ok(result);
  }

  // ---------------------------------------------------------------- dispatch

  /** How a data PID's pruned reply is decoded. */
  datatype Kind =
    | MonitorStatusKind | FuelSystem | Load | Coolant | FuelTrim | FuelPressure | Number
    | Rpm | Speed | TimingAdvance | IntakeAir | AirFlow | Throttle | SecondaryAir
    | SensorsPresent | OxygenSensor | ObdStandard | Distance | VehicleText | PrunedText

  /** The value a data PID returns for its pruned reply. */
  function Decode(kind: Kind, data: string, tables: Tables): Py<Value>
  {
    match kind
    case MonitorStatusKind => MonitorStatusOf(data)
    case FuelSystem => DecodeFuelSystem(data, tables.fuelSystemStatus)
    case Load => DecodeLoad(data)
    case Coolant => DecodeCoolant(data)
    case FuelTrim => DecodeFuelTrim(data)
    case FuelPressure => DecodeFuelPressure(data)
    case Number => DecodeNumber(data)
    case Rpm => DecodeRpm(data)
    case Speed => DecodeSpeed(data)
    case TimingAdvance => DecodeTimingAdvance(data)
    case IntakeAir => DecodeIntakeAir(data)
    case AirFlow => DecodeAirFlow(data)
    case Throttle => DecodeThrottle(data)
    case SecondaryAir => DecodeLookup(data, tables.secondaryAirStatus)
    case SensorsPresent => DecodeSensorsPresent(data)
    case OxygenSensor => DecodeOxygenSensor(data)
    case ObdStandard => DecodeLookup(data, tables.obdStandards)
    case Distance => DecodeDistance(data)
    case VehicleText => DecodeText(data)
    case PrunedText => Ok(Text(data))
  }

  /** A reply missing from the secondary-air or OBD-standard table raises
      NameError, whichever of the two decoders reads it. */
  lemma LookupMissRaises(kind: Kind, data: string, tables: Tables)
    requires || (kind == SecondaryAir && data !in tables.secondaryAirStatus)
             || (kind == ObdStandard && data !in tables.obdStandards)
    ensures Decode(kind, data, tables) == Raise(NameError)
  {
  }

  /** A fuel system status missing from its table raises NameError. */
  lemma FuelSystemMissRaises(data: string, tables: Tables)
    requires Slice(data, 0, 2) !in tables.fuelSystemStatus || Slice(data, 2, 4) !in tables.fuelSystemStatus
    ensures Decode(FuelSystem, data, tables) == Raise(NameError)
  {
  }

  /** Decode hands each kind to its own decoder. */
  lemma DecodesAsCoolant(data: string, tables: Tables)
    ensures Decode(Coolant, data, tables) == DecodeCoolant(data)
  {
  }

  lemma DecodesAsText(data: string, tables: Tables)
    ensures Decode(VehicleText, data, tables) == DecodeText(data)
  {
  }

  /** The coolant decoder reads back the temperature it was given. */
  lemma CoolantDecoded(celsius: int, tables: Tables)
    requires -40 <= celsius < 216
    ensures Decode(Coolant, Encode([(celsius + 40) as byte]), tables) == Ok(Int(celsius))
  {
    DecodesAsCoolant(Encode([(celsius + 40) as byte]), tables);
    CoolantRoundTrip(celsius);
  }

  /** The text decoder reads back ASCII text, zero padding as spaces. */
  lemma TextDecoded(bs: seq<byte>, tables: Tables)
    requires forall k :: 0 <= k < |bs| ==> bs[k] < 128
    ensures Decode(VehicleText, Encode(bs), tables) == Ok(Text(Spaced(bs)))
  {
    DecodesAsText(Encode(bs), tables);
    TextRoundTrip(bs);
  }
}
