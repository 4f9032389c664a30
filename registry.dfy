/** The supported-PID registry: how a bitmap reply ("which PIDs do you
    support?") is turned into entries of the valid-PID table. The first bit
    of the bitmap stands for the PID after the start PID, the last bit for
    the PID `4 * digits` after it. */
module Registry {
  import opened PyStr

  /** The valid-PID table after a walk over a bitmap. `complete` is false
      when a PID without a description stopped the walk with NameError; the
      entries registered before that PID stay in the table. */
  datatype Resolved = Resolved(pids: map<string, string>, complete: bool)

  /** The walk of ResolvePidData, lowest bit first: bit 0 of `v` stands
      for PID `count`, bit 1 for PID `count - 1`, and so on. */
  function Walk(pids: map<string, string>, mode: string, v: nat, count: nat, desc: map<string, string>): Resolved
    requires v < Pow2(count)
    decreases v
  {
    if v == 0 then Resolved(pids, true)
    else
      assert count > 0;
      if v % 2 == 1 then
        var index := Hex2(count);
        if index in desc then Walk(pids[mode + index := desc[index]], mode, v / 2, count - 1, desc)
        else Resolved(pids, false)
      else Walk(pids, mode, v / 2, count - 1, desc)
  }

  /** ResolvePidData: the start PID and the bitmap are hex numbers (ValueError
      otherwise), and the walk starts from the PID the last bit stands for. */
  function ResolvePids(pids: map<string, string>, mode: string, data: string, start: string, desc: map<string, string>): (r: Py<Resolved>)
    ensures r.Raise? <==> ParseHex(start).Raise? || ParseHex(data).Raise?
    ensures r.Raise? ==> r.error == ValueError
  {
    var s :- ParseHex(start);
    var v :- ParseHex(data);
    HexValueBound(data);
    Pow2Monotone(4 * |data|, s + 4 * |data|);
    Ok(Walk(pids, mode, v, s + 4 * |data|, desc))
  }

  // ---------------------------------------------------------------- reference definition

  /** Bitmap `v` announces PID `p` when its bit 0 stands for PID `top`. */
  predicate Announces(v: nat, top: nat, p: nat)
  {
    p <= top && Bit(v, top - p)
  }

  /** The PIDs a bitmap `v` announces when its bit 0 stands for PID `top`. */
  function Announced(v: nat, top: nat): set<nat>
  {
    set p: nat | 1 <= p <= top && Announces(v, top, p)
  }

  /** The table keys of the announced PIDs. */
  function AnnouncedKeys(mode: string, v: nat, top: nat): set<string>
  {
    set p | p in Announced(v, top) :: mode + Hex2(p)
  }

  /** Every announced PID has a description. */
  predicate Described(v: nat, top: nat, desc: map<string, string>)
  {
    forall p :: p in Announced(v, top) ==> Hex2(p) in desc
  }

  /** The table with every announced PID registered under its description. */
  function Registered(pids: map<string, string>, mode: string, v: nat, top: nat, desc: map<string, string>): map<string, string>
    requires Described(v, top, desc)
  {
    pids + Entries(mode, v, top, desc)
  }

  lemma AnnouncedStep(v: nat, top: nat)
    requires 0 < v < Pow2(top)
    ensures top > 0
    ensures Announced(v, top) == (if v % 2 == 1 then {top} else {}) + Announced(v / 2, top - 1)
  {
    forall p: nat | 1 <= p < top
      ensures Announces(v, top, p) == Announces(v / 2, top - 1, p)
    {
    }
  }

  lemma AnnouncedKeysStep(mode: string, v: nat, top: nat)
    requires 0 < v < Pow2(top)
    ensures top > 0
    ensures AnnouncedKeys(mode, v, top) == (if v % 2 == 1 then {mode + Hex2(top)} else {}) + AnnouncedKeys(mode, v / 2, top - 1)
    ensures mode + Hex2(top) !in AnnouncedKeys(mode, v / 2, top - 1)
  {
    AnnouncedStep(v, top);
    if mode + Hex2(top) in AnnouncedKeys(mode, v / 2, top - 1) {
      var p :| p in Announced(v / 2, top - 1) && mode + Hex2(top) == mode + Hex2(p);
      assert Hex2(top) == (mode + Hex2(p))[|mode|..];
      Hex2Injective(top, p);
    }
  }

  lemma DescribedStep(v: nat, top: nat, desc: map<string, string>)
    requires 0 < v < Pow2(top)
    ensures top > 0
    ensures Described(v, top, desc) <==> (v % 2 == 1 ==> Hex2(top) in desc) && Described(v / 2, top - 1, desc)
  {
    AnnouncedStep(v, top);
  }

  /** The entries a walk adds for the announced keys. */
  function Entries(mode: string, v: nat, top: nat, desc: map<string, string>): map<string, string>
    requires Described(v, top, desc)
  {
    map k | k in AnnouncedKeys(mode, v, top) :: desc[k[|mode|..]]
  }

  lemma EntriesStep(mode: string, v: nat, top: nat, desc: map<string, string>)
    requires 0 < v < Pow2(top) && Described(v, top, desc)
    ensures top > 0 && Described(v / 2, top - 1, desc)
    ensures v % 2 == 1 ==>
              Hex2(top) in desc && mode + Hex2(top) !in Entries(mode, v / 2, top - 1, desc) &&
              Entries(mode, v, top, desc) == Entries(mode, v / 2, top - 1, desc)[mode + Hex2(top) := desc[Hex2(top)]]
    ensures v % 2 == 0 ==> Entries(mode, v, top, desc) == Entries(mode, v / 2, top - 1, desc)
  {
    DescribedStep(v, top, desc);
    AnnouncedKeysStep(mode, v, top);
    var k0 := mode + Hex2(top);
    assert k0[|mode|..] == Hex2(top);
    var m := Entries(mode, v, top, desc);
    var m' := Entries(mode, v / 2, top - 1, desc);
    if v % 2 == 1 {
      var m'' := m'[k0 := desc[Hex2(top)]];
      assert m.Keys == m''.Keys;
      forall k | k in m
        ensures m[k] == m''[k]
      {
      }
    } else {
      assert m.Keys == m'.Keys;
    }
  }

  /** The walk completes exactly when every announced PID has a description. */
  lemma {:induction false} WalkCompletes(pids: map<string, string>, mode: string, v: nat, top: nat, desc: map<string, string>)
    requires v < Pow2(top)
    ensures Walk(pids, mode, v, top, desc).complete <==> Described(v, top, desc)
    decreases v
  {
    if v == 0 {
      forall p | p in Announced(0, top)
        ensures false
      {
        BitOfZero(top - p);
      }
    } else {
      DescribedStep(v, top, desc);
      var k0 := mode + Hex2(top);
      if v % 2 == 1 {
        if Hex2(top) in desc {
          WalkCompletes(pids[k0 := desc[Hex2(top)]], mode, v / 2, top - 1, desc);
        }
      } else {
        WalkCompletes(pids, mode, v / 2, top - 1, desc);
      }
    }
  }

  /** A complete walk registers exactly the announced PIDs, each under its
      description, and leaves every other entry as it was. */
  lemma {:induction false} WalkRegistersAnnounced(pids: map<string, string>, mode: string, v: nat, top: nat, desc: map<string, string>)
    requires v < Pow2(top) && Described(v, top, desc)
    ensures Walk(pids, mode, v, top, desc).pids == Registered(pids, mode, v, top, desc)
    decreases v
  {
    if v == 0 {
      forall p | p in Announced(0, top)
        ensures false
      {
        BitOfZero(top - p);
      }
      assert Entries(mode, v, top, desc) == map[];
      assert pids + map[] == pids;
    } else {
      EntriesStep(mode, v, top, desc);
      var e' := Entries(mode, v / 2, top - 1, desc);
      if v % 2 == 1 {
        var k0 := mode + Hex2(top);
        var pids' := pids[k0 := desc[Hex2(top)]];
        WalkRegistersAnnounced(pids', mode, v / 2, top - 1, desc);
        UpdateThenMerge(pids, e', k0, desc[Hex2(top)]);
      } else {
        WalkRegistersAnnounced(pids, mode, v / 2, top - 1, desc);
      }
    }
  }

  /** Even a walk that stops early never removes an entry and never adds
      one the bitmap does not announce. */
  lemma {:induction false} WalkKeys(pids: map<string, string>, mode: string, v: nat, top: nat, desc: map<string, string>)
    requires v < Pow2(top)
    ensures pids.Keys <= Walk(pids, mode, v, top, desc).pids.Keys <= pids.Keys + AnnouncedKeys(mode, v, top)
    decreases v
  {
    if v > 0 {
      AnnouncedKeysStep(mode, v, top);
      var k0 := mode + Hex2(top);
      if v % 2 == 1 {
        if Hex2(top) in desc {
          WalkKeys(pids[k0 := desc[Hex2(top)]], mode, v / 2, top - 1, desc);
        }
      } else {
        WalkKeys(pids, mode, v / 2, top - 1, desc);
      }
    }
  }

  /** A walk, complete or not, leaves every entry the bitmap does not
      announce exactly as it was. */
  lemma {:induction false} WalkLeavesOthers(pids: map<string, string>, mode: string, v: nat, top: nat, desc: map<string, string>, k: string)
    requires v < Pow2(top)
    requires k in pids && k !in AnnouncedKeys(mode, v, top)
    ensures k in Walk(pids, mode, v, top, desc).pids && Walk(pids, mode, v, top, desc).pids[k] == pids[k]
    decreases v
  {
    if v > 0 {
      AnnouncedKeysStep(mode, v, top);
      var k0 := mode + Hex2(top);
      if v % 2 == 1 {
        if Hex2(top) in desc {
          WalkLeavesOthers(pids[k0 := desc[Hex2(top)]], mode, v / 2, top - 1, desc, k);
        }
      } else {
        WalkLeavesOthers(pids, mode, v / 2, top - 1, desc, k);
      }
    }
  }

  /** Every key a walk registers is longer than the mode. */
  lemma AnnouncedKeysLength(mode: string, v: nat, top: nat)
    ensures forall k :: k in AnnouncedKeys(mode, v, top) ==> |k| >= |mode| + 2
  {
  }

  /** A bitmap never announces a PID above its top one. */
  lemma NotAnnouncedAbove(mode: string, v: nat, top: nat, q: nat)
    requires q > top
    ensures mode + Hex2(q) !in AnnouncedKeys(mode, v, top)
  {
    forall p | p in Announced(v, top)
      ensures mode + Hex2(q) != mode + Hex2(p)
    {
      Hex2Injective(q, p);
      assert Hex2(q) == (mode + Hex2(q))[|mode|..];
    }
  }

  /** A bitmap of L digits read from start PID s announces only PIDs s+1 .. s+4L. */
  lemma AnnouncedRange(data: string, s: nat, p: nat)
    requires AllHex(data)
    requires p in Announced(HexValue(data), s + 4 * |data|)
    ensures s + 1 <= p <= s + 4 * |data|
  {
    var top := s + 4 * |data|;
    HexValueBound(data);
    if p <= s {
      BitAboveBound(HexValue(data), 4 * |data|, top - p);
    }
  }

  /** ResolvePidData on a well-formed reply registers, under `mode`, every PID
      the bitmap announces with its description, keeps every other entry,
      and raises NameError exactly when an announced PID has no description. */
  lemma ResolveRegistersAnnounced(pids: map<string, string>, mode: string, data: string, start: string, desc: map<string, string>)
    requires ParseHex(start).Ok? && ParseHex(data).Ok?
    ensures var top := HexValue(start) + 4 * |data|;
            var r := ResolvePids(pids, mode, data, start, desc).value;
            && (r.complete <==> Described(HexValue(data), top, desc))
            && (r.complete ==> r.pids == Registered(pids, mode, HexValue(data), top, desc))
            && pids.Keys <= r.pids.Keys <= pids.Keys + AnnouncedKeys(mode, HexValue(data), top)
  {
    var top := HexValue(start) + 4 * |data|;
    HexValueBound(data);
    Pow2Monotone(4 * |data|, top);
    WalkCompletes(pids, mode, HexValue(data), top, desc);
    if Described(HexValue(data), top, desc) {
      WalkRegistersAnnounced(pids, mode, HexValue(data), top, desc);
    }
    WalkKeys(pids, mode, HexValue(data), top, desc);
  }

  /** Resolving never drops a PID, and a key too short to be one this mode
      registers keeps its value. */
  lemma ResolveKeepsShortKeys(pids: map<string, string>, mode: string, data: string, start: string, desc: map<string, string>)
    requires ParseHex(start).Ok? && ParseHex(data).Ok?
    ensures var r := ResolvePids(pids, mode, data, start, desc).value;
            && pids.Keys <= r.pids.Keys
            && forall k :: k in pids && |k| < |mode| + 2 ==> k in r.pids && r.pids[k] == pids[k]
  {
    ResolveRegistersAnnounced(pids, mode, data, start, desc);
    var v := HexValue(data);
    var top := HexValue(start) + 4 * |data|;
    HexValueBound(data);
    Pow2Monotone(4 * |data|, top);
    AnnouncedKeysLength(mode, v, top);
    forall k | k in pids && |k| < |mode| + 2
      ensures k in Walk(pids, mode, v, top, desc).pids && Walk(pids, mode, v, top, desc).pids[k] == pids[k]
    {
      WalkLeavesOthers(pids, mode, v, top, desc, k);
    }
  }

  /** The last bit of a four-byte bitmap announces the next bitmap PID
      (start + 0x20): its key is registered exactly when that bit is set. */
  lemma ResolveNextRange(pids: map<string, string>, mode: string, data: string, start: string, desc: map<string, string>)
    requires ParseHex(start).Ok? && ParseHex(data).Ok? && |data| == 8
    requires Described(HexValue(data), HexValue(start) + 32, desc)
    requires mode + Hex2(HexValue(start) + 32) !in pids
    ensures var r := ResolvePids(pids, mode, data, start, desc).value;
            mode + Hex2(HexValue(start) + 32) in r.pids <==> HexValue(data) % 2 == 1
  {
    var top := HexValue(start) + 32;
    var v := HexValue(data);
    var k := mode + Hex2(top);
    ResolveRegistersAnnounced(pids, mode, data, start, desc);
    if k in AnnouncedKeys(mode, v, top) {
      var p :| p in Announced(v, top) && k == mode + Hex2(p);
      assert Hex2(top) == k[|mode|..] == Hex2(p);
      Hex2Injective(top, p);
    }
    if v % 2 == 1 {
      assert top in Announced(v, top);
    }
  }

  // ---------------------------------------------------------------- the float halving

  /** Number of binary digits of `v`. */
  function BitLength(v: nat): (n: nat)
    ensures v < Pow2(n)
    ensures v > 0 ==> n >= 1 && Pow2(n - 1) <= v
  {
    if v == 0 then 0 else 1 + BitLength(v / 2)
  }

  /** `v` rounded to a multiple of `unit`, halfway cases to the even multiple. */
  function RoundToMultiple(v: nat, unit: nat): (r: nat)
    requires unit >= 1
    ensures r <= v + unit
  {
    var q := v / unit;
    var rem := v % unit;
    var m := if 2 * rem < unit || (2 * rem == unit && q % 2 == 0) then q else q + 1;
    assert q * unit + rem == v;
    assert m * unit <= q * unit + unit;
    m * unit
  }

  /** `v` rounded to the nearest IEEE 754 binary64 value (53 significant
      bits, ties to even), for `v` below the largest finite double. */
  function RoundToDouble(v: nat): nat
  {
    var n := BitLength(v);
    if n <= 53 then v else RoundToMultiple(v, Pow2(n - 53))
  }

  /** Python's `int(v / 2)`: true division rounds the exact half to a double
      and `int` truncates it. Halving a double is exact, so this is the
      rounded `v`, halved and truncated. */
  function FloatHalf(v: nat): nat
  {
    RoundToDouble(v) / 2
  }

  /** Rounding moves `v` by less than its own size, so the halving loop
      still ends. */
  lemma FloatHalfDecreases(v: nat)
    requires v > 0
    ensures FloatHalf(v) < v
  {
    var n := BitLength(v);
    if n > 53 {
      Pow2Add(n - 53, 52);
      Pow2Monotone(1, 52);
      MulAtLeastDouble(Pow2(n - 53), Pow2(52));
    }
  }

  lemma MulAtLeastDouble(a: nat, b: nat)
    requires b >= 2
    ensures a * b >= 2 * a
  {
  }

  lemma FloatHalfExact(v: nat)
    requires v < Pow2(53)
    ensures FloatHalf(v) == v / 2
  {
    if BitLength(v) > 53 {
      Pow2Monotone(53, BitLength(v) - 1);
    }
  }

  /** `'%2.2X' % count`, including the minus sign of a negative count. */
  function PidIndex(count: int): string
  {
    if count >= 0 then Hex2(count) else "-" + Hex2(-count)
  }

  /** The walk as written: `PidValue = int(PidValue / 2)`. */
  function WalkAsWritten(pids: map<string, string>, mode: string, v: nat, count: int, desc: map<string, string>): Resolved
    decreases v
  {
    if v == 0 then Resolved(pids, true)
    else
      FloatHalfDecreases(v);
      if v % 2 == 1 then
        var index := PidIndex(count);
        if index in desc then WalkAsWritten(pids[mode + index := desc[index]], mode, FloatHalf(v), count - 1, desc)
        else Resolved(pids, false)
      else WalkAsWritten(pids, mode, FloatHalf(v), count - 1, desc)
  }

  /** Reads a PID index back: a leading minus sign, then hexadecimal digits. */
  function PidIndexValue(index: string): int
  {
    if index != [] && index[0] == '-' && AllHex(index[1..]) then -(HexValue(index[1..]) as int)
    else if AllHex(index) then HexValue(index)
    else 0
  }

  /** Every count reads back from its PID index. */
  lemma PidIndexRoundTrip(c: int)
    ensures PidIndexValue(PidIndex(c)) == c
  {
    if c >= 0 {
      ParseHex2(c);
      assert IsHexDigit(Hex2(c)[0]);
    } else {
      ParseHex2(-c);
      assert ("-" + Hex2(-c))[1..] == Hex2(-c);
    }
  }

  lemma PidIndexInjective(a: int, b: int)
    requires PidIndex(a) == PidIndex(b)
    ensures a == b
  {
    PidIndexRoundTrip(a);
    PidIndexRoundTrip(b);
  }

  /** Distinct counts give distinct table keys. */
  lemma PidKeysDiffer(mode: string, c: int, d: int)
    requires c != d
    ensures mode + PidIndex(c) != mode + PidIndex(d)
  {
    if mode + PidIndex(c) == mode + PidIndex(d) {
      assert (mode + PidIndex(c))[|mode|..] == PidIndex(c);
      assert (mode + PidIndex(d))[|mode|..] == PidIndex(d);
      PidIndexInjective(c, d);
    }
  }

  /** The as-written walk never registers a PID above its current count. */
  lemma {:induction false} WalkAsWrittenBelow(pids: map<string, string>, mode: string, v: nat, count: int, desc: map<string, string>, above: int)
    requires above > count && mode + PidIndex(above) !in pids
    ensures mode + PidIndex(above) !in WalkAsWritten(pids, mode, v, count, desc).pids
    decreases v
  {
    if v > 0 {
      FloatHalfDecreases(v);
      var index := PidIndex(count);
      if v % 2 == 1 {
        if index in desc {
          PidKeysDiffer(mode, count, above);
          WalkAsWrittenBelow(pids[mode + index := desc[index]], mode, FloatHalf(v), count - 1, desc, above);
        }
      } else {
        WalkAsWrittenBelow(pids, mode, FloatHalf(v), count - 1, desc, above);
      }
    }
  }

  /** A bitmap 2^k + 2 with k >= 55 (the 16-digit bitmap 2000000000000002
      that two ECUs answering "0100" concatenate to is k = 61, top = 64)
      announces PID top - 1. Halving it through a double rounds away its
      low bit, so the walk as written never registers that PID, while the
      exact walk does. */
  lemma WalkAsWrittenLosesPid(k: nat, top: nat, desc: map<string, string>)
    requires 55 <= k < top
    requires forall p :: 1 <= p <= top ==> Hex2(p) in desc
    ensures Pow2(k) + 2 < Pow2(top)
    ensures "01" + Hex2(top - 1) !in WalkAsWritten(map[], "01", Pow2(k) + 2, top, desc).pids
    ensures "01" + Hex2(top - 1) in Walk(map[], "01", Pow2(k) + 2, top, desc).pids
  {
    AsWrittenSkipsPid(k, top, desc);
    ExactRegistersPid(k, top, desc);
  }

  lemma CounterexampleHalves(k: nat, top: nat)
    requires 55 <= k < top
    ensures Pow2(k) + 2 < Pow2(k + 1) <= Pow2(top)
    ensures Pow2(k) == 2 * Pow2(k - 1) && Pow2(k - 1) % 2 == 0
    ensures (Pow2(k) + 2) % 2 == 0 && (Pow2(k) + 2) / 2 == Pow2(k - 1) + 1
  {
    assert Pow2(k - 1) == 2 * Pow2(k - 2);
    Pow2Monotone(k + 1, top);
  }

  /** The double nearest to 2^k + 2 is 2^k: its low bit is lost. */
  lemma FloatHalfOfCounterexample(k: nat)
    requires k >= 55
    ensures FloatHalf(Pow2(k) + 2) == Pow2(k - 1)
  {
    var v := Pow2(k) + 2;
    CounterexampleHalves(k, k + 1);
    Pow2Monotone(3, k);
    assert Pow2(3) == 8;
    BitLengthUnique(v, k + 1);
    var unit := Pow2(k - 52);
    Pow2Monotone(3, k - 52);
    Pow2Add(52, k - 52);
    DivModOf(v, Pow2(52), 2, unit);
    assert RoundToMultiple(v, unit) == Pow2(52) * unit;
  }

  /** Euclidean division is determined by quotient and remainder. */
  lemma DivModOf(v: nat, q: nat, rem: nat, unit: nat)
    requires 0 <= rem < unit && v == q * unit + rem
    ensures v / unit == q && v % unit == rem
  {
    var q', rem' := v / unit, v % unit;
    assert q' * unit + rem' == v;
    if q' > q {
      assert (q' - q) * unit == q' * unit - q * unit;
      MulStep(q' - q - 1, unit);
    } else if q' < q {
      assert (q - q') * unit == q * unit - q' * unit;
      MulStep(q - q' - 1, unit);
    }
  }

  lemma MulStep(d: nat, unit: nat)
    ensures (d + 1) * unit >= unit
  {
  }

  lemma AsWrittenSkipsPid(k: nat, top: nat, desc: map<string, string>)
    requires 55 <= k < top
    ensures "01" + Hex2(top - 1) !in WalkAsWritten(map[], "01", Pow2(k) + 2, top, desc).pids
  {
    CounterexampleHalves(k, top);
    FloatHalfOfCounterexample(k);
    var v := Pow2(k) + 2;
    assert WalkAsWritten(map[], "01", v, top, desc) == WalkAsWritten(map[], "01", Pow2(k - 1), top - 1, desc);
    assert WalkAsWritten(map[], "01", Pow2(k - 1), top - 1, desc) == WalkAsWritten(map[], "01", FloatHalf(Pow2(k - 1)), top - 2, desc);
    WalkAsWrittenBelow(map[], "01", FloatHalf(Pow2(k - 1)), top - 2, desc, top - 1);
  }

  lemma ExactRegistersPid(k: nat, top: nat, desc: map<string, string>)
    requires 55 <= k < top
    requires forall p :: 1 <= p <= top ==> Hex2(p) in desc
    ensures Pow2(k) + 2 < Pow2(top)
    ensures "01" + Hex2(top - 1) in Walk(map[], "01", Pow2(k) + 2, top, desc).pids
  {
    CounterexampleHalves(k, top);
    var v := Pow2(k) + 2;
    assert Bit(v, 1);
    assert top - 1 in Announced(v, top);
    assert Described(v, top, desc);
    WalkRegistersAnnounced(map[], "01", v, top, desc);
    RegisteredHasAnnounced(map[], "01", v, top, desc, top - 1);
  }

  /** Every announced PID is a key of the registered table. */
  lemma RegisteredHasAnnounced(pids: map<string, string>, mode: string, v: nat, top: nat, desc: map<string, string>, p: nat)
    requires Described(v, top, desc) && p in Announced(v, top)
    ensures mode + Hex2(p) in Registered(pids, mode, v, top, desc)
  {
    assert mode + Hex2(p) in AnnouncedKeys(mode, v, top);
    assert mode + Hex2(p) in Entries(mode, v, top, desc);
  }

  lemma BitLengthUnique(v: nat, n: nat)
    requires n >= 1 && Pow2(n - 1) <= v < Pow2(n)
    ensures BitLength(v) == n
  {
    var m := BitLength(v);
    if m < n {
      Pow2Monotone(m, n - 1);
    } else if m > n {
      Pow2Monotone(n, m - 1);
    }
  }
}
