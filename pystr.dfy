/** The small part of Python's built-in behaviour the ELM327 engine relies on:
    exceptions, `int(s, 16)`, `int(s)`, `'%2.2X' % n`, slicing, `str.replace`,
    `str.split`, `bytearray.fromhex` and decoding bytes as text. */
module PyStr {

  /** The exceptions the engine can raise. */
  datatype PyError = ValueError | KeyError | NameError | TypeError | UnicodeDecodeError

  /** A Python computation: it returns a value or raises. */
  datatype Py<+T> = Ok(value: T) | Raise(error: PyError) {
    predicate IsFailure() { Raise? }
    function PropagateFailure<U>(): Py<U> requires Raise? { Raise(error) }
    function Extract(): T requires Ok? { value }
  }

  // ---------------------------------------------------------------- bits

  function Pow2(n: nat): (r: nat)
    ensures r >= 1
  {
    if n == 0 then 1 else 2 * Pow2(n - 1)
  }

  /** Bit `i` of `n` (`n & (1 << i) != 0`). */
  function Bit(n: nat, i: nat): bool
  {
    if i == 0 then n % 2 == 1 else Bit(n / 2, i - 1)
  }

  lemma Pow2Add(a: nat, b: nat)
    ensures Pow2(a + b) == Pow2(a) * Pow2(b)
  {
    if a > 0 {
      Pow2Add(a - 1, b);
    }
  }

  lemma Pow2Monotone(a: nat, b: nat)
    requires a <= b
    ensures Pow2(a) <= Pow2(b)
  {
    if a < b {
      Pow2Monotone(a, b - 1);
    }
  }

  /** A number below 2^n has no bit at position n or above. */
  lemma {:induction false} BitAboveBound(v: nat, n: nat, i: nat)
    requires v < Pow2(n) && n <= i
    ensures !Bit(v, i)
  {
    if i > 0 {
      if n == 0 {
        assert v == 0;
        BitOfZero(i - 1);
      } else {
        BitAboveBound(v / 2, n - 1, i - 1);
      }
    }
  }

  lemma {:induction false} BitOfZero(i: nat)
    ensures !Bit(0, i)
  {
    if i > 0 {
      BitOfZero(i - 1);
    }
  }

  // ---------------------------------------------------------------- hexadecimal digits

  predicate IsHexDigit(c: char)
  {
    '0' <= c <= '9' || 'A' <= c <= 'F' || 'a' <= c <= 'f'
  }

  predicate IsDecDigit(c: char)
  {
    '0' <= c <= '9'
  }

  predicate AllHex(s: string)
  {
    forall i :: 0 <= i < |s| ==> IsHexDigit(s[i])
  }

  predicate AllDec(s: string)
  {
    forall i :: 0 <= i < |s| ==> IsDecDigit(s[i])
  }

  function HexDigitValue(c: char): (d: nat)
    requires IsHexDigit(c)
    ensures d < 16
  {
    if '0' <= c <= '9' then c as int - '0' as int
    else if 'A' <= c <= 'F' then c as int - 'A' as int + 10
    else c as int - 'a' as int + 10
  }

  /** The upper-case digit `%X` prints for `d`. */
  function HexDigit(d: nat): (c: char)
    requires d < 16
    ensures IsHexDigit(c) && HexDigitValue(c) == d
  {
    "0123456789ABCDEF"[d]
  }

  /** The value of a string of hexadecimal digits, most significant first. */
  function HexValue(s: string): nat
    requires AllHex(s)
  {
    if s == [] then 0 else 16 * HexValue(s[..|s| - 1]) + HexDigitValue(s[|s| - 1])
  }

  function DecValue(s: string): nat
    requires AllDec(s)
  {
    if s == [] then 0 else 10 * DecValue(s[..|s| - 1]) + (s[|s| - 1] as int - '0' as int)
  }

  /** `int(s, 16)`: a non-empty string of hexadecimal digits, otherwise ValueError. */
  function ParseHex(s: string): Py<nat>
  {
    if s != [] && AllHex(s) then Ok(HexValue(s)) else Raise(ValueError)
  }

  /** `int(s)`: a non-empty string of decimal digits, otherwise ValueError. */
  function ParseDec(s: string): Py<nat>
  {
    if s != [] && AllDec(s) then Ok(DecValue(s)) else Raise(ValueError)
  }

  /** `'%X' % n`: upper-case hexadecimal without leading zeros. */
  function FormatHex(n: nat): (s: string)
    ensures s != [] && AllHex(s)
  {
    if n < 16 then [HexDigit(n)] else FormatHex(n / 16) + [HexDigit(n % 16)]
  }

  /** `'%2.2X' % n`: upper-case hexadecimal, at least two digits. */
  function Hex2(n: nat): (s: string)
    ensures |s| >= 2 && AllHex(s)
    ensures n < 256 ==> |s| == 2
  {
    if n < 16 then ['0', HexDigit(n)]
    else
      var s := FormatHex(n);
      assert n < 256 ==> |s| == 2 by {
        if n < 256 {
          assert FormatHex(n / 16) == [HexDigit(n / 16)];
        }
      }
      s
  }

  lemma {:induction false} HexValueOfFormat(n: nat)
    ensures HexValue(FormatHex(n)) == n
  {
    if n >= 16 {
      HexValueOfFormat(n / 16);
      var s := FormatHex(n);
      assert s[..|s| - 1] == FormatHex(n / 16);
    }
  }

  /** `int('%2.2X' % n, 16) == n`: the formatted PID number reads back as itself. */
  lemma {:induction false} ParseHex2(n: nat)
    ensures ParseHex(Hex2(n)) == Ok(n)
  {
    if n < 16 {
      var s := Hex2(n);
      assert s[..1] == "0";
      assert HexValue(s[..1]) == 16 * HexValue("") + HexDigitValue('0');
    } else {
      HexValueOfFormat(n);
    }
  }

  /** Distinct PID numbers format to distinct keys. */
  lemma Hex2Injective(m: nat, n: nat)
    ensures Hex2(m) == Hex2(n) <==> m == n
  {
    ParseHex2(m);
    ParseHex2(n);
  }

  /** A string of L hexadecimal digits denotes a number below 2^(4L). */
  lemma {:induction false} HexValueBound(s: string)
    requires AllHex(s)
    ensures HexValue(s) < Pow2(4 * |s|)
  {
    if s != [] {
      var init := s[..|s| - 1];
      HexValueBound(init);
      Pow2Add(4 * |init|, 4);
      assert Pow2(4) == 16;
    }
  }

  // ---------------------------------------------------------------- slicing

  /** `s[i:j]` for non-negative `i` and `j`: both ends are clamped to the string. */
  function Slice(s: string, i: nat, j: nat): (r: string)
    ensures |r| <= |s|
  {
    var hi := if j <= |s| then j else |s|;
    var lo := if i <= hi then i else hi;
    s[lo..hi]
  }

  /** `s[n:]` */
  function Drop(s: string, n: nat): (r: string)
    ensures |r| == if n <= |s| then |s| - n else 0
  {
    if n <= |s| then s[n..] else []
  }

  /** `s[:n]` */
  function Take(s: string, n: nat): (r: string)
    ensures |r| == if n <= |s| then n else |s|
  {
    if n <= |s| then s[..n] else s
  }

  // ---------------------------------------------------------------- substrings

  predicate OccursAt(s: string, i: nat, p: string)
  {
    i + |p| <= |s| && s[i..i + |p|] == p
  }

  /** `s.find(p) != -1` */
  predicate Contains(s: string, p: string)
  {
    exists i: nat | i <= |s| :: OccursAt(s, i, p)
  }

  /** `s.replace(pat, rep)`: one left-to-right pass that replaces every
      occurrence it meets and resumes scanning after the replacement. */
  function Replace(s: string, pat: string, rep: string): string
    requires pat != []
    decreases |s|
  {
    if |s| < |pat| then s
    else if s[..|pat|] == pat then rep + Replace(s[|pat|..], pat, rep)
    else [s[0]] + Replace(s[1..], pat, rep)
  }

  /** Every character of the result comes from the input or from `rep`. */
  lemma {:induction false} ReplaceChars(s: string, pat: string, rep: string, c: char)
    requires pat != []
    requires c in Replace(s, pat, rep)
    ensures c in s || c in rep
  {
    if |s| >= |pat| {
      if s[..|pat|] == pat {
        if c !in rep {
          ReplaceChars(s[|pat|..], pat, rep, c);
        }
      } else if c != s[0] {
        ReplaceChars(s[1..], pat, rep, c);
      }
    }
  }

  /** A text with no occurrence of `pat` is left as it is. */
  lemma {:induction false} ReplaceAbsent(s: string, pat: string, rep: string)
    requires pat != [] && !Contains(s, pat)
    ensures Replace(s, pat, rep) == s
  {
    if |s| >= |pat| {
      assert !OccursAt(s, 0, pat);
      forall i: nat
        ensures !OccursAt(s[1..], i, pat)
      {
        if OccursAt(s[1..], i, pat) {
          assert s[1..][i..i + |pat|] == s[i + 1..i + 1 + |pat|];
          assert OccursAt(s, i + 1, pat);
        }
      }
      ReplaceAbsent(s[1..], pat, rep);
    }
  }

  /** An occurrence in the tail is an occurrence one position later in the text. */
  lemma OccursShift(s: string, i: nat, pat: string)
    requires s != []
    ensures OccursAt(s[1..], i, pat) <==> OccursAt(s, i + 1, pat)
  {
    if i + |pat| <= |s| - 1 {
      assert s[1..][i..i + |pat|] == s[i + 1..i + 1 + |pat|];
    }
  }

  /** `p` occurs at position i and nowhere before it. */
  predicate FirstOccursAt(s: string, i: nat, p: string)
  {
    OccursAt(s, i, p) && forall j: nat :: j < i ==> !OccursAt(s, j, p)
  }

  /** The leftmost occurrence is replaced and scanning resumes after it:
      if `pat` first occurs at position k, the text before it is kept
      and the occurrence becomes `rep`. */
  lemma {:induction false} ReplaceFirst(s: string, pat: string, rep: string, k: nat)
    requires pat != [] && FirstOccursAt(s, k, pat)
    ensures s[k..][|pat|..] == s[k + |pat|..]
    ensures Replace(s, pat, rep) == s[..k] + rep + Replace(s[k..][|pat|..], pat, rep)
    decreases k
  {
    if k == 0 {
      ReplaceAtStart(s, pat, rep);
    } else {
      ReplaceFirstShift(s, pat, k);
      ReplaceFirstFromTail(s, pat, rep, k);
      ReplaceFirst(s[1..], pat, rep, k - 1);
    }
  }

  /** An occurrence at the start is replaced first. */
  lemma ReplaceAtStart(s: string, pat: string, rep: string)
    requires pat != [] && OccursAt(s, 0, pat)
    ensures s[0..][|pat|..] == s[0 + |pat|..]
    ensures Replace(s, pat, rep) == s[..0] + rep + Replace(s[0..][|pat|..], pat, rep)
  {
    assert s[..|pat|] == pat;
    assert s[..0] + rep == rep;
    assert s[0..] == s;
  }

  /** If the tail's first occurrence is replaced as claimed, so is the text's. */
  lemma ReplaceFirstFromTail(s: string, pat: string, rep: string, k: nat)
    requires pat != [] && 0 < k && k + |pat| <= |s| && !OccursAt(s, 0, pat)
    ensures s[k..][|pat|..] == s[k + |pat|..]
    ensures var t := s[1..];
            Replace(t, pat, rep) == t[..k - 1] + rep + Replace(t[k - 1..][|pat|..], pat, rep) ==>
            Replace(s, pat, rep) == s[..k] + rep + Replace(s[k..][|pat|..], pat, rep)
  {
    var t := s[1..];
    ReplaceSkipsFirst(s, pat, rep);
    assert t[k - 1..][|pat|..] == s[k..][|pat|..];
    assert s[..k] == [s[0]] + t[..k - 1];
    PrependRegroups(s[0], t[..k - 1], rep, Replace(s[k..][|pat|..], pat, rep));
  }

  /** Without an occurrence at the start, the first character is copied. */
  lemma ReplaceSkipsFirst(s: string, pat: string, rep: string)
    requires pat != [] && |pat| <= |s| && !OccursAt(s, 0, pat)
    ensures Replace(s, pat, rep) == [s[0]] + Replace(s[1..], pat, rep)
  {
    assert s[0..|pat|] == s[..|pat|];
  }

  lemma PrependRegroups(c: char, a: string, b: string, d: string)
    ensures [c] + (a + b + d) == ([c] + a) + b + d
  {
  }

  /** The first occurrence in the tail is one position earlier. */
  lemma ReplaceFirstShift(s: string, pat: string, k: nat)
    requires k > 0 && FirstOccursAt(s, k, pat)
    ensures k + |pat| <= |s| && !OccursAt(s, 0, pat) && FirstOccursAt(s[1..], k - 1, pat)
  {
    OccursShift(s, k - 1, pat);
    forall i: nat | i < k - 1
      ensures !OccursAt(s[1..], i, pat)
    {
      OccursShift(s, i, pat);
    }
  }

  /** When no character of `rep` occurs in the result's first k characters,
      those characters are copied unchanged from the input. */
  lemma {:induction false} ReplaceCopiesPrefix(t: string, pat: string, rep: string, k: nat)
    requires pat != [] && rep != []
    requires k <= |Replace(t, pat, rep)|
    requires forall j :: 0 <= j < k ==> Replace(t, pat, rep)[j] !in rep
    ensures k <= |t| && Replace(t, pat, rep)[..k] == t[..k]
  {
    var r := Replace(t, pat, rep);
    if k > 0 {
      assert r[0] !in rep;
      if |t| < |pat| {
      } else if t[..|pat|] == pat {
        assert false;
      } else {
        var r' := Replace(t[1..], pat, rep);
        assert r == [t[0]] + r';
        forall j | 0 <= j < k - 1
          ensures r'[j] !in rep
        {
          assert r'[j] == r[j + 1];
        }
        ReplaceCopiesPrefix(t[1..], pat, rep, k - 1);
        assert r[..k] == [t[0]] + r'[..k - 1];
        assert t[..k] == [t[0]] + t[1..][..k - 1];
      }
    }
  }

  /** If `pat` and `rep` share no character, no occurrence of `pat` survives. */
  lemma {:induction false} ReplaceRemovesAll(s: string, pat: string, rep: string)
    requires pat != [] && rep != []
    requires forall c :: c in rep ==> c !in pat
    ensures !Contains(Replace(s, pat, rep), pat)
  {
    var r := Replace(s, pat, rep);
    if |s| < |pat| {
      assert r == s;
    } else if s[..|pat|] == pat {
      var r' := Replace(s[|pat|..], pat, rep);
      ReplaceRemovesAll(s[|pat|..], pat, rep);
      assert r == rep + r';
      forall i: nat | i + |pat| <= |r|
        ensures !OccursAt(r, i, pat)
      {
        if i < |rep| {
          assert r[i] == rep[i] && rep[i] in rep;
          assert pat[0] in pat;
        } else {
          assert r[i..i + |pat|] == r'[i - |rep|..i - |rep| + |pat|];
          assert !OccursAt(r', i - |rep|, pat);
        }
      }
    } else {
      var r' := Replace(s[1..], pat, rep);
      ReplaceRemovesAll(s[1..], pat, rep);
      assert r == [s[0]] + r';
      forall i: nat | i + |pat| <= |r|
        ensures !OccursAt(r, i, pat)
      {
        if i == 0 {
          var k := |pat| - 1;
          if forall j :: 0 <= j < k ==> r'[j] !in rep {
            ReplaceCopiesPrefix(s[1..], pat, rep, k);
            assert s[..|pat|] == [s[0]] + s[1..][..k];
            assert r[..|pat|] == [s[0]] + r'[..k];
          } else {
            var j :| 0 <= j < k && r'[j] in rep;
            assert r[j + 1] == r'[j];
            assert pat[j + 1] in pat;
          }
        } else {
          assert r[i..i + |pat|] == r'[i - 1..i - 1 + |pat|];
          assert !OccursAt(r', i - 1, pat);
        }
      }
    }
  }

  /** Updating a key the right-hand map does not have commutes with the merge. */
  lemma UpdateThenMerge<K, V>(a: map<K, V>, b: map<K, V>, k: K, d: V)
    requires k !in b
    ensures a[k := d] + b == a + b[k := d]
    ensures a[k := d] + b == (a + b)[k := d]
  {
  }

  // ---------------------------------------------------------------- lines

  /** `s.split(sep)` with an explicit separator: always at least one piece,
      empty pieces kept. */
  function Split(s: string, sep: char): (lines: seq<string>)
    ensures |lines| >= 1
    decreases |s|
  {
    if s == [] then [[]]
    else
      var rest := Split(s[1..], sep);
      if s[0] == sep then [[]] + rest else [[s[0]] + rest[0]] + rest[1..]
  }

  /** `sep.join(lines)` */
  function Join(lines: seq<string>, sep: char): string
    requires |lines| >= 1
    decreases |lines|
  {
    if |lines| == 1 then lines[0] else lines[0] + [sep] + Join(lines[1..], sep)
  }

  /** Splitting and joining again gives back the text. */
  lemma {:induction false} JoinSplit(s: string, sep: char)
    ensures Join(Split(s, sep), sep) == s
  {
    if s != [] {
      JoinSplit(s[1..], sep);
      var rest := Split(s[1..], sep);
      if s[0] != sep {
        var lines := Split(s, sep);
        if |rest| == 1 {
          assert lines == [[s[0]] + rest[0]];
        } else {
          assert lines[1..] == rest[1..];
          assert Join(rest, sep) == rest[0] + [sep] + Join(rest[1..], sep);
        }
      }
    }
  }

  /** No piece contains the separator. */
  lemma {:induction false} SplitPiecesFree(s: string, sep: char)
    ensures forall k :: 0 <= k < |Split(s, sep)| ==> sep !in Split(s, sep)[k]
  {
    if s != [] {
      SplitPiecesFree(s[1..], sep);
    }
  }

  /** A text without the separator is a single piece. */
  lemma {:induction false} SplitNoSeparator(s: string, sep: char)
    requires sep !in s
    ensures Split(s, sep) == [s]
  {
    if s != [] {
      SplitNoSeparator(s[1..], sep);
      assert [s[0]] + s[1..] == s;
    }
  }

  /** A separator splits the text into the pieces of both sides. */
  lemma {:induction false} SplitAtSeparator(a: string, sep: char, b: string)
    ensures Split(a + [sep] + b, sep) == Split(a, sep) + Split(b, sep)
  {
    if a == [] {
      assert ([sep] + b)[1..] == b;
    } else {
      assert (a + [sep] + b)[1..] == a[1..] + [sep] + b;
      SplitAtSeparator(a[1..], sep, b);
    }
  }

  // ---------------------------------------------------------------- bytes

  /** An 8-bit byte, as read from the serial port or produced by `bytearray.fromhex`. */
  newtype byte = b: int | 0 <= b < 256

  /** The ASCII whitespace `bytearray.fromhex` skips: space, tab, line feed,
      vertical tab, form feed and carriage return. */
  predicate IsAsciiSpace(c: char)
  {
    c == ' ' || '\t' <= c <= '\r'
  }

  /** `bytearray.fromhex(s)`: whitespace before a pair of hex digits is
      skipped; anything else (a lone digit, a non-hex character, whitespace
      inside a pair) raises ValueError. */
  function FromHex(s: string): (r: Py<seq<byte>>)
    ensures r.Ok? ==> |r.value| <= |s| / 2
    ensures r.Ok? && AllHex(s) ==> |r.value| == |s| / 2
    ensures r.Raise? ==> r.error == ValueError
    decreases |s|
  {
    if s == [] then Ok([])
    else if IsAsciiSpace(s[0]) then FromHex(s[1..])
    else if |s| == 1 || !IsHexDigit(s[0]) || !IsHexDigit(s[1]) then Raise(ValueError)
    else
      match FromHex(s[2..])
      case Raise(e) => Raise(e)
      case Ok(rest) => Ok([(16 * HexDigitValue(s[0]) + HexDigitValue(s[1])) as byte] + rest)
  }

  /** The text of an ASCII byte. */
  function AsciiChar(b: byte): char
    requires b < 128
  {
    b as int as char
  }

  /** `str(bytes, 'utf-8')` where the bytes are decoded one at a time, as the
      serial reader does: a byte of 0x80 or more is never a complete UTF-8
      sequence on its own and raises UnicodeDecodeError. */
  function DecodeAscii(bytes: seq<byte>): (r: Py<string>)
    ensures r.Ok? <==> forall k :: 0 <= k < |bytes| ==> bytes[k] < 128
    ensures r.Raise? ==> r.error == UnicodeDecodeError
    ensures r.Ok? ==> |r.value| == |bytes| && forall k :: 0 <= k < |bytes| ==> r.value[k] == AsciiChar(bytes[k])
  {
    if forall k :: 0 <= k < |bytes| ==> bytes[k] < 128
    then Ok(seq(|bytes|, k requires 0 <= k < |bytes| => AsciiChar(bytes[k])))
    else Raise(UnicodeDecodeError)
  }
}
