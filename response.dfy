/** How the engine turns what the ELM327 sends back into a line of hex data:
    read up to the '>' prompt, normalise line endings and "NO DATA", then cut
    the echoed request bytes off the start of every line. */
module Response {
  import opened PyStr

  /** The prompt the ELM327 prints once it is ready for the next request. */
  const Prompt: byte := 0x3E

  /** What the adapter sends before its first prompt. */
  function Frame(stream: seq<byte>): (r: seq<byte>)
    requires Prompt in stream
    ensures |r| < |stream| && r == stream[..|r|]
    ensures stream[|r|] == Prompt && Prompt !in r
  {
    if stream[0] == Prompt then []
    else
      var rest := Frame(stream[1..]);
      assert stream[1..][..|rest|] == stream[1..|rest| + 1];
      [stream[0]] + rest
  }

  /** The reply as text: the frame decoded one byte at a time. */
  function Received(stream: seq<byte>): Py<string>
    requires Prompt in stream
  {
    DecodeAscii(Frame(stream))
  }

  /** The read loop of GetResponse: one byte at a time until the prompt,
      every byte but the prompt decoded and appended to the response. */
  method ReadUntilPrompt(stream: seq<byte>) returns (r: Py<string>)
    requires Prompt in stream
    ensures r == Received(stream)
  {
    ghost var frame := Frame(stream);
    var response: string := "";
    var i := 0;
    var readChar: int := 1;
    while readChar != Prompt as int
      invariant i <= |frame| + 1
      invariant readChar == Prompt as int <==> i == |frame| + 1
      invariant |response| == if readChar == Prompt as int then i - 1 else i
      invariant forall k :: 0 <= k < |response| ==> frame[k] < 128 && response[k] == AsciiChar(frame[k])
      decreases |stream| - i
    {
      var b := stream[i];
      assert i < |frame| <==> b != Prompt;
      i := i + 1;
      readChar := b as int;
      if b != Prompt {
        if b >= 128 {
          assert frame[i - 1] == b;
          return Raise(UnicodeDecodeError);
        }
        response := response + [AsciiChar(b)];
      }
    }
    assert |response| == |frame|;
    assert DecodeAscii(frame).Ok?;
    assert DecodeAscii(frame).value == response;
    r := Ok(response);
  }

  /** The bytes of an ASCII text. */
  function AsciiBytes(text: string): (bs: seq<byte>)
    requires forall k :: 0 <= k < |text| ==> text[k] < 128 as char
    ensures |bs| == |text|
  {
    seq(|text|, k requires 0 <= k < |text| => text[k] as int as byte)
  }

  /** Whatever follows the first prompt is not part of the reply. */
  lemma {:induction false} FrameOfReply(reply: seq<byte>, rest: seq<byte>)
    requires Prompt !in reply
    ensures Frame(reply + [Prompt] + rest) == reply
    decreases |reply|
  {
    var stream := reply + [Prompt] + rest;
    if reply != [] {
      assert stream[1..] == reply[1..] + [Prompt] + rest;
      FrameOfReply(reply[1..], rest);
    }
  }

  /** An ASCII reply without '>' is received as exactly its text. */
  lemma ReceivedText(text: string, rest: seq<byte>)
    requires forall k :: 0 <= k < |text| ==> text[k] < 128 as char
    requires '>' !in text
    ensures Received(AsciiBytes(text) + [Prompt] + rest) == Ok(text)
  {
    var bs := AsciiBytes(text);
    assert Prompt !in bs by {
      forall k | 0 <= k < |bs|
        ensures bs[k] != Prompt
      {
        assert text[k] != '>';
      }
    }
    FrameOfReply(bs, rest);
    var decoded := DecodeAscii(bs);
    assert decoded.Ok?;
    assert decoded.value == text by {
      forall k | 0 <= k < |text|
        ensures decoded.value[k] == text[k]
      {
        assert decoded.value[k] == AsciiChar(bs[k]);
      }
    }
  }

  /** `.replace('\r', '\n').replace('\n\n', '\n').replace('NO DATA', '00000000000000')` */
  function Normalize(raw: string): string
  {
    Replace(Replace(Replace(raw, "\r", "\n"), "\n\n", "\n"), "NO DATA", "00000000000000")
  }

  /** A normalised reply has no carriage return left. */
  lemma NormalizeNoCarriageReturn(raw: string)
    ensures '\r' !in Normalize(raw)
  {
    var s1 := Replace(raw, "\r", "\n");
    var s2 := Replace(s1, "\n\n", "\n");
    ReplaceRemovesAll(raw, "\r", "\n");
    if '\r' in s1 {
      var i :| 0 <= i < |s1| && s1[i] == '\r';
      assert OccursAt(s1, i, "\r");
    }
    if '\r' in s2 {
      ReplaceChars(s1, "\n\n", "\n", '\r');
    }
    if '\r' in Normalize(raw) {
      ReplaceChars(s2, "NO DATA", "00000000000000", '\r');
    }
  }

  /** A normalised reply never says "NO DATA": the zeros stand in for it. */
  lemma NormalizeNoData(raw: string)
    ensures !Contains(Normalize(raw), "NO DATA")
  {
    ReplaceRemovesAll(Replace(Replace(raw, "\r", "\n"), "\n\n", "\n"), "NO DATA", "00000000000000");
  }

  /** A one-line reply ending in the ELM327's usual "\r\r" keeps a single
      line break; only "NO DATA" is left to replace. */
  lemma NormalizeOneLine(text: string)
    requires '\r' !in text && '\n' !in text
    ensures Normalize(text + "\r\r") == Replace(text + "\n", "NO DATA", "00000000000000")
  {
    var raw := text + "\r\r";
    forall i: nat | i < |text|
      ensures !OccursAt(raw, i, "\r")
    {
      assert raw[i] == text[i];
    }
    ReplaceFirst(raw, "\r", "\n", |text|);
    assert raw[|text| + 1..] == "\r";
    assert Replace("\r", "\r", "\n") == "\n" + Replace("", "\r", "\n");
    var s1 := text + "\n\n";
    assert Replace(raw, "\r", "\n") == s1;
    forall i: nat | i < |text|
      ensures !OccursAt(s1, i, "\n\n")
    {
      assert s1[i] == text[i];
    }
    ReplaceFirst(s1, "\n\n", "\n", |text|);
    assert s1[|text| + 2..] == "" && s1[..|text|] == text;
    assert Replace("", "\n\n", "\n") == "";
    assert Replace(s1, "\n\n", "\n") == text + "\n";
  }

  /** A hex data reply is passed through with one line break. */
  lemma NormalizeTypicalReply(data: string)
    requires AllHex(data)
    ensures Normalize(data + "\r\r") == data + "\n"
  {
    NormalizeOneLine(data);
    var s := data + "\n";
    forall i: nat | i <= |s|
      ensures !OccursAt(s, i, "NO DATA")
    {
      if i + 7 <= |s| {
        assert s[i] == data[i] && IsHexDigit(data[i]);
        assert s[i..i + 7][0] == s[i] != 'N';
      }
    }
    ReplaceAbsent(s, "NO DATA", "00000000000000");
  }

  /** "NO DATA" becomes seven zero bytes. */
  lemma NormalizeNoDataReply(raw: string)
    requires raw == "NO DATA\r\r"
    ensures Normalize(raw) == "00000000000000\n"
  {
    var text := "NO DATA";
    assert raw == text + "\r\r";
    assert '\n' !in text && '\r' !in text by {
      assert forall i :: 0 <= i < |text| ==> text[i] != '\n' && text[i] != '\r';
    }
    NormalizeOneLine(text);
    var s := text + "\n";
    assert s[..7] == text;
    ReplaceFirst(s, text, "00000000000000", 0);
    assert s[7..] == "\n";
    assert Replace("\n", text, "00000000000000") == "\n";
  }

  /** `k` copies of `c`. */
  function Repeat(c: char, k: nat): (s: string)
    ensures |s| == k && forall i :: 0 <= i < k ==> s[i] == c
  {
    if k == 0 then [] else [c] + Repeat(c, k - 1)
  }

  /** The first pass turns a run of carriage returns into as many line feeds. */
  lemma {:induction false} CarriageReturnsBecomeNewlines(k: nat)
    ensures Replace(Repeat('\r', k), "\r", "\n") == Repeat('\n', k)
  {
    if k > 0 {
      var s := Repeat('\r', k);
      assert s[..1] == "\r" && s[1..] == Repeat('\r', k - 1);
      CarriageReturnsBecomeNewlines(k - 1);
    }
  }

  /** The second pass merges a run of `k` line feeds pair by pair, leaving
      `(k + 1) / 2` of them. */
  lemma {:induction false} NewlinePairsMerge(k: nat)
    ensures Replace(Repeat('\n', k), "\n\n", "\n") == Repeat('\n', (k + 1) / 2)
    decreases k
  {
    if k >= 2 {
      var s := Repeat('\n', k);
      assert s[..2] == "\n\n";
      assert s[2..] == Repeat('\n', k - 2);
      NewlinePairsMerge(k - 2);
      assert "\n" + Repeat('\n', (k - 1) / 2) == Repeat('\n', (k + 1) / 2);
    }
  }

  /** A run of line feeds holds neither a carriage return nor "NO DATA", so
      the first and last passes leave it alone. */
  lemma NewlinesUntouched(k: nat)
    ensures Replace(Repeat('\n', k), "\r", "\n") == Repeat('\n', k)
    ensures Replace(Repeat('\n', k), "NO DATA", "00000000000000") == Repeat('\n', k)
  {
    var s := Repeat('\n', k);
    forall i: nat | i <= |s|
      ensures !OccursAt(s, i, "\r") && !OccursAt(s, i, "NO DATA")
    {
      if i < |s| {
        assert s[i..i + 1][0] == s[i];
        if i + 7 <= |s| {
          assert s[i..i + 7][0] == s[i];
        }
      }
    }
    ReplaceAbsent(s, "\r", "\n");
    ReplaceAbsent(s, "NO DATA", "00000000000000");
  }

  /** A run of `k` carriage returns normalises to `(k + 1) / 2` line feeds. */
  lemma NormalizeCarriageReturnRun(k: nat)
    ensures Normalize(Repeat('\r', k)) == Repeat('\n', (k + 1) / 2)
  {
    CarriageReturnsBecomeNewlines(k);
    NewlinePairsMerge(k);
    NewlinesUntouched((k + 1) / 2);
  }

  /** A run of `k` line feeds normalises to `(k + 1) / 2` line feeds. */
  lemma NormalizeNewlineRun(k: nat)
    ensures Normalize(Repeat('\n', k)) == Repeat('\n', (k + 1) / 2)
  {
    NewlinesUntouched(k);
    NewlinePairsMerge(k);
    NewlinesUntouched((k + 1) / 2);
  }

  /** Line-ending normalisation is a single pass, so it is not idempotent:
      three or more carriage returns leave at least two line feeds, which a
      second pass merges again. */
  lemma NormalizeNotIdempotent(k: nat)
    requires k >= 3
    ensures Normalize(Normalize(Repeat('\r', k))) != Normalize(Repeat('\r', k))
  {
    var m := (k + 1) / 2;
    NormalizeCarriageReturnRun(k);
    NormalizeNewlineRun(m);
    assert |Repeat('\n', (m + 1) / 2)| < |Repeat('\n', m)|;
  }

  // ---------------------------------------------------------------- pruning

  /** Every line with its first `width` characters cut off, lines concatenated. */
  function PruneLines(lines: seq<string>, width: nat): string
  {
    if lines == [] then "" else PruneLines(lines[..|lines| - 1], width) + Drop(lines[|lines| - 1], width)
  }

  /** What PruneData returns: the lines of `data` without their first
      `removeByteCount` bytes (two hex digits each), joined into one line. */
  function Pruned(data: string, removeByteCount: nat): string
  {
    PruneLines(Split(data, '\n'), 2 * removeByteCount)
  }

  method PruneData(data: string, removeByteCount: nat) returns (r: string)
    ensures r == Pruned(data, removeByteCount)
  {
    var lines := Split(data, '\n');
    r := "";
    for i := 0 to |lines|
      invariant r == PruneLines(lines[..i], 2 * removeByteCount)
    {
      assert lines[..i + 1][..i] == lines[..i];
      r := r + Drop(lines[i], 2 * removeByteCount);
    }
    assert lines[..|lines|] == lines;
  }

  lemma {:induction false} PruneLinesAppend(a: seq<string>, b: seq<string>, width: nat)
    ensures PruneLines(a + b, width) == PruneLines(a, width) + PruneLines(b, width)
    decreases |b|
  {
    if b == [] {
      assert a + b == a;
    } else {
      var b' := b[..|b| - 1];
      assert (a + b)[..|a + b| - 1] == a + b';
      assert (a + b)[|a + b| - 1] == b[|b| - 1];
      PruneLinesAppend(a, b', width);
    }
  }

  lemma {:induction false} PruneLinesNoNewline(lines: seq<string>, width: nat)
    requires forall k :: 0 <= k < |lines| ==> '\n' !in lines[k]
    ensures '\n' !in PruneLines(lines, width)
  {
    if lines != [] {
      PruneLinesNoNewline(lines[..|lines| - 1], width);
      var last := lines[|lines| - 1];
      if width <= |last| {
        assert forall c :: c in last[width..] ==> c in last;
      }
    }
  }

  lemma {:induction false} PruneLinesLength(lines: seq<string>, width: nat)
    requires |lines| >= 1
    ensures |PruneLines(lines, width)| <= |Join(lines, '\n')| + 1 - |lines|
    decreases |lines|
  {
    if |lines| == 1 {
      assert PruneLines(lines, width) == PruneLines([], width) + Drop(lines[0], width);
    } else {
      PruneLinesLength(lines[1..], width);
      PruneLinesAppend([lines[0]], lines[1..], width);
      assert [lines[0]] + lines[1..] == lines;
      assert PruneLines([lines[0]], width) == PruneLines([], width) + Drop(lines[0], width);
    }
  }

  /** The pruned data is a single line. */
  lemma PrunedSingleLine(data: string, removeByteCount: nat)
    ensures '\n' !in Pruned(data, removeByteCount)
  {
    SplitPiecesFree(data, '\n');
    PruneLinesNoNewline(Split(data, '\n'), 2 * removeByteCount);
  }

  /** Pruning is line by line: the lines before and after a line break are
      pruned independently. */
  lemma PrunedAtLineBreak(a: string, b: string, removeByteCount: nat)
    ensures Pruned(a + "\n" + b, removeByteCount) == Pruned(a, removeByteCount) + Pruned(b, removeByteCount)
  {
    SplitAtSeparator(a, '\n', b);
    PruneLinesAppend(Split(a, '\n'), Split(b, '\n'), 2 * removeByteCount);
  }

  /** A reply of one line loses exactly its first `removeByteCount` bytes. */
  lemma PrunedOneLine(line: string, removeByteCount: nat)
    requires '\n' !in line
    ensures Pruned(line, removeByteCount) == Drop(line, 2 * removeByteCount)
  {
    SplitNoSeparator(line, '\n');
    var lines := Split(line, '\n');
    assert PruneLines(lines, 2 * removeByteCount) == PruneLines([], 2 * removeByteCount) + Drop(line, 2 * removeByteCount);
  }

  /** A one-line hex reply: normalising and cutting off the echoed request
      bytes leaves exactly the data bytes. */
  lemma PrunedReply(echo: string, payload: string, n: nat)
    requires AllHex(echo + payload) && |echo| == 2 * n
    ensures Pruned(Normalize(echo + payload + "\r\r"), n) == payload
  {
    var data := echo + payload;
    NormalizeTypicalReply(data);
    assert '\n' !in data by {
      assert forall k :: 0 <= k < |data| ==> IsHexDigit(data[k]);
    }
    PrunedAtLineBreak(data, "", n);
    assert data + "\n" + "" == data + "\n";
    PrunedOneLine(data, n);
    PrunedOneLine("", n);
    assert data[2 * n..] == payload;
  }

  /** Every line break costs at least one character: the pruned data is
      never longer than the reply. */
  lemma PrunedShorter(data: string, removeByteCount: nat)
    ensures |Pruned(data, removeByteCount)| <= |data|
  {
    JoinSplit(data, '\n');
    PruneLinesLength(Split(data, '\n'), 2 * removeByteCount);
  }
}
