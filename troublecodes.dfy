/** Diagnostic trouble codes: the pruned reply to a mode 03 or 07 request is
    read four digits at a time; a non-zero group becomes a code whose first
    digit is replaced through the prefix table, and each code is then looked
    up in the description table. */
module TroubleCodes {
  import opened PyStr

  /** The reply cut into groups of four characters; the last may be shorter. */
  function Groups(data: string): (groups: seq<string>)
    ensures |groups| == (|data| + 3) / 4
    ensures forall i :: 0 <= i < |groups| ==> 1 <= |groups[i]| <= 4
    decreases |data|
  {
    if data == [] then [] else [Take(data, 4)] + Groups(Drop(data, 4))
  }

  function Concat(groups: seq<string>): string
  {
    if groups == [] then "" else groups[0] + Concat(groups[1..])
  }

  /** The groups are the reply, cut up. */
  lemma {:induction false} ConcatGroups(data: string)
    ensures Concat(Groups(data)) == data
    decreases |data|
  {
    if data != [] {
      ConcatGroups(Drop(data, 4));
      var groups := Groups(data);
      assert groups[1..] == Groups(Drop(data, 4));
      if |data| > 4 {
        assert data[..4] + data[4..] == data;
      }
    }
  }

  /** One group: zero means "no code"; otherwise the prefix of its first
      digit and its last three digits. `int(group)` reads the group as a
      decimal number (ValueError otherwise); a first digit missing from the
      prefix table raises KeyError. */
  function GroupCode(group: string, prefix: map<string, string>): Py<seq<string>>
    requires group != []
  {
    var n :- ParseDec(group);
    if n == 0 then Ok([])
    else if [group[0]] !in prefix then Raise(KeyError)
    else Ok([prefix[[group[0]]] + group[1..]])
  }

  /** `Ok(codes + rest)`, or the first exception raised. */
  function Then(first: Py<seq<string>>, rest: Py<seq<string>>): Py<seq<string>>
  {
    match first
    case Raise(e) => Raise(e)
    case Ok(codes) => match rest
      case Raise(e) => Raise(e)
      case Ok(more) => Ok(codes + more)
  }

  /** DataToTroubleCodes: the codes of the groups, in order, or the first
      exception a group raises. */
  function TroubleCodesOf(data: string, prefix: map<string, string>): Py<seq<string>>
    decreases |data|
  {
    if data == [] then Ok([])
    else Then(GroupCode(Take(data, 4), prefix), TroubleCodesOf(Drop(data, 4), prefix))
  }

  method DataToTroubleCodes(data: string, prefix: map<string, string>) returns (r: Py<seq<string>>)
    ensures r == TroubleCodesOf(data, prefix)
  {
    var codes: seq<string> := [];
    var rest := data;
    ThenUnit(TroubleCodesOf(data, prefix));
    while |rest| > 0
      invariant TroubleCodesOf(data, prefix) == Then(Ok(codes), TroubleCodesOf(rest, prefix))
      decreases |rest|
    {
      var group := Take(rest, 4);
      ThenAssociative(Ok(codes), GroupCode(group, prefix), TroubleCodesOf(Drop(rest, 4), prefix));
      var n := ParseDec(group);
      if n.Raise? {
        return Raise(n.error);
      }
      if n.value != 0 {
        if [group[0]] !in prefix {
          return Raise(KeyError);
        }
        codes := codes + [prefix[[group[0]]] + group[1..]];
      } else {
        assert codes + [] == codes;
      }
      rest := Drop(rest, 4);
    }
    assert codes + [] == codes;
    r := Ok(codes);
  }

  /** The codes come from the groups: never more codes than groups. */
  lemma {:induction false} TroubleCodesCount(data: string, prefix: map<string, string>)
    ensures TroubleCodesOf(data, prefix).Ok? ==> |TroubleCodesOf(data, prefix).value| <= (|data| + 3) / 4
    decreases |data|
  {
    if data != [] {
      TroubleCodesCount(Drop(data, 4), prefix);
    }
  }

  /** A reply of zeros only, which is what "NO DATA" becomes, holds no code. */
  lemma {:induction false} ZerosHaveNoCodes(data: string, prefix: map<string, string>)
    requires forall i :: 0 <= i < |data| ==> data[i] == '0'
    ensures TroubleCodesOf(data, prefix) == Ok([])
    decreases |data|
  {
    if data != [] {
      var group := Take(data, 4);
      ZeroValue(group);
      ZerosHaveNoCodes(Drop(data, 4), prefix);
      assert GroupCode(group, prefix) == Ok([]);
      ThenUnit(Ok([]));
    }
  }

  lemma {:induction false} ZeroValue(s: string)
    requires forall i :: 0 <= i < |s| ==> s[i] == '0'
    ensures AllDec(s) && DecValue(s) == 0
  {
    if s != [] {
      ZeroValue(s[..|s| - 1]);
    }
  }

  /** A four-digit group of a decimal, non-zero number becomes one code: its
      first digit's prefix followed by its last three digits. */
  lemma OneGroup(group: string, prefix: map<string, string>)
    requires |group| == 4 && AllDec(group) && DecValue(group) != 0 && [group[0]] in prefix
    ensures TroubleCodesOf(group, prefix) == Ok([prefix[[group[0]]] + group[1..]])
  {
    assert Drop(group, 4) == [];
    assert Take(group, 4) == group;
    var code := prefix[[group[0]]] + group[1..];
    assert [code] + [] == [code];
  }

  /** Any character other than a decimal digit makes the reply raise: `int`
      rejects its group, unless an earlier group raised first. */
  lemma {:induction false} NonDecimalRaises(data: string, prefix: map<string, string>, i: nat)
    requires i < |data| && !IsDecDigit(data[i])
    ensures TroubleCodesOf(data, prefix).Raise?
    decreases |data|
  {
    var group := Take(data, 4);
    if i < 4 {
      assert group[i] == data[i];
      assert !AllDec(group);
    } else {
      assert Drop(data, 4)[i - 4] == data[i];
      NonDecimalRaises(Drop(data, 4), prefix, i - 4);
    }
  }

  /** A non-zero decimal group whose first digit has no entry in the prefix
      table makes the reply raise (KeyError, unless an earlier group raised
      first). */
  lemma {:induction false} MissingPrefixRaises(data: string, prefix: map<string, string>, i: nat)
    requires i < |data| && i % 4 == 0
    requires AllDec(Slice(data, i, i + 4)) && DecValue(Slice(data, i, i + 4)) != 0
    requires [data[i]] !in prefix
    ensures TroubleCodesOf(data, prefix).Raise?
    decreases |data|
  {
    if i == 0 {
      var group := Take(data, 4);
      assert group == Slice(data, 0, 4);
      assert group[0] == data[0];
      assert GroupCode(group, prefix) == Raise(KeyError);
    } else {
      var tail := Drop(data, 4);
      assert Slice(tail, i - 4, i) == Slice(data, i, i + 4);
      assert tail[i - 4] == data[i];
      MissingPrefixRaises(tail, prefix, i - 4);
    }
  }

  /** Groups are independent: a reply of whole groups followed by more data
      yields the codes of both parts, in order. */
  lemma {:induction false} TroubleCodesAppend(a: string, b: string, prefix: map<string, string>)
    requires |a| % 4 == 0
    ensures TroubleCodesOf(a + b, prefix) == Then(TroubleCodesOf(a, prefix), TroubleCodesOf(b, prefix))
    decreases |a|
  {
    if a == [] {
      assert a + b == b;
      match TroubleCodesOf(b, prefix)
      case Raise(_) =>
      case Ok(more) => assert [] + more == more;
    } else {
      assert Take(a + b, 4) == Take(a, 4);
      assert Drop(a + b, 4) == Drop(a, 4) + b;
      TroubleCodesAppend(Drop(a, 4), b, prefix);
      ThenAssociative(GroupCode(Take(a, 4), prefix), TroubleCodesOf(Drop(a, 4), prefix), TroubleCodesOf(b, prefix));
    }
  }

  lemma ThenUnit(x: Py<seq<string>>)
    ensures Then(Ok([]), x) == x
  {
    if x.Ok? {
      assert [] + x.value == x.value;
    }
  }

  lemma ThenAssociative(x: Py<seq<string>>, y: Py<seq<string>>, z: Py<seq<string>>)
    ensures Then(x, Then(y, z)) == Then(Then(x, y), z)
  {
    if x.Ok? && y.Ok? && z.Ok? {
      assert x.value + (y.value + z.value) == (x.value + y.value) + z.value;
    }
  }

  // ---------------------------------------------------------------- descriptions

  /** The code-to-description table GetTroubleCodeData builds, or NameError
      when a code has no description. */
  function Describe(codes: seq<string>, desc: map<string, string>): Py<map<string, string>>
  {
    if forall i :: 0 <= i < |codes| ==> codes[i] in desc
    then Ok(map c | c in codes :: desc[c])
    else Raise(NameError)
  }

  /** One code without a description is enough to make Describe raise. */
  lemma UndescribedRaises(codes: seq<string>, desc: map<string, string>, code: string)
    requires code in codes && code !in desc
    ensures Describe(codes, desc) == Raise(NameError)
  {
    var i :| 0 <= i < |codes| && codes[i] == code;
  }

  method DescribeTroubleCodes(codes: seq<string>, desc: map<string, string>) returns (r: Py<map<string, string>>)
    ensures r == Describe(codes, desc)
  {
    var table: map<string, string> := map[];
    for i := 0 to |codes|
      invariant forall j :: 0 <= j < i ==> codes[j] in desc
      invariant table == map c | c in codes[..i] :: desc[c]
    {
      if codes[i] !in desc {
        return Raise(NameError);
      }
      table := table[codes[i] := desc[codes[i]]];
      assert codes[..i + 1] == codes[..i] + [codes[i]];
    }
    assert codes[..|codes|] == codes;
    r := Ok(table);
  }
}
