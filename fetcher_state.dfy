/** The string rendering of the column fetcher's state machine states
    (pkg/sql/colfetcher/fetcherstate_string.go): a packed name table
    sliced by an offset table, with a numeric fallback for values that
    are not one of the nine declared states. */
module FetcherState {

  /** The declared states, stateInvalid = 0 .. stateFinished = 8. */
  const StateInvalid: int := 0
  const StateInitFetch: int := 1
  const StateResetBatch: int := 2
  const StateDecodeFirstKVOfRow: int := 3
  const StateSeekPrefix: int := 4
  const StateFetchNextKVWithUnfinishedRow: int := 5
  const StateFinalizeRow: int := 6
  const StateEmitLastBatch: int := 7
  const StateFinished: int := 8

  /** The packed identifier table. Its value is the single generated
      literal; it is written here as the concatenation of its nine pieces. */
  const PackedNames: string :=
    "stateInvalid" + "stateInitFetch" + "stateResetBatch" + "stateDecodeFirstKVOfRow" +
    "stateSeekPrefix" + "stateFetchNextKVWithUnfinishedRow" + "stateFinalizeRow" +
    "stateEmitLastBatch" + "stateFinished"

  /** The offset table into PackedNames (a uint8 array of ten entries). */
  const NameIndex: seq<nat> := [0, 12, 26, 41, 64, 79, 112, 128, 146, 159]

  /** The identifiers of the declared states, in declaration order: an
      independent reference for what each state must render as. */
  const Identifiers: seq<string> := [
    "stateInvalid", "stateInitFetch", "stateResetBatch", "stateDecodeFirstKVOfRow",
    "stateSeekPrefix", "stateFetchNextKVWithUnfinishedRow", "stateFinalizeRow",
    "stateEmitLastBatch", "stateFinished"]

  /** The number of declared states, len(_fetcherState_index) - 1. */
  const NumStates: nat := |NameIndex| - 1

  /** The offset table starts at 0, is strictly increasing and ends at the
      length of the packed table, so every slice is in bounds and non-empty. */
  lemma IndexTableWellFormed()
    ensures |NameIndex| == 10 && NumStates == 9
    ensures NameIndex[0] == 0 && NameIndex[NumStates] == |PackedNames| == 159
    ensures forall k :: 0 <= k < NumStates ==> NameIndex[k] < NameIndex[k + 1]
  {
  }

  // ---------------------------------------------------------------------
  // Decimal rendering (strconv.FormatInt(v, 10)) and its inverse.

  function DigitChar(d: nat): (c: char)
    requires d < 10
    ensures '0' <= c <= '9'
  {
    "0123456789"[d]
  }

  function DigitValue(c: char): nat
    requires '0' <= c <= '9'
  {
    (c as int - '0' as int) as nat
  }

  /** The base-10 digits of n, most significant first, without leading zeros. */
  function Digits(n: nat): (s: string)
    ensures |s| >= 1
    ensures forall k :: 0 <= k < |s| ==> '0' <= s[k] <= '9'
    ensures |s| > 1 ==> s[0] != '0'
  {
    if n < 10 then [DigitChar(n)] else Digits(n / 10) + [DigitChar(n % 10)]
  }

  /** strconv.FormatInt(v, 10): an optional minus sign, then the digits. */
  function FormatInt(v: int): (s: string)
  {
    if v < 0 then "-" + Digits(-v) else Digits(v)
  }

  predicate AllDigits(s: string) {
    forall k :: 0 <= k < |s| ==> '0' <= s[k] <= '9'
  }

  /** Reads a string of decimal digits back as a number. */
  function ParseDigits(s: string): nat
    requires AllDigits(s)
  {
    if |s| == 0 then 0 else ParseDigits(s[..|s| - 1]) * 10 + DigitValue(s[|s| - 1])
  }

  /** Reads an optionally signed decimal back as an integer. */
  function ParseInt(s: string): int
    requires |s| >= 1
    requires s[0] == '-' ==> AllDigits(s[1..])
    requires s[0] != '-' ==> AllDigits(s)
  {
    if s[0] == '-' then -(ParseDigits(s[1..]) as int) else ParseDigits(s)
  }

  lemma DigitValueOfChar(d: nat)
    requires d < 10
    ensures DigitValue(DigitChar(d)) == d
  {
  }

  lemma {:induction false} DigitsRoundTrip(n: nat)
    ensures ParseDigits(Digits(n)) == n
  {
    if n < 10 {
      DigitValueOfChar(n);
    } else {
      var s := Digits(n);
      assert s[..|s| - 1] == Digits(n / 10);
      DigitValueOfChar(n % 10);
      DigitsRoundTrip(n / 10);
    }
  }

  /** FormatInt is inverted by ParseInt, so distinct values render differently. */
  lemma FormatIntRoundTrip(v: int)
    ensures |FormatInt(v)| >= 1
    ensures FormatInt(v)[0] == '-' <==> v < 0
    ensures ParseInt(FormatInt(v)) == v
  {
    var s := FormatInt(v);
    if v < 0 {
      assert s[1..] == Digits(-v);
      DigitsRoundTrip(-v);
    } else {
      DigitsRoundTrip(v);
    }
  }

  // ---------------------------------------------------------------------
  // fetcherState.String

  const Prefix: string := "fetcherState("

  /** fetcherState.String: the state's identifier for 0 <= i < 9, and
      "fetcherState(<decimal>)" for every other value. */
  function String(i: int): (r: string)
    ensures 0 <= i < NumStates ==> r == Identifiers[i]
    ensures (i < 0 || i >= NumStates) ==>
      |r| > |Prefix| && r[..|Prefix|] == Prefix && r[|r| - 1] == ')' &&
      r[|Prefix|..|r| - 1] == FormatInt(i)
  {
    if i < 0 || i >= NumStates then
      Prefix + FormatInt(i) + ")"
    else
      IdentifierSlices(i);
      PackedNames[NameIndex[i]..NameIndex[i + 1]]
  }

  // ---------------------------------------------------------------------
  // The packed table is the identifiers laid end to end, and the offset
  // table holds the running lengths, so each slice is one identifier.

  /** The identifiers of ss laid end to end. */
  function Concat(ss: seq<string>): string {
    if |ss| == 0 then [] else Concat(ss[..|ss| - 1]) + ss[|ss| - 1]
  }

  /** Laying out fewer identifiers gives a prefix of laying out more. */
  lemma {:induction false} ConcatPrefix(ss: seq<string>, i: nat, j: nat)
    requires i <= j <= |ss|
    ensures Concat(ss[..i]) <= Concat(ss[..j])
    decreases j - i
  {
    if i < j {
      ConcatPrefix(ss, i, j - 1);
      assert ss[..j][..j - 1] == ss[..j - 1];
    }
  }

  /** Identifier i sits right after the first i identifiers. */
  lemma ConcatLast(ss: seq<string>, i: nat)
    requires i < |ss|
    ensures |Concat(ss[..i + 1])| == |Concat(ss[..i])| + |ss[i]|
    ensures Concat(ss[..i + 1])[|Concat(ss[..i])|..] == ss[i]
  {
    assert ss[..i + 1][..i] == ss[..i];
  }

  /** Slicing a layout between two running lengths yields one identifier. */
  lemma PieceAt(packed: string, lo: nat, hi: nat, ss: seq<string>, i: nat)
    requires i < |ss| && packed == Concat(ss)
    requires lo == |Concat(ss[..i])| && hi == |Concat(ss[..i + 1])|
    ensures lo <= hi <= |packed| && packed[lo..hi] == ss[i]
  {
    ConcatLast(ss, i);
    ConcatPrefix(ss, i + 1, |ss|);
    assert ss[..|ss|] == ss;
  }

  lemma PackedIsConcat()
    ensures PackedNames == Concat(Identifiers)
  {
    var ids := Identifiers;
    assert Concat(ids[..0]) == "";
    assert ids[..1][..0] == ids[..0];
    assert Concat(ids[..1]) == "stateInvalid";
    assert ids[..2][..1] == ids[..1];
    assert Concat(ids[..2]) == "stateInvalid" + "stateInitFetch";
    assert ids[..3][..2] == ids[..2];
    assert Concat(ids[..3]) == "stateInvalid" + "stateInitFetch" + "stateResetBatch";
    assert ids[..4][..3] == ids[..3];
    assert Concat(ids[..4]) ==
      "stateInvalid" + "stateInitFetch" + "stateResetBatch" + "stateDecodeFirstKVOfRow";
    assert ids[..5][..4] == ids[..4];
    assert Concat(ids[..5]) ==
      "stateInvalid" + "stateInitFetch" + "stateResetBatch" + "stateDecodeFirstKVOfRow" +
      "stateSeekPrefix";
    assert ids[..6][..5] == ids[..5];
    assert Concat(ids[..6]) ==
      "stateInvalid" + "stateInitFetch" + "stateResetBatch" + "stateDecodeFirstKVOfRow" +
      "stateSeekPrefix" + "stateFetchNextKVWithUnfinishedRow";
    assert ids[..7][..6] == ids[..6];
    assert Concat(ids[..7]) ==
      "stateInvalid" + "stateInitFetch" + "stateResetBatch" + "stateDecodeFirstKVOfRow" +
      "stateSeekPrefix" + "stateFetchNextKVWithUnfinishedRow" + "stateFinalizeRow";
    assert ids[..8][..7] == ids[..7];
    assert Concat(ids[..8]) ==
      "stateInvalid" + "stateInitFetch" + "stateResetBatch" + "stateDecodeFirstKVOfRow" +
      "stateSeekPrefix" + "stateFetchNextKVWithUnfinishedRow" + "stateFinalizeRow" +
      "stateEmitLastBatch";
    assert ids[..9][..8] == ids[..8];
    assert ids[..9] == ids;
  }

  /** Each offset is the previous one plus the length of the identifier between them. */
  lemma OffsetSteps()
    ensures NameIndex[0] == 0
    ensures forall k | 0 <= k < NumStates :: NameIndex[k + 1] == NameIndex[k] + |Identifiers[k]|
  {
  }

  /** Offset k is the length of the first k identifiers laid end to end. */
  lemma {:induction false} OffsetIsRunningLength(k: nat)
    requires k <= NumStates
    ensures NameIndex[k] == |Concat(Identifiers[..k])|
  {
    OffsetSteps();
    if k > 0 {
      OffsetIsRunningLength(k - 1);
      ConcatLast(Identifiers, k - 1);
    }
  }

  /** Slicing the packed table with the offset table yields the identifiers. */
  lemma IdentifierSlices(i: int)
    requires 0 <= i < NumStates
    ensures NameIndex[i] <= NameIndex[i + 1] <= |PackedNames|
    ensures PackedNames[NameIndex[i]..NameIndex[i + 1]] == Identifiers[i]
  {
    PackedIsConcat();
    OffsetIsRunningLength(i);
    OffsetIsRunningLength(i + 1);
    PieceAt(PackedNames, NameIndex[i], NameIndex[i + 1], Identifiers, i);
  }

  /** Each declared constant renders as its own identifier. */
  lemma ConstantsRender()
    ensures String(StateInvalid) == "stateInvalid"
    ensures String(StateInitFetch) == "stateInitFetch"
    ensures String(StateResetBatch) == "stateResetBatch"
    ensures String(StateDecodeFirstKVOfRow) == "stateDecodeFirstKVOfRow"
    ensures String(StateSeekPrefix) == "stateSeekPrefix"
    ensures String(StateFetchNextKVWithUnfinishedRow) == "stateFetchNextKVWithUnfinishedRow"
    ensures String(StateFinalizeRow) == "stateFinalizeRow"
    ensures String(StateEmitLastBatch) == "stateEmitLastBatch"
    ensures String(StateFinished) == "stateFinished"
    ensures String(-1) == "fetcherState(-1)" && String(9) == "fetcherState(9)"
  {
    assert FormatInt(-1) == "-1";
    assert FormatInt(9) == "9";
  }

  /** String is injective: distinct values, in range or not, render differently. */
  lemma StringInjective(i: int, j: int)
    requires i != j
    ensures String(i) != String(j)
  {
    var inI, inJ := 0 <= i < NumStates, 0 <= j < NumStates;
    if inI && inJ {
      IdentifiersDistinct(i, j);
    } else if inI || inJ {
      InRangeDiffersFromFallback(if inI then i else j, if inI then j else i);
    } else {
      FallbackInjective(i, j);
    }
  }

  /** A declared state's name starts with 's'; the fallback starts with 'f'. */
  lemma InRangeDiffersFromFallback(i: int, j: int)
    requires 0 <= i < NumStates && !(0 <= j < NumStates)
    ensures String(i) != String(j)
  {
    assert Identifiers[i][0] == 's';
    assert String(j)[0] == Prefix[0] == 'f';
  }

  lemma FallbackInjective(i: int, j: int)
    requires !(0 <= i < NumStates) && !(0 <= j < NumStates) && i != j
    ensures String(i) != String(j)
  {
    var si, sj := String(i), String(j);
    if si == sj {
      assert FormatInt(i) == si[|Prefix|..|si| - 1] == FormatInt(j);
      FormatIntRoundTrip(i);
      FormatIntRoundTrip(j);
    }
  }

  lemma IdentifiersDistinct(i: int, j: int)
    requires 0 <= i < NumStates && 0 <= j < NumStates && i != j
    ensures Identifiers[i] != Identifiers[j]
  {
    if |Identifiers[i]| == |Identifiers[j]| {
      // Only stateResetBatch and stateSeekPrefix share a length; they differ at position 5.
      assert Identifiers[i][5] != Identifiers[j][5];
    }
  }
}
