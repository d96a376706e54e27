/**
 * The phase-list mini-grammar of the validator (`parsePhases` in app/lib/validator.tsx):
 * a `[`-prefixed JSON literal, an `a-b` inclusive range, or a comma list whose
 * unparseable entries are dropped. Every exception is caught, so it always yields a list.
 */
module Phases {
  import opened Wrappers
  import opened JsText
  import opened Json

  /** The largest length `new Array(len)` accepts; a longer one throws `RangeError`. */
  const MaxArrayLength: int := 0xFFFF_FFFF

  /** `Array.from({length: end - start + 1}, (_, i) => start + i)`: the ascending run
      start, start+1, ..., end; empty when end < start, and empty (the `RangeError` being
      caught) when the run is longer than an array may be. */
  function Range(start: int, end: int): (r: seq<Json>)
    ensures 0 < end - start + 1 <= MaxArrayLength ==> |r| == end - start + 1
    ensures end < start || end - start + 1 > MaxArrayLength ==> r == []
    ensures forall i :: 0 <= i < |r| ==> r[i] == JNumber(start + i)
  {
    var len := end - start + 1;
    if len <= 0 || len > MaxArrayLength then [] else seq(len, i => JNumber(start + i))
  }

  /** The range branch once both bounds went through `Number`: a `NaN` bound makes the
      length `NaN`, which `Array.from` reads as 0. */
  function RangeOf(start: Option<int>, end: Option<int>): seq<Json> {
    if start.Some? && end.Some? then Range(start.value, end.value) else []
  }

  /** The list branch: `tokens.map(v => parseInt(v.trim())).filter(v => !isNaN(v))`. */
  function ListPhases(tokens: seq<string>): (r: seq<Json>)
    ensures |r| <= |tokens|
    ensures forall i :: 0 <= i < |r| ==> r[i].JNumber?
    decreases |tokens|
  {
    if tokens == [] then []
    else
      var last := tokens[|tokens| - 1];
      ListPhases(tokens[..|tokens| - 1]) +
        match ParseInt(Trim(last)) {
          case None => []
          case Some(v) => [JNumber(v)]
        }
  }

  /** `parsePhases(value)`. `None` is a missing cell: `undefined.startsWith` throws, and the
      handler returns `[]`. */
  function ParsePhases(value: Option<string>, decode: Decoder): (r: seq<Json>)
    ensures value.None? ==> r == []
    ensures value.Some? && !StartsWith(value.value, "[") ==> forall i :: 0 <= i < |r| ==> r[i].JNumber?
  {
    match value
    case None => []
    case Some(s) =>
      if StartsWith(s, "[") then
        match decode(s) {
          case Some(JArray(items)) => items
          case _ => []
        }
      else if '-' in s then
        SplitWithSeparator(s, '-');
        var bounds := Split(s, '-');
        RangeOf(ToNumber(bounds[0]), ToNumber(bounds[1]))
      else ListPhases(Split(s, ','))
  }

  lemma DashBranch(s: string, decode: Decoder)
    requires !StartsWith(s, "[") && '-' in s
    ensures |Split(s, '-')| >= 2
    ensures ParsePhases(Some(s), decode) == RangeOf(ToNumber(Split(s, '-')[0]), ToNumber(Split(s, '-')[1]))
  {
    SplitWithSeparator(s, '-');
  }

  lemma SplitDecimalRange(x: string, y: string)
    requires forall i :: 0 <= i < |x| ==> '0' <= x[i] <= '9'
    requires forall i :: 0 <= i < |y| ==> '0' <= y[i] <= '9'
    ensures Split(x + "-" + y, '-') == [x, y]
  {
    assert '-' !in x;
    assert '-' !in y;
    SplitAtFirst(x, '-', y);
    assert x + "-" + y == x + ['-'] + y;
    SplitWithoutSeparator(y, '-');
  }

  /** "a-b" yields the ascending integers a..b (none when b < a). */
  lemma ParsePhasesRange(a: nat, b: nat, decode: Decoder)
    ensures ParsePhases(Some(NatToString(a) + "-" + NatToString(b)), decode) == Range(a, b)
    ensures a <= b && b - a < MaxArrayLength ==>
              |ParsePhases(Some(NatToString(a) + "-" + NatToString(b)), decode)| == b - a + 1
    ensures b < a ==> ParsePhases(Some(NatToString(a) + "-" + NatToString(b)), decode) == []
  {
    var x, y := NatToString(a), NatToString(b);
    var s := x + "-" + y;
    assert s[0] == x[0] && s[|x|] == '-';
    SplitDecimalRange(x, y);
    DashBranch(s, decode);
    ToNumberOfNatToString(a);
    ToNumberOfNatToString(b);
  }

  /** Whatever the text, a range written with '-' yields consecutive integers. */
  lemma {:induction false} DashYieldsConsecutive(s: string, decode: Decoder)
    requires !StartsWith(s, "[") && '-' in s
    ensures var r := ParsePhases(Some(s), decode);
            forall i :: 0 <= i < |r| - 1 ==> r[i].JNumber? && r[i + 1] == JNumber(r[i].n + 1)
  {
  }

  /** A missing cell yields the empty list, as does a literal that does not decode. */
  lemma ParsePhasesFailures(s: string, decode: Decoder)
    ensures ParsePhases(None, decode) == []
    ensures StartsWith(s, "[") && decode(s).None? ==> ParsePhases(Some(s), decode) == []
  {
  }

  lemma ListBranch(s: string, decode: Decoder)
    requires !StartsWith(s, "[") && '-' !in s
    ensures ParsePhases(Some(s), decode) == ListPhases(Split(s, ','))
  {
  }

  /** "1-3" gives 1, 2, 3. */
  lemma ExampleRange(decode: Decoder)
    ensures ParsePhases(Some("1-3"), decode) == [JNumber(1), JNumber(2), JNumber(3)]
  {
    ParsePhasesRange(1, 3, decode);
    assert NatToString(1) + "-" + NatToString(3) == "1-3";
  }

  /** "5-3" gives nothing. */
  lemma ExampleReversedRange(decode: Decoder)
    ensures ParsePhases(Some("5-3"), decode) == []
  {
    ParsePhasesRange(5, 3, decode);
    assert NatToString(5) + "-" + NatToString(3) == "5-3";
  }

  lemma SplitExample()
    ensures Split("2,4,5", ',') == ["2", "4", "5"]
  {
    SplitAtFirst("2", ',', "4,5");
    SplitAtFirst("4", ',', "5");
    SplitWithoutSeparator("5", ',');
    assert "2,4,5" == "2" + [','] + "4,5";
    assert "4,5" == "4" + [','] + "5";
  }

  lemma ListPhasesSnoc(tokens: seq<string>, t: string, v: int)
    requires ParseInt(Trim(t)) == Some(v)
    ensures ListPhases(tokens + [t]) == ListPhases(tokens) + [JNumber(v)]
  {
    assert (tokens + [t])[..|tokens|] == tokens;
  }

  lemma ListPhasesSnocDrop(tokens: seq<string>, t: string)
    requires ParseInt(Trim(t)).None?
    ensures ListPhases(tokens + [t]) == ListPhases(tokens)
  {
    assert (tokens + [t])[..|tokens|] == tokens;
  }

  /** A number is listed exactly when some token parses to it: a token whose `parseInt`
      fails is dropped, and nothing else is. */
  lemma {:induction false} ListPhasesMembers(tokens: seq<string>)
    ensures forall v :: JNumber(v) in ListPhases(tokens) <==>
      exists t :: t in tokens && ParseInt(Trim(t)) == Some(v)
    decreases |tokens|
  {
    if tokens != [] {
      var init, last := tokens[..|tokens| - 1], tokens[|tokens| - 1];
      assert tokens == init + [last];
      ListPhasesMembers(init);
      match ParseInt(Trim(last)) {
        case None => ListPhasesSnocDrop(init, last);
        case Some(w) => ListPhasesSnoc(init, last, w);
      }
    }
  }

  /** The decimal texts of `ns`. */
  function Numerals(ns: seq<nat>): seq<string>
    decreases |ns|
  {
    if ns == [] then [] else Numerals(ns[..|ns| - 1]) + [NatToString(ns[|ns| - 1])]
  }

  /** The JSON numbers `ns`. */
  function Numbers(ns: seq<nat>): seq<Json>
    decreases |ns|
  {
    if ns == [] then [] else Numbers(ns[..|ns| - 1]) + [JNumber(ns[|ns| - 1])]
  }

  /** A comma list of decimal numbers yields those numbers, in order. */
  lemma {:induction false} ListOfNumerals(ns: seq<nat>)
    ensures ListPhases(Numerals(ns)) == Numbers(ns)
    decreases |ns|
  {
    if ns != [] {
      var k := |ns| - 1;
      ListOfNumerals(ns[..k]);
      var d := NatToString(ns[k]);
      TrimStartKeeps(d);
      TrimEndKeeps(d);
      ParseIntRoundTrip(ns[k]);
      ListPhasesSnoc(Numerals(ns[..k]), d, ns[k]);
    }
  }

  lemma NumeralsExample()
    ensures Numerals([2, 4, 5]) == ["2", "4", "5"]
    ensures Numbers([2, 4, 5]) == [JNumber(2), JNumber(4), JNumber(5)]
  {
    var ns: seq<nat> := [2, 4, 5];
    assert ns[..2] == [2, 4] && ns[..2][..1] == [2] && [2][..0] == [];
  }

  lemma ListExample()
    ensures ListPhases(["2", "4", "5"]) == [JNumber(2), JNumber(4), JNumber(5)]
  {
    ListOfNumerals([2, 4, 5]);
    NumeralsExample();
  }

  /** "2,4,5" gives 2, 4, 5. */
  lemma ExampleList(decode: Decoder)
    ensures ParsePhases(Some("2,4,5"), decode) == [JNumber(2), JNumber(4), JNumber(5)]
  {
    assert '-' !in "2,4,5" by { assert "2,4,5" == ['2', ',', '4', ',', '5']; }
    assert !StartsWith("2,4,5", "[") by { assert "2,4,5"[..1] == "2"; }
    ListBranch("2,4,5", decode);
    SplitExample();
    ListExample();
  }

  lemma GarbageToken()
    ensures ParseInt(Trim("abc")) == None
  {
    TrimStartKeeps("abc");
    TrimEndKeeps("abc");
    assert DigitPrefixLength("abc", 10) == 0;
  }

  /** "abc" gives nothing: its only entry does not parse. */
  lemma ExampleGarbage(decode: Decoder)
    ensures ParsePhases(Some("abc"), decode) == []
  {
    assert '-' !in "abc" && ',' !in "abc" by { assert "abc" == ['a', 'b', 'c']; }
    assert !StartsWith("abc", "[") by { assert "abc"[..1] == "a"; }
    ListBranch("abc", decode);
    SplitWithoutSeparator("abc", ',');
    GarbageToken();
    assert ListPhases(["abc"]) == [];
  }
}
