/**
 * The type converter that stores a subject's colour list as one text column:
 * the ARGB integers written in decimal and joined with commas, and read back
 * by splitting on commas and parsing each piece.
 */
module ColorListConverter {
  import opened Nullable
  import opened KotlinStdlib

  /** Number of commas in `s`. */
  function CommaCount(s: string): nat {
    if |s| == 0 then 0 else (if s[0] == ',' then 1 else 0) + CommaCount(s[1..])
  }

  /** `joinToString(",")` over already rendered pieces. */
  function JoinWithComma(pieces: seq<string>): string {
    if |pieces| == 0 then ""
    else if |pieces| == 1 then pieces[0]
    else pieces[0] + "," + JoinWithComma(pieces[1..])
  }

  /**
   * `split(",")`: the maximal comma-free pieces between commas, always at
   * least one (the empty string splits to one empty piece; adjacent or
   * trailing commas give empty pieces).
   */
  function Split(s: string): (r: seq<string>)
    ensures |r| == CommaCount(s) + 1
    ensures forall i :: 0 <= i < |r| ==> ',' !in r[i]
  {
    if |s| == 0 then [""]
    else if s[0] == ',' then [""] + Split(s[1..])
    else
      var t := Split(s[1..]);
      [[s[0]] + t[0]] + t[1..]
  }

  /** The decimal rendering of every colour, in order. */
  function Renderings(colors: seq<Int32>): (r: seq<string>)
    ensures |r| == |colors|
    ensures forall i :: 0 <= i < |r| ==> r[i] == IntToString(colors[i])
  {
    if |colors| == 0 then [] else [IntToString(colors[0])] + Renderings(colors[1..])
  }

  /** `map { it.toInt() }`, which throws, here `None`, at the first piece that does not parse. */
  function ParseAll(pieces: seq<string>): (r: Option<seq<Int32>>)
    ensures r.Some? <==> forall i :: 0 <= i < |pieces| ==> ParseInt(pieces[i]).Some?
    ensures r.Some? ==> |r.value| == |pieces|
    ensures r.Some? ==> forall i :: 0 <= i < |pieces| ==> ParseInt(pieces[i]) == Some(r.value[i])
  {
    if |pieces| == 0 then Some([])
    else
      match ParseInt(pieces[0])
      case None => None
      case Some(v) =>
        match ParseAll(pieces[1..])
        case None => None
        case Some(vs) => Some([v] + vs)
  }

  /** `fromColorList`. */
  function FromColorList(colors: seq<Int32>): string {
    JoinWithComma(Renderings(colors))
  }

  /** `toColorList`; `None` where Kotlin throws `NumberFormatException`. */
  function ToColorList(text: string): (r: Option<seq<Int32>>)
    ensures r.Some? ==> |r.value| == CommaCount(text) + 1
  {
    ParseAll(Split(text))
  }

  lemma {:induction false} CommaCountAppend(a: string, b: string)
    ensures CommaCount(a + b) == CommaCount(a) + CommaCount(b)
  {
    if |a| > 0 {
      assert (a + b)[1..] == a[1..] + b;
      CommaCountAppend(a[1..], b);
    } else {
      assert a + b == b;
    }
  }

  lemma {:induction false} CommaCountFree(s: string)
    requires ',' !in s
    ensures CommaCount(s) == 0
  {
    if |s| > 0 {
      assert s[0] in s;
      assert forall c :: c in s[1..] ==> c in s;
      CommaCountFree(s[1..]);
    }
  }

  /** The serialised list has exactly one comma between consecutive colours and no other. */
  lemma {:induction false} FromColorListCommas(colors: seq<Int32>)
    requires |colors| >= 1
    ensures CommaCount(FromColorList(colors)) == |colors| - 1
  {
    IntToStringCommaFree(colors[0]);
    if |colors| > 1 {
      assert Renderings(colors)[1..] == Renderings(colors[1..]);
      CommaCountAppend(IntToString(colors[0]) + ",", FromColorList(colors[1..]));
      CommaCountAppend(IntToString(colors[0]), ",");
      CommaCountFree(IntToString(colors[0]));
      FromColorListCommas(colors[1..]);
    } else {
      CommaCountFree(IntToString(colors[0]));
    }
  }

  /** Renderings hold only digits and a leading minus sign, never a comma. */
  lemma IntToStringCommaFree(i: int)
    ensures ',' !in IntToString(i)
  {
  }

  /** A comma-free string splits to itself. */
  lemma {:induction false} SplitCommaFree(p: string)
    requires ',' !in p
    ensures Split(p) == [p]
  {
    if |p| > 0 {
      assert p[0] in p;
      assert forall c :: c in p[1..] ==> c in p;
      SplitCommaFree(p[1..]);
      assert [p[0]] + p[1..] == p;
    }
  }

  /** A comma-free prefix followed by a comma is the first piece. */
  lemma {:induction false} SplitAfterPiece(p: string, rest: string)
    requires ',' !in p
    ensures Split(p + "," + rest) == [p] + Split(rest)
  {
    if |p| == 0 {
      assert p + "," + rest == [','] + rest;
      assert ([','] + rest)[1..] == rest;
    } else {
      assert p[0] in p;
      assert forall c :: c in p[1..] ==> c in p;
      var s := p + "," + rest;
      assert s[0] == p[0];
      assert s[1..] == p[1..] + "," + rest;
      SplitAfterPiece(p[1..], rest);
      assert [p[0]] + p[1..] == p;
    }
  }

  /** `split` undoes `joinToString` when no piece contains the separator. */
  lemma {:induction false} SplitJoin(pieces: seq<string>)
    requires |pieces| >= 1
    requires forall i :: 0 <= i < |pieces| ==> ',' !in pieces[i]
    ensures Split(JoinWithComma(pieces)) == pieces
  {
    if |pieces| == 1 {
      SplitCommaFree(pieces[0]);
    } else {
      SplitJoin(pieces[1..]);
      SplitAfterPiece(pieces[0], JoinWithComma(pieces[1..]));
      assert [pieces[0]] + pieces[1..] == pieces;
    }
  }

  /** Every non-empty colour list, negative ARGB values included, is read back unchanged. */
  lemma RoundTrip(colors: seq<Int32>)
    requires |colors| >= 1
    ensures ToColorList(FromColorList(colors)) == Some(colors)
  {
    var pieces := Renderings(colors);
    forall i | 0 <= i < |pieces| ensures ',' !in pieces[i] {
      IntToStringCommaFree(colors[i]);
    }
    SplitJoin(pieces);
    forall i | 0 <= i < |pieces| ensures ParseInt(pieces[i]) == Some(colors[i]) {
      ParseIntToString(colors[i]);
    }
    var r := ParseAll(pieces);
    assert r.value == colors;
  }

  /** The round trip fails on exactly the empty list: it is stored as "", which does not parse. */
  lemma EmptyListDoesNotRoundTrip()
    ensures FromColorList([]) == ""
    ensures ToColorList("") == None
  {
  }
}
