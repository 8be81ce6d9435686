/** The shared utilities of the application: task priorities, two-digit padding and the notice events. */
module Common {
  import opened Nullable
  import opened KotlinStdlib

  /** Task priority: each level carries the integer stored in the task table. */
  datatype Priority = LOW | MEDIUM | HIGH {

    function Value(): int {
      match this
      case LOW => 0
      case MEDIUM => 1
      case HIGH => 2
    }

    function Title(): string {
      match this
      case LOW => "低"
      case MEDIUM => "中"
      case HIGH => "高"
    }
  }

  /** `Priority.values()`, in declaration order. */
  const Priorities: seq<Priority> := [LOW, MEDIUM, HIGH]

  /** `firstOrNull { it.value == v }` over a list of priorities. */
  function FirstWithValue(ps: seq<Priority>, v: int): (r: Option<Priority>)
    ensures r.Some? ==> r.value in ps && r.value.Value() == v
    ensures r.Some? ==>
      exists k :: 0 <= k < |ps| && ps[k] == r.value && forall j :: 0 <= j < k ==> ps[j].Value() != v
    ensures r.None? ==> forall i :: 0 <= i < |ps| ==> ps[i].Value() != v
  {
    if |ps| == 0 then None
    else if ps[0].Value() == v then Some(ps[0])
    else FirstWithValue(ps[1..], v)
  }

  /** `Priority.fromInt`: the level whose value is `v`, and MEDIUM for every other integer. */
  function FromInt(v: int): (p: Priority)
    ensures 0 <= v <= 2 ==> p.Value() == v
    ensures !(0 <= v <= 2) ==> p == MEDIUM
  {
    FirstWithValue(Priorities, v).GetOr(MEDIUM)
  }

  /** Reading a stored priority back gives the level that was stored. */
  lemma FromIntValue(p: Priority)
    ensures FromInt(p.Value()) == p
  {
  }

  /** `n` copies of `c`. */
  function Repeat(c: char, n: nat): (r: string)
    ensures |r| == n
    ensures forall i :: 0 <= i < n ==> r[i] == c
  {
    if n == 0 then [] else [c] + Repeat(c, n - 1)
  }

  /** `padStart(len, c)`: `t` with copies of `c` in front until it is `len` long. */
  function PadStart(t: string, len: nat, c: char): (r: string)
    ensures |r| == if |t| >= len then |t| else len
  {
    if |t| >= len then t else Repeat(c, len - |t|) + t
  }

  /** The padded string ends with `t`, and everything in front of it is `c`. */
  lemma PadStartShape(t: string, len: nat, c: char)
    ensures var r := PadStart(t, len, c);
      r[|r| - |t|..] == t && forall i :: 0 <= i < |r| - |t| ==> r[i] == c
  {
    var r := PadStart(t, len, c);
    if |t| < len {
      assert r[|r| - |t|..] == t;
    }
  }

  /** `Int.pad()`: the decimal rendering of `n`, left-padded with '0' to two characters. */
  function Pad(n: int): (s: string)
    ensures |s| >= 2
    ensures |IntToString(n)| >= 2 ==> s == IntToString(n)
    ensures |IntToString(n)| < 2 ==> s == "0" + IntToString(n)
  {
    PadStart(IntToString(n), 2, '0')
  }

  /** Every `Int` survives padding: `pad()` then `toInt()` gives it back. */
  lemma PadParsesBack(n: Int32)
    ensures ParseInt(Pad(n)) == Some(n)
  {
    var t := IntToString(n);
    if |t| >= 2 {
      ParseIntToString(n);
    } else {
      assert 0 <= n <= 9 && t == [DigitChar(n)];
      var s := "0" + t;
      assert s == ['0', DigitChar(n)];
      assert s[..1] == "0";
      assert AllDigits(s) && DigitsValue(s) == DigitsValue(s[..1]) * 10 + n;
      assert DigitsValue(s[..1]) == 0 by {
        assert s[..1][..0] == [];
      }
    }
  }

  /** Two-digit values pad to exactly two characters. */
  lemma PadTwoDigits(n: int)
    requires 0 <= n <= 99
    ensures |Pad(n)| == 2 && AllDigits(Pad(n))
  {
  }

  /** Padding is injective: equal padded strings come from equal values. */
  lemma PadInjective(a: Int32, b: Int32)
    requires Pad(a) == Pad(b)
    ensures a == b
  {
    PadParsesBack(a);
    PadParsesBack(b);
  }

  /** A snackbar holds for a short or a long time. */
  datatype SnackbarDuration = Short | Long

  /** The one-shot events a view model emits: a notice, or a request to leave the screen. */
  datatype SnackbarEvent =
    | ShowSnackbar(message: string, duration: SnackbarDuration)
    | NavigateUp

  /** A notice with the default (short) duration. */
  function Notice(message: string): SnackbarEvent {
    ShowSnackbar(message, Short)
  }

  /** The long notice the view models emit when a repository call throws. */
  function FailureNotice(prefix: string, errorMessage: string): SnackbarEvent {
    ShowSnackbar(prefix + " " + errorMessage, Long)
  }
}
