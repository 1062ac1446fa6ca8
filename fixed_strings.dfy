/** Fixed-width text fields of the ROM header editor
    (src/rom_header_editor.js): the `padEnd` polyfill the file defines for
    hosts without `String.prototype.padEnd` (elsewhere the built-in runs,
    and `PolyfillAgreesWithNative` shows the two agree), and
    `FixedLengthString` with its static `trimPadString` and `charCodeAt`. */
module FixedStrings {
  import opened Js

  /** `padString || ' '`: an absent or empty pad argument means one space. */
  function PadOrSpace(padding: string): (p: string)
    ensures |p| > 0
  {
    if padding == "" then " " else padding
  }

  /** The `String.prototype.padEnd` polyfill, as written. The target length
      goes through `>> 0` (ToInt32); an absent pad string means a space. When
      the pad string is empty and there is something to fill, `repeat` is asked
      for an infinite count and throws a RangeError. */
  function PadEnd(s: string, targetLength: int, padString: Option<string>): (r: Completion<string>)
    ensures var t := ToInt32(targetLength);
            var p := if padString.None? then " " else padString.value;
            && (r.Throw? <==> p == [] && |s| < t)
            && (r.Normal? && t <= |s| ==> r.value == s)
            && (r.Normal? && |s| < t ==>
                  && |r.value| == t
                  && r.value[..|s|] == s
                  && forall k :: |s| <= k < t ==> r.value[k] == p[(k - |s|) % |p|])
  {
    var t := ToInt32(targetLength);
    var p := if padString.None? then " " else padString.value;
    if |s| > t then Normal(s)
    else
      var missing := t - |s|;
      if missing > |p| then
        if |p| == 0 then Throw(RangeError)
        else
          var filler := ExtendedPad(p, missing);
          AppendFiller(s, filler, p, missing);
          Normal(s + filler[..missing])
      else
        PadPrefixCycles(p, missing);
        AppendFiller(s, p, p, missing);
        Normal(s + p[..missing])
  }

  lemma PadPrefixCycles(p: string, missing: nat)
    requires missing <= |p|
    ensures forall j :: 0 <= j < missing ==> p[j] == p[j % |p|]
  {
  }

  lemma AppendFiller(s: string, filler: string, p: string, missing: nat)
    requires missing <= |filler| && (missing == 0 || |p| > 0)
    requires forall j :: 0 <= j < missing ==> filler[j] == p[j % |p|]
    ensures var r := s + filler[..missing];
            && |r| == |s| + missing
            && r[..|s|] == s
            && forall k :: |s| <= k < |s| + missing ==> r[k] == p[(k - |s|) % |p|]
  {
    var r := s + filler[..missing];
    assert r[..|s|] == s;
    forall k | |s| <= k < |s| + missing
      ensures r[k] == p[(k - |s|) % |p|]
    {
      assert r[k] == filler[k - |s|];
    }
  }

  /** The polyfill's `padString += padString.repeat(missing / padString.length)`:
      long enough to cover `missing`, and cycling through the pad. */
  function ExtendedPad(p: string, missing: nat): (filler: string)
    requires |p| > 0
    ensures |filler| > missing
    ensures forall j :: 0 <= j < missing ==> filler[j] == p[j % |p|]
  {
    var filler := p + Repeat(p, missing / |p|);
    QuotientCovers(missing, |p|);
    assert forall j :: 0 <= j < missing ==> filler[j] == p[j % |p|] by {
      forall j | 0 <= j < missing
        ensures filler[j] == p[j % |p|]
      {
        if j >= |p| {
          CycleStep(p, Repeat(p, missing / |p|), j);
        }
      }
    }
    filler
  }

  lemma CycleStep(p: string, rest: string, j: int)
    requires |p| > 0 && |p| <= j < |p| + |rest|
    requires forall i :: 0 <= i < |rest| ==> rest[i] == p[i % |p|]
    ensures (p + rest)[j] == p[j % |p|]
  {
    ModShiftedDown(j, |p|);
    assert (p + rest)[j] == rest[j - |p|];
  }

  /** The polyfill's `padString + padString.repeat(n / |padString|)` is
      longer than `n`. */
  lemma QuotientCovers(n: nat, m: nat)
    requires m > 0
    ensures m + (n / m) * m > n
  {
    assert n == (n / m) * m + n % m;
  }

  /** Where it is reachable from this file (a non-empty pad and a target
      length in the signed 32-bit range), the polyfill computes exactly what
      the built-in `padEnd` computes. */
  lemma PolyfillAgreesWithNative(s: string, targetLength: int, padString: string)
    requires padString != []
    requires -TWO_TO_31 <= targetLength < TWO_TO_31
    ensures PadEnd(s, targetLength, Some(padString)) == Normal(NativePadEnd(s, targetLength, padString))
  {
    var r := PadEnd(s, targetLength, Some(padString));
    assert ToInt32(targetLength) == targetLength;
    if |s| < targetLength {
      assert r.value == NativePadEnd(s, targetLength, padString);
    }
  }

  /** `FixedLengthString.trimPadString`: right-pad with `padding || ' '`,
      then keep the first `length` characters. */
  function TrimPadString(str: string, length: nat, padding: string): (r: string)
    ensures |r| <= length
    ensures length < TWO_TO_31 ==> |r| == length
    ensures length < TWO_TO_31 && length <= |str| ==> r == str[..length]
    ensures length < TWO_TO_31 && |str| < length ==>
              && r[..|str|] == str
              && forall k :: |str| <= k < length ==>
                   r[k] == PadOrSpace(padding)[(k - |str|) % |PadOrSpace(padding)|]
  {
    var padded := PadEnd(str, length, Some(PadOrSpace(padding)));
    Substr(padded.value, 0, length)
  }

  /** The pad of a `FixedLengthString` is never empty: its constructor
      stores `pad || ' '`. */
  type PadString = s: string | |s| > 0 witness " "

  /** A string field of the header, its declared width, and its pad. */
  datatype FixedLengthString = FixedLengthString(length: nat, pad: PadString, str: string)
  {
    /** `charCodeAt(i)`: the code of the i-th character, or of the pad's
        first character once `i` is past the end of the string. At any
        width beyond `i` this is the i-th character of the string
        trim-padded with the pad's first character. */
    function CharCodeAt(i: nat): (r: nat)
      ensures forall width :: i < width < TWO_TO_31 ==> r == TrimPadString(str, width, pad[..1])[i] as nat
    {
      assert forall width :: i < width < TWO_TO_31 ==>
          TrimPadString(str, width, pad[..1])[i] == (if |str| <= i then pad[0] else str[i]) by {
        forall width | i < width < TWO_TO_31 {
          TrimPadCharAt(str, pad, width, i);
        }
      }
      if |str| <= i then pad[0] as nat else str[i] as nat
    }
  }

  /** `new FixedLengthString(length, initial, pad)`, an absent argument given
      as the empty string: `pad || ' '` and `initial || ""`. */
  function NewFixedLengthString(length: nat, initial: string, pad: string): (f: FixedLengthString)
    ensures f.length == length
    ensures forall i: nat :: i < |initial| ==> f.CharCodeAt(i) == initial[i] as nat
    ensures forall i: nat :: |initial| <= i ==> f.CharCodeAt(i) == if pad == "" then 0x20 else pad[0] as nat
  {
    FixedLengthString(length, PadOrSpace(pad), initial)
  }

  /** Trim-padding with a one-character pad leaves the string's own
      characters below its length and the pad character after it. */
  lemma TrimPadCharAt(str: string, pad: PadString, width: nat, i: nat)
    requires width < TWO_TO_31 && i < width
    ensures TrimPadString(str, width, pad[..1])[i] == if |str| <= i then pad[0] else str[i]
  {
    var r := TrimPadString(str, width, pad[..1]);
    if i < |str| {
      if width <= |str| {
        assert r[i] == str[..width][i];
      } else {
        assert r[i] == r[..|str|][i];
      }
    } else {
      assert PadOrSpace(pad[..1]) == pad[..1];
    }
  }
}
