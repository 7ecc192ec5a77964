/** Strings as the scheduling core sees them: JavaScript's `trim` (applied by
    the schema's `trim: true` setters), the binary string order MongoDB uses
    to sort `startTime`, and the "HH:MM" wall-clock strings the availability
    records are meant to hold. */
module Text {

  /** The characters `String.prototype.trim` removes: ECMAScript WhiteSpace
      (including the Unicode space separators) and LineTerminator. */
  predicate IsSpace(c: char) {
    || c == ' ' || c == '\t' || c == '\n' || c == '\r'
    || c == '\U{000B}' || c == '\U{000C}' || c == '\U{00A0}' || c == '\U{1680}'
    || ('\U{2000}' <= c <= '\U{200A}')
    || c == '\U{2028}' || c == '\U{2029}' || c == '\U{202F}' || c == '\U{205F}'
    || c == '\U{3000}' || c == '\U{FEFF}'
  }

  /** No space at either end: what a trimmed string looks like. */
  predicate IsTrimmed(s: string) {
    s == [] || (!IsSpace(s[0]) && !IsSpace(s[|s| - 1]))
  }

  predicate AllSpace(s: string) {
    forall i :: 0 <= i < |s| ==> IsSpace(s[i])
  }

  /** Drops leading spaces. */
  function TrimStart(s: string): (r: string)
    ensures |r| <= |s|
    ensures r == [] || !IsSpace(r[0])
  {
    if s != [] && IsSpace(s[0]) then TrimStart(s[1..]) else s
  }

  /** Drops trailing spaces. */
  function TrimEnd(s: string): (r: string)
    ensures |r| <= |s| && r == s[..|r|]
    ensures r == [] || !IsSpace(r[|r| - 1])
  {
    if s != [] && IsSpace(s[|s| - 1]) then TrimEnd(s[..|s| - 1]) else s
  }

  /** `String.prototype.trim`. */
  function Trim(s: string): (r: string)
    ensures IsTrimmed(r)
  {
    TrimEnd(TrimStart(s))
  }

  /** What `TrimStart` cut away was all space, and it kept a suffix. */
  lemma {:induction false} TrimStartIsSuffix(s: string)
    ensures s[|s| - |TrimStart(s)|..] == TrimStart(s)
    ensures AllSpace(s[..|s| - |TrimStart(s)|])
  {
    if s != [] && IsSpace(s[0]) {
      TrimStartIsSuffix(s[1..]);
      var n := |s| - |TrimStart(s)|;
      assert s[1..][n - 1..] == s[n..];
      forall i | 0 <= i < n
        ensures IsSpace(s[..n][i])
      {
        if i > 0 {
          assert s[..n][i] == s[1..][..n - 1][i - 1];
        }
      }
    }
  }

  /** What `TrimEnd` cut away was all space. */
  lemma {:induction false} TrimEndCutsSpace(s: string)
    ensures AllSpace(s[|TrimEnd(s)|..])
  {
    if s != [] && IsSpace(s[|s| - 1]) {
      TrimEndCutsSpace(s[..|s| - 1]);
      var n := |TrimEnd(s)|;
      forall j | 0 <= j < |s| - n
        ensures IsSpace(s[n..][j])
      {
        if n + j < |s| - 1 {
          assert s[n..][j] == s[..|s| - 1][n..][j];
        }
      }
    }
  }

  /** `Trim` keeps one contiguous slice of its input, everything before and
      after it being space, and the slice has no space at either end. */
  lemma TrimIsSlice(s: string)
    ensures exists i ::
      (0 <= i <= |s| - |Trim(s)| && Trim(s) == s[i..i + |Trim(s)|]
       && AllSpace(s[..i]) && AllSpace(s[i + |Trim(s)|..]))
  {
    var t := TrimStart(s);
    var r := TrimEnd(t);
    TrimStartIsSuffix(s);
    TrimEndCutsSpace(t);
    var i := |s| - |t|;
    assert r == s[i..][..|r|] == s[i..i + |r|];
    assert s[i + |r|..] == t[|r|..];
  }

  lemma {:induction false} TrimStartOfTrimmed(s: string)
    requires s == [] || !IsSpace(s[0])
    ensures TrimStart(s) == s
  {
  }

  lemma {:induction false} TrimEndOfTrimmed(s: string)
    requires s == [] || !IsSpace(s[|s| - 1])
    ensures TrimEnd(s) == s
  {
  }

  /** Trimming a trimmed string changes nothing. */
  lemma TrimOfTrimmed(s: string)
    requires IsTrimmed(s)
    ensures Trim(s) == s
  {
    TrimStartOfTrimmed(s);
    TrimEndOfTrimmed(s);
  }

  /** Trimming twice is trimming once. */
  lemma TrimIdempotent(s: string)
    ensures Trim(Trim(s)) == Trim(s)
  {
    TrimOfTrimmed(Trim(s));
  }

  /** A string trims to nothing exactly when it is all space; this is why a
      required, trimmed field refuses "   ". */
  lemma {:induction false} TrimEmptyIffAllSpace(s: string)
    ensures Trim(s) == [] <==> AllSpace(s)
  {
    TrimIsSlice(s);
    if Trim(s) == [] {
      var i :| 0 <= i <= |s| && AllSpace(s[..i]) && AllSpace(s[i..]);
      forall k | 0 <= k < |s|
        ensures IsSpace(s[k])
      {
        if k < i {
          assert s[..i][k] == s[k];
        } else {
          assert s[i..][k - i] == s[k];
        }
      }
    }
  }

  /** Binary (code point) order on strings, the order MongoDB sorts string
      fields by: a proper prefix comes first, otherwise the first differing
      character decides. */
  predicate LexLe(a: string, b: string) {
    if a == [] then true
    else if b == [] then false
    else if a[0] != b[0] then a[0] < b[0]
    else LexLe(a[1..], b[1..])
  }

  /** A prefix comes first. */
  lemma {:induction false} PrefixLexLe(a: string, b: string)
    requires a <= b
    ensures LexLe(a, b)
  {
    if a != [] {
      assert a[1..] <= b[1..];
      PrefixLexLe(a[1..], b[1..]);
    }
  }

  /** A smaller character at the first difference decides. */
  lemma FirstDifferenceLexLe(a: string, b: string, k: nat)
    requires k < |a| && k < |b| && a[..k] == b[..k] && a[k] < b[k]
    ensures LexLe(a, b)
  {
    LexLeDropCommon(a, b, k);
    assert a[k..][0] == a[k] && b[k..][0] == b[k];
  }

  /** When `a` is not a prefix of `b` but comes first, a smaller character
      at their first difference is the reason. */
  lemma {:induction false} LexLeHasFirstDifference(a: string, b: string)
    requires LexLe(a, b) && !(a <= b)
    ensures exists k :: 0 <= k < |a| && k < |b| && a[..k] == b[..k] && a[k] < b[k]
  {
    if a[0] != b[0] {
      assert a[..0] == b[..0];
    } else {
      assert !(a[1..] <= b[1..]);
      LexLeHasFirstDifference(a[1..], b[1..]);
      var k :| 0 <= k < |a[1..]| && k < |b[1..]| && a[1..][..k] == b[1..][..k] && a[1..][k] < b[1..][k];
      assert a[..k + 1] == [a[0]] + a[1..][..k];
      assert b[..k + 1] == [b[0]] + b[1..][..k];
    }
  }

  /** The independent reading of `LexLe`: `a` is a prefix of `b`, or at the
      first position where they differ `a` has the smaller character. */
  lemma LexLeCharacterized(a: string, b: string)
    ensures LexLe(a, b) <==>
      (a <= b || exists k :: 0 <= k < |a| && k < |b| && a[..k] == b[..k] && a[k] < b[k])
  {
    if a <= b {
      PrefixLexLe(a, b);
    }
    forall k | 0 <= k < |a| && k < |b| && a[..k] == b[..k] && a[k] < b[k]
      ensures LexLe(a, b)
    {
      FirstDifferenceLexLe(a, b, k);
    }
    if LexLe(a, b) && !(a <= b) {
      LexLeHasFirstDifference(a, b);
    }
  }

  lemma {:induction false} LexLeTotal(a: string, b: string)
    ensures LexLe(a, b) || LexLe(b, a)
  {
    if a != [] && b != [] && a[0] == b[0] {
      LexLeTotal(a[1..], b[1..]);
    }
  }

  lemma {:induction false} LexLeTransitive(a: string, b: string, c: string)
    requires LexLe(a, b) && LexLe(b, c)
    ensures LexLe(a, c)
  {
    if a != [] && b != [] && c != [] && a[0] == b[0] && b[0] == c[0] {
      LexLeTransitive(a[1..], b[1..], c[1..]);
    }
  }

  /** A common first character does not affect the order. */
  lemma LexLeDropCommon(a: string, b: string, k: nat)
    requires k <= |a| && k <= |b| && a[..k] == b[..k]
    ensures LexLe(a, b) == LexLe(a[k..], b[k..])
  {
    if k > 0 {
      assert a[0] == a[..k][0] && b[0] == b[..k][0];
      assert a[1..][..k - 1] == a[..k][1..] && b[1..][..k - 1] == b[..k][1..];
      LexLeDropCommon(a[1..], b[1..], k - 1);
      assert a[1..][k - 1..] == a[k..] && b[1..][k - 1..] == b[k..];
    }
  }

  predicate IsDigit(c: char) {
    '0' <= c <= '9'
  }

  function DigitValue(c: char): (v: int)
    requires IsDigit(c)
    ensures 0 <= v <= 9
  {
    c as int - '0' as int
  }

  /** A zero-padded 24-hour clock string "HH:MM", hour below 24 and minutes
      below 60: the format the availability records are meant to carry
      ("09:00"). */
  predicate IsClock(t: string) {
    && |t| == 5
    && IsDigit(t[0]) && IsDigit(t[1]) && t[2] == ':'
    && '0' <= t[3] <= '5' && IsDigit(t[4])
    && DigitValue(t[0]) * 10 + DigitValue(t[1]) < 24
  }

  /** Minutes since midnight denoted by a clock string. */
  function ClockMinutes(t: string): (m: int)
    requires IsClock(t)
    ensures 0 <= m < 24 * 60
  {
    (DigitValue(t[0]) * 10 + DigitValue(t[1])) * 60 + DigitValue(t[3]) * 10 + DigitValue(t[4])
  }

  /** On well-formed clock strings, sorting by string order is sorting by
      time of day. */
  lemma ClockOrderIsTimeOrder(a: string, b: string)
    requires IsClock(a) && IsClock(b)
    ensures LexLe(a, b) <==> ClockMinutes(a) <= ClockMinutes(b)
  {
    var ha := DigitValue(a[0]) * 10 + DigitValue(a[1]);
    var hb := DigitValue(b[0]) * 10 + DigitValue(b[1]);
    var ma := DigitValue(a[3]) * 10 + DigitValue(a[4]);
    var mb := DigitValue(b[3]) * 10 + DigitValue(b[4]);
    assert 0 <= ma < 60 && 0 <= mb < 60;
    assert ClockMinutes(a) == ha * 60 + ma && ClockMinutes(b) == hb * 60 + mb;
    assert a[1..][1..][1..][1..] == a[4..] && b[1..][1..][1..][1..] == b[4..];
    if a[0] != b[0] {
      assert LexLe(a, b) <==> a[0] < b[0];
      assert a[0] < b[0] ==> ha < hb;
      assert a[0] > b[0] ==> ha > hb;
    } else if a[1] != b[1] {
      assert LexLe(a, b) <==> a[1] < b[1];
    } else {
      LexLeDropCommon(a, b, 1);
      LexLeDropCommon(a, b, 2);
      LexLeDropCommon(a, b, 3);
      if a[3] != b[3] {
        assert LexLe(a, b) <==> a[3] < b[3];
      } else {
        LexLeDropCommon(a, b, 4);
        assert a[4..][1..] == [] && b[4..][1..] == [];
        assert LexLe(a, b) <==> a[4] <= b[4];
      }
    }
  }

  /** Without zero padding the string order and the time order part ways:
      "10:00" sorts before "9:30" although it is later in the day. */
  lemma UnpaddedClockMisorders()
    ensures LexLe("10:00", "9:30") && !LexLe("9:30", "10:00")
    ensures !IsClock("9:30")
  {
  }
}
