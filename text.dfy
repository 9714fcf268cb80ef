/** The handful of QString operations the installer relies on, as functions
    over `string` (a `seq<char>`): substring search, splitting and joining,
    character replacement, and the decimal conversions `QString::setNum` and
    `QString::toInt`. Translation (`tr`) is the identity throughout. */
module Text {
  import opened Wrappers

  /** `sub` occurs in `s` starting at position `k`. */
  predicate OccursAt(s: string, sub: string, k: int) {
    0 <= k && k + |sub| <= |s| && s[k..k + |sub|] == sub
  }

  /** `QString::indexOf`: the first position of `sub` in `s`, or -1. */
  function IndexOf(s: string, sub: string): (r: int)
    ensures -1 <= r <= |s|
    ensures r >= 0 ==> OccursAt(s, sub, r)
    decreases |s|
  {
    if |s| < |sub| then -1
    else if s[..|sub|] == sub then 0
    else
      var t := IndexOf(s[1..], sub);
      if t < 0 then -1 else t + 1
  }

  /** Dropping the first character moves every later occurrence down by one. */
  lemma OccursAtTail(s: string, sub: string, k: int)
    requires 1 <= k && |s| > 0
    ensures OccursAt(s, sub, k) <==> OccursAt(s[1..], sub, k - 1)
  {
    if k + |sub| <= |s| {
      var a, b := s[k..k + |sub|], s[1..][k - 1..k - 1 + |sub|];
      assert |a| == |b|;
      assert forall j :: 0 <= j < |a| ==> a[j] == s[k + j] == b[j];
      assert a == b;
    }
  }

  /** `indexOf` finds the first occurrence, and reports -1 exactly when
      there is none. */
  lemma {:induction false} IndexOfFirst(s: string, sub: string)
    ensures IndexOf(s, sub) >= 0 ==> forall k :: 0 <= k < IndexOf(s, sub) ==> !OccursAt(s, sub, k)
    ensures IndexOf(s, sub) == -1 ==> forall k :: 0 <= k <= |s| ==> !OccursAt(s, sub, k)
    decreases |s|
  {
    if |s| >= |sub| && s[..|sub|] != sub {
      IndexOfFirst(s[1..], sub);
      forall k | 1 <= k <= |s|
        ensures OccursAt(s, sub, k) <==> OccursAt(s[1..], sub, k - 1)
      {
        OccursAtTail(s, sub, k);
      }
      assert !OccursAt(s, sub, 0);
    }
  }

  /** `s.indexOf(sub) != -1`. */
  predicate Contains(s: string, sub: string) {
    IndexOf(s, sub) != -1
  }

  /** `QString::lastIndexOf` for one character: the last position of `c`, or -1. */
  function LastIndexOf(s: string, c: char): (r: int)
    ensures -1 <= r < |s|
    ensures r >= 0 ==> s[r] == c
    ensures forall k :: r < k < |s| ==> s[k] != c
  {
    if |s| == 0 then -1
    else if s[|s| - 1] == c then |s| - 1
    else LastIndexOf(s[..|s| - 1], c)
  }

  /** `QString::split(sep)` keeping empty parts. */
  function Split(s: string, sep: string): (r: seq<string>)
    requires |sep| > 0
    ensures |r| >= 1
    decreases |s|
  {
    var k := IndexOf(s, sep);
    if k < 0 then [s] else [s[..k]] + Split(s[k + |sep|..], sep)
  }

  /** `QStringList::join(sep)`. */
  function Join(xs: seq<string>, sep: string): string {
    if |xs| == 0 then ""
    else if |xs| == 1 then xs[0]
    else xs[0] + sep + Join(xs[1..], sep)
  }

  /** A string is its prefix, a middle part and its suffix. */
  lemma Cut3(s: string, i: nat, j: nat)
    requires i <= j <= |s|
    ensures s == s[..i] + s[i..j] + s[j..]
  {
  }

  /** Joining a nonempty list after a first piece puts one separator
      between them. */
  lemma JoinCons(a: string, tail: seq<string>, sep: string)
    requires |tail| >= 1
    ensures Join([a] + tail, sep) == a + sep + Join(tail, sep)
  {
    assert ([a] + tail)[1..] == tail;
  }

  /** Joining the pieces of a split with the same separator gives back the
      original string. */
  lemma {:induction false} JoinSplit(s: string, sep: string)
    requires |sep| > 0
    ensures Join(Split(s, sep), sep) == s
    decreases |s|
  {
    var k := IndexOf(s, sep);
    if k >= 0 {
      var rest := s[k + |sep|..];
      JoinSplit(rest, sep);
      JoinCons(s[..k], Split(rest, sep), sep);
      Cut3(s, k, k + |sep|);
    }
  }

  /** A character that does not occur in a string occurs in none of the
      pieces it splits into. */
  lemma {:induction false} SplitNoChar(s: string, sep: string, c: char)
    requires |sep| > 0 && c !in s
    ensures forall k :: 0 <= k < |Split(s, sep)| ==> c !in Split(s, sep)[k]
    decreases |s|
  {
    var k := IndexOf(s, sep);
    if k >= 0 {
      var rest := s[k + |sep|..];
      assert forall j :: 0 <= j < |rest| ==> rest[j] == s[k + |sep| + j];
      SplitNoChar(rest, sep, c);
      assert forall j :: 0 <= j < k ==> s[..k][j] == s[j];
    }
  }

  /** `QString::replace(c, t)`: every occurrence of the character `c`
      replaced by `t`. */
  function Replace(s: string, c: char, t: string): (r: string)
    ensures c !in t ==> c !in r
    ensures |s| > 0 && s[0] != c ==> |r| > 0 && r[0] == s[0]
  {
    if |s| == 0 then ""
    else (if s[0] == c then t else [s[0]]) + Replace(s[1..], c, t)
  }

  /** A character search finds the character exactly when it occurs. */
  lemma {:induction false} ContainsChar(s: string, c: char)
    ensures Contains(s, [c]) <==> c in s
    decreases |s|
  {
    if |s| > 0 {
      if s[..1] == [c] {
        assert s[0] == c;
      } else {
        ContainsChar(s[1..], c);
        assert s[0] != c;
        assert s == [s[0]] + s[1..];
      }
    }
  }

  /** Replacing a character that does not occur changes nothing. */
  lemma {:induction false} ReplaceAbsent(s: string, c: char, t: string)
    requires c !in s
    ensures Replace(s, c, t) == s
  {
    if |s| > 0 {
      ReplaceAbsent(s[1..], c, t);
      assert s == [s[0]] + s[1..];
    }
  }

  /** Replacing `c` by `b` followed by `c` puts a `b` before every `c`. */
  lemma {:induction false} ReplacePrefixes(s: string, b: char, c: char)
    requires b != c
    ensures forall k :: 0 <= k < |Replace(s, c, [b, c])| && Replace(s, c, [b, c])[k] == c ==>
      k > 0 && Replace(s, c, [b, c])[k - 1] == b
  {
    if |s| > 0 {
      ReplacePrefixes(s[1..], b, c);
      var head := if s[0] == c then [b, c] else [s[0]];
      var tail := Replace(s[1..], c, [b, c]);
      var r := Replace(s, c, [b, c]);
      assert forall i :: 0 <= i < |tail| && tail[i] == c ==> i > 0 && tail[i - 1] == b;
      assert r == head + tail;
      forall k | 0 <= k < |r| && r[k] == c
        ensures k > 0 && r[k - 1] == b
      {
        if k >= |head| {
          var j := k - |head|;
          assert tail[j] == r[k] == c;
          assert j > 0 && tail[j - 1] == b;
          assert r[k - 1] == tail[j - 1];
        }
      }
    }
  }

  /** `s` with every `b` that stands right before a `c` dropped: the
      inverse of inserting a `b` before each `c`. */
  function DropBefore(s: string, b: char, c: char): string {
    if |s| == 0 then ""
    else if |s| >= 2 && s[0] == b && s[1] == c then DropBefore(s[1..], b, c)
    else [s[0]] + DropBefore(s[1..], b, c)
  }

  /** Inserting a `b` before every `c` and dropping them again gives back
      a string that had no `b` of its own. */
  lemma {:induction false} DropBeforeReplace(s: string, b: char, c: char)
    requires b != c && b !in s
    ensures DropBefore(Replace(s, c, [b, c]), b, c) == s
  {
    if |s| > 0 {
      DropBeforeReplace(s[1..], b, c);
      var tail := Replace(s[1..], c, [b, c]);
      if s[0] == c {
        var r := [b, c] + tail;
        assert r[1..] == [c] + tail;
        assert ([c] + tail)[1..] == tail;
      } else {
        assert ([s[0]] + tail)[1..] == tail;
      }
      assert s == [s[0]] + s[1..];
    }
  }

  // ---------------------------------------------------------------------
  // Decimal conversion

  const Int32Min: int := -0x8000_0000
  const Int32Max: int := 0x7fff_ffff

  predicate IsDigit(c: char) { '0' <= c <= '9' }

  predicate AllDigits(s: string) { forall k :: 0 <= k < |s| ==> IsDigit(s[k]) }

  function DigitChar(d: nat): char
    requires d < 10
  {
    ('0' as int + d) as char
  }

  function DigitValue(c: char): nat
    requires IsDigit(c)
  {
    (c as int - '0' as int) as nat
  }

  /** The value of a string of decimal digits. */
  function DecimalValue(s: string): nat
    requires AllDigits(s)
  {
    if |s| == 0 then 0 else 10 * DecimalValue(s[..|s| - 1]) + DigitValue(s[|s| - 1])
  }

  /** `QString::setNum` of a non-negative number. */
  function NatToString(n: nat): (r: string)
    ensures |r| > 0 && AllDigits(r)
  {
    if n < 10 then [DigitChar(n)] else NatToString(n / 10) + [DigitChar(n % 10)]
  }

  /** `QString::setNum(int)`: decimal, with a leading '-' when negative. */
  function IntToString(i: int): (r: string)
    ensures |r| > 0
  {
    if i < 0 then "-" + NatToString(-i) else NatToString(i)
  }

  /** `QString::toInt(&ok)`: an optional sign and at least one decimal
      digit, whose value fits a 32-bit int; anything else fails. */
  function ParseInt(s: string): (r: Option<int>)
    ensures r.Some? ==> Int32Min <= r.value <= Int32Max
    ensures r.Some? ==> |s| > 0
  {
    var neg := |s| > 0 && s[0] == '-';
    var body := if |s| > 0 && (s[0] == '-' || s[0] == '+') then s[1..] else s;
    if |body| == 0 || !AllDigits(body) then None
    else
      var d: int := DecimalValue(body);
      var v := if neg then -d else d;
      if Int32Min <= v <= Int32Max then Some(v) else None
  }

  lemma {:induction false} DecimalOfNatToString(n: nat)
    ensures DecimalValue(NatToString(n)) == n
  {
    var s := NatToString(n);
    if n < 10 {
      assert s == [DigitChar(n)];
    } else {
      DecimalOfNatToString(n / 10);
      assert s[..|s| - 1] == NatToString(n / 10);
    }
  }

  /** An unsigned digit string parses to its value when that fits. */
  lemma ParseDigits(t: string)
    requires |t| > 0 && AllDigits(t) && DecimalValue(t) <= Int32Max
    ensures ParseInt(t) == Some(DecimalValue(t))
  {
    assert IsDigit(t[0]);
  }

  /** A minus sign before a digit string negates its value, when that fits. */
  lemma ParseNegDigits(t: string)
    requires |t| > 0 && AllDigits(t) && DecimalValue(t) <= -Int32Min
    ensures ParseInt("-" + t) == Some(-(DecimalValue(t) as int))
  {
    var s := "-" + t;
    assert s[0] == '-' && s[1..] == t;
  }

  /** The decimal form of a non-negative 32-bit number reads back as it. */
  lemma ParseNatToString(n: nat)
    requires n <= Int32Max
    ensures ParseInt(NatToString(n)) == Some(n)
  {
    DecimalOfNatToString(n);
    ParseDigits(NatToString(n));
  }

  /** So does a minus sign before the decimal form of a magnitude that fits. */
  lemma ParseNegNatToString(n: nat)
    requires n <= -Int32Min
    ensures ParseInt("-" + NatToString(n)) == Some(-(n as int))
  {
    DecimalOfNatToString(n);
    ParseNegDigits(NatToString(n));
  }

  /** Formatting a 32-bit number and reading it back gives the number. */
  lemma ParseIntToString(i: int)
    requires Int32Min <= i <= Int32Max
    ensures ParseInt(IntToString(i)) == Some(i)
  {
    if i < 0 {
      ParseNegNatToString(-i);
    } else {
      ParseNatToString(i);
    }
  }
}
