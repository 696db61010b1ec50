/** The phone-number display rule of the invoice modal.

    `safePhone` rewrites a phone string with the global regular expression
    `(\d)(?=\d)` and the replacement `$1` followed by U+200B (ZERO WIDTH SPACE):
    a separator goes right after every digit whose next character is also a
    digit. Without the `u` flag `\d` is the ASCII class `0`-`9`. The purpose is
    that no two digits stand next to each other in the displayed text, so that
    mobile browsers do not turn it into a telephone link, while the visible text
    is unchanged.
 */
module SafePhone {

  /** U+200B, the separator that `safePhone` inserts. */
  const ZeroWidthSpace: char := '\U{200B}'

  /** The class `\d` of a regular expression without the `u` flag: the ten
      ASCII digits and nothing else. */
  predicate IsDigit(c: char) {
    '0' <= c <= '9'
  }

  /** `IsDigit` accepts exactly the ten characters the class `\d` lists. */
  lemma IsDigitChars(c: char)
    ensures IsDigit(c) <==> c in "0123456789"
  {
  }

  /** Position `i` of `s` holds a digit and position `i + 1` another one:
      the place where the pattern `(\d)(?=\d)` matches. */
  predicate DigitPairAt(s: string, i: int) {
    0 <= i && i + 1 < |s| && IsDigit(s[i]) && IsDigit(s[i + 1])
  }

  /** The rewrite itself. The scan of the global regular expression moves
      past the one digit it consumes, so the next match may start at the very
      next character: the lookahead digit is not consumed. */
  function SafePhone(s: string): (r: string)
    ensures |s| > 0 ==> |r| > 0 && r[0] == s[0]
  {
    if |s| == 0 then []
    else if DigitPairAt(s, 0) then [s[0], ZeroWidthSpace] + SafePhone(s[1..])
    else [s[0]] + SafePhone(s[1..])
  }

  /** Deletes every U+200B: the way back from `SafePhone`. */
  function StripZeroWidth(s: string): (r: string)
    ensures ZeroWidthSpace !in r
    ensures |r| <= |s|
  {
    if |s| == 0 then []
    else (if s[0] == ZeroWidthSpace then [] else [s[0]]) + StripZeroWidth(s[1..])
  }

  /** A string without U+200B is left as it is. */
  lemma {:induction false} StripZeroWidthIdentity(s: string)
    requires ZeroWidthSpace !in s
    ensures StripZeroWidth(s) == s
  {
    if |s| > 0 {
      assert s[0] != ZeroWidthSpace;
      assert s == [s[0]] + s[1..];
      StripZeroWidthIdentity(s[1..]);
      StripZeroWidthCons(s[0], s[1..]);
    }
  }

  /** How many separators `SafePhone` puts before the image of `s[i]`:
      the number of positions `j < i` where a digit pair starts. */
  function SeparatorsBefore(s: string, i: int): nat
    decreases i
  {
    if i <= 0 then 0
    else SeparatorsBefore(s, i - 1) + (if DigitPairAt(s, i - 1) then 1 else 0)
  }

  /** The number of positions `i` where `s[i]` and `s[i + 1]` are both digits. */
  function DigitPairCount(s: string): nat {
    SeparatorsBefore(s, |s|)
  }

  /** Where `s[i]` lands in `SafePhone(s)`. */
  function Image(s: string, i: int): int {
    i + SeparatorsBefore(s, i)
  }

  // ---------------------------------------------------------------------
  // Counting digit pairs

  /** Counting pairs in `s` before `i` is counting the pair at 0 and then the
      pairs of `s[1..]` before `i - 1`. */
  lemma {:induction false} SeparatorsBeforeTail(s: string, i: int)
    requires 1 <= i <= |s|
    ensures SeparatorsBefore(s, i)
         == (if DigitPairAt(s, 0) then 1 else 0) + SeparatorsBefore(s[1..], i - 1)
  {
    if i > 1 {
      SeparatorsBeforeTail(s, i - 1);
      assert DigitPairAt(s, i - 1) == DigitPairAt(s[1..], i - 2);
    }
  }

  // ---------------------------------------------------------------------
  // What SafePhone produces

  /** The output is one separator longer than the input for every digit pair. */
  lemma {:induction false} SafePhoneLength(s: string)
    ensures |SafePhone(s)| == |s| + DigitPairCount(s)
  {
    if |s| > 0 {
      SafePhoneLength(s[1..]);
      SeparatorsBeforeTail(s, |s|);
    }
  }

  /** Every input character appears, in order, at its image; a separator
      follows it whenever it starts a digit pair. */
  lemma {:induction false} SafePhoneImage(s: string, i: int)
    requires 0 <= i < |s|
    ensures Image(s, i) < |SafePhone(s)|
    ensures SafePhone(s)[Image(s, i)] == s[i]
    ensures DigitPairAt(s, i) ==>
              Image(s, i) + 1 < |SafePhone(s)| && SafePhone(s)[Image(s, i) + 1] == ZeroWidthSpace
  {
    var t := s[1..];
    var h: string := if DigitPairAt(s, 0) then [s[0], ZeroWidthSpace] else [s[0]];
    assert SafePhone(s) == h + SafePhone(t);
    if i > 0 {
      SafePhoneImage(t, i - 1);
      SeparatorsBeforeTail(s, i);
      assert Image(s, i) == |h| + Image(t, i - 1);
      assert DigitPairAt(s, i) == DigitPairAt(t, i - 1);
    }
  }

  /** Separators appear exactly at digit-digit boundaries: right after the
      image of `s[i]` comes a separator when `s[i]` and `s[i + 1]` are digits,
      and otherwise the image of `s[i + 1]` itself; nothing follows the image
      of the last character. */
  lemma SafePhoneNext(s: string, i: int)
    requires 0 <= i < |s|
    ensures i + 1 < |s| ==>
              Image(s, i + 1) == Image(s, i) + (if DigitPairAt(s, i) then 2 else 1)
    ensures i + 1 < |s| && !DigitPairAt(s, i) ==>
              Image(s, i) + 1 < |SafePhone(s)| && SafePhone(s)[Image(s, i) + 1] == s[i + 1]
    ensures i + 1 == |s| ==> Image(s, i) + 1 == |SafePhone(s)|
  {
    SafePhoneImage(s, i);
    if i + 1 < |s| {
      SafePhoneImage(s, i + 1);
    } else {
      SafePhoneLength(s);
    }
  }

  /** For an input without U+200B of its own, the character after the image
      of `s[i]` is a separator if and only if `s[i]` and `s[i + 1]` are digits. */
  lemma SeparatorIffDigitPair(s: string, i: int)
    requires ZeroWidthSpace !in s
    requires 0 <= i && i + 1 < |s|
    ensures Image(s, i) + 1 < |SafePhone(s)|
    ensures SafePhone(s)[Image(s, i) + 1] == ZeroWidthSpace <==> DigitPairAt(s, i)
  {
    SafePhoneImage(s, i);
    SafePhoneNext(s, i);
  }

  lemma StripZeroWidthCons(c: char, x: string)
    ensures StripZeroWidth([c] + x)
         == (if c == ZeroWidthSpace then [] else [c]) + StripZeroWidth(x)
  {
    assert ([c] + x)[0] == c;
    assert ([c] + x)[1..] == x;
  }

  lemma {:induction false} StripZeroWidthAppend(a: string, b: string)
    ensures StripZeroWidth(a + b) == StripZeroWidth(a) + StripZeroWidth(b)
  {
    if |a| == 0 {
      assert a + b == b;
    } else {
      var c, rest := a[0], a[1..];
      var kept: string := if c == ZeroWidthSpace then [] else [c];
      assert a == [c] + rest;
      assert a + b == [c] + (rest + b);
      calc {
        StripZeroWidth(a + b);
        { StripZeroWidthCons(c, rest + b); }
        kept + StripZeroWidth(rest + b);
        { StripZeroWidthAppend(rest, b); }
        kept + (StripZeroWidth(rest) + StripZeroWidth(b));
        (kept + StripZeroWidth(rest)) + StripZeroWidth(b);
        { StripZeroWidthCons(c, rest); }
        StripZeroWidth(a) + StripZeroWidth(b);
      }
    }
  }

  /** Deleting the separators gives back what the input was without its own
      U+200B characters. */
  lemma {:induction false} StripSafePhone(s: string)
    ensures StripZeroWidth(SafePhone(s)) == StripZeroWidth(s)
  {
    if |s| > 0 {
      var t := s[1..];
      StripSafePhone(t);
      var h: string := if DigitPairAt(s, 0) then [s[0], ZeroWidthSpace] else [s[0]];
      StripZeroWidthAppend(h, SafePhone(t));
      StripZeroWidthAppend([s[0]], t);
      assert s == [s[0]] + t;
      assert StripZeroWidth(h) == StripZeroWidth([s[0]]) by {
        if DigitPairAt(s, 0) {
          StripZeroWidthAppend([s[0]], [ZeroWidthSpace]);
        }
      }
    }
  }

  /** The round trip: a phone string without U+200B comes back unchanged. */
  lemma SafePhoneRoundTrip(s: string)
    requires ZeroWidthSpace !in s
    ensures StripZeroWidth(SafePhone(s)) == s
  {
    StripSafePhone(s);
    StripZeroWidthIdentity(s);
  }

  /** A string in which no two digits are adjacent, the empty string among
      them, is returned unchanged. */
  lemma {:induction false} SafePhoneNoPairs(s: string)
    requires forall i :: !DigitPairAt(s, i)
    ensures SafePhone(s) == s
  {
    if |s| > 0 {
      var t := s[1..];
      forall i ensures !DigitPairAt(t, i) {
        assert DigitPairAt(t, i) ==> DigitPairAt(s, i + 1);
      }
      SafePhoneNoPairs(t);
      assert !DigitPairAt(s, 0);
    }
  }

  /** The purpose of the rewrite: no two digits are adjacent in its output. */
  lemma {:induction false} SafePhoneNoAdjacentDigits(s: string)
    ensures forall k :: !DigitPairAt(SafePhone(s), k)
  {
    if |s| > 0 {
      var t := s[1..];
      SafePhoneNoAdjacentDigits(t);
      var r := SafePhone(s);
      var rt := SafePhone(t);
      var h: string := if DigitPairAt(s, 0) then [s[0], ZeroWidthSpace] else [s[0]];
      assert r == h + rt;
      if |t| > 0 {
        assert rt[0] == t[0];
      } else {
        assert rt == [];
      }
      forall k ensures !DigitPairAt(r, k) {
        if k >= |h| && k + 1 < |r| {
          assert !DigitPairAt(rt, k - |h|);
          assert r[k] == rt[k - |h|] && r[k + 1] == rt[k + 1 - |h|];
        } else if 0 <= k && k + 1 < |r| && |h| == 2 {
          assert r[1] == ZeroWidthSpace;
        } else if 0 <= k && k + 1 < |r| {
          assert r[0] == s[0] && r[1] == rt[0] == s[1];
        }
      }
    }
  }

  /** Rewriting an already rewritten string changes nothing. */
  lemma SafePhoneIdempotent(s: string)
    ensures SafePhone(SafePhone(s)) == SafePhone(s)
  {
    SafePhoneNoAdjacentDigits(s);
    SafePhoneNoPairs(SafePhone(s));
  }

  /** Prepending one character: a separator follows it exactly when it and
      the first character of the rest are digits. */
  lemma SafePhoneCons(c: char, t: string)
    ensures SafePhone([c] + t)
         == (if IsDigit(c) && |t| > 0 && IsDigit(t[0]) then [c, ZeroWidthSpace] else [c]) + SafePhone(t)
  {
    assert ([c] + t)[0] == c;
    assert ([c] + t)[1..] == t;
  }

  /** The rewrite of a concatenation is the concatenation of the rewrites,
      with one separator at the seam when a digit meets a digit there. */
  lemma {:induction false} SafePhoneAppend(a: string, b: string)
    ensures SafePhone(a + b)
         == SafePhone(a)
            + (if |a| > 0 && |b| > 0 && IsDigit(a[|a| - 1]) && IsDigit(b[0]) then [ZeroWidthSpace] else [])
            + SafePhone(b)
  {
    var seam: string := if |a| > 0 && |b| > 0 && IsDigit(a[|a| - 1]) && IsDigit(b[0]) then [ZeroWidthSpace] else [];
    if |a| == 0 {
      assert a + b == b;
    } else {
      var c, rest := a[0], a[1..];
      assert a == [c] + rest;
      assert a + b == [c] + (rest + b);
      if |rest| == 0 {
        assert rest + b == b;
        SafePhoneCons(c, b);
        SafePhoneCons(c, rest);
        assert SafePhone(a) == [c];
        assert a[|a| - 1] == c;
      } else {
        assert (rest + b)[0] == rest[0];
        assert a[|a| - 1] == rest[|rest| - 1];
        var h: string := if IsDigit(c) && IsDigit(rest[0]) then [c, ZeroWidthSpace] else [c];
        SafePhoneCons(c, rest + b);
        SafePhoneCons(c, rest);
        SafePhoneAppend(rest, b);
        calc {
          SafePhone(a + b);
          h + SafePhone(rest + b);
          h + (SafePhone(rest) + seam + SafePhone(b));
          (h + SafePhone(rest)) + seam + SafePhone(b);
          SafePhone(a) + seam + SafePhone(b);
        }
      }
    }
  }

  /** The phone number `0812345678` gets a separator between each of its
      nine adjacent digit pairs; its digits keep their order. */
  lemma SafePhoneExample()
    ensures SafePhone("0812345678")
         == "0\U{200B}8\U{200B}1\U{200B}2\U{200B}3" + "\U{200B}" + "4\U{200B}5\U{200B}6\U{200B}7\U{200B}8"
  {
    assert SafePhone("08123") == "0\U{200B}8\U{200B}1\U{200B}2\U{200B}3" by {
    }
    assert SafePhone("45678") == "4\U{200B}5\U{200B}6\U{200B}7\U{200B}8" by {
    }
    assert "0812345678" == "08123" + "45678";
    SafePhoneAppend("08123", "45678");
  }


}
