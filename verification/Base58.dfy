/** Numbers written in base 58. */
module Base58 {

  const BASE := 58

  /** In its runs of consecutive characters. */
  const ALPHABET := "123456789" + "ABCDEFGH" + "JKLMN" + "PQRSTUVWXYZ" + "abcdefghijk" + "mnopqrstuvwxyz"

  /** The value of a digit, by the ranges the alphabet is made of: no 0, I, O or l. */
  function DigitValue(ch: char): int {
    if '1' <= ch <= '9' then ch as int - '1' as int
    else if 'A' <= ch <= 'H' then ch as int - 'A' as int + 9
    else if 'J' <= ch <= 'N' then ch as int - 'J' as int + 17
    else if 'P' <= ch <= 'Z' then ch as int - 'P' as int + 22
    else if 'a' <= ch <= 'k' then ch as int - 'a' as int + 33
    else if 'm' <= ch <= 'z' then ch as int - 'm' as int + 44
    else -1
  }

  /** The character for a digit, by the same ranges. */
  function DigitChar(i: nat): char
    requires i < BASE
  {
    if i < 9 then ('1' as int + i) as char
    else if i < 17 then ('A' as int + (i - 9)) as char
    else if i < 22 then ('J' as int + (i - 17)) as char
    else if i < 33 then ('P' as int + (i - 22)) as char
    else if i < 44 then ('a' as int + (i - 33)) as char
    else ('m' as int + (i - 44)) as char
  }

  lemma {:induction false} RunsOfCharacters(i: nat)
    ensures i < 9 ==> "123456789"[i] == DigitChar(i)
    ensures i < 8 ==> "ABCDEFGH"[i] == DigitChar(9 + i)
    ensures i < 5 ==> "JKLMN"[i] == DigitChar(17 + i)
  {
  }

  lemma {:induction false} MoreRuns(i: nat)
    ensures i < 11 ==> "PQRSTUVWXYZ"[i] == DigitChar(22 + i)
    ensures i < 11 ==> "abcdefghijk"[i] == DigitChar(33 + i)
  {
  }

  lemma {:induction false} LastRun(i: nat)
    ensures i < 14 ==> "mnopqrstuvwxyz"[i] == DigitChar(44 + i)
  {
  }

  lemma {:induction false} AlphabetIs(i: nat)
    requires i < BASE
    ensures |ALPHABET| == BASE && ALPHABET[i] == DigitChar(i)
  {
    if i < 9 {
      RunsOfCharacters(i);
    } else if i < 17 {
      RunsOfCharacters(i - 9);
    } else if i < 22 {
      RunsOfCharacters(i - 17);
    } else if i < 33 {
      MoreRuns(i - 22);
    } else if i < 44 {
      MoreRuns(i - 33);
    } else {
      LastRun(i - 44);
    }
  }

  lemma {:induction false} CharsDecode(i: nat)
    requires i < BASE
    ensures DigitValue(DigitChar(i)) == i && (DigitChar(i) == '1' <==> i == 0)
  {
  }

  lemma {:induction false} DigitsDecode(i: nat)
    requires i < BASE
    ensures |ALPHABET| == BASE && DigitValue(ALPHABET[i]) == i
    ensures ALPHABET[i] == '1' <==> i == 0
  {
    AlphabetIs(i);
    CharsDecode(i);
  }

  /** Reading digits from the most significant on. */
  function Decode(s: string): int {
    if s == "" then 0 else Decode(s[..|s| - 1]) * BASE + DigitValue(s[|s| - 1])
  }

  /** The digits of a number, none of them a leading zero unless the number is zero. */
  ghost predicate Canonical(s: string, n: nat) {
    && s != "" && Decode(s) == n
    && (forall ch <- s :: DigitValue(ch) >= 0)
    && (s[0] == '1' ==> n == 0 && s == "1")
  }

  function Digit(n: nat): (ch: char)
    requires n < BASE
    ensures DigitValue(ch) == n && (ch == '1' <==> n == 0)
  {
    DigitsDecode(n);
    ALPHABET[n]
  }

  function Encoded(n: nat): string {
    if n < BASE then [Digit(n)] else Encoded(n / BASE) + [Digit(n % BASE)]
  }

  lemma {:induction false} DecodeSnoc(s: string, ch: char)
    ensures Decode(s + [ch]) == Decode(s) * BASE + DigitValue(ch)
  {
    assert (s + [ch])[..|s|] == s;
  }

  lemma {:induction false} EncodedIsCanonical(n: nat)
    ensures Canonical(Encoded(n), n)
  {
    if n < BASE {
      DecodeSnoc("", Digit(n));
      assert "" + [Digit(n)] == Encoded(n);
    } else {
      EncodedIsCanonical(n / BASE);
      DecodeSnoc(Encoded(n / BASE), Digit(n % BASE));
      assert Encoded(n)[0] == Encoded(n / BASE)[0];
    }
  }

  lemma {:induction false} DistinctNumbersDiffer(m: nat, n: nat)
    requires Encoded(m) == Encoded(n)
    ensures m == n
  {
    EncodedIsCanonical(m);
    EncodedIsCanonical(n);
  }

  /** A negative number would index the alphabet before its first character. */
  method Base58Encode(number: nat) returns (encoded: string)
    ensures Canonical(encoded, number)
    ensures encoded == Encoded(number)
  {
    var num: nat := number;
    encoded := "";
    while num >= BASE
      invariant Encoded(number) == Encoded(num) + encoded
    {
      var div := num / BASE;
      var mod := num - BASE * div;
      assert mod == num % BASE;
      assert Encoded(num) + encoded == Encoded(div) + ([Digit(mod)] + encoded);
      encoded := [Digit(mod)] + encoded;
      num := div;
    }
    encoded := [Digit(num)] + encoded;
    EncodedIsCanonical(number);
  }
}
