/** Numbers in decimal, and the text of a block's header. */
module Numerals {
  import opened Transactions
  import opened Blocks
  import opened History

  /** Reading digits from the most significant on. */
  function ValueOf(s: string): int {
    if s == "" then 0 else 10 * ValueOf(s[..|s| - 1]) + (s[|s| - 1] as int - '0' as int)
  }

  lemma {:induction false} DigitIs(n: nat)
    requires n < 10
    ensures "0123456789"[n] as int == '0' as int + n
  {
  }

  lemma {:induction false} DigitsRead(n: nat)
    ensures Digits(n) != "" && ValueOf(Digits(n)) == n && '0' <= Digits(n)[0] <= '9'
  {
    DigitIs(n % 10);
    if n < 10 {
      assert Digits(n)[..0] == "";
    } else {
      DigitsRead(n / 10);
      var last := ["0123456789"[n % 10]];
      assert (Digits(n / 10) + last)[..|Digits(n / 10)|] == Digits(n / 10);
    }
  }

  /** A number is written in one way, and each text is that of one number. */
  lemma {:induction false} DecimalInjective(a: int, b: int)
    requires Decimal(a) == Decimal(b)
    ensures a == b
  {
    DigitsRead(if a < 0 then -a else a);
    DigitsRead(if b < 0 then -b else b);
    if a < 0 && b < 0 {
      assert Digits(-a) == Decimal(a)[1..] && Digits(-b) == Decimal(b)[1..];
    }
  }

  lemma {:induction false} Middle(p: string, x: string, y: string, q: string)
    requires p + x + q == p + y + q
    ensures x == y
  {
    assert |x| == |y|;
    assert x == (p + x + q)[|p|..|p| + |x|] && y == (p + y + q)[|p|..|p| + |y|];
  }

  lemma {:induction false} Join(a: string, b: string, c: string)
    ensures (a + b) + c == a + (b + c)
  {
  }

  /** The header text, cut around each field. */
  lemma {:induction false} TextAround(index: nat, nonce: nat, difficulty: nat, time: int,
                                      data: string, previous: string, extra: string)
    ensures var di, dn, dd, dt := Decimal(index), Decimal(nonce), Decimal(difficulty), Decimal(time);
            var text := HeaderText(index, nonce, difficulty, time, data, previous, extra);
            && text == "" + di + (dn + (dd + (data + (dt + (previous + extra)))))
            && text == di + dn + (dd + (data + (dt + (previous + extra))))
            && text == (di + dn) + dd + (data + (dt + (previous + extra)))
            && text == ((di + dn) + dd) + data + (dt + (previous + extra))
            && text == (((di + dn) + dd) + data) + dt + (previous + extra)
            && text == ((((di + dn) + dd) + data) + dt) + previous + extra
  {
    var di, dn, dd, dt := Decimal(index), Decimal(nonce), Decimal(difficulty), Decimal(time);
    Join((((di + dn) + dd) + data) + dt, previous, extra);
    Join(((di + dn) + dd) + data, dt, previous + extra);
    Join((di + dn) + dd, data, dt + (previous + extra));
    Join(di + dn, dd, data + (dt + (previous + extra)));
    Join(di, dn, dd + (data + (dt + (previous + extra))));
    assert "" + di == di;
  }

  /** How many of the hashed fields differ, the transactions aside. */
  function Differences(x: Block, y: Block): nat {
    (if x.index == y.index then 0 else 1) + (if x.nonce == y.nonce then 0 else 1)
    + (if x.difficulty == y.difficulty then 0 else 1) + (if x.data == y.data then 0 else 1)
    + (if x.time == y.time then 0 else 1) + (if x.previousHash == y.previousHash then 0 else 1)
  }

  /** Blocks that differ in exactly one of these fields have different texts. */
  lemma {:induction false} OneFieldTells(c: Crypto, x: Block, y: Block)
    requires x.transactions == y.transactions && Differences(x, y) == 1
    ensures BlockText(c, x) != BlockText(c, y)
  {
    var extra := c.sha256(c.dump(x.transactions));
    if BlockText(c, x) == BlockText(c, y) {
      TextAround(x.index, x.nonce, x.difficulty, x.time, x.data, x.previousHash, extra);
      TextAround(y.index, y.nonce, y.difficulty, y.time, y.data, y.previousHash, extra);
      var di, dn, dd, dt := Decimal(x.index), Decimal(x.nonce), Decimal(x.difficulty), Decimal(x.time);
      var data, previous := x.data, x.previousHash;
      hide Decimal, HeaderText;
      if x.index != y.index {
        Middle("", di, Decimal(y.index), dn + (dd + (data + (dt + (previous + extra)))));
        DecimalInjective(x.index, y.index);
      } else if x.nonce != y.nonce {
        Middle(di, dn, Decimal(y.nonce), dd + (data + (dt + (previous + extra))));
        DecimalInjective(x.nonce, y.nonce);
      } else if x.difficulty != y.difficulty {
        Middle(di + dn, dd, Decimal(y.difficulty), data + (dt + (previous + extra)));
        DecimalInjective(x.difficulty, y.difficulty);
      } else if x.data != y.data {
        Middle((di + dn) + dd, data, y.data, dt + (previous + extra));
      } else if x.time != y.time {
        Middle(((di + dn) + dd) + data, dt, Decimal(y.time), previous + extra);
        DecimalInjective(x.time, y.time);
      } else {
        Middle((((di + dn) + dd) + data) + dt, previous, y.previousHash, extra);
      }
    }
  }

  /** Two such blocks with the same hash are two texts with the same digest. In particular no two nonces give
      the same hash otherwise. */
  lemma {:induction false} OneFieldCollides(c: Crypto, x: Block, y: Block)
    requires x.transactions == y.transactions && Differences(x, y) == 1
    requires CalculateBlockHash(c, x) == CalculateBlockHash(c, y)
    ensures ShaCollision(c, BlockText(c, x), BlockText(c, y))
  {
    OneFieldTells(c, x, y);
  }

  /** Written out for one header, a time before the epoch included. */
  lemma {:induction false} HeaderIsWritten()
    ensures HeaderText(12, 345, 6, 78, "data", "prev", "extra") == "123456" + "data" + "78" + "prev" + "extra"
    ensures HeaderText(0, 7, 10, -9, "", "p", "e") == "0710" + "-9" + "pe"
  {
    assert Digits(12) == "12" && Digits(34) == "34" && Digits(345) == "345";
    assert Digits(6) == "6" && Digits(78) == "78" && Digits(0) == "0" && Digits(7) == "7" && Digits(10) == "10";
    assert Decimal(-9) == "-9";
  }
}
