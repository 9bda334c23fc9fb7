// Printing of decimal numbers and the notion of blank text.
module Text {

  function Digit(d: nat): char
    requires d < 10
  {
    '0' + d as char
  }

  /** A number in decimal, without leading zeros. */
  function Decimal(n: nat): (s: string)
    ensures s != []
  {
    if n < 10 then [Digit(n)] else Decimal(n / 10) + [Digit(n % 10)]
  }

  lemma {:induction false} DecimalIsInjective(m: nat, n: nat)
    requires Decimal(m) == Decimal(n)
    ensures m == n
  {
    var s := Decimal(m);
    assert s[|s| - 1] == Digit(m % 10) == Digit(n % 10);
    if m >= 10 && n >= 10 {
      assert s[..|s| - 1] == Decimal(m / 10) == Decimal(n / 10);
      DecimalIsInjective(m / 10, n / 10);
    }
  }

  /** The number a string of digits stands for. */
  function Read(s: string): nat {
    if s == [] then 0
    else 10 * Read(s[..|s| - 1]) + if '0' <= s[|s| - 1] <= '9' then (s[|s| - 1] - '0') as nat else 0
  }

  /** Printing gives the digits that read back as the number, without a leading zero. */
  lemma {:induction false} DecimalReads(n: nat)
    ensures Read(Decimal(n)) == n && (forall c <- Decimal(n) :: '0' <= c <= '9')
    ensures Decimal(n)[0] == '0' ==> n == 0
  {
    var s := Decimal(n);
    if n < 10 {
      assert s[..|s| - 1] == [] && s[|s| - 1] == '0' + n as char;
    } else {
      DecimalReads(n / 10);
      assert s[..|s| - 1] == Decimal(n / 10);
    }
  }

  /** Unicode white space. */
  predicate Space(c: char) {
    var code := c as int;
    || 9 <= code <= 13 || code == 32 || code == 0x85 || code == 0xA0 || code == 0x1680
    || 0x2000 <= code <= 0x200A || code == 0x2028 || code == 0x2029 || code == 0x202F || code == 0x205F
    || code == 0x3000
  }

  /** The white space characters by number. */
  lemma SpacesExactly(c: char)
    ensures Space(c) <==> c as int in {9, 10, 11, 12, 13, 32, 133, 160, 5760, 8192, 8193, 8194, 8195, 8196, 8197, 8198, 8199,
                                       8200, 8201, 8202, 8232, 8233, 8239, 8287, 12288}
  {
  }

  predicate IsBlank(s: string) {
    forall c <- s :: Space(c)
  }
}
