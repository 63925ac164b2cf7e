/** What decimal digits denote. */
module Decimals {
  predicate AreDigits(s: string) {
    forall i :: 0 <= i < |s| ==> '0' <= s[i] <= '9'
  }

  function PowTen(w: nat): nat {
    if w == 0 then 1 else 10 * PowTen(w - 1)
  }

  /** The number that the digits denote, by the value of their places. */
  function Denoted(s: string): nat
    requires AreDigits(s)
  {
    if s == "" then 0 else (s[0] as nat - '0' as nat) * PowTen(|s| - 1) + Denoted(s[1..])
  }

  lemma PowTenSums()
    ensures PowTen(1) == 10 && PowTen(2) == 100 && PowTen(3) == 1000
  {
  }

  lemma Shifted(d: nat, n: nat)
    requires n > 0
    ensures d * PowTen(n) == 10 * (d * PowTen(n - 1))
  {
  }

  /** One digit more at the end. */
  lemma {:induction false} DenotedSnoc(s: string, c: char)
    requires AreDigits(s) && '0' <= c <= '9'
    ensures AreDigits(s + [c]) && Denoted(s + [c]) == 10 * Denoted(s) + (c as nat - '0' as nat)
  {
    if s == "" {
      assert s + [c] == [c] && [c][1..] == "" && Denoted([c]) == (c as nat - '0' as nat) * PowTen(0) + Denoted("");
    } else {
      var d, tail, t := s[0] as nat - '0' as nat, s[1..], s + [c];
      DenotedSnoc(tail, c);
      assert t[1..] == tail + [c] && t[0] == s[0];
      Shifted(d, |s|);
      assert Denoted(t) == d * PowTen(|s|) + Denoted(tail + [c]);
    }
  }

  lemma TwoDigits(a: char, b: char)
    requires '0' <= a <= '9' && '0' <= b <= '9'
    ensures Denoted([a, b]) == 10 * (a as nat - '0' as nat) + (b as nat - '0' as nat)
  {
    assert Denoted([a]) == (a as nat - '0' as nat) * PowTen(0) + Denoted([a][1..]);
    DenotedSnoc([a], b);
    assert [a] + [b] == [a, b];
  }

  /** The digits mean what they are read as. */
  lemma DenotedExamples()
    ensures Denoted("0") == 0 && Denoted("7") == 7 && Denoted("12") == 12 && Denoted("42") == 42
    ensures Denoted("128") == 128
  {
    TwoDigits('1', '2');
    TwoDigits('4', '2');
    DenotedSnoc("12", '8');
    assert "12" + ['8'] == "128";
    assert Denoted("0") == 0 * PowTen(0) + Denoted("0"[1..]) && Denoted("7") == 7 * PowTen(0) + Denoted("7"[1..]);
  }
}
