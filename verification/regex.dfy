/** Regular expressions over characters, as sets of strings. */
module Regex {
  datatype Re =
    | Empty
    | Chars(has: char -> bool)
    | Then(first: Re, second: Re)
    | Or(left: Re, right: Re)
    | Star(body: Re)

  predicate In(r: Re, s: string)
    decreases r, |s|
  {
    match r
    case Empty => s == ""
    case Chars(has) => |s| == 1 && has(s[0])
    case Then(a, b) => exists k :: 0 <= k <= |s| && In(a, s[..k]) && In(b, s[k..])
    case Or(a, b) => In(a, s) || In(b, s)
    case Star(a) => s == "" || exists k :: 0 < k <= |s| && In(a, s[..k]) && In(Star(a), s[k..])
  }

  function Opt(r: Re): Re {
    Or(r, Empty)
  }

  function Plus(r: Re): Re {
    Then(r, Star(r))
  }

  function Lit(c: char): Re {
    Chars(x => x == c)
  }

  /** Every character class of the expression lies inside `ok`. */
  ghost predicate Over(r: Re, ok: char -> bool) {
    match r
    case Empty => true
    case Chars(has) => forall c :: has(c) ==> ok(c)
    case Then(a, b) => Over(a, ok) && Over(b, ok)
    case Or(a, b) => Over(a, ok) && Over(b, ok)
    case Star(a) => Over(a, ok)
  }

  predicate All(s: string, ok: char -> bool) {
    forall i :: 0 <= i < |s| ==> ok(s[i])
  }

  lemma AllConcat(s: string, k: nat, ok: char -> bool)
    requires k <= |s| && All(s[..k], ok) && All(s[k..], ok)
    ensures All(s, ok)
  {
    forall i | 0 <= i < |s| ensures ok(s[i]) {
      assert s[i] == if i < k then s[..k][i] else s[k..][i - k];
    }
  }

  /** Strings of the expression have only its characters. */
  lemma {:induction false} InOver(r: Re, s: string, ok: char -> bool)
    requires In(r, s) && Over(r, ok)
    ensures All(s, ok)
    decreases r, |s|
  {
    match r
    case Empty =>
    case Chars(_) =>
    case Then(a, b) =>
      var k :| 0 <= k <= |s| && In(a, s[..k]) && In(b, s[k..]);
      InOver(a, s[..k], ok);
      InOver(b, s[k..], ok);
      AllConcat(s, k, ok);
    case Or(a, b) =>
      if In(a, s) { InOver(a, s, ok); } else { InOver(b, s, ok); }
    case Star(a) =>
      if s != "" {
        var k :| 0 < k <= |s| && In(a, s[..k]) && In(r, s[k..]);
        InOver(a, s[..k], ok);
        InOver(r, s[k..], ok);
        AllConcat(s, k, ok);
      }
  }

  /** The expression does not contain the empty string. */
  predicate Nonempty(r: Re) {
    match r
    case Empty => false
    case Chars(_) => true
    case Then(a, b) => Nonempty(a) || Nonempty(b)
    case Or(a, b) => Nonempty(a) && Nonempty(b)
    case Star(_) => false
  }

  lemma {:induction false} InNonempty(r: Re, s: string)
    requires In(r, s) && Nonempty(r)
    ensures s != ""
    decreases r
  {
    match r
    case Chars(_) =>
    case Then(a, b) =>
      var k :| 0 <= k <= |s| && In(a, s[..k]) && In(b, s[k..]);
      if Nonempty(a) { InNonempty(a, s[..k]); } else { InNonempty(b, s[k..]); }
    case Or(a, b) =>
      if In(a, s) { InNonempty(a, s); } else { InNonempty(b, s); }
  }

  /** Every string of the expression has a character outside `ok`. */
  ghost predicate Leaves(r: Re, ok: char -> bool) {
    match r
    case Empty => false
    case Chars(has) => forall c :: has(c) ==> !ok(c)
    case Then(a, b) => Leaves(a, ok) || Leaves(b, ok)
    case Or(a, b) => Leaves(a, ok) && Leaves(b, ok)
    case Star(_) => false
  }

  lemma {:induction false} InLeaves(r: Re, s: string, ok: char -> bool)
    requires In(r, s) && Leaves(r, ok)
    ensures !All(s, ok)
    decreases r
  {
    match r
    case Chars(_) =>
    case Then(a, b) =>
      var k :| 0 <= k <= |s| && In(a, s[..k]) && In(b, s[k..]);
      if Leaves(a, ok) {
        InLeaves(a, s[..k], ok);
        var i :| 0 <= i < k && !ok(s[..k][i]);
        assert !ok(s[i]);
      } else {
        InLeaves(b, s[k..], ok);
        var i :| 0 <= i < |s[k..]| && !ok(s[k..][i]);
        assert !ok(s[k + i]);
      }
    case Or(a, b) =>
      if In(a, s) { InLeaves(a, s, ok); } else { InLeaves(b, s, ok); }
  }

  lemma {:induction false} StarOfChars(p: char -> bool, s: string)
    ensures In(Star(Chars(p)), s) <==> All(s, p)
    decreases |s|
  {
    if All(s, p) && s != "" {
      StarOfChars(p, s[1..]);
      assert In(Chars(p), s[..1]) && In(Star(Chars(p)), s[1..]);
    }
    if In(Star(Chars(p)), s) {
      InOver(Star(Chars(p)), s, p);
    }
  }

  lemma PlusOfChars(p: char -> bool, s: string)
    ensures In(Plus(Chars(p)), s) <==> s != "" && All(s, p)
  {
    if s != "" && All(s, p) {
      StarOfChars(p, s[1..]);
      assert In(Chars(p), s[..1]) && In(Star(Chars(p)), s[1..]);
    }
    if In(Plus(Chars(p)), s) {
      InNonempty(Plus(Chars(p)), s);
      InOver(Plus(Chars(p)), s, p);
    }
  }
}
