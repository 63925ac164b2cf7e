/** The format of relay usernames as the pattern that defines it (packages/shared/src/relay-protocol.ts). */
module UsernameFormat {
  import opened Regex
  import opened Usernames

  /** `[a-z0-9]` */
  predicate IsEnd(c: char) {
    'a' <= c <= 'z' || '0' <= c <= '9'
  }

  /** `[a-z0-9-]` */
  predicate IsMiddle(c: char) {
    IsEnd(c) || c == '-'
  }

  /** `r{n}` */
  function Times(r: Re, n: nat): Re {
    if n == 0 then Empty else Then(r, Times(r, n - 1))
  }

  lemma {:induction false} TimesOfChars(p: char -> bool, n: nat, s: string)
    ensures In(Times(Chars(p), n), s) <==> |s| == n && All(s, p)
  {
    if n > 0 {
      if In(Times(Chars(p), n), s) {
        var k :| 0 <= k <= |s| && In(Chars(p), s[..k]) && In(Times(Chars(p), n - 1), s[k..]);
        TimesOfChars(p, n - 1, s[k..]);
        assert s[..k][0] == s[0];
        forall i | 0 <= i < |s| ensures p(s[i]) {
          assert i > 0 ==> s[i] == s[k..][i - 1];
        }
      }
      if |s| == n && All(s, p) {
        TimesOfChars(p, n - 1, s[1..]);
        assert In(Chars(p), s[..1]);
      }
    }
  }

  /** `[a-z0-9][a-z0-9-]{n}[a-z0-9]` */
  function Pattern(n: nat): Re {
    Then(Chars(IsEnd), Then(Times(Chars(IsMiddle), n), Chars(IsEnd)))
  }

  lemma OneChar(p: char -> bool, s: string)
    ensures In(Chars(p), s) <==> |s| == 1 && p(s[0])
  {
  }

  lemma PatternSplit(n: nat, s: string)
    requires In(Pattern(n), s)
    ensures |s| == n + 2 && IsEnd(s[0]) && IsEnd(s[n + 1]) && All(s[1..n + 1], IsMiddle)
  {
    var middle := Times(Chars(IsMiddle), n);
    var k :| 0 <= k <= |s| && In(Chars(IsEnd), s[..k]) && In(Then(middle, Chars(IsEnd)), s[k..]);
    var rest := s[k..];
    var j :| 0 <= j <= |rest| && In(middle, rest[..j]) && In(Chars(IsEnd), rest[j..]);
    OneChar(IsEnd, s[..k]);
    OneChar(IsEnd, rest[j..]);
    TimesOfChars(IsMiddle, n, rest[..j]);
    hide In, Times;
    assert s[..k][0] == s[0] && rest[j..][0] == s[n + 1] && rest[..j] == s[1..n + 1];
  }

  lemma PatternJoin(n: nat, s: string)
    requires |s| == n + 2 && IsEnd(s[0]) && IsEnd(s[n + 1]) && All(s[1..n + 1], IsMiddle)
    ensures In(Pattern(n), s)
  {
    var rest := s[1..];
    OneChar(IsEnd, s[..1]);
    OneChar(IsEnd, rest[n..]);
    TimesOfChars(IsMiddle, n, rest[..n]);
    hide Times;
    assert rest[..n] == s[1..n + 1] && rest[n..][0] == s[n + 1];
    assert In(Then(Times(Chars(IsMiddle), n), Chars(IsEnd)), rest);
  }

  /** A name is valid exactly if it matches the pattern with 1 to 30 characters in the middle. */
  lemma ValidIsPattern(name: string)
    ensures IsValidRelayUsername(name) <==> exists n: nat :: 1 <= n <= 30 && In(Pattern(n), name)
  {
    hide In, Pattern;
    if IsValidRelayUsername(name) {
      PatternJoin(|name| - 2, name);
    }
    if n: nat :| 1 <= n <= 30 && In(Pattern(n), name) {
      PatternSplit(n, name);
      forall i | 0 < i <= n ensures IsMiddle(name[i]) {
        assert name[i] == name[1..n + 1][i - 1];
      }
    }
  }
}
