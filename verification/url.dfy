/**
 * `formatURL(url)` (src/utils/formatURL.js) and `isDomain(str)`
 * (src/utils/isDomain.js). The domain pattern
 * `/^([a-z0-9]+(-[a-z0-9]+)*\.)+[a-z]{2,}$/i` is written out as a
 * recogniser over the `.`-separated pieces of the string.
 */
module Url {
  import Text

  const Scheme: string := "https://"

  /** `url.includes('://') ? url : 'https://' + url`. */
  function FormatURL(url: string): (r: string)
    ensures Text.Contains(r, "://")
    ensures Text.Contains(url, "://") ==> r == url
    ensures !Text.Contains(url, "://") ==> r == Scheme + url
  {
    if Text.Contains(url, "://") then url
    else
      var r := Scheme + url;
      assert r[5..8] == "://";
      Text.ContainsAt(r, 5, "://");
      r
  }

  lemma FormatURLIdempotent(url: string)
    ensures FormatURL(FormatURL(url)) == FormatURL(url)
  {
  }

  /** `[a-z0-9]` under the `i` flag. */
  predicate IsAlnum(c: char) {
    Text.IsAsciiLetter(c) || Text.IsDigit(c)
  }

  /** `[a-z0-9]+(-[a-z0-9]+)*`: a run of letters and digits, then runs each after one hyphen. */
  predicate IsLabel(p: string)
    decreases |p|, 1
  {
    |p| > 0 && IsAlnum(p[0]) && LabelRest(p[1..])
  }

  /** What may follow a letter or digit inside a label. */
  predicate LabelRest(p: string)
    decreases |p|, 0
  {
    |p| == 0 || (IsAlnum(p[0]) && LabelRest(p[1..])) || (p[0] == '-' && IsLabel(p[1..]))
  }

  /** The same labels described by their characters and hyphens. */
  predicate HyphenatedWord(p: string) {
    && |p| > 0
    && (forall i :: 0 <= i < |p| ==> IsAlnum(p[i]) || p[i] == '-')
    && p[0] != '-' && p[|p| - 1] != '-'
    && (forall i :: 0 <= i < |p| - 1 ==> !(p[i] == '-' && p[i + 1] == '-'))
  }

  /** `[a-z]{2,}` under the `i` flag. */
  predicate IsTld(p: string) {
    |p| >= 2 && forall i :: 0 <= i < |p| ==> Text.IsAsciiLetter(p[i])
  }

  /** The domain test: at least one label and a dot before a final run of two or more letters. */
  predicate IsDomain(s: string) {
    DomainPieces(Text.Split(s, '.'))
  }

  /** The `.`-separated pieces of a domain: labels, then a top-level name. */
  predicate DomainPieces(pieces: seq<string>) {
    && |pieces| >= 2
    && (forall i :: 0 <= i < |pieces| - 1 ==> IsLabel(pieces[i]))
    && IsTld(pieces[|pieces| - 1])
  }

  lemma {:induction false} LabelRestIsWordTail(p: string)
    requires LabelRest(p)
    ensures forall i :: 0 <= i < |p| ==> IsAlnum(p[i]) || p[i] == '-'
    ensures |p| > 0 ==> p[|p| - 1] != '-'
    ensures |p| > 0 ==> p[0] != '-' || (|p| > 1 && p[1] != '-')
    ensures forall i :: 0 <= i < |p| - 1 ==> !(p[i] == '-' && p[i + 1] == '-')
    decreases |p|
  {
    if |p| > 0 {
      LabelRestIsWordTail(p[1..]);
      assert forall i :: 1 <= i < |p| ==> p[i] == p[1..][i - 1];
      if p[0] == '-' {
        assert IsLabel(p[1..]);
      }
    }
  }

  lemma {:induction false} WordTailIsLabelRest(p: string)
    requires forall i :: 0 <= i < |p| ==> IsAlnum(p[i]) || p[i] == '-'
    requires |p| > 0 ==> p[|p| - 1] != '-'
    requires |p| > 0 && p[0] == '-' ==> |p| > 1 && p[1] != '-'
    requires forall i :: 0 <= i < |p| - 1 ==> !(p[i] == '-' && p[i + 1] == '-')
    ensures LabelRest(p)
    decreases |p|
  {
    if |p| > 0 {
      var q := p[1..];
      assert forall i :: 0 <= i < |q| ==> q[i] == p[i + 1];
      if |q| > 0 && q[0] == '-' {
        assert |q| > 1 && q[1] != '-';
      }
      WordTailIsLabelRest(q);
    }
  }

  /** The pattern's labels are exactly the words of letters and digits with single inner hyphens. */
  lemma LabelIsHyphenatedWord(p: string)
    ensures IsLabel(p) <==> HyphenatedWord(p)
  {
    if IsLabel(p) {
      LabelRestIsWordTail(p[1..]);
      assert forall i :: 1 <= i < |p| ==> p[i] == p[1..][i - 1];
    }
    if HyphenatedWord(p) {
      var q := p[1..];
      assert forall i :: 0 <= i < |q| ==> q[i] == p[i + 1];
      WordTailIsLabelRest(q);
    }
  }

  lemma {:induction false} SplitOfLower(s: string)
    ensures var r := Text.Split(Text.Lower(s), '.');
      |r| == |Text.Split(s, '.')| && forall i :: 0 <= i < |r| ==> r[i] == Text.Lower(Text.Split(s, '.')[i])
  {
    if |s| > 0 {
      SplitOfLower(s[1..]);
      assert Text.Lower(s)[1..] == Text.Lower(s[1..]);
      var rest := Text.Split(s[1..], '.');
      if s[0] != '.' {
        assert Text.Lower([s[0]] + rest[0]) == [Text.LowerChar(s[0])] + Text.Lower(rest[0]);
      }
    }
  }

  lemma {:induction false} LowerKeepsLabel(p: string)
    ensures IsLabel(Text.Lower(p)) == IsLabel(p)
    ensures LabelRest(Text.Lower(p)) == LabelRest(p)
    decreases |p|
  {
    if |p| > 0 {
      assert Text.Lower(p)[1..] == Text.Lower(p[1..]);
      LowerKeepsLabel(p[1..]);
    }
  }

  lemma LowerKeepsTld(p: string)
    ensures IsTld(Text.Lower(p)) == IsTld(p)
  {
    var q := Text.Lower(p);
    assert forall i :: 0 <= i < |p| ==> q[i] == Text.LowerChar(p[i]);
  }

  /** The `i` flag: upper and lower case are accepted alike. */
  lemma IsDomainIgnoresCase(s: string)
    ensures IsDomain(Text.Lower(s)) == IsDomain(s)
  {
    SplitOfLower(s);
    LowerKeepsDomainPieces(Text.Split(s, '.'), Text.Split(Text.Lower(s), '.'));
  }

  lemma LowerKeepsDomainPieces(ps: seq<string>, lps: seq<string>)
    requires |lps| == |ps| && forall i :: 0 <= i < |ps| ==> lps[i] == Text.Lower(ps[i])
    ensures DomainPieces(lps) == DomainPieces(ps)
  {
    forall i | 0 <= i < |ps|
      ensures IsLabel(lps[i]) == IsLabel(ps[i])
    {
      LowerKeepsLabel(ps[i]);
    }
    if |ps| > 0 {
      LowerKeepsTld(ps[|ps| - 1]);
    }
  }

  /** Empty strings, and leading, trailing or doubled dots, are not domains. */
  lemma IsDomainRejectsBadDots(s: string)
    ensures !IsDomain("")
    ensures |s| > 0 && (s[0] == '.' || s[|s| - 1] == '.') ==> !IsDomain(s)
    ensures forall a, b :: s == a + ".." + b ==> !IsDomain(s)
  {
    if |s| > 0 && s[0] == '.' {
      assert Text.Split(s, '.')[0] == "";
    }
    if |s| > 0 && s[|s| - 1] == '.' {
      Text.SplitEndingInSeparator(s, '.');
    }
    forall a, b | s == a + ".." + b
      ensures !IsDomain(s)
    {
      assert s == a + ['.'] + ("." + b);
      Text.SplitAtSeparator(a, '.', "." + b);
      var pa := Text.Split(a, '.');
      assert Text.Split("." + b, '.') == [""] + Text.Split(b, '.');
      assert Text.Split(s, '.')[|pa|] == "";
    }
  }

  /** A label, a dot and a top-level name of two or more letters make a domain. */
  lemma LabelDotTldIsDomain(word: string, tld: string)
    requires IsLabel(word) && IsTld(tld)
    ensures IsDomain(word + "." + tld)
  {
    LabelIsHyphenatedWord(word);
    assert '.' !in word by {
      forall i | 0 <= i < |word|
        ensures word[i] != '.'
      {
        assert IsAlnum(word[i]) || word[i] == '-';
      }
    }
    assert '.' !in tld by {
      forall i | 0 <= i < |tld|
        ensures tld[i] != '.'
      {
        assert Text.IsAsciiLetter(tld[i]);
      }
    }
    assert word + "." + tld == word + ['.'] + tld;
    Text.SplitAtSeparator(word, '.', tld);
    Text.SplitWithoutSeparator(word, '.');
    Text.SplitWithoutSeparator(tld, '.');
    assert Text.Split(word + "." + tld, '.') == [word, tld];
  }
}
