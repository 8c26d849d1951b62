/**
 * Needles: the text a user types to pick out items. A needle written as a
 * slash literal (`/pattern/flags`) is read as a regular expression
 * (src/utils/stringToRegExp.js); any other needle is titled by its first
 * comma-separated part (src/utils/needleToTitle.js).
 *
 * The two regular expressions `stringToRegExp` applies to its input are
 * modelled by their meaning: `FindBody` is the leftmost, then greedy, match
 * of `\/(.+)\/[a-z+]*$` and `Flag` is the match of `\/([a-z+])$` under `i`.
 * Whether `new RegExp(pattern, flags)` accepts its arguments is the
 * `compiles` parameter.
 */
module Needle {
  import opened Wrappers
  import opened Text

  /** The arguments handed to `new RegExp`. */
  datatype RegExpSpec = RegExpSpec(pattern: string, flags: Option<char>)

  /** What the trailing `[a-z+]*` of the body expression accepts. */
  predicate FlagsTail(t: string) {
    forall i :: 0 <= i < |t| ==> IsAsciiLower(t[i]) || t[i] == '+'
  }

  /**
   * The body expression matches from the slash at `p` to the slash at `j`:
   * at least one character between them, none a line terminator (`.` does not
   * match one), and only flag characters from `j` to the end.
   */
  predicate BodyAt(s: string, p: int, j: int) {
    && 0 <= p && p + 1 < j < |s|
    && s[p] == '/' && s[j] == '/'
    && (forall k :: p < k < j ==> !IsLineTerminator(s[k]))
    && FlagsTail(s[j + 1..])
  }

  /** The greedy `.+`: the last closing slash at or below `j` that completes a match from `p`. */
  function Close(s: string, p: nat, j: int): (r: Option<nat>)
    requires j < |s|
    ensures r.Some? ==> p + 1 < r.value <= j && BodyAt(s, p, r.value)
    ensures r.Some? ==> forall k :: r.value < k <= j ==> !BodyAt(s, p, k)
    ensures r.None? ==> forall k :: k <= j ==> !BodyAt(s, p, k)
    decreases j
  {
    if j <= p + 1 then None
    else if BodyAt(s, p, j) then Some(j)
    else Close(s, p, j - 1)
  }

  /**
   * The leftmost match of the body expression at or after `p`: its opening
   * slash is the first one from which any match exists, and its closing slash
   * the last one that completes a match from there.
   */
  function Open(s: string, p: nat): (r: Option<(nat, nat)>)
    requires p <= |s|
    ensures r.Some? ==> p <= r.value.0 && BodyAt(s, r.value.0, r.value.1)
    ensures r.Some? ==> forall q, k :: p <= q < r.value.0 ==> !BodyAt(s, q, k)
    ensures r.Some? ==> forall k :: r.value.1 < k ==> !BodyAt(s, r.value.0, k)
    ensures r.None? ==> forall q, k :: p <= q ==> !BodyAt(s, q, k)
    decreases |s| - p
  {
    if p == |s| then None
    else
      match Close(s, p, |s| - 1)
      case Some(j) => Some((p, j))
      case None => Open(s, p + 1)
  }

  /** The capture of the body expression, if it matches at all. */
  function FindBody(s: string): (r: Option<string>)
    ensures r.Some? ==> |r.value| >= 1
    ensures r.Some? ==> forall i :: 0 <= i < |r.value| ==> !IsLineTerminator(r.value[i])
    ensures r.None? <==> forall q, k :: !BodyAt(s, q, k)
  {
    match Open(s, 0)
    case Some((p, j)) =>
      assert BodyAt(s, p, j);
      Some(s[p + 1..j])
    case None => None
  }

  /** The capture of the flag expression: one letter (either case) or `+` after a final slash. */
  function Flag(s: string): Option<char> {
    if |s| >= 2 && s[|s| - 2] == '/' && (IsAsciiLetter(s[|s| - 1]) || s[|s| - 1] == '+')
    then Some(s[|s| - 1])
    else None
  }

  /**
   * `stringToRegExp(str)`: the regular expression a slash literal denotes, or
   * nothing when the text is not a slash literal, has no body, or the engine
   * refuses the pattern or flag.
   */
  function StringToRegExp(str: string, compiles: (string, Option<char>) -> bool): (r: Option<RegExpSpec>)
    ensures |str| < 2 || str[0] != '/' ==> r.None?
    ensures (forall q, k :: !BodyAt(str, q, k)) ==> r.None?
    ensures r.Some? ==> compiles(r.value.pattern, r.value.flags)
    ensures r.Some? ==> |r.value.pattern| >= 1
    ensures r.Some? ==> forall i :: 0 <= i < |r.value.pattern| ==> !IsLineTerminator(r.value.pattern[i])
  {
    if |str| < 2 || str[0] != '/' then None
    else
      match FindBody(str)
      case None => None
      case Some(body) =>
        var flags := Flag(str);
        if compiles(body, flags) then Some(RegExpSpec(body, flags)) else None
  }

  /** Two slashes with nothing between them are not a regular expression. */
  lemma EmptyLiteralIsNotRegExp(compiles: (string, Option<char>) -> bool)
    ensures StringToRegExp("//", compiles).None?
  {
  }

  /**
   * A slash literal reads back as its body and, when exactly one flag
   * character follows the closing slash, that flag; a longer flag suffix
   * gives no flags at all. The body may itself contain slashes.
   */
  lemma {:induction false} LiteralRoundTrip(body: string, f: string, compiles: (string, Option<char>) -> bool)
    requires |body| >= 1 && FlagsTail(f)
    requires forall i :: 0 <= i < |body| ==> !IsLineTerminator(body[i])
    ensures var flags := if |f| == 1 then Some(f[0]) else None;
      StringToRegExp("/" + body + "/" + f, compiles)
        == if compiles(body, flags) then Some(RegExpSpec(body, flags)) else None
  {
    LiteralBody(body, f);
    LiteralFlag(body, f);
  }

  /** The greedy body of a slash literal ends at the slash before its flag suffix. */
  lemma LiteralBody(body: string, f: string)
    requires |body| >= 1 && FlagsTail(f)
    requires forall i :: 0 <= i < |body| ==> !IsLineTerminator(body[i])
    ensures FindBody("/" + body + "/" + f) == Some(body)
  {
    var s := "/" + body + "/" + f;
    var j: nat := |body| + 1;
    LiteralMatches(body, f);
    LiteralClosesOnce(body, f);
    assert Close(s, 0, |s| - 1) == Some(j);
    assert Open(s, 0) == Some((0, j));
    assert s[1..j] == body;
  }

  lemma LiteralMatches(body: string, f: string)
    requires |body| >= 1 && FlagsTail(f)
    requires forall i :: 0 <= i < |body| ==> !IsLineTerminator(body[i])
    ensures BodyAt("/" + body + "/" + f, 0, |body| + 1)
  {
    var s := "/" + body + "/" + f;
    var j := |body| + 1;
    assert s[j] == '/';
    assert s[j + 1..] == f;
    forall k | 0 < k < j
      ensures !IsLineTerminator(s[k])
    {
      assert s[k] == body[k - 1];
    }
  }

  lemma LiteralClosesOnce(body: string, f: string)
    requires FlagsTail(f)
    ensures forall k :: |body| + 1 < k ==> !BodyAt("/" + body + "/" + f, 0, k)
  {
    var s := "/" + body + "/" + f;
    var j := |body| + 1;
    forall k | j < k
      ensures !BodyAt(s, 0, k)
    {
      if k < |s| {
        assert s[k] == f[k - j - 1];
      }
    }
  }

  /** The flag of a slash literal: its suffix when that is one character long. */
  lemma LiteralFlag(body: string, f: string)
    requires FlagsTail(f)
    ensures Flag("/" + body + "/" + f) == if |f| == 1 then Some(f[0]) else None
  {
    var s := "/" + body + "/" + f;
    if |f| == 1 {
      assert s[|s| - 2] == '/' && s[|s| - 1] == f[0];
    } else if |f| == 0 {
      assert s[|s| - 1] == '/';
    } else {
      assert s[|s| - 2] == f[|f| - 2];
    }
  }

  /**
   * `needleToTitle(str)`: a regular-expression needle is titled by
   * `regExpToTitle`; any other needle by its text before the first comma,
   * trimmed.
   */
  function NeedleToTitle(
    str: string, compiles: (string, Option<char>) -> bool, regExpToTitle: string -> string): (r: string)
    ensures StringToRegExp(str, compiles).Some? ==> r == regExpToTitle(str)
    ensures StringToRegExp(str, compiles).None? ==> ',' !in r && IsTrimmed(r)
  {
    if StringToRegExp(str, compiles).Some? then regExpToTitle(str)
    else
      var first := Split(str, ',')[0];
      var r := Trim(first);
      assert forall i :: 0 <= i < |r| ==> r[i] in first;
      r
  }

  /** A plain needle without a comma is titled by itself, trimmed. */
  lemma PlainNeedleWithoutComma(
    str: string, compiles: (string, Option<char>) -> bool, regExpToTitle: string -> string)
    requires StringToRegExp(str, compiles).None? && ',' !in str
    ensures NeedleToTitle(str, compiles, regExpToTitle) == Trim(str)
  {
    SplitWithoutSeparator(str, ',');
  }

  /** A plain needle is titled by its first part: whatever follows the first comma is ignored. */
  lemma PlainNeedleFirstPart(
    head: string, tail: string, compiles: (string, Option<char>) -> bool, regExpToTitle: string -> string)
    requires ',' !in head
    requires StringToRegExp(head + "," + tail, compiles).None?
    ensures NeedleToTitle(head + "," + tail, compiles, regExpToTitle) == Trim(head)
  {
    assert head + "," + tail == head + [','] + tail;
    SplitAfterPiece(head, ',', tail);
  }
}
