/** `extractGroupId`: turn what the user typed (a community or group link, or
    a bare number) into a group id, by three regular expressions tried in
    order. The same leftmost-match machinery serves the `/communities/(\d+)`
    path match of the older popup's `parseCommunityUrl`. */
module GroupId {
  import opened Common

  const CommunitiesPath := "/communities/"
  const GroupsPath := "/groups/"

  // ---------------------------------------------------------------- String.prototype.trim

  /** ECMAScript WhiteSpace and LineTerminator code points (what `trim` strips). */
  predicate IsTrimmable(c: char) {
    || c == '\t' || c == '\n' || c == '\U{000B}' || c == '\U{000C}' || c == '\r' || c == ' '
    || c == '\U{00A0}' || c == '\U{1680}' || ('\U{2000}' <= c <= '\U{200A}')
    || c == '\U{2028}' || c == '\U{2029}' || c == '\U{202F}' || c == '\U{205F}'
    || c == '\U{3000}' || c == '\U{FEFF}'
  }

  /** Every character of `t` is white space. */
  predicate AllTrimmable(t: string) {
    t == [] || (IsTrimmable(t[0]) && AllTrimmable(t[1..]))
  }

  lemma {:induction false} AllTrimmableSnoc(t: string, c: char)
    requires AllTrimmable(t) && IsTrimmable(c)
    ensures AllTrimmable(t + [c])
  {
    if t != [] {
      AllTrimmableSnoc(t[1..], c);
      assert (t + [c])[1..] == t[1..] + [c];
    }
  }

  function TrimStart(s: string): (r: string)
    ensures |r| <= |s| && r == s[|s| - |r|..]
    ensures r != [] ==> !IsTrimmable(r[0])
  {
    if s != [] && IsTrimmable(s[0]) then TrimStart(s[1..]) else s
  }

  function TrimEnd(s: string): (r: string)
    ensures |r| <= |s| && r == s[..|r|]
    ensures r != [] ==> !IsTrimmable(r[|r| - 1])
  {
    if s != [] && IsTrimmable(s[|s| - 1]) then TrimEnd(s[..|s| - 1]) else s
  }

  /** `TrimStart` removes white space only: it cuts the longest white-space
      prefix. */
  lemma {:induction false} TrimStartSpec(s: string)
    ensures AllTrimmable(s[..|s| - |TrimStart(s)|])
  {
    if s != [] && IsTrimmable(s[0]) {
      TrimStartSpec(s[1..]);
      var n := |s| - |TrimStart(s)|;
      assert s[..n] == [s[0]] + s[1..][..n - 1];
    }
  }

  /** `TrimEnd` removes white space only: it cuts the longest white-space
      suffix. */
  lemma {:induction false} TrimEndSpec(s: string)
    ensures AllTrimmable(s[|TrimEnd(s)|..])
  {
    if s != [] && IsTrimmable(s[|s| - 1]) {
      var init := s[..|s| - 1];
      TrimEndSpec(init);
      var n := |TrimEnd(s)|;
      assert s[n..] == init[n..] + [s[|s| - 1]];
      AllTrimmableSnoc(init[n..], s[|s| - 1]);
    }
  }

  function Trim(s: string): string {
    TrimEnd(TrimStart(s))
  }

  // ---------------------------------------------------------------- leftmost regex match

  /** The regular expression `pat\d{minDigits,}` matches at index i of t. */
  predicate MatchAt(t: string, pat: string, minDigits: nat, i: nat) {
    && i + |pat| + minDigits <= |t|
    && t[i..i + |pat|] == pat
    && AllDigits(t[i + |pat|..i + |pat| + minDigits])
  }

  ghost predicate HasMatch(t: string, pat: string, minDigits: nat) {
    exists i: nat :: MatchAt(t, pat, minDigits, i)
  }

  /** `d` is the whole run of digits starting at index k of t (greedy `\d+`). */
  ghost predicate MaximalDigitsAt(t: string, k: nat, d: string) {
    && k + |d| <= |t|
    && t[k..k + |d|] == d
    && AllDigits(d)
    && (k + |d| == |t| || !IsDigit(t[k + |d|]))
  }

  /** `d` is what the leftmost match of `pat(\d{minDigits,})` captures in t. */
  ghost predicate IsLeftmostCapture(t: string, pat: string, minDigits: nat, d: string) {
    exists i: nat ::
      && MatchAt(t, pat, minDigits, i)
      && (forall j :: 0 <= j < i ==> !MatchAt(t, pat, minDigits, j))
      && MaximalDigitsAt(t, i + |pat|, d)
  }

  /** The run of digits starting at index k. */
  function DigitRun(t: string, k: nat): (d: string)
    requires k <= |t|
    ensures MaximalDigitsAt(t, k, d)
    decreases |t| - k
  {
    if k < |t| && IsDigit(t[k]) then [t[k]] + DigitRun(t, k + 1) else []
  }

  /** A run starting where `n` digits are known to stand is at least `n` long. */
  lemma {:induction false} DigitRunLength(t: string, k: nat, n: nat)
    requires k + n <= |t| && AllDigits(t[k..k + n])
    ensures |DigitRun(t, k)| >= n
    decreases n
  {
    if n > 0 {
      assert t[k..k + n][0] == t[k];
      assert t[k + 1..k + 1 + (n - 1)] == t[k..k + n][1..];
      DigitRunLength(t, k + 1, n - 1);
    }
  }

  /** The leftmost index at or after `from` where the expression matches. */
  function FindMatch(t: string, pat: string, minDigits: nat, from: nat): (r: Option<nat>)
    ensures r.Some? ==> from <= r.value && MatchAt(t, pat, minDigits, r.value)
    ensures r.Some? ==> forall j :: from <= j < r.value ==> !MatchAt(t, pat, minDigits, j)
    ensures r.None? ==> forall j :: from <= j ==> !MatchAt(t, pat, minDigits, j)
    decreases |t| - from
  {
    if |t| < from + |pat| + minDigits then None
    else if MatchAt(t, pat, minDigits, from) then Some(from)
    else FindMatch(t, pat, minDigits, from + 1)
  }

  /** `t.match(/pat(\d{minDigits,})/)`, reduced to the captured digits. */
  function Capture(t: string, pat: string, minDigits: nat): Option<string> {
    match FindMatch(t, pat, minDigits, 0)
    case None => None
    case Some(i) => Some(DigitRun(t, i + |pat|))
  }

  /** Capture finds a match exactly when there is one, and then returns the
      digits the leftmost match captures, at least `minDigits` of them. */
  lemma CaptureSpec(t: string, pat: string, minDigits: nat)
    ensures Capture(t, pat, minDigits).Some? <==> HasMatch(t, pat, minDigits)
    ensures Capture(t, pat, minDigits).Some? ==>
              && IsLeftmostCapture(t, pat, minDigits, Capture(t, pat, minDigits).value)
              && |Capture(t, pat, minDigits).value| >= minDigits
  {
    match FindMatch(t, pat, minDigits, 0)
    case None =>
      assert forall j: nat :: !MatchAt(t, pat, minDigits, j);
    case Some(i) =>
      var d := DigitRun(t, i + |pat|);
      DigitRunLength(t, i + |pat|, minDigits);
      assert MatchAt(t, pat, minDigits, i);
      assert forall j :: 0 <= j < i ==> !MatchAt(t, pat, minDigits, j);
      assert MaximalDigitsAt(t, i + |pat|, d);
      assert IsLeftmostCapture(t, pat, minDigits, d);
  }

  // ---------------------------------------------------------------- extractGroupId

  /** `extractGroupId(raw)`: null for empty input; otherwise, on the trimmed
      input, the digits after `/communities/`, else after `/groups/`, else the
      first run of three or more digits, else null. */
  function ExtractGroupId(raw: string): (r: Option<string>)
    ensures raw == [] ==> r == None
    ensures r.Some? ==> r.value != [] && AllDigits(r.value)
  {
    if raw == [] then None
    else
      var t := Trim(raw);
      CaptureSpec(t, CommunitiesPath, 1);
      CaptureSpec(t, GroupsPath, 1);
      CaptureSpec(t, "", 3);
      var communities := Capture(t, CommunitiesPath, 1);
      if communities.Some? then communities
      else
        var groups := Capture(t, GroupsPath, 1);
        if groups.Some? then groups else Capture(t, "", 3)
  }

  /** The three rules in priority order: a `/communities/<digits>` match wins
      over a `/groups/<digits>` match, which wins over the first run of three
      or more digits; with none of them the result is null. */
  lemma ExtractGroupIdPriority(raw: string)
    requires raw != []
    ensures var t, r := Trim(raw), ExtractGroupId(raw);
      && (HasMatch(t, CommunitiesPath, 1) ==>
            r.Some? && IsLeftmostCapture(t, CommunitiesPath, 1, r.value))
      && (!HasMatch(t, CommunitiesPath, 1) && HasMatch(t, GroupsPath, 1) ==>
            r.Some? && IsLeftmostCapture(t, GroupsPath, 1, r.value))
      && (!HasMatch(t, CommunitiesPath, 1) && !HasMatch(t, GroupsPath, 1) ==>
            (r.Some? <==> HasMatch(t, "", 3))
            && (r.Some? ==> |r.value| >= 3 && IsLeftmostCapture(t, "", 3, r.value)))
  {
    var t := Trim(raw);
    CaptureSpec(t, CommunitiesPath, 1);
    CaptureSpec(t, GroupsPath, 1);
    CaptureSpec(t, "", 3);
  }

  /** `t` is `s` with white space cut from both ends: it is the slice of `s`
      starting at `lo`, everything before and after it is white space, and it
      neither starts nor ends with white space. */
  ghost predicate TrimmedFrom(s: string, t: string, lo: nat) {
    && lo + |t| <= |s|
    && t == s[lo..lo + |t|]
    && AllTrimmable(s[..lo])
    && AllTrimmable(s[lo + |t|..])
    && (t != [] ==> !IsTrimmable(t[0]) && !IsTrimmable(t[|t| - 1]))
  }

  /** Trimming removes white space from the two ends and nothing else. */
  lemma TrimIsSlice(s: string)
    ensures TrimmedFrom(s, Trim(s), |s| - |TrimStart(s)|)
  {
    var u := TrimStart(s);
    var v := TrimEnd(u);
    TrimStartSpec(s);
    TrimEndSpec(u);
    TrimmedSlice(s, u, v);
  }

  /** Cutting white space off the front and then off the back. */
  lemma TrimmedSlice(s: string, u: string, v: string)
    requires |u| <= |s| && u == s[|s| - |u|..] && AllTrimmable(s[..|s| - |u|])
    requires u != [] ==> !IsTrimmable(u[0])
    requires |v| <= |u| && v == u[..|v|] && AllTrimmable(u[|v|..])
    requires v != [] ==> !IsTrimmable(v[|v| - 1])
    ensures TrimmedFrom(s, v, |s| - |u|)
  {
    var lo := |s| - |u|;
    assert s[lo..][..|v|] == s[lo..lo + |v|];
    assert s[lo + |v|..] == u[|v|..];
    if v != [] {
      assert v[0] == u[0];
    }
  }

  /** Trimming a digit-free string leaves it digit-free. */
  lemma TrimNoDigits(s: string)
    requires forall i :: 0 <= i < |s| ==> !IsDigit(s[i])
    ensures forall i :: 0 <= i < |Trim(s)| ==> !IsDigit(Trim(s)[i])
  {
    var u := TrimStart(s);
    var lo := |s| - |u|;
    forall i | 0 <= i < |u|
      ensures !IsDigit(u[i])
    {
      assert u[i] == s[lo + i];
    }
    var v := TrimEnd(u);
    forall i | 0 <= i < |v|
      ensures !IsDigit(v[i])
    {
      assert v[i] == u[i];
    }
  }

  lemma NoDigitsNoMatch(t: string, pat: string, n: nat)
    requires n >= 1
    requires forall i :: 0 <= i < |t| ==> !IsDigit(t[i])
    ensures !HasMatch(t, pat, n)
  {
    forall i: nat | i + |pat| + n <= |t|
      ensures !MatchAt(t, pat, n, i)
    {
      assert !IsDigit(t[i + |pat|..i + |pat| + n][0]);
    }
  }

  /** Input with no digits at all yields null (e.g. "abc"). */
  lemma NoDigitsNoId(raw: string)
    requires forall i :: 0 <= i < |raw| ==> !IsDigit(raw[i])
    ensures ExtractGroupId(raw) == None
  {
    if raw != [] {
      var t := Trim(raw);
      TrimNoDigits(raw);
      NoDigitsNoMatch(t, CommunitiesPath, 1);
      NoDigitsNoMatch(t, GroupsPath, 1);
      NoDigitsNoMatch(t, "", 3);
      CaptureSpec(t, CommunitiesPath, 1);
      CaptureSpec(t, GroupsPath, 1);
      CaptureSpec(t, "", 3);
    }
  }

  lemma AbcHasNoId()
    ensures ExtractGroupId("abc") == None
  {
    NoDigitsNoId("abc");
  }

  /** The digits of an all-digit tail form the whole run. */
  lemma {:induction false} DigitRunToEnd(t: string, k: nat)
    requires k <= |t| && AllDigits(t[k..])
    ensures DigitRun(t, k) == t[k..]
    decreases |t| - k
  {
    if k < |t| {
      assert t[k..][0] == t[k];
      assert t[k + 1..] == t[k..][1..];
      DigitRunToEnd(t, k + 1);
      assert t[k..] == [t[k]] + t[k + 1..];
    }
  }

  /** A bare id is accepted as it is. */
  lemma ExtractBareId()
    ensures ExtractGroupId("123456") == Some("123456")
  {
    var t := "123456";
    assert TrimStart(t) == t && TrimEnd(t) == t;
    assert FindMatch(t, CommunitiesPath, 1, 0) == None;
    assert FindMatch(t, GroupsPath, 1, 0) == None;
    assert MatchAt(t, "", 3, 0);
    DigitRunToEnd(t, 0);
  }

  /** A community path gives the digits after it. */
  lemma ExtractCommunityPath()
    ensures ExtractGroupId("/communities/123456") == Some("123456")
  {
    var t := "/communities/123456";
    assert TrimStart(t) == t && TrimEnd(t) == t;
    assert t[..13] == CommunitiesPath;
    assert MatchAt(t, CommunitiesPath, 1, 0);
    assert t[13..] == "123456";
    DigitRunToEnd(t, 13);
  }

  /** A legacy group path gives the digits after it. */
  lemma ExtractGroupPath()
    ensures ExtractGroupId("/groups/123456") == Some("123456")
  {
    var t := "/groups/123456";
    assert TrimStart(t) == t && TrimEnd(t) == t;
    assert t[..13][1] == 'g' && CommunitiesPath[1] == 'c';
    assert FindMatch(t, CommunitiesPath, 1, 0) == None;
    assert t[..8] == GroupsPath;
    assert MatchAt(t, GroupsPath, 1, 0);
    assert t[8..] == "123456";
    DigitRunToEnd(t, 8);
  }
}
