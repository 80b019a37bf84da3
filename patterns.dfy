/** The regular expressions the resolvers apply, as matchers over strings.
    A match at index `i` is decided by a greedy scan: `\s` cannot match ':'
    or '"', and `\d` cannot match '"', so backtracking into a shorter run can
    never succeed where the greedy run fails, and a regex match at `i` exists
    exactly when the scan below succeeds. `re.search` returns the leftmost
    such index. */
module Patterns {
  import opened Wrappers
  import opened Text

  datatype Pattern =
    | SteamIdField       // "steamid"\s*:\s*"(\d+)"   on a profile page (api/main.py)
    | SteamIdFieldTight  // "steamid":"(\d+)"          on a profile page (main.py)
    | ProfilesSegment    // /profiles/(\d+)            on a link (main.py)

  const SteamIdKey: string := "\"steamid\""
  const SteamIdKeyTight: string := "\"steamid\":\""
  const ProfilesPrefix: string := "/profiles/"

  /** `(\d+)` at index `j`, greedy, followed by a closing '"' when `quoted`. */
  function CaptureDigits(s: string, j: nat, quoted: bool): (r: Option<string>)
    requires j <= |s|
    ensures r.Some? ==> r.value != [] && AllDigits(r.value) && LiteralAt(s, j, r.value)
  {
    var n := RunLength(s, j, IsDigit);
    RunLengthRun(s, j, IsDigit);
    if n == 0 then None
    else if quoted && !(j + n < |s| && s[j + n] == '"') then None
    else Some(s[j..j + n])
  }

  /** The group captured by a match of `p` starting exactly at index `i`. */
  function MatchAt(p: Pattern, s: string, i: nat): (r: Option<string>)
    requires i <= |s|
    ensures r.Some? ==> r.value != [] && AllDigits(r.value)
  {
    match p
    case SteamIdField => FieldMatchAt(s, i)
    case SteamIdFieldTight =>
      if LiteralAt(s, i, SteamIdKeyTight) then CaptureDigits(s, i + 11, true) else None
    case ProfilesSegment =>
      if LiteralAt(s, i, ProfilesPrefix) then CaptureDigits(s, i + 10, false) else None
  }

  /** `"steamid"\s*:\s*"(\d+)"` at index `i`. */
  function FieldMatchAt(s: string, i: nat): (r: Option<string>)
    requires i <= |s|
    ensures r.Some? ==> r.value != [] && AllDigits(r.value)
  {
    if !LiteralAt(s, i, SteamIdKey) then None
    else
      var colon := i + 9 + RunLength(s, i + 9, IsSpace);
      if !CharAt(s, colon, ':') then None
      else
        var quote := colon + 1 + RunLength(s, colon + 1, IsSpace);
        if !CharAt(s, quote, '"') then None
        else CaptureDigits(s, quote + 1, true)
  }

  /** The leftmost index at or after `from` where `p` matches. */
  function FirstMatch(p: Pattern, s: string, from: nat): (r: Option<nat>)
    requires from <= |s|
    ensures r.Some? ==> from <= r.value <= |s| && MatchAt(p, s, r.value).Some?
    ensures r.Some? ==> forall j :: from <= j < r.value ==> MatchAt(p, s, j).None?
    ensures r.None? ==> forall j :: from <= j <= |s| ==> MatchAt(p, s, j).None?
    decreases |s| - from
  {
    if MatchAt(p, s, from).Some? then Some(from)
    else if from == |s| then None
    else FirstMatch(p, s, from + 1)
  }

  /** `re.search(p, s)`, giving `group(1)` of the leftmost match. */
  function Search(p: Pattern, s: string): (r: Option<string>)
    ensures r.Some? ==> r.value != [] && AllDigits(r.value)
    ensures r.Some? <==> exists i :: 0 <= i <= |s| && MatchAt(p, s, i).Some?
    ensures forall i :: 0 <= i <= |s| && MatchAt(p, s, i).Some? ==>
      exists k :: 0 <= k <= i && r == MatchAt(p, s, k)
  {
    match FirstMatch(p, s, 0)
    case Some(k) => MatchAt(p, s, k)
    case None => None
  }

  predicate CharAt(s: string, k: nat, c: char) {
    k < |s| && s[k] == c
  }

  /** The shape `"steamid"` W1 `:` W2 `"` D `"` at index `i` (W1, W2
      whitespace, D a non-empty digit string) is a match of `SteamIdField`
      capturing D. */
  lemma SteamIdFieldComplete(s: string, i: nat, w1: string, w2: string, d: string)
    requires AllSpaces(w1) && AllSpaces(w2) && d != [] && AllDigits(d)
    requires LiteralAt(s, i, SteamIdKey) && LiteralAt(s, i + 9, w1)
    requires CharAt(s, i + 9 + |w1|, ':') && LiteralAt(s, i + 10 + |w1|, w2)
    requires CharAt(s, i + 10 + |w1| + |w2|, '"')
    requires LiteralAt(s, i + 11 + |w1| + |w2|, d) && CharAt(s, i + 11 + |w1| + |w2| + |d|, '"')
    ensures FieldMatchAt(s, i) == Some(d)
  {
    var colon := i + 9 + |w1|;
    var quote := colon + 1 + |w2|;
    SpaceRunBefore(s, i + 9, w1, ':');
    SpaceRunBefore(s, colon + 1, w2, '"');
    QuotedDigits(s, quote + 1, d);
    FieldMatchFromRuns(s, i, |w1|, |w2|, d);
  }

  lemma FieldMatchFromRuns(s: string, i: nat, n1: nat, n2: nat, d: string)
    requires LiteralAt(s, i, SteamIdKey)
    requires RunLength(s, i + 9, IsSpace) == n1 && CharAt(s, i + 9 + n1, ':')
    requires RunLength(s, i + 10 + n1, IsSpace) == n2 && CharAt(s, i + 10 + n1 + n2, '"')
    requires CaptureDigits(s, i + 11 + n1 + n2, true) == Some(d)
    ensures FieldMatchAt(s, i) == Some(d)
  {
  }

  lemma SpaceRunBefore(s: string, k: nat, w: string, c: char)
    requires AllSpaces(w) && LiteralAt(s, k, w) && CharAt(s, k + |w|, c) && !IsSpace(c)
    ensures RunLength(s, k, IsSpace) == |w|
  {
    RunLengthExact(s, k, w, IsSpace);
  }

  lemma QuotedDigits(s: string, k: nat, d: string)
    requires d != [] && AllDigits(d) && LiteralAt(s, k, d) && CharAt(s, k + |d|, '"')
    ensures CaptureDigits(s, k, true) == Some(d)
  {
    RunLengthExact(s, k, d, IsDigit);
  }

  /** Conversely, a match of `SteamIdField` at `i` has that shape; the
      whitespace runs are returned as witnesses. */
  lemma SteamIdFieldSound(s: string, i: nat) returns (w1: string, w2: string)
    requires i <= |s| && FieldMatchAt(s, i).Some?
    ensures AllSpaces(w1) && AllSpaces(w2)
    ensures LiteralAt(s, i, SteamIdKey) && LiteralAt(s, i + 9, w1)
    ensures CharAt(s, i + 9 + |w1|, ':') && LiteralAt(s, i + 10 + |w1|, w2)
    ensures CharAt(s, i + 10 + |w1| + |w2|, '"')
    ensures var d := FieldMatchAt(s, i).value;
      LiteralAt(s, i + 11 + |w1| + |w2|, d) && CharAt(s, i + 11 + |w1| + |w2| + |d|, '"')
  {
    w1 := SpaceRunAt(s, i + 9);
    var colon := i + 9 + |w1|;
    w2 := SpaceRunAt(s, colon + 1);
  }

  /** The whitespace run at `k`, as a string. */
  lemma SpaceRunAt(s: string, k: nat) returns (w: string)
    requires k <= |s|
    ensures |w| == RunLength(s, k, IsSpace)
    ensures AllSpaces(w) && LiteralAt(s, k, w)
  {
    RunLengthRun(s, k, IsSpace);
    w := s[k..k + RunLength(s, k, IsSpace)];
  }
}
