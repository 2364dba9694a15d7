/** JavaScript values and the ECMAScript string built-ins the build helpers
    rely on (`||`, template literals, `indexOf`, `substring`, `split`,
    `replace`), each with the semantics of the library function it stands for,
    plus the two Node `path` functions the helpers use on plain strings. */
module JsStrings {

  /** A configuration value as JavaScript sees it: absent, a string or a boolean. */
  datatype Value = Undefined | Str(s: string) | Bool(b: bool)

  /** JavaScript truthiness: `undefined`, `false` and `""` are falsy. */
  predicate Truthy(v: Value) {
    match v
    case Undefined => false
    case Str(s) => s != ""
    case Bool(b) => b
  }

  /** `a || b` */
  function Or(a: Value, b: Value): Value {
    if Truthy(a) then a else b
  }

  /** `${v}` inside a template literal. */
  function ToJs(v: Value): string {
    match v
    case Undefined => "undefined"
    case Str(s) => s
    case Bool(b) => if b then "true" else "false"
  }

  predicate IsPrefix(p: string, s: string) {
    |p| <= |s| && s[..|p|] == p
  }

  predicate IsSuffix(p: string, s: string) {
    |p| <= |s| && s[|s| - |p|..] == p
  }

  /** `sub` occurs in `s` starting at index `i`. */
  predicate OccursAt(s: string, sub: string, i: int) {
    0 <= i && i + |sub| <= |s| && s[i..i + |sub|] == sub
  }

  predicate Contains(s: string, sub: string) {
    exists i :: 0 <= i <= |s| && OccursAt(s, sub, i)
  }

  function IndexOfFrom(s: string, sub: string, from: nat): (r: int)
    requires from <= |s|
    ensures r == -1 || (from <= r && OccursAt(s, sub, r))
    ensures r >= 0 ==> forall j :: from <= j < r ==> !OccursAt(s, sub, j)
    ensures r == -1 ==> forall j :: from <= j ==> !OccursAt(s, sub, j)
    decreases |s| - from
  {
    if from + |sub| > |s| then -1
    else if s[from..from + |sub|] == sub then from
    else IndexOfFrom(s, sub, from + 1)
  }

  /** `s.indexOf(sub)`: the first index at which `sub` occurs, or -1. */
  function IndexOf(s: string, sub: string): (r: int)
    ensures r == -1 || OccursAt(s, sub, r)
    ensures r >= 0 ==> forall j :: 0 <= j < r ==> !OccursAt(s, sub, j)
    ensures r == -1 ==> forall j :: !OccursAt(s, sub, j)
  {
    IndexOfFrom(s, sub, 0)
  }

  function Clamp(i: int, n: nat): (r: nat)
    ensures r <= n
  {
    if i < 0 then 0 else if i > n then n else i
  }

  /** `s.substring(start)`: the start index is clamped into `[0, |s|]`. */
  function SubstringFrom(s: string, start: int): (r: string)
    ensures IsSuffix(r, s)
    ensures start <= 0 ==> r == s
    ensures |s| <= start ==> r == []
    ensures 0 <= start <= |s| ==> s == s[..start] + r
  {
    s[Clamp(start, |s|)..]
  }

  /** `s.substring(start, end)`: both indices clamped, swapped when reversed. */
  function Substring(s: string, start: int, end: int): (r: string)
    ensures 0 <= start <= end <= |s| ==> r == s[start..end]
    ensures 0 <= end <= start <= |s| ==> r == s[end..start]
    ensures start <= 0 && |s| <= end ==> r == s
    ensures end <= 0 ==> r == s[..Clamp(start, |s|)]
    ensures start <= 0 ==> r == s[..Clamp(end, |s|)]
    ensures 0 <= start <= |s| <= end ==> r == s[start..]
    ensures 0 <= end <= |s| <= start ==> r == s[end..]
    ensures |s| <= start && |s| <= end ==> r == []
    ensures Contains(s, r)
  {
    var a, b := Clamp(start, |s|), Clamp(end, |s|);
    var lo, hi := if a <= b then a else b, if a <= b then b else a;
    assert OccursAt(s, s[lo..hi], lo);
    s[lo..hi]
  }

  /** `s.substring(start)` is `s.substring(start, s.length)`. */
  lemma SubstringFromToEnd(s: string, start: int)
    ensures SubstringFrom(s, start) == Substring(s, start, |s|)
  {
  }

  /** Swapping the indices of `substring` does not change the result. */
  lemma SubstringSwap(s: string, start: int, end: int)
    ensures Substring(s, start, end) == Substring(s, end, start)
  {
  }

  /** `s.split(sep)` for a non-empty literal separator: the pieces between
      successive leftmost non-overlapping occurrences of `sep`. */
  function SplitOn(s: string, sep: string): (parts: seq<string>)
    requires sep != []
    ensures |parts| >= 1
    ensures IsPrefix(parts[0], s)
    ensures |parts| == 1 <==> IndexOf(s, sep) < 0
    ensures |parts| == 1 ==> parts[0] == s
    ensures |parts| > 1 ==> parts[0] == s[..IndexOf(s, sep)]
    decreases |s|
  {
    var i := IndexOf(s, sep);
    if i < 0 then [s] else [s[..i]] + SplitOn(s[i + |sep|..], sep)
  }

  /** No piece of a split contains the separator. */
  lemma {:induction false} SplitOnPiecesFree(s: string, sep: string)
    requires sep != []
    ensures forall k :: 0 <= k < |SplitOn(s, sep)| ==> !Contains(SplitOn(s, sep)[k], sep)
    decreases |s|
  {
    var i := IndexOf(s, sep);
    var parts := SplitOn(s, sep);
    if i < 0 {
      assert parts == [s];
    } else {
      var tail := SplitOn(s[i + |sep|..], sep);
      assert parts == [s[..i]] + tail;
      NoOccurrenceBefore(s, sep, i);
      SplitOnPiecesFree(s[i + |sep|..], sep);
      forall k | 0 <= k < |parts| ensures !Contains(parts[k], sep) {
        if k > 0 {
          assert parts[k] == tail[k - 1];
        }
      }
    }
  }

  /** The first-occurrence property of `IndexOf`, read on the prefix before it. */
  lemma NoOccurrenceBefore(s: string, sep: string, i: int)
    requires sep != [] && 0 <= i <= |s|
    requires forall j :: 0 <= j < i ==> !OccursAt(s, sep, j)
    ensures !Contains(s[..i], sep)
  {
    forall j | 0 <= j <= i ensures !OccursAt(s[..i], sep, j) {
      if j + |sep| <= i {
        assert !OccursAt(s, sep, j);
        assert s[..i][j..j + |sep|] == s[j..j + |sep|];
      }
    }
  }

  /** For a one-character separator, occurring is membership. */
  lemma ContainsChar(s: string, c: char)
    ensures Contains(s, [c]) <==> c in s
    ensures IndexOf(s, [c]) >= 0 <==> c in s
  {
    if c in s {
      var k :| 0 <= k < |s| && s[k] == c;
      assert OccursAt(s, [c], k);
    }
    if Contains(s, [c]) {
      var j :| 0 <= j <= |s| && OccursAt(s, [c], j);
      assert s[j] == s[j..j + 1][0];
    }
  }

  /** The second piece of `t.split('/')`: present exactly when `t` has a
      `/`, and then the text after the first `/` up to the next one. */
  lemma SecondPathPiece(t: string)
    ensures |SplitOn(t, "/")| > 1 <==> '/' in t
    ensures |SplitOn(t, "/")| > 1 ==>
              var i := IndexOf(t, "/");
              var f := SplitOn(t, "/")[1];
              && 0 <= i && '/' !in t[..i]
              && '/' !in f
              && (f == t[i + 1..] || IsPrefix(f + "/", t[i + 1..]))
  {
    ContainsChar(t, '/');
    var i := IndexOf(t, "/");
    if i >= 0 {
      SplitOnSecond(t, "/");
      FirstPathPiece(t[i + 1..]);
      NoSlashBeforeFirst(t);
    }
  }

  lemma SplitOnSecond(t: string, sep: string)
    requires sep != [] && IndexOf(t, sep) >= 0
    ensures |SplitOn(t, sep)| > 1
    ensures SplitOn(t, sep)[1] == SplitOn(t[IndexOf(t, sep) + |sep|..], sep)[0]
  {
    var i := IndexOf(t, sep);
    assert SplitOn(t, sep) == [t[..i]] + SplitOn(t[i + |sep|..], sep);
  }

  lemma FirstPathPiece(u: string)
    ensures var f := SplitOn(u, "/")[0];
            '/' !in f && (f == u || IsPrefix(f + "/", u))
  {
    FirstPiece(u, "/");
    ContainsChar(SplitOn(u, "/")[0], '/');
  }

  lemma NoSlashBeforeFirst(t: string)
    requires IndexOf(t, "/") >= 0
    ensures '/' !in t[..IndexOf(t, "/")]
  {
    NoOccurrenceBefore(t, "/", IndexOf(t, "/"));
    ContainsChar(t[..IndexOf(t, "/")], '/');
  }

  /** Every piece but the last is cut at the first occurrence of the
      separator after it: in the piece followed by the separator, that
      separator is the first occurrence. */
  predicate LeftmostPieces(parts: seq<string>, sep: string)
    decreases |parts|
  {
    |parts| <= 1 || (IndexOf(parts[0] + sep, sep) == |parts[0]| && LeftmostPieces(parts[1..], sep))
  }

  /** The split takes the leftmost occurrence each time: the first
      occurrence of the separator in a piece followed by the separator is the
      one right after the piece. Together with `SplitOnPiecesFree` and
      `JoinSplitOn` this fixes the pieces uniquely. */
  lemma SplitOnLeftmost(s: string, sep: string)
    requires sep != []
    ensures var parts := SplitOn(s, sep);
            forall k :: 0 <= k < |parts| - 1 ==> IndexOf(parts[k] + sep, sep) == |parts[k]|
  {
    SplitOnLeftmostPieces(s, sep);
    LeftmostPiecesEach(SplitOn(s, sep), sep);
  }

  lemma {:induction false} SplitOnLeftmostPieces(s: string, sep: string)
    requires sep != []
    ensures LeftmostPieces(SplitOn(s, sep), sep)
    decreases |s|
  {
    var i := IndexOf(s, sep);
    if i >= 0 {
      var rest := s[i + |sep|..];
      var tail := SplitOn(rest, sep);
      assert SplitOn(s, sep) == [s[..i]] + tail;
      assert ([s[..i]] + tail)[1..] == tail;
      SplitOnLeftmostPieces(rest, sep);
      FirstPieceLeftmost(s, sep);
    }
  }

  lemma {:induction false} LeftmostPiecesEach(parts: seq<string>, sep: string)
    requires LeftmostPieces(parts, sep)
    ensures forall k :: 0 <= k < |parts| - 1 ==> IndexOf(parts[k] + sep, sep) == |parts[k]|
    decreases |parts|
  {
    if |parts| > 1 {
      LeftmostPiecesEach(parts[1..], sep);
      forall k | 1 <= k < |parts| - 1 ensures IndexOf(parts[k] + sep, sep) == |parts[k]| {
        assert parts[k] == parts[1..][k - 1];
      }
    }
  }

  /** Cutting the string just after its first occurrence keeps that
      occurrence first. */
  lemma FirstPieceLeftmost(s: string, sep: string)
    requires sep != [] && IndexOf(s, sep) >= 0
    ensures IndexOf(s[..IndexOf(s, sep)] + sep, sep) == IndexOf(s, sep)
  {
    var i := IndexOf(s, sep);
    var head := s[..i + |sep|];
    assert s[..i] + sep == head by {
      assert s[i..i + |sep|] == sep;
      assert head == s[..i] + s[i..i + |sep|];
    }
    assert OccursAt(head, sep, i) by {
      assert head[i..i + |sep|] == s[i..i + |sep|];
    }
    forall j | 0 <= j < i ensures !OccursAt(head, sep, j) {
      assert !OccursAt(s, sep, j);
      assert head[j..j + |sep|] == s[j..j + |sep|];
    }
  }

  /** The first piece holds no separator and is either the whole string or
      followed by a separator. */
  lemma FirstPiece(s: string, sep: string)
    requires sep != []
    ensures var f := SplitOn(s, sep)[0];
            && !Contains(f, sep)
            && (f == s || IsPrefix(f + sep, s))
  {
    var i := IndexOf(s, sep);
    SplitOnPiecesFree(s, sep);
    if i >= 0 {
      assert s[..i] + sep == s[..i + |sep|];
    }
  }

  /** `parts.join(sep)` */
  function Join(parts: seq<string>, sep: string): string {
    if |parts| == 0 then ""
    else if |parts| == 1 then parts[0]
    else parts[0] + sep + Join(parts[1..], sep)
  }

  /** Joining the pieces of a split with the same separator gives back the string. */
  lemma {:induction false} JoinSplitOn(s: string, sep: string)
    requires sep != []
    ensures Join(SplitOn(s, sep), sep) == s
    decreases |s|
  {
    var i := IndexOf(s, sep);
    if i >= 0 {
      var rest := s[i + |sep|..];
      var tail := SplitOn(rest, sep);
      assert SplitOn(s, sep) == [s[..i]] + tail;
      JoinSplitOn(rest, sep);
      JoinCons(s[..i], tail, sep);
      assert s[i..i + |sep|] == sep;
      assert s == s[..i] + s[i..i + |sep|] + rest;
    }
  }

  /** Joining a piece in front of a non-empty list of pieces. */
  lemma JoinCons(a: string, tail: seq<string>, sep: string)
    requires |tail| >= 1
    ensures Join([a] + tail, sep) == a + sep + Join(tail, sep)
  {
    assert ([a] + tail)[1..] == tail;
  }

  /** The separators of the regular expression `/(?:,| )+/`. */
  predicate IsListSeparator(c: char) {
    c == ',' || c == ' '
  }

  /** The index of the first list separator at or after `from`, or `|s|`. */
  function NextSeparator(s: string, from: nat): (i: nat)
    requires from <= |s|
    ensures from <= i <= |s|
    ensures i < |s| ==> IsListSeparator(s[i])
    ensures forall k :: from <= k < i ==> !IsListSeparator(s[k])
    decreases |s| - from
  {
    if from == |s| || IsListSeparator(s[from]) then from else NextSeparator(s, from + 1)
  }

  /** The index just past the run of list separators that starts at `from`. */
  function EndOfRun(s: string, from: nat): (j: nat)
    requires from <= |s|
    ensures from <= j <= |s|
    ensures j < |s| ==> !IsListSeparator(s[j])
    ensures forall k :: from <= k < j ==> IsListSeparator(s[k])
    decreases |s| - from
  {
    if from == |s| || !IsListSeparator(s[from]) then from else EndOfRun(s, from + 1)
  }

  /** `s.split(/(?:,| )+/)`: the fields between maximal runs of commas and
      spaces. A leading or trailing run yields an empty first or last field,
      and the empty string splits into one empty field. */
  function SplitList(s: string): (fields: seq<string>)
    ensures |fields| >= 1
    ensures s == [] ==> fields == [[]]
    ensures fields[0] == [] <==> (s == [] || IsListSeparator(s[0]))
    ensures forall k, c :: 0 <= k < |fields| && c in fields[k] ==> !IsListSeparator(c)
    ensures forall k :: 0 < k < |fields| - 1 ==> fields[k] != []
    decreases |s|
  {
    var i := NextSeparator(s, 0);
    if i == |s| then [s]
    else
      var j := EndOfRun(s, i);
      [s[..i]] + SplitList(s[j..])
  }

  /** A non-empty run of commas and spaces. */
  predicate IsSeparatorRun(r: string) {
    r != [] && forall c :: c in r ==> IsListSeparator(c)
  }

  /** The fields with the separator runs between them put back:
      `fields[0] + runs[0] + fields[1] + ... + fields[|fields| - 1]`. */
  function Interleave(fields: seq<string>, runs: seq<string>): string
    requires |fields| >= 1 && |runs| == |fields| - 1
    decreases |fields|
  {
    if |fields| == 1 then fields[0] else fields[0] + runs[0] + Interleave(fields[1..], runs[1..])
  }

  /** The fields of `SplitList(s)` are the text of `s` between its maximal
      separator runs: putting non-empty runs of commas and spaces back between
      them gives `s` again. */
  lemma {:induction false} SplitListRuns(s: string) returns (runs: seq<string>)
    ensures |runs| == |SplitList(s)| - 1
    ensures forall k :: 0 <= k < |runs| ==> IsSeparatorRun(runs[k])
    ensures s == Interleave(SplitList(s), runs)
    decreases |s|
  {
    var i := NextSeparator(s, 0);
    if i == |s| {
      runs := [];
    } else {
      var j := EndOfRun(s, i);
      var rest := SplitListRuns(s[j..]);
      SeparatorRunBetween(s, i, j);
      runs := InterleaveCons(s, i, j, SplitList(s[j..]), rest);
    }
  }

  /** The text `EndOfRun` skips from a separator is a separator run. */
  lemma SeparatorRunBetween(s: string, i: nat, j: nat)
    requires i < |s| && IsListSeparator(s[i]) && j == EndOfRun(s, i)
    ensures IsSeparatorRun(s[i..j])
  {
    forall c | c in s[i..j] ensures IsListSeparator(c) {
      var k :| 0 <= k < j - i && s[i..j][k] == c;
      assert s[i + k] == c;
    }
  }

  /** One step of `SplitListRuns`: the first field and run in front of the
      fields and runs of the rest. */
  lemma InterleaveCons(s: string, i: nat, j: nat, tail: seq<string>, rest: seq<string>)
      returns (runs: seq<string>)
    requires i < j <= |s| && |tail| >= 1 && |rest| == |tail| - 1
    requires IsSeparatorRun(s[i..j]) && forall k :: 0 <= k < |rest| ==> IsSeparatorRun(rest[k])
    requires s[j..] == Interleave(tail, rest)
    ensures runs == [s[i..j]] + rest
    ensures forall k :: 0 <= k < |runs| ==> IsSeparatorRun(runs[k])
    ensures s == Interleave([s[..i]] + tail, runs)
  {
    runs := [s[i..j]] + rest;
    var fields := [s[..i]] + tail;
    assert fields[1..] == tail && runs[1..] == rest;
    assert s == s[..i] + s[i..j] + s[j..];
  }

  /** A string without commas or spaces is a one-field list. */
  lemma SplitListSingle(s: string)
    requires forall c :: c in s ==> !IsListSeparator(c)
    ensures SplitList(s) == [s]
  {
    var i := NextSeparator(s, 0);
  }

  /** `s.replace(new RegExp(token, 'g'), value)` for a token that has no
      regular-expression metacharacter and a value without `$` patterns:
      every leftmost non-overlapping occurrence of `token` is replaced. */
  function ReplaceAll(s: string, token: string, value: string): string
    requires token != []
    decreases |s|
  {
    if |s| < |token| then s
    else if s[..|token|] == token then value + ReplaceAll(s[|token|..], token, value)
    else [s[0]] + ReplaceAll(s[1..], token, value)
  }

  /** Scanning a stretch free of occurrences copies it unchanged. */
  lemma {:induction false} ReplaceAllSkips(s: string, token: string, value: string, k: nat)
    requires token != [] && k <= |s|
    requires forall j :: 0 <= j < k ==> !OccursAt(s, token, j)
    ensures ReplaceAll(s, token, value) == s[..k] + ReplaceAll(s[k..], token, value)
    decreases k
  {
    if k > 0 && |s| >= |token| {
      assert !OccursAt(s, token, 0);
      forall j | 0 <= j < k - 1 ensures !OccursAt(s[1..], token, j) {
        assert !OccursAt(s, token, j + 1);
        if j + |token| <= |s| - 1 {
          assert s[1..][j..j + |token|] == s[j + 1..j + 1 + |token|];
        }
      }
      ReplaceAllSkips(s[1..], token, value, k - 1);
      assert s[1..][..k - 1] == s[1..k];
      assert s[1..][k - 1..] == s[k..];
      assert [s[0]] + s[1..k] == s[..k];
    } else if k > 0 {
      assert |s[k..]| < |token|;
    }
  }

  /** At an occurrence, the token is replaced and scanning resumes after it. */
  lemma ReplaceAllAtToken(s: string, token: string, value: string)
    requires token != [] && IsPrefix(token, s)
    ensures ReplaceAll(s, token, value) == value + ReplaceAll(s[|token|..], token, value)
  {
  }

  /** Without an occurrence, nothing is replaced. */
  lemma ReplaceAllNoToken(s: string, token: string, value: string)
    requires token != [] && IndexOf(s, token) < 0
    ensures ReplaceAll(s, token, value) == s
  {
    ReplaceAllSkips(s, token, value, |s|);
    assert s[|s|..] == [] && s[..|s|] == s;
  }

  /** At the first occurrence `i`, the text before it is copied and the
      occurrence replaced. */
  lemma ReplaceAllAt(s: string, token: string, value: string, i: nat)
    requires token != [] && OccursAt(s, token, i)
    requires forall j :: 0 <= j < i ==> !OccursAt(s, token, j)
    ensures ReplaceAll(s, token, value) == s[..i] + value + ReplaceAll(s[i + |token|..], token, value)
  {
    var rest, after := s[i..], s[i + |token|..];
    assert rest[..|token|] == s[i..i + |token|];
    assert rest[|token|..] == after;
    ReplaceAllAtToken(rest, token, value);
    ReplaceAllSkips(s, token, value, i);
    ConcatAssoc(s[..i], value, ReplaceAll(after, token, value));
  }

  lemma ConcatAssoc(a: string, b: string, c: string)
    ensures a + b + c == a + (b + c)
  {
  }

  /** Replacing every occurrence is the same as splitting on the token and
      joining the pieces with the value. */
  lemma {:induction false} ReplaceAllIsSplitJoin(s: string, token: string, value: string)
    requires token != []
    ensures ReplaceAll(s, token, value) == Join(SplitOn(s, token), value)
    decreases |s|
  {
    var i := IndexOf(s, token);
    if i < 0 {
      ReplaceAllNoToken(s, token, value);
    } else {
      ReplaceAllIsSplitJoin(s[i + |token|..], token, value);
      ReplaceAllSplitJoinStep(s, token, value, i);
    }
  }

  /** The inductive step: the first piece, the value, then the rest. */
  lemma ReplaceAllSplitJoinStep(s: string, token: string, value: string, i: nat)
    requires token != [] && i == IndexOf(s, token)
    requires ReplaceAll(s[i + |token|..], token, value) == Join(SplitOn(s[i + |token|..], token), value)
    ensures ReplaceAll(s, token, value) == Join(SplitOn(s, token), value)
  {
    var tail := SplitOn(s[i + |token|..], token);
    assert SplitOn(s, token) == [s[..i]] + tail;
    ReplaceAllAt(s, token, value, i);
    JoinCons(s[..i], tail, value);
  }

  /** A string without the token's first character is left unchanged. */
  lemma ReplaceAllUntouched(s: string, token: string, value: string)
    requires token != [] && token[0] !in s
    ensures ReplaceAll(s, token, value) == s
  {
    forall j | 0 <= j < |s| ensures !OccursAt(s, token, j) {
      if j + |token| <= |s| {
        assert s[j..j + |token|][0] == s[j];
      }
    }
    ReplaceAllSkips(s, token, value, |s|);
    assert s[..|s|] == s;
  }

  /** One occurrence surrounded by text that cannot start another. */
  lemma ReplaceAllOnce(a: string, token: string, b: string, value: string)
    requires token != [] && token[0] !in a && token[0] !in b
    ensures ReplaceAll(a + token + b, token, value) == a + value + b
  {
    var s := a + token + b;
    forall j | 0 <= j < |a| ensures !OccursAt(s, token, j) {
      if j + |token| <= |s| {
        assert s[j..j + |token|][0] == s[j] == a[j];
      }
    }
    ReplaceAllSkips(s, token, value, |a|);
    assert s[..|a|] == a;
    assert s[|a|..][..|token|] == token;
    assert s[|a|..][|token|..] == b;
    ReplaceAllUntouched(b, token, value);
  }

  predicate IsLineTerminator(c: char) {
    c == '\n' || c == '\r' || c == '\U{2028}' || c == '\U{2029}'
  }

  /** `s.replace(/.scss/g, '')`: the dot is unescaped, so every character
      other than a line terminator followed by `scss` is removed with it,
      leftmost first and without overlap. */
  function RemoveDotScss(s: string): string
    decreases |s|
  {
    if |s| < 5 then s
    else if !IsLineTerminator(s[0]) && s[1..5] == "scss" then RemoveDotScss(s[5..])
    else [s[0]] + RemoveDotScss(s[1..])
  }

  /** On a name that does not otherwise mention `scss`, the replacement only
      drops the `.scss` extension. */
  lemma {:induction false} RemoveDotScssExtension(p: string)
    requires !Contains(p, "scss")
    ensures RemoveDotScss(p + ".scss") == p
    decreases |p|
  {
    var s := p + ".scss";
    if p == [] {
      assert s[1..5] == "scss";
      assert s[5..] == [];
    } else {
      NoScssAfterFirst(p);
      NoScssInTail(p);
      RemoveDotScssExtension(p[1..]);
      assert s[1..] == p[1..] + ".scss";
      assert [s[0]] + p[1..] == p;
    }
  }

  /** The four characters after the first one of `p + ".scss"` are not `scss`. */
  lemma NoScssAfterFirst(p: string)
    requires p != [] && !Contains(p, "scss")
    ensures (p + ".scss")[1..5] != "scss"
  {
    var s := p + ".scss";
    if |p| >= 5 {
      assert s[1..5] == p[1..5];
      assert !OccursAt(p, "scss", 1);
    } else {
      assert s[1..5][|p| - 1] == s[|p|] == '.';
    }
  }

  /** Dropping the first character cannot create an occurrence. */
  lemma NoScssInTail(p: string)
    requires p != [] && !Contains(p, "scss")
    ensures !Contains(p[1..], "scss")
  {
    forall j | 0 <= j ensures !OccursAt(p[1..], "scss", j) {
      assert !OccursAt(p, "scss", j + 1);
      if j + 4 <= |p| - 1 {
        assert p[1..][j..j + 4] == p[j + 1..j + 5];
      }
    }
  }

  /** The unescaped dot also strips a directory named like `scss`:
      `a/scss/b.scss` becomes `a/b`, not `a/scss/b`. */
  lemma RemoveDotScssDirectory()
    ensures RemoveDotScss("a/scss/b.scss") == "a/b"
  {
    RemoveDotScssOfFile();
    assert RemoveDotScss("/scss/b.scss") == "/b" by {
      assert "/scss/b.scss"[1..5] == "scss" && "/scss/b.scss"[5..] == "/b.scss";
    }
    assert "a/scss/b.scss"[1..5] == "/scs" && "a/scss/b.scss"[1..] == "/scss/b.scss";
  }

  /** The file part of the example keeps its name and loses its extension. */
  lemma RemoveDotScssOfFile()
    ensures RemoveDotScss("/b.scss") == "/b"
  {
    assert RemoveDotScss("b.scss") == "b" by {
      assert "b.scss"[1..5] == ".scs" && "b.scss"[1..] == ".scss";
      assert ".scss"[1..5] == "scss" && ".scss"[5..] == "";
    }
    assert "/b.scss"[1..5] == "b.sc" && "/b.scss"[1..] == "b.scss";
  }

  /** The part of a path after its last `/`. */
  function LastSegment(p: string): (b: string)
    ensures '/' !in b
    ensures IsSuffix(b, p)
    ensures |b| < |p| ==> p[|p| - |b| - 1] == '/'
  {
    if p == [] || p[|p| - 1] == '/' then []
    else LastSegment(p[..|p| - 1]) + [p[|p| - 1]]
  }

  /** The last segment of a joined path is the part after the join. */
  lemma {:induction false} LastSegmentOfJoin(dir: string, name: string)
    requires '/' !in name
    ensures LastSegment(dir + "/" + name) == name
    decreases |name|
  {
    var p := dir + "/" + name;
    if name == [] {
      assert p[|p| - 1] == '/';
    } else {
      var n := |name|;
      assert p[..|p| - 1] == dir + "/" + name[..n - 1];
      assert '/' !in name[..n - 1] by {
        forall c | c in name[..n - 1] ensures c in name {
          var k :| 0 <= k < n - 1 && name[..n - 1][k] == c;
          assert name[k] == c;
        }
      }
      LastSegmentOfJoin(dir, name[..n - 1]);
      assert p[|p| - 1] == name[n - 1] && name[n - 1] != '/';
      assert name == name[..n - 1] + [name[n - 1]];
    }
  }

  /** Node's `path.basename(p, ext)` on a path without trailing slash: the last
      segment, less `ext` when it ends the segment and is not all of it. */
  function Basename(p: string, ext: string): (b: string)
    ensures '/' !in b
    ensures IsPrefix(b, LastSegment(p))
    ensures p == ext ==> b == []
    ensures p != ext && |ext| < |LastSegment(p)| && IsSuffix(ext, LastSegment(p))
            ==> b + ext == LastSegment(p)
    ensures p != ext && !(|ext| < |LastSegment(p)| && IsSuffix(ext, LastSegment(p)))
            ==> b == LastSegment(p)
  {
    if p == ext then [] else StripExt(LastSegment(p), ext)
  }

  /** A segment less `ext` when it ends the segment and is not all of it. */
  function StripExt(base: string, ext: string): (b: string)
    ensures IsPrefix(b, base)
    ensures '/' !in base ==> '/' !in b
    ensures |ext| < |base| && IsSuffix(ext, base) ==> b + ext == base
    ensures !(|ext| < |base| && IsSuffix(ext, base)) ==> b == base
  {
    if |ext| < |base| && base[|base| - |ext|..] == ext then
      var stem := base[..|base| - |ext|];
      assert stem + ext == base;
      if '/' !in base then PrefixKeepsSlashFree(base, |stem|); stem else stem
    else base
  }

  lemma PrefixKeepsSlashFree(s: string, n: nat)
    requires '/' !in s && n <= |s|
    ensures '/' !in s[..n]
  {
    forall c | c in s[..n] ensures c != '/' {
      var k :| 0 <= k < n && s[..n][k] == c;
      assert s[k] == c;
    }
  }

  /** The key `path.basename(file, ext)` gives a file `dir/name + ext`: the
      name, except that a file named exactly `ext` keeps it. */
  lemma BasenameOfFile(dir: string, name: string, ext: string)
    requires '/' !in name + ext
    ensures name != [] ==> Basename(dir + "/" + name + ext, ext) == name
    ensures name == [] ==> Basename(dir + "/" + name + ext, ext) == ext
  {
    var p := dir + "/" + name + ext;
    assert p == dir + "/" + (name + ext);
    LastSegmentOfJoin(dir, name + ext);
    assert '/' in p by { assert p[|dir|] == '/'; }
    assert p != ext;
    assert (name + ext)[|name|..] == ext;
  }

  /** Node's `path.join(a, b)`, without normalisation of the result. */
  function PathJoin(a: string, b: string): string {
    a + "/" + b
  }
}
