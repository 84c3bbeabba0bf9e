/** The few PHP and JavaScript built-ins whose exact behaviour the plugin's
    decisions depend on: integer coercion (`absint`), the truthiness of
    strings, ASCII lower-casing, `trim`, `explode`/`implode`, `str_replace`
    with an empty replacement, and the prefix and substring tests behind
    `strpos(...) === 0` and `LIKE '%...%'`. */
module Php {

  datatype Option<+T> = None | Some(value: T) {
    function GetOr(default: T): T {
      match this
      case Some(v) => v
      case None => default
    }
  }

  /** WordPress `absint` on an integer: its absolute value. */
  function Absint(x: int): (r: nat)
    ensures r == x || r == -x
  {
    if x < 0 then -x else x
  }

  function Max(a: int, b: int): int { if a < b then b else a }
  function Min(a: int, b: int): int { if a < b then a else b }
  function MaxReal(a: real, b: real): real { if a < b then b else a }
  function MinReal(a: real, b: real): real { if a < b then a else b }

  /** A string is falsy in PHP (`empty`, `!$x`, `array_filter`) exactly
      when it is "" or "0". The same strings are falsy in JavaScript except
      "0"; the JavaScript side uses `s == ""` directly. */
  predicate Falsy(s: string)
    ensures Falsy(s) ==> |s| <= 1
    ensures |s| == 1 ==> (Falsy(s) <==> s[0] == '0')
  {
    s == "" || s == "0"
  }

  // ---------------------------------------------------------------------
  // strtolower (ASCII only, as PHP 8 does it)

  function LowerChar(c: char): char {
    if 'A' <= c <= 'Z' then (c as int + 32) as char else c
  }

  function Lower(s: string): (r: string)
    ensures |r| == |s|
    ensures forall i :: 0 <= i < |s| ==> r[i] == LowerChar(s[i])
  {
    if s == [] then [] else [LowerChar(s[0])] + Lower(s[1..])
  }

  /** An ASCII lower-case letter is the lower-casing of exactly itself and
      its upper-case form. */
  lemma LowerCharIs(c: char, l: char)
    requires 'a' <= l <= 'z'
    ensures LowerChar(c) == l <==> c == l || c as int == l as int - 32
  {
  }

  /** `strtolower($order) === 'asc'` accepts exactly the eight spellings of
      "asc" in any mix of cases. */
  lemma LowerIsAsc(s: string)
    ensures Lower(s) == "asc" <==>
      |s| == 3 && (s[0] == 'a' || s[0] == 'A') && (s[1] == 's' || s[1] == 'S')
               && (s[2] == 'c' || s[2] == 'C')
  {
    if |s| == 3 {
      LowerCharIs(s[0], 'a');
      LowerCharIs(s[1], 's');
      LowerCharIs(s[2], 'c');
      assert Lower(s) == "asc" <==> Lower(s)[0] == 'a' && Lower(s)[1] == 's' && Lower(s)[2] == 'c';
    }
  }

  // ---------------------------------------------------------------------
  // trim (PHP's default character list " \t\n\r\0\x0B")

  predicate IsTrimmed(c: char) {
    c == ' ' || c == '\t' || c == '\n' || c == '\r' || c == '\0' || c == '\U{0B}'
  }

  function TrimLeft(s: string): (r: string)
    ensures |r| <= |s| && r == s[|s| - |r|..]
    ensures r == [] || !IsTrimmed(r[0])
    ensures forall i :: 0 <= i < |s| - |r| ==> IsTrimmed(s[i])
  {
    if s != [] && IsTrimmed(s[0]) then TrimLeft(s[1..]) else s
  }

  function TrimRight(s: string): (r: string)
    ensures |r| <= |s| && r == s[..|r|]
    ensures r == [] || !IsTrimmed(r[|r| - 1])
    ensures forall i :: |r| <= i < |s| ==> IsTrimmed(s[i])
  {
    if s != [] && IsTrimmed(s[|s| - 1]) then TrimRight(s[..|s| - 1]) else s
  }

  function Trim(s: string): (r: string)
    ensures |r| <= |s|
    ensures r == [] || (!IsTrimmed(r[0]) && !IsTrimmed(r[|r| - 1]))
  {
    TrimRight(TrimLeft(s))
  }

  /** The result of `trim` starts and ends with a kept character, and it is
      a contiguous piece of the input with only trimmed characters cut off. */
  lemma TrimShape(s: string)
    ensures Trim(s) == [] || (!IsTrimmed(Trim(s)[0]) && !IsTrimmed(Trim(s)[|Trim(s)| - 1]))
    ensures exists a, b :: 0 <= a <= b <= |s| && Trim(s) == s[a..b]
  {
    var l := TrimLeft(s);
    var r := TrimRight(l);
    assert r == s[|s| - |l|..][..|r|];
    assert r == s[|s| - |l|..|s| - |l| + |r|];
  }

  /** Trimming twice is trimming once. */
  lemma TrimIdempotent(s: string)
    ensures Trim(Trim(s)) == Trim(s)
  {
    var t := Trim(s);
    TrimShape(s);
    assert TrimLeft(t) == t;
    assert TrimRight(t) == t;
  }

  // ---------------------------------------------------------------------
  // explode / implode on a non-empty separator

  predicate OccursAt(s: string, sep: string, j: int) {
    0 <= j && j + |sep| <= |s| && s[j..j + |sep|] == sep
  }

  /** The first position at or after `from` where `sep` occurs in `s`, as
      `strpos` finds it. */
  function IndexFrom(s: string, sep: string, from: nat): (r: Option<nat>)
    requires |sep| > 0
    ensures r.Some? ==> from <= r.value && OccursAt(s, sep, r.value)
    ensures r.Some? ==> forall j :: from <= j < r.value ==> !OccursAt(s, sep, j)
    ensures r.None? ==> forall j :: from <= j ==> !OccursAt(s, sep, j)
    decreases |s| - from
  {
    if from + |sep| > |s| then None
    else if s[from..from + |sep|] == sep then Some(from)
    else IndexFrom(s, sep, from + 1)
  }

  /** The pieces of `s[start..]` between the occurrences of `sep`. */
  function ExplodeFrom(s: string, sep: string, start: nat): (r: seq<string>)
    requires |sep| > 0 && start <= |s|
    ensures |r| >= 1
    decreases |s| - start
  {
    match IndexFrom(s, sep, start)
    case None => [s[start..]]
    case Some(i) => [s[start..i]] + ExplodeFrom(s, sep, i + |sep|)
  }

  /** PHP `explode($sep, $s)`: the pieces between the occurrences of `sep`,
      found left to right. */
  function Explode(s: string, sep: string): (r: seq<string>)
    requires |sep| > 0
    ensures |r| >= 1
  {
    ExplodeFrom(s, sep, 0)
  }

  /** The combined length of some pieces. */
  function TotalLength(parts: seq<string>): nat {
    if parts == [] then 0 else |parts[0]| + TotalLength(parts[1..])
  }

  /** PHP `implode($sep, $parts)`: the pieces in order, with one separator
      between each two. */
  function Join(parts: seq<string>, sep: string): string {
    if parts == [] then ""
    else if |parts| == 1 then parts[0]
    else parts[0] + sep + Join(parts[1..], sep)
  }

  /** The glued string holds every piece and one separator between each
      two. */
  lemma {:induction false} JoinLength(parts: seq<string>, sep: string)
    requires parts != []
    ensures |Join(parts, sep)| == TotalLength(parts) + (|parts| - 1) * |sep|
  {
    if |parts| > 1 {
      JoinLength(parts[1..], sep);
      assert (|parts| - 1) * |sep| == (|parts[1..]| - 1) * |sep| + |sep|;
    }
  }

  /** Joining a first piece onto at least one more puts the separator
      between them. */
  lemma JoinCons(a: string, rest: seq<string>, sep: string)
    requires |rest| >= 1
    ensures Join([a] + rest, sep) == a + sep + Join(rest, sep)
  {
    assert ([a] + rest)[1..] == rest;
  }

  /** A slice with no occurrence of `sep` starting inside it holds no
      occurrence of `sep` either. */
  lemma SliceFree(s: string, sep: string, a: nat, b: nat)
    requires |sep| > 0 && a <= b <= |s|
    requires forall j :: a <= j < b ==> !OccursAt(s, sep, j)
    ensures forall j :: !OccursAt(s[a..b], sep, j)
  {
    forall j | true
      ensures OccursAt(s[a..b], sep, j) ==> a <= a + j < b && OccursAt(s, sep, a + j)
    {
      SliceOccurs(s, sep, a, b, j);
    }
  }

  /** An occurrence inside a slice is an occurrence in the whole string,
      starting inside the slice. */
  lemma SliceOccurs(s: string, sep: string, a: nat, b: nat, j: int)
    requires |sep| > 0 && a <= b <= |s|
    ensures OccursAt(s[a..b], sep, j) ==> a <= a + j < b && OccursAt(s, sep, a + j)
  {
    if OccursAt(s[a..b], sep, j) {
      var t := s[a..b];
      forall k | 0 <= k < |sep| ensures s[a + j + k] == sep[k] {
        assert t[j..j + |sep|][k] == sep[k];
        assert t[j + k] == s[a + j + k];
      }
      assert s[a + j..a + j + |sep|] == sep;
    }
  }

  /** From `start` on, a string is the part before an occurrence of `sep`,
      `sep`, and the part after it. */
  lemma SplitAround(s: string, start: nat, i: nat, sep: string)
    requires start <= i && OccursAt(s, sep, i)
    ensures s[start..] == s[start..i] + sep + s[i + |sep|..]
  {
    assert s[start..] == s[start..i] + s[i..i + |sep|] + s[i + |sep|..];
  }

  /** The join step of `ExplodeFromJoin`: the piece before an occurrence
      of `sep`, the separator and the join of what follows it. */
  lemma JoinStep(s: string, sep: string, start: nat, i: nat, rest: seq<string>)
    requires start <= i && OccursAt(s, sep, i) && |rest| >= 1
    requires Join(rest, sep) == s[i + |sep|..]
    ensures Join([s[start..i]] + rest, sep) == s[start..]
  {
    JoinCons(s[start..i], rest, sep);
    SplitAround(s, start, i, sep);
  }

  /** No piece holds the separator. */
  ghost predicate PiecesFree(ps: seq<string>, sep: string) {
    forall k, j :: 0 <= k < |ps| ==> !OccursAt(ps[k], sep, j)
  }

  /** The piece step of `ExplodeFromJoin`: a separator-free piece in front
      of separator-free pieces. */
  lemma PiecesStep(a: string, rest: seq<string>, sep: string)
    requires forall j :: !OccursAt(a, sep, j)
    requires PiecesFree(rest, sep)
    ensures PiecesFree([a] + rest, sep)
  {
    forall k, j | 0 <= k < |[a] + rest| ensures !OccursAt(([a] + rest)[k], sep, j) {
      if k > 0 {
        assert ([a] + rest)[k] == rest[k - 1];
      }
    }
  }

  lemma ExplodeFromJoin(s: string, sep: string, start: nat)
    requires |sep| > 0 && start <= |s|
    ensures Join(ExplodeFrom(s, sep, start), sep) == s[start..]
    ensures PiecesFree(ExplodeFrom(s, sep, start), sep)
  {
    ExplodeFromRejoins(s, sep, start);
    ExplodeFromFree(s, sep, start);
  }

  /** Joining the pieces of the suffix from `start` gives that suffix back. */
  ghost predicate Rejoins(s: string, sep: string, start: nat)
    requires |sep| > 0 && start <= |s|
  {
    Join(ExplodeFrom(s, sep, start), sep) == s[start..]
  }

  lemma {:induction false} ExplodeFromRejoins(s: string, sep: string, start: nat)
    requires |sep| > 0 && start <= |s|
    ensures Rejoins(s, sep, start)
    decreases |s| - start
  {
    var last, k := RejoinStep(s, sep, start);
    if !last {
      ExplodeFromRejoins(s, sep, k);
    }
  }

  /** One step of `ExplodeFromRejoins`: either the suffix from `start` is
      the last piece, or it rejoins once the suffix after the next
      occurrence, at `k`, does. */
  lemma RejoinStep(s: string, sep: string, start: nat) returns (last: bool, k: nat)
    requires |sep| > 0 && start <= |s|
    ensures last ==> Rejoins(s, sep, start)
    ensures !last ==> start < k <= |s| && (Rejoins(s, sep, k) ==> Rejoins(s, sep, start))
  {
    var next := IndexFrom(s, sep, start);
    if next.None? {
      ExplodeLast(s, sep, start);
      last, k := true, start;
    } else {
      var i := next.value;
      last, k := false, i + |sep|;
      if Rejoins(s, sep, k) {
        ExplodeNext(s, sep, start, i);
        JoinStep(s, sep, start, i, ExplodeFrom(s, sep, k));
      }
    }
  }

  /** No piece of a suffix holds the separator. */
  lemma {:induction false} ExplodeFromFree(s: string, sep: string, start: nat)
    requires |sep| > 0 && start <= |s|
    ensures PiecesFree(ExplodeFrom(s, sep, start), sep)
    decreases |s| - start
  {
    var next := IndexFrom(s, sep, start);
    if next.None? {
      ExplodeLast(s, sep, start);
      SliceFree(s, sep, start, |s|);
      assert s[start..|s|] == s[start..];
    } else {
      ExplodeFromFree(s, sep, next.value + |sep|);
      FreeStep(s, sep, start, next.value);
    }
  }

  /** The induction step of `ExplodeFromFree` at the next occurrence. */
  lemma FreeStep(s: string, sep: string, start: nat, i: nat)
    requires |sep| > 0 && start <= |s| && IndexFrom(s, sep, start) == Some(i)
    requires PiecesFree(ExplodeFrom(s, sep, i + |sep|), sep)
    ensures PiecesFree(ExplodeFrom(s, sep, start), sep)
  {
    ExplodeNext(s, sep, start, i);
    SliceFree(s, sep, start, i);
    PiecesStep(s[start..i], ExplodeFrom(s, sep, i + |sep|), sep);
  }

  /** Exploding and imploding on the same separator gives the input back,
      and no piece contains the separator. */
  lemma ExplodeJoin(s: string, sep: string)
    requires |sep| > 0
    ensures Join(Explode(s, sep), sep) == s
    ensures forall k, j :: 0 <= k < |Explode(s, sep)| ==> !OccursAt(Explode(s, sep)[k], sep, j)
  {
    ExplodeFromJoin(s, sep, 0);
    assert s[0..] == s;
  }

  /** A string without the separator explodes into itself alone. */
  lemma ExplodeAbsent(s: string, sep: string)
    requires |sep| > 0
    requires forall j :: !OccursAt(s, sep, j)
    ensures Explode(s, sep) == [s]
  {
    assert IndexFrom(s, sep, 0).None?;
    assert s[0..] == s;
  }

  // ---------------------------------------------------------------------
  // str_replace($pat, '', $s): one left-to-right pass

  function RemoveFrom(s: string, pat: string, i: nat): (r: string)
    requires |pat| > 0 && i <= |s|
    ensures |r| <= |s| - i
    decreases |s| - i
  {
    if i + |pat| > |s| then s[i..]
    else if s[i..i + |pat|] == pat then RemoveFrom(s, pat, i + |pat|)
    else [s[i]] + RemoveFrom(s, pat, i + 1)
  }

  /** `str_replace($pat, '', $s)`: what is left once the occurrences
      `explode` finds are cut out, that is, the pieces of
      `explode($pat, $s)` put back together with nothing between them. */
  function RemoveAll(s: string, pat: string): (r: string)
    requires |pat| > 0
    ensures |r| <= |s|
    ensures r == Join(Explode(s, pat), "")
  {
    RemoveFromJoin(s, pat, 0);
    RemoveFrom(s, pat, 0)
  }

  /** Up to the next occurrence, the pass copies the input as it is. */
  lemma {:induction false} RemoveSkip(s: string, pat: string, i: nat, k: nat)
    requires |pat| > 0 && i <= k <= |s|
    requires forall j :: i <= j < k ==> !OccursAt(s, pat, j)
    ensures RemoveFrom(s, pat, i) == s[i..k] + RemoveFrom(s, pat, k)
    decreases k - i
  {
    if i < k {
      assert !OccursAt(s, pat, i);
      if i + |pat| > |s| {
        assert s[i..] == s[i..k] + s[k..];
      } else {
        RemoveSkip(s, pat, i + 1, k);
        assert s[i..k] == [s[i]] + s[i + 1..k];
      }
    }
  }

  /** The pass from `i` cuts out exactly the separators `explode` finds
      from `i`. */
  lemma {:induction false} RemoveFromJoin(s: string, pat: string, i: nat)
    requires |pat| > 0 && i <= |s|
    ensures RemoveFrom(s, pat, i) == Join(ExplodeFrom(s, pat, i), "")
    decreases |s| - i
  {
    var next := IndexFrom(s, pat, i);
    if next.None? {
      RemoveFromAbsent(s, pat, i);
      ExplodeLast(s, pat, i);
    } else {
      var k := next.value;
      assert k + |pat| <= |s|;
      RemoveFromJoin(s, pat, k + |pat|);
      RemoveJoinStep(s, pat, i, k);
    }
  }

  /** The induction step of `RemoveFromJoin` at the next occurrence. */
  lemma RemoveJoinStep(s: string, pat: string, i: nat, k: nat)
    requires |pat| > 0 && i <= |s| && IndexFrom(s, pat, i) == Some(k) && k + |pat| <= |s|
    requires RemoveFrom(s, pat, k + |pat|) == Join(ExplodeFrom(s, pat, k + |pat|), "")
    ensures RemoveFrom(s, pat, i) == Join(ExplodeFrom(s, pat, i), "")
  {
    var rest := ExplodeFrom(s, pat, k + |pat|);
    RemoveStep(s, pat, i, k, rest);
    ExplodeNext(s, pat, i, k);
  }

  /** Without a further occurrence the rest is the last piece. */
  lemma ExplodeLast(s: string, sep: string, i: nat)
    requires |sep| > 0 && i <= |s| && IndexFrom(s, sep, i).None?
    ensures ExplodeFrom(s, sep, i) == [s[i..]]
    ensures Join(ExplodeFrom(s, sep, i), "") == s[i..]
  {
  }

  /** The piece up to the next occurrence comes first. */
  lemma ExplodeNext(s: string, sep: string, i: nat, k: nat)
    requires |sep| > 0 && i <= |s| && IndexFrom(s, sep, i) == Some(k)
    ensures ExplodeFrom(s, sep, i) == [s[i..k]] + ExplodeFrom(s, sep, k + |sep|)
  {
  }

  /** One step of `RemoveFromJoin`: the text up to the first occurrence,
      then the occurrence dropped. */
  lemma RemoveStep(s: string, pat: string, i: nat, k: nat, rest: seq<string>)
    requires |pat| > 0 && i <= k && OccursAt(s, pat, k) && |rest| >= 1
    requires forall j :: i <= j < k ==> !OccursAt(s, pat, j)
    requires RemoveFrom(s, pat, k + |pat|) == Join(rest, "")
    ensures RemoveFrom(s, pat, i) == Join([s[i..k]] + rest, "")
  {
    RemoveSkip(s, pat, i, k);
    assert RemoveFrom(s, pat, k) == RemoveFrom(s, pat, k + |pat|);
    JoinCons(s[i..k], rest, "");
    assert s[i..k] + "" == s[i..k];
  }

  lemma {:induction false} RemoveFromAbsent(s: string, pat: string, i: nat)
    requires |pat| > 0 && i <= |s|
    requires forall j :: i <= j ==> !OccursAt(s, pat, j)
    ensures RemoveFrom(s, pat, i) == s[i..]
    decreases |s| - i
  {
    if i + |pat| <= |s| {
      assert !OccursAt(s, pat, i);
      RemoveFromAbsent(s, pat, i + 1);
      assert s[i..] == [s[i]] + s[i + 1..];
    }
  }

  /** A string that does not hold the pattern passes through unchanged. */
  lemma RemoveAllAbsent(s: string, pat: string)
    requires |pat| > 0
    requires forall j :: !OccursAt(s, pat, j)
    ensures RemoveAll(s, pat) == s
  {
    RemoveFromAbsent(s, pat, 0);
    assert s[0..] == s;
  }

  // ---------------------------------------------------------------------
  // prefix and substring tests

  /** `strpos($s, $p) === 0`. */
  predicate StartsWith(s: string, p: string) {
    |p| <= |s| && s[..|p|] == p
  }

  /** `$s LIKE '%' . esc_like($sub) . '%'`: `sub` occurs literally in `s`. */
  predicate Contains(s: string, sub: string) {
    exists i :: 0 <= i <= |s| - |sub| && OccursAt(s, sub, i)
  }
}
