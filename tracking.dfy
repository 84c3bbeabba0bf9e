/** The server-side decision whether the current page view is measured at
    all (`should_track_request`) and the server render time handed to the
    collector (`get_server_time`). The logged-in user's roles, the request
    path and the `wp_rand(0, 1000)` draw are inputs. */
module Tracking {
  import opened Php
  import opened Config

  // -----------------------------------------------------------------------
  // the three rejections, stated on their own

  /** `array_intersect($excluded, $roles)` is non-empty. */
  predicate SharesRole(excluded: seq<string>, roles: seq<string>) {
    exists i, j :: 0 <= i < |excluded| && 0 <= j < |roles| && excluded[i] == roles[j]
  }

  /** A logged-in user (Some of their roles) holding an excluded role. */
  predicate ExcludedByRole(s: Settings, user: Option<seq<string>>) {
    user.Some? && SharesRole(s.excludedRoles, user.value)
  }

  /** Some blacklist entry that is not falsy is a prefix of the path. */
  predicate Blacklisted(blacklist: seq<string>, path: string) {
    exists i :: 0 <= i < |blacklist| && !Falsy(blacklist[i]) && StartsWith(path, blacklist[i])
  }

  /** A sampling miss: the rate is below 1 and the draw, scaled to [0, 1],
      is above it. */
  predicate SampledOut(rate: real, draw: int) {
    rate < 1.0 && (draw as real) / 1000.0 > rate
  }

  // -----------------------------------------------------------------------
  // the checks as the code runs them

  /** Whether one role of the user occurs among the excluded roles. */
  function Intersects(excluded: seq<string>, roles: seq<string>): (r: bool)
    ensures r <==> SharesRole(excluded, roles)
  {
    if roles == [] then false
    else if roles[0] in excluded then
      assert exists i :: 0 <= i < |excluded| && excluded[i] == roles[0];
      true
    else
      var rest := Intersects(excluded, roles[1..]);
      assert rest <==> SharesRole(excluded, roles) by {
        if SharesRole(excluded, roles) {
          var i, j :| 0 <= i < |excluded| && 0 <= j < |roles| && excluded[i] == roles[j];
          assert j != 0;
          assert excluded[i] == roles[1..][j - 1];
        }
        if rest {
          var i, j :| 0 <= i < |excluded| && 0 <= j < |roles| - 1 && excluded[i] == roles[1..][j];
          assert excluded[i] == roles[j + 1];
        }
      }
      rest
  }

  /** The `foreach ($blacklist as $prefix)` scan: it stops at the first
      entry that is truthy and starts the path. */
  function PrefixBlocks(blacklist: seq<string>, path: string): (r: bool)
    ensures r <==> Blacklisted(blacklist, path)
  {
    if blacklist == [] then false
    else if !Falsy(blacklist[0]) && StartsWith(path, blacklist[0]) then true
    else
      var rest := PrefixBlocks(blacklist[1..], path);
      assert rest <==> Blacklisted(blacklist, path) by {
        if Blacklisted(blacklist, path) {
          var i :| 0 <= i < |blacklist| && !Falsy(blacklist[i]) && StartsWith(path, blacklist[i]);
          assert i != 0;
          assert blacklist[1..][i - 1] == blacklist[i];
        }
        if rest {
          var i :| 0 <= i < |blacklist| - 1 && !Falsy(blacklist[1..][i]) && StartsWith(path, blacklist[1..][i]);
          assert blacklist[i + 1] == blacklist[1..][i];
        }
      }
      rest
  }

  /** `should_track_request()`: role, then blacklist, then sampling; the
      page view is measured exactly when none of the three rejects it. */
  function ShouldTrack(s: Settings, user: Option<seq<string>>, path: string, draw: int): (r: bool)
    requires 0 <= draw <= 1000
    ensures r <==> !ExcludedByRole(s, user) && !Blacklisted(s.blacklist, path)
                   && !SampledOut(s.sampleRate, draw)
  {
    if user.Some? && Intersects(s.excludedRoles, user.value) then false
    else if PrefixBlocks(s.blacklist, path) then false
    else if s.sampleRate < 1.0 && (draw as real) / 1000.0 > s.sampleRate then false
    else true
  }

  /** A rate of 1 or more never rejects on sampling; below 1, a draw is
      kept exactly when draw/1000 does not exceed the rate, so a higher
      rate keeps every draw a lower rate keeps. */
  lemma SamplingRule(rate: real, higher: real, draw: int)
    requires 0 <= draw <= 1000
    requires rate <= higher
    ensures rate >= 1.0 ==> !SampledOut(rate, draw)
    ensures !SampledOut(rate, draw) ==> !SampledOut(higher, draw)
    ensures rate < 1.0 ==> (SampledOut(rate, draw) <==> draw as real > rate * 1000.0)
  {
  }

  /** Falsy blacklist entries ("" and "0") never block a path. */
  lemma {:induction false} FalsyPrefixesNeverBlock(blacklist: seq<string>, path: string)
    requires forall i :: 0 <= i < |blacklist| ==> Falsy(blacklist[i])
    ensures !PrefixBlocks(blacklist, path)
  {
    if blacklist != [] {
      FalsyPrefixesNeverBlock(blacklist[1..], path);
    }
  }

  /** Only the user's roles, the blacklist, the path, the rate and the draw
      decide: the other settings do not matter. */
  lemma TrackingIgnoresOtherSettings(s: Settings, t: Settings, user: Option<seq<string>>,
                                     path: string, draw: int)
    requires 0 <= draw <= 1000
    requires s.excludedRoles == t.excludedRoles && s.blacklist == t.blacklist
    requires s.sampleRate == t.sampleRate
    ensures ShouldTrack(s, user, path, draw) == ShouldTrack(t, user, path, draw)
  {
  }

  /** With the default settings every visitor who is not logged in is
      measured, and an administrator is not. */
  lemma DefaultsTracking(path: string, draw: int, roles: seq<string>)
    requires 0 <= draw <= 1000
    ensures ShouldTrack(Defaults, None, path, draw)
    ensures "administrator" in roles ==> !ShouldTrack(Defaults, Some(roles), path, draw)
  {
    assert !Blacklisted(Defaults.blacklist, path);
    if "administrator" in roles {
      var j :| 0 <= j < |roles| && roles[j] == "administrator";
      assert Defaults.excludedRoles[0] == roles[j];
    }
  }

  // -----------------------------------------------------------------------
  // get_server_time

  /** The baseline: `REQUEST_TIME_FLOAT` when set, else a non-empty
      `$timestart` (0 counts as empty), else now. */
  function ServerStart(now: real, requestTimeFloat: Option<real>, timestart: Option<real>): (start: real)
    ensures requestTimeFloat.Some? ==> start == requestTimeFloat.value
    ensures requestTimeFloat.None? && timestart.Some? && timestart.value != 0.0 ==>
      start == timestart.value
    ensures requestTimeFloat.None? && (timestart.None? || timestart.value == 0.0) ==> start == now
  {
    if requestTimeFloat.Some? then requestTimeFloat.value
    else if timestart.Some? && timestart.value != 0.0 then timestart.value
    else now
  }

  /** `get_server_time()` before rounding: the elapsed time since the
      baseline, never negative. */
  function ServerTime(now: real, requestTimeFloat: Option<real>, timestart: Option<real>): (r: real)
    ensures r >= 0.0
    ensures r >= now - ServerStart(now, requestTimeFloat, timestart)
    ensures r == 0.0 || r == now - ServerStart(now, requestTimeFloat, timestart)
  {
    MaxReal(0.0, now - ServerStart(now, requestTimeFloat, timestart))
  }

  /** Without any baseline the render time is 0, and a baseline in the
      past gives exactly the time elapsed since it. */
  lemma ServerTimeCases(now: real, requestTimeFloat: Option<real>, timestart: Option<real>)
    ensures requestTimeFloat.None? && timestart.None? ==> ServerTime(now, requestTimeFloat, timestart) == 0.0
    ensures requestTimeFloat.Some? && requestTimeFloat.value <= now ==>
      ServerTime(now, requestTimeFloat, timestart) == now - requestTimeFloat.value
  {
  }
}
