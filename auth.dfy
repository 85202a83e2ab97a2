/** `Auth.require_auth`: whether a request path needs authentication, given
    the list of excluded paths (Basic_authentication/api/v1/auth/auth.py and
    its copy in Session_authentication/api/v1/auth/auth.py). */
module Auth {
  import opened Wrappers
  import opened Strings

  /** The path with '/' appended unless it already ends with one. */
  function Normalize(path: string): (r: string)
    ensures EndsWith(r, "/")
    ensures EndsWith(path, "/") ==> r == path
    ensures !EndsWith(path, "/") ==> r == path + "/"
  {
    if EndsWith(path, "/") then path else path + "/"
  }

  /** One entry of `excluded_paths` against the normalised path: an entry
      ending in '*' is a prefix pattern, any other entry must be equal. */
  predicate Matches(normalized: string, excluded: string) {
    if EndsWith(excluded, "*") then StartsWith(normalized, excluded[..|excluded| - 1])
    else normalized == excluded
  }

  /** The loop over `excluded_paths`: False at the first match, True when
      the list is exhausted. */
  function NoneMatch(normalized: string, excluded: seq<string>): bool {
    if |excluded| == 0 then true
    else if Matches(normalized, excluded[0]) then false
    else NoneMatch(normalized, excluded[1..])
  }

  /** `require_auth(path, excluded_paths)`. A None path, a None list and an
      empty list all require authentication. */
  function RequireAuth(path: Option<string>, excludedPaths: Option<seq<string>>): (r: bool)
    ensures path.None? || excludedPaths.None? || excludedPaths == Some([]) ==> r
  {
    if path.None? || excludedPaths.None? || |excludedPaths.value| == 0 then true
    else NoneMatch(Normalize(path.value), excludedPaths.value)
  }

  /** The loop finds a match exactly when some entry matches. */
  lemma {:induction false} NoneMatchIff(normalized: string, excluded: seq<string>)
    ensures !NoneMatch(normalized, excluded) <==> exists i :: 0 <= i < |excluded| && Matches(normalized, excluded[i])
  {
    if |excluded| > 0 {
      NoneMatchIff(normalized, excluded[1..]);
      if !Matches(normalized, excluded[0]) {
        forall i | 1 <= i < |excluded| && Matches(normalized, excluded[i])
          ensures exists j :: 0 <= j < |excluded[1..]| && Matches(normalized, excluded[1..][j])
        {
          assert excluded[1..][i - 1] == excluded[i];
        }
      }
    }
  }

  /** With a path and a non-empty list, authentication is not required
      exactly when some entry matches the normalised path. */
  lemma RequireAuthIff(path: string, excludedPaths: seq<string>)
    requires |excludedPaths| > 0
    ensures !RequireAuth(Some(path), Some(excludedPaths))
      <==> exists i :: 0 <= i < |excludedPaths| && Matches(Normalize(path), excludedPaths[i])
  {
    NoneMatchIff(Normalize(path), excludedPaths);
  }

  /** The answer does not depend on the order of `excluded_paths`. */
  lemma RequireAuthOrderFree(path: Option<string>, a: seq<string>, b: seq<string>)
    requires multiset(a) == multiset(b)
    ensures RequireAuth(path, Some(a)) == RequireAuth(path, Some(b))
  {
    if path.Some? && |a| > 0 {
      assert |b| == |multiset(b)| == |a|;
      var n := Normalize(path.value);
      NoneMatchIff(n, a);
      NoneMatchIff(n, b);
      forall i | 0 <= i < |a| && Matches(n, a[i])
        ensures exists j :: 0 <= j < |b| && Matches(n, b[j])
      {
        assert a[i] in multiset(b);
        var j :| 0 <= j < |b| && b[j] == a[i];
      }
      forall j | 0 <= j < |b| && Matches(n, b[j])
        ensures exists i :: 0 <= i < |a| && Matches(n, a[i])
      {
        assert b[j] in multiset(a);
        var i :| 0 <= i < |a| && a[i] == b[j];
      }
    }
  }

  /** A '*' entry matches every normalised path that starts with the text
      before the '*'. */
  lemma WildcardMatchesPrefix(path: string, prefix: string)
    ensures StartsWith(Normalize(path), prefix) ==> Matches(Normalize(path), prefix + "*")
    ensures Matches(Normalize(path), prefix + "*") ==> StartsWith(Normalize(path), prefix)
  {
    var e := prefix + "*";
    assert EndsWith(e, "*") && e[..|e| - 1] == prefix;
  }

  /** An entry without '*' matches the path with or without its trailing
      slash when it is that path with a trailing slash. */
  lemma SlashTolerantExact(path: string)
    requires !EndsWith(path, "/")
    ensures Matches(Normalize(path), path + "/")
    ensures Matches(Normalize(path + "/"), path + "/")
  {
    assert EndsWith(path + "/", "/");
    assert !EndsWith(path + "/", "*");
  }

  /** An entry ending in neither '/' nor '*' never matches, since the
      normalised path always ends with '/'. */
  lemma UnslashedEntryNeverMatches(path: string, excluded: string)
    requires !EndsWith(excluded, "/") && !EndsWith(excluded, "*")
    ensures !Matches(Normalize(path), excluded)
  {
  }

  /** The prefix-pattern calls of the driver Basic_authentication/main_101.py
      (its lines 9, 12 and 15) answer as its comments expect. */
  lemma Main101WildcardCalls()
    ensures RequireAuth(Some("/api/v1/users"), Some(["/api/v1/stat*"]))
    ensures !RequireAuth(Some("/api/v1/status"), Some(["/api/v1/stat*"]))
    ensures !RequireAuth(Some("/api/v1/stats"), Some(["/api/v1/stat*"]))
  {
    assert Normalize("/api/v1/users") == "/api/v1/users/";
    assert !StartsWith("/api/v1/users/", "/api/v1/stat") by {
      assert "/api/v1/users/"[..12][8] == 'u' != "/api/v1/stat"[8];
    }
    assert Normalize("/api/v1/status") == "/api/v1/status/";
    assert StartsWith("/api/v1/status/", "/api/v1/stat");
    assert Normalize("/api/v1/stats") == "/api/v1/stats/";
    assert StartsWith("/api/v1/stats/", "/api/v1/stat");
  }

  /** The call of the driver's line 18 returns True, although its comment
      expects False: the entry "/api/v1/users" has no trailing slash and
      cannot match. */
  lemma Main101Calls()
    ensures RequireAuth(Some("/api/v1/users"), Some(["/api/v1/users", "/api/v1/stat*"]))
  {
    UnslashedEntryNeverMatches("/api/v1/users", "/api/v1/users");
    assert Normalize("/api/v1/users") == "/api/v1/users/";
    assert !StartsWith("/api/v1/users/", "/api/v1/stat") by {
      assert "/api/v1/users/"[..12][8] == 'u' != "/api/v1/stat"[8];
    }
  }

  /** The driver's lines 21 and 22: an entry with a trailing slash excludes
      the path without one. */
  lemma Main101SlashedCalls()
    ensures !RequireAuth(Some("/api/v1/status"), Some(["/api/v1/status/"]))
    ensures !RequireAuth(Some("/api/v1/stats"), Some(["/api/v1/stats/"]))
  {
    assert Normalize("/api/v1/status") == "/api/v1/status/";
    assert Normalize("/api/v1/stats") == "/api/v1/stats/";
  }

  /** The matcher the driver's expectations describe: an entry without '*'
      is normalised like the path before the comparison, so an exclusion
      is slash-tolerant on both sides. */
  predicate MatchesBothNormalized(normalized: string, excluded: string) {
    if EndsWith(excluded, "*") then StartsWith(normalized, excluded[..|excluded| - 1])
    else normalized == Normalize(excluded)
  }

  function NoneMatchBothNormalized(normalized: string, excluded: seq<string>): bool {
    if |excluded| == 0 then true
    else if MatchesBothNormalized(normalized, excluded[0]) then false
    else NoneMatchBothNormalized(normalized, excluded[1..])
  }

  /** `require_auth` with slash-tolerant entries. */
  function RequireAuthBothNormalized(path: Option<string>, excludedPaths: Option<seq<string>>): (r: bool)
    ensures path.None? || excludedPaths.None? || excludedPaths == Some([]) ==> r
  {
    if path.None? || excludedPaths.None? || |excludedPaths.value| == 0 then true
    else NoneMatchBothNormalized(Normalize(path.value), excludedPaths.value)
  }

  /** Listing a path, with or without its trailing slash, excludes that path
      whether or not the request carries the slash; on the driver's line 18
      this gives the expected False. */
  lemma {:induction false} BothNormalizedExcludesListed(path: string, excludedPaths: seq<string>, i: nat)
    requires i < |excludedPaths| && !EndsWith(excludedPaths[i], "*")
    requires Normalize(excludedPaths[i]) == Normalize(path)
    ensures !RequireAuthBothNormalized(Some(path), Some(excludedPaths))
    decreases i
  {
    if i > 0 && !MatchesBothNormalized(Normalize(path), excludedPaths[0]) {
      BothNormalizedExcludesListed(path, excludedPaths[1..], i - 1);
    }
  }

  /** The corrected matcher agrees with the original on every entry that
      ends in '/' or '*', the form the exclusion lists are written in. */
  lemma {:induction false} BothNormalizedAgrees(normalized: string, excluded: seq<string>)
    requires forall i :: 0 <= i < |excluded| ==> EndsWith(excluded[i], "/") || EndsWith(excluded[i], "*")
    ensures NoneMatchBothNormalized(normalized, excluded) == NoneMatch(normalized, excluded)
  {
    if |excluded| > 0 {
      assert EndsWith(excluded[0], "/") || EndsWith(excluded[0], "*");
      BothNormalizedAgrees(normalized, excluded[1..]);
    }
  }

  lemma Main101Line18Corrected()
    ensures !RequireAuthBothNormalized(Some("/api/v1/users"), Some(["/api/v1/users", "/api/v1/stat*"]))
  {
    var e := ["/api/v1/users", "/api/v1/stat*"];
    assert !EndsWith(e[0], "*");
    BothNormalizedExcludesListed("/api/v1/users", e, 0);
  }
}
