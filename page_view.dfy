/** Page-view tracking: one row per visit of a signed-in user to a page that is not private. */
module PageViews {
  import opened Wrappers
  import opened Strings
  import opened Db

  /** The path prefixes that are never tracked. */
  const ExcludedPaths: seq<string> := ["/profile", "/admin", "/auth"]

  /** `excludedPaths.some(path => pathname.startsWith(path))`. */
  predicate IsExcluded(pathname: string) {
    exists i :: 0 <= i < |ExcludedPaths| && StartsWith(pathname, ExcludedPaths[i])
  }

  /** Exclusion is by prefix: anything below or beside a private prefix is excluded too. */
  lemma ExcludedByPrefix(prefix: string, rest: string)
    requires prefix in ExcludedPaths
    ensures IsExcluded(prefix + rest)
  {
    var i :| 0 <= i < |ExcludedPaths| && ExcludedPaths[i] == prefix;
    assert (prefix + rest)[..|prefix|] == prefix;
  }

  /** A path that begins with none of the three prefixes is tracked, e.g. the exam page. */
  lemma ExamPageTracked()
    ensures !IsExcluded("/exam")
  {
    assert !StartsWith("/exam", "/profile");
    assert !StartsWith("/exam", "/admin") by { assert "/exam"[1] != "/admin"[1]; }
    assert !StartsWith("/exam", "/auth") by { assert "/exam"[1] != "/auth"[1]; }
  }

  /**
   * `trackPageView`: `user` is the signed-in user, `newId` and `now` the new row's id and
   * time. Only `page_views` may change, by at most one row.
   */
  method TrackPageView(db: Database, pathname: string, user: Option<string>, newId: string, now: int)
    returns (tracked: bool)
    modifies db`pageViews
    ensures tracked <==> !IsExcluded(pathname) && user.Some?
    ensures tracked ==> db.pageViews == old(db.pageViews) + [PageView(newId, pathname, user, now)]
    ensures !tracked ==> db.pageViews == old(db.pageViews)
  {
    if IsExcluded(pathname) || user.None? {
      return false;
    }
    db.pageViews := db.pageViews + [PageView(newId, pathname, user, now)];
    tracked := true;
  }
}
