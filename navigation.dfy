/**
 * Page switching as the dashboard performs it on its navigation items and
 * page sections: remove "active" from every element, then add it to the
 * first element carrying the target identifier.
 */
module Navigation {

  /** The pages switchPage knows, each with the title it shows. */
  const Titles: map<string, string> := map[
    "dashboard" := "Dashboard Overview",
    "reports" := "Active Reports",
    "map" := "Live Issue Map",
    "departments" := "Department Management",
    "analytics" := "Advanced Analytics",
    "settings" := "System Settings"
  ]

  const DefaultPage := "dashboard"
  const ReportsPage := "reports"
  const MapPage := "map"
  const SettingsPage := "settings"
  const CivicStarsPage := "civic-stars"
  const CivicStarsTitle := "\U{1F31F} Civic Stars Hall of Fame"

  /** The element id of a page's section (`${pageId}-page`). */
  function PageElementId(page: string): string {
    page + "-page"
  }

  /** The first position of `x` in `ids`: what querySelector and getElementById return. */
  function IndexOf<T(==)>(ids: seq<T>, x: T): (k: nat)
    requires x in ids
    ensures k < |ids| && ids[k] == x
    ensures forall j :: 0 <= j < k ==> ids[j] != x
  {
    if ids[0] == x then 0 else 1 + IndexOf(ids[1..], x)
  }

  /** How many of the flags are set. */
  function CountTrue(flags: seq<bool>): nat {
    if flags == [] then 0 else (if flags[0] then 1 else 0) + CountTrue(flags[1..])
  }

  lemma {:induction false} CountTrueZero(flags: seq<bool>)
    ensures CountTrue(flags) == 0 <==> forall i :: 0 <= i < |flags| ==> !flags[i]
  {
    if flags != [] {
      CountTrueZero(flags[1..]);
      assert forall i :: 1 <= i < |flags| ==> flags[i] == flags[1..][i - 1];
    }
  }

  /** Some flag is set exactly when the count is positive. */
  lemma SomeTrue(flags: seq<bool>)
    ensures CountTrue(flags) > 0 <==> exists i :: 0 <= i < |flags| && flags[i]
  {
  }

  /** `n` flags of which only the one at `k` is set (none when `k` is out of range). */
  function OnlyAt(n: nat, k: int): (flags: seq<bool>)
    ensures |flags| == n
    ensures forall i :: 0 <= i < n ==> (flags[i] <==> i == k)
  {
    seq(n, i => i == k)
  }

  lemma {:induction false} OnlyAtCount(n: nat, k: int)
    ensures CountTrue(OnlyAt(n, k)) == if 0 <= k < n then 1 else 0
  {
    if n > 0 {
      assert OnlyAt(n, k)[1..] == OnlyAt(n - 1, k - 1);
      OnlyAtCount(n - 1, k - 1);
    }
  }

  /**
   * The active flags after deactivating every element and activating the
   * first one whose identifier is `target`, if any.
   */
  function Selected(ids: seq<string>, target: string): (flags: seq<bool>)
    ensures |flags| == |ids|
    ensures forall i :: 0 <= i < |ids| ==> (flags[i] <==> target in ids && i == IndexOf(ids, target))
  {
    OnlyAt(|ids|, if target in ids then IndexOf(ids, target) else -1)
  }

  /**
   * After a selection exactly one element is active and it carries the
   * target identifier; with no such element, none is active.
   */
  lemma SelectedExactlyOne(ids: seq<string>, target: string)
    ensures target in ids ==> CountTrue(Selected(ids, target)) == 1 && Selected(ids, target)[IndexOf(ids, target)]
    ensures target !in ids ==> CountTrue(Selected(ids, target)) == 0
    ensures forall i :: 0 <= i < |ids| && Selected(ids, target)[i] ==> ids[i] == target
  {
    OnlyAtCount(|ids|, if target in ids then IndexOf(ids, target) else -1);
  }

  /** Activating the target's element in a fully cleared list gives the selection. */
  lemma SelectAfterClear(flags: seq<bool>, ids: seq<string>, target: string)
    requires |flags| == |ids| && target in ids
    requires forall i :: 0 <= i < |flags| ==> !flags[i]
    ensures flags[IndexOf(ids, target) := true] == Selected(ids, target)
  {
  }

  /** Where addCivicStarsNavigation inserts its item: before the first "settings" item, else at the end. */
  function InsertionPoint(ids: seq<string>): (k: nat)
    ensures k <= |ids|
    ensures SettingsPage in ids ==> k < |ids| && ids[k] == SettingsPage
    ensures SettingsPage !in ids ==> k == |ids|
    ensures forall j :: 0 <= j < k ==> ids[j] != SettingsPage
  {
    if SettingsPage in ids then IndexOf(ids, SettingsPage) else |ids|
  }

  function InsertAt<T>(s: seq<T>, k: nat, x: T): (r: seq<T>)
    requires k <= |s|
    ensures |r| == |s| + 1 && r[k] == x
    ensures r[..k] + r[k + 1..] == s
  {
    s[..k] + [x] + s[k..]
  }
}
