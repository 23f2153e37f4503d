/**
 * The version store of Frontend/lib/webcontainerClient.ts: the
 * `window.__wc_app_versions__` map (kept in insertion order), the
 * `window.__wc_current_app_id__` pointer, the persistent "versions changed"
 * listeners, and the operations `saveAppVersion`, `getAllAppVersions`,
 * `getCurrentAppId`, `switchToAppVersion`, `deleteAppVersion` and the store
 * side of the screenshot updates.
 */
module Versions {
  import opened Wrappers
  import opened Text
  import opened Listeners
  import Fences
  import Session

  /** One generated revision of the application (`AppVersion`). */
  datatype AppVersion = AppVersion(
    id: string,
    name: string,
    code: string,
    timestamp: int,
    userPrompt: string,
    screenshot: Option<string>)

  // -----------------------------------------------------------------------
  // The ordering of getAllAppVersions: a stable sort by timestamp, newest first
  // -----------------------------------------------------------------------

  predicate SortedByTimeDesc(vs: seq<AppVersion>) {
    forall i, j :: 0 <= i < j < |vs| ==> vs[i].timestamp >= vs[j].timestamp
  }

  /** The versions of `vs` created at time `t`, in their order in `vs`. */
  function WithTimestamp(vs: seq<AppVersion>, t: int): seq<AppVersion> {
    if vs == [] then []
    else (if vs[0].timestamp == t then [vs[0]] else []) + WithTimestamp(vs[1..], t)
  }

  /** Inserts `v` before the first element that is not newer than it. */
  function InsertByTime(v: AppVersion, sorted: seq<AppVersion>): seq<AppVersion> {
    if sorted == [] || sorted[0].timestamp <= v.timestamp then [v] + sorted
    else [sorted[0]] + InsertByTime(v, sorted[1..])
  }

  /**
   * `Array.from(versions.values()).sort((a, b) => b.timestamp - a.timestamp)`:
   * newest first; `Array.prototype.sort` is stable, so versions with equal
   * timestamps keep their insertion order.
   */
  function SortByTimeDesc(vs: seq<AppVersion>): seq<AppVersion> {
    if vs == [] then [] else InsertByTime(vs[0], SortByTimeDesc(vs[1..]))
  }

  lemma {:induction false} InsertByTimeElements(v: AppVersion, s: seq<AppVersion>)
    ensures multiset(InsertByTime(v, s)) == multiset(s) + multiset{v}
    ensures forall x :: x in InsertByTime(v, s) <==> x == v || x in s
  {
    if s != [] && s[0].timestamp > v.timestamp {
      InsertByTimeElements(v, s[1..]);
      assert s == [s[0]] + s[1..];
    }
  }

  lemma {:induction false} InsertByTimeSorted(v: AppVersion, s: seq<AppVersion>)
    requires SortedByTimeDesc(s)
    ensures SortedByTimeDesc(InsertByTime(v, s))
  {
    if s != [] && s[0].timestamp > v.timestamp {
      var r := InsertByTime(v, s);
      var rest := InsertByTime(v, s[1..]);
      InsertByTimeSorted(v, s[1..]);
      InsertByTimeElements(v, s[1..]);
      assert r == [s[0]] + rest;
      forall i, j | 0 <= i < j < |r| ensures r[i].timestamp >= r[j].timestamp {
        if i == 0 {
          assert r[j] == rest[j - 1];
          assert r[j] == v || r[j] in s[1..];
        } else {
          assert r[i] == rest[i - 1] && r[j] == rest[j - 1];
        }
      }
    }
  }

  lemma {:induction false} InsertByTimeStable(v: AppVersion, s: seq<AppVersion>, t: int)
    ensures WithTimestamp(InsertByTime(v, s), t) == (if v.timestamp == t then [v] else []) + WithTimestamp(s, t)
  {
    var r := InsertByTime(v, s);
    if s == [] || s[0].timestamp <= v.timestamp {
      assert r == [v] + s;
      assert r[1..] == s;
    } else {
      var rest := InsertByTime(v, s[1..]);
      assert r == [s[0]] + rest;
      assert r[1..] == rest;
      InsertByTimeStable(v, s[1..], t);
      calc {
        WithTimestamp(r, t);
        (if s[0].timestamp == t then [s[0]] else []) + WithTimestamp(rest, t);
        (if s[0].timestamp == t then [s[0]] else []) + ((if v.timestamp == t then [v] else []) + WithTimestamp(s[1..], t));
      }
      assert v.timestamp == t ==> s[0].timestamp != t;
    }
  }

  /**
   * The ordering is a stable sort: newest first, a permutation of its input,
   * and for every timestamp the versions sharing it keep their input order.
   */
  lemma {:induction false} SortByTimeDescSpec(vs: seq<AppVersion>)
    ensures SortedByTimeDesc(SortByTimeDesc(vs))
    ensures multiset(SortByTimeDesc(vs)) == multiset(vs)
    ensures forall t :: WithTimestamp(SortByTimeDesc(vs), t) == WithTimestamp(vs, t)
  {
    if vs != [] {
      SortByTimeDescSpec(vs[1..]);
      InsertByTimeSorted(vs[0], SortByTimeDesc(vs[1..]));
      InsertByTimeElements(vs[0], SortByTimeDesc(vs[1..]));
      forall t ensures WithTimestamp(SortByTimeDesc(vs), t) == WithTimestamp(vs, t) {
        InsertByTimeStable(vs[0], SortByTimeDesc(vs[1..]), t);
      }
      assert vs == [vs[0]] + vs[1..];
    }
  }

  function Reverse(vs: seq<AppVersion>): seq<AppVersion> {
    if vs == [] then [] else Reverse(vs[1..]) + [vs[0]]
  }

  lemma {:induction false} InsertOldest(v: AppVersion, s: seq<AppVersion>)
    requires forall x :: x in s ==> x.timestamp > v.timestamp
    ensures InsertByTime(v, s) == s + [v]
  {
    if s != [] {
      InsertOldest(v, s[1..]);
      assert s == [s[0]] + s[1..];
    }
  }

  lemma {:induction false} ReverseElements(vs: seq<AppVersion>)
    ensures forall x :: x in Reverse(vs) <==> x in vs
  {
    if vs != [] {
      ReverseElements(vs[1..]);
      assert vs == [vs[0]] + vs[1..];
    }
  }

  /**
   * When every version is strictly newer than the ones saved before it, the
   * list is exactly the reverse of the saving order: the latest first.
   */
  lemma {:induction false} NewestFirst(vs: seq<AppVersion>)
    requires forall i, j :: 0 <= i < j < |vs| ==> vs[i].timestamp < vs[j].timestamp
    ensures SortByTimeDesc(vs) == Reverse(vs)
  {
    if vs != [] {
      NewestFirst(vs[1..]);
      ReverseElements(vs[1..]);
      forall x | x in Reverse(vs[1..]) ensures x.timestamp > vs[0].timestamp {
        var k :| 0 <= k < |vs[1..]| && vs[1..][k] == x;
        assert x == vs[k + 1];
      }
      InsertOldest(vs[0], Reverse(vs[1..]));
    }
  }

  /** The stored versions in the map's insertion order (`versions.values()`). */
  function ValuesInOrder(order: seq<string>, versions: map<string, AppVersion>): (vs: seq<AppVersion>)
    requires forall k :: k in order ==> k in versions
    ensures |vs| == |order|
    ensures forall i :: 0 <= i < |order| ==> vs[i] == versions[order[i]]
  {
    seq(|order|, i requires 0 <= i < |order| => versions[order[i]])
  }

  /**
   * The module-level store kept on `window`: `__wc_app_versions__`,
   * `__wc_current_app_id__` and `__wc_version_listeners__`, beside the
   * sandbox session the store writes code into.
   */
  class VersionStore {
    /** The stored versions by id. */
    var versions: map<string, AppVersion>
    /** The keys of `versions` in insertion order, as a JavaScript `Map` keeps them. */
    var order: seq<string>
    var current: Option<string>
    /** The persistent "versions changed" listeners. */
    const listeners: ListenerSet
    const sandbox: Session.Sandbox

    /**
     * The keys are the insertion order without repetition, every record is
     * stored under its own id and holds code already stripped of fences, and
     * the current id is absent or a stored key.
     */
    ghost predicate Valid()
      reads this, listeners, sandbox, sandbox.onceListeners
    {
      && listeners.Valid()
      && sandbox.Valid()
      && listeners != sandbox.onceListeners
      && Keyed()
      && AllStripped(versions)
      && (current.Some? ==> current.value in versions)
    }

    /** The map and its insertion order hold the same keys, once each, and every record sits under its own id. */
    ghost predicate Keyed()
      reads this
    {
      KeyedBy(order, versions)
    }

    constructor (sandbox: Session.Sandbox)
      requires sandbox.Valid()
      ensures Valid() && fresh(listeners)
      ensures this.sandbox == sandbox
      ensures versions == map[] && order == [] && current == None && listeners.members == []
    {
      this.sandbox := sandbox;
      versions := map[];
      order := [];
      current := None;
      listeners := new ListenerSet();
    }

    /** The stored versions in insertion order. */
    function Stored(): seq<AppVersion>
      reads this
      requires forall k :: k in order ==> k in versions
    {
      ValuesInOrder(order, versions)
    }

    /** Every stored version sits in the list under its own id, and the list has one entry per key. */
    lemma StoredMatchesMap()
      requires Keyed()
      ensures forall v :: v in multiset(Stored()) ==> v.id in versions && versions[v.id] == v
      ensures |Stored()| == |versions|
    {
      var vs := Stored();
      forall v: AppVersion | v in multiset(vs) ensures v.id in versions && versions[v.id] == v {
        var i :| 0 <= i < |vs| && vs[i] == v;
        assert versions[order[i]] == v;
      }
      KeysCount(order, versions.Keys);
    }

    /**
     * `getAllAppVersions()`: every stored version once, newest first, ties in
     * insertion order.
     */
    function AllAppVersions(): (r: seq<AppVersion>)
      reads this
      requires Keyed()
      ensures SortedByTimeDesc(r)
      ensures |r| == |versions|
      ensures forall i :: 0 <= i < |r| ==> r[i].id in versions && versions[r[i].id] == r[i]
      ensures multiset(r) == multiset(Stored())
      ensures forall t :: WithTimestamp(r, t) == WithTimestamp(Stored(), t)
    {
      SortByTimeDescSpec(Stored());
      StoredMatchesMap();
      var r := SortByTimeDesc(Stored());
      assert |r| == |multiset(r)| == |multiset(Stored())|;
      assert forall i :: 0 <= i < |r| ==> r[i] in multiset(Stored());
      r
    }

    /** The head of the newest-first list is at least as new as every stored version. */
    lemma FirstIsNewest()
      requires Keyed() && versions != map[]
      ensures |AllAppVersions()| > 0
      ensures forall k :: k in versions ==> versions[k].timestamp <= AllAppVersions()[0].timestamp
    {
      var all := AllAppVersions();
      var some :| some in versions;
      assert |all| > 0;
      forall k | k in versions ensures versions[k].timestamp <= all[0].timestamp {
        var j :| 0 <= j < |order| && order[j] == k;
        assert Stored()[j] == versions[k];
        assert versions[k] in multiset(all);
      }
    }

    /** `getCurrentAppId()`: absent, or the id of a stored version. */
    function CurrentAppId(): (r: Option<string>)
      reads this, listeners, sandbox, sandbox.onceListeners
      requires Valid()
      ensures r.Some? ==> r.value in versions
    {
      current
    }

    /**
     * `saveAppVersion(appCode, userPrompt, appName)` up to the scheduled
     * screenshot: stores one record under the id `id` (a new key goes last in
     * the insertion order; `Map.set` keeps the place of a key already there), with the
     * code stripped of fences and the name `appName` or, when that is absent
     * or empty, "App " + (the number of versions before + 1); makes it
     * current and writes exactly the stored code to the entry file. Other
     * records and the listeners are untouched.
     */
    method SaveAppVersion(appCode: string, userPrompt: string, appName: Option<string>, id: string, timestamp: int)
      returns (appId: string)
      requires Valid()
      modifies this, sandbox
      ensures Valid()
      ensures appId == id
      ensures versions == old(versions)[id := AppVersion(
                id,
                if appName.Some? && appName.value != "" then appName.value
                else "App " + NatToDecimal(|old(versions)| + 1),
                Fences.StripFences(appCode),
                timestamp,
                userPrompt,
                None)]
      ensures order == if id in old(versions) then old(order) else old(order) + [id]
      ensures current == Some(id)
      ensures listeners.members == old(listeners.members)
      ensures sandbox.effects == old(sandbox.effects) + old(sandbox.StartupEffects())
                                 + (if sandbox.inBrowser then [Session.WriteFile(Session.AppEntry, versions[id].code)] else [])
      ensures sandbox.serverUrl == old(sandbox.serverUrl)
      ensures old(sandbox.instance) != null ==> sandbox.instance == old(sandbox.instance)
      ensures sandbox.inBrowser ==> sandbox.instance != null && sandbox.started
      ensures !sandbox.inBrowser ==> sandbox.instance == old(sandbox.instance) && sandbox.started == old(sandbox.started)
    {
      var cleaned := Fences.StripFences(appCode);
      var name := if appName.Some? && appName.value != "" then appName.value
                  else "App " + NatToDecimal(|versions| + 1);
      Fences.StripIdempotent(appCode);
      var version := AppVersion(id, name, cleaned, timestamp, userPrompt, None);
      SetKeyed(order, versions, version);
      SetStripped(versions, version);
      versions := versions[id := version];
      if id !in order {
        order := order + [id];
      }
      current := Some(id);
      assert Keyed();
      assert Valid();
      sandbox.UpdateAppTsx(cleaned);
      appId := id;
    }

    /**
     * `switchToAppVersion(appId)`: false and nothing changed for an unknown
     * id; otherwise the id becomes current, the version's code is written to
     * the entry file exactly as stored, and the result is true. The stored
     * versions are never changed.
     */
    method SwitchToAppVersion(id: string) returns (ok: bool)
      requires Valid()
      modifies this, sandbox
      ensures Valid()
      ensures ok == (id in old(versions))
      ensures versions == old(versions) && order == old(order)
      ensures current == if ok then Some(id) else old(current)
      ensures !ok ==> unchanged(sandbox)
      ensures ok ==> sandbox.effects == old(sandbox.effects) + old(sandbox.StartupEffects())
                                        + (if sandbox.inBrowser then [Session.WriteFile(Session.AppEntry, versions[id].code)] else [])
      ensures sandbox.serverUrl == old(sandbox.serverUrl)
      ensures old(sandbox.instance) != null ==> sandbox.instance == old(sandbox.instance)
      ensures ok && sandbox.inBrowser ==> sandbox.instance != null && sandbox.started
      ensures !sandbox.inBrowser ==> sandbox.instance == old(sandbox.instance) && sandbox.started == old(sandbox.started)
      ensures listeners.members == old(listeners.members)
    {
      if id !in versions {
        return false;
      }
      current := Some(id);
      sandbox.UpdateAppTsx(versions[id].code);
      ok := true;
    }

    /**
     * `deleteAppVersion(appId)`: removes the record and says whether it was
     * there. When it was the current one, the first version of the newest-
     * first list of what remains becomes current (a newest one), or current
     * is cleared when nothing remains; otherwise current is unchanged.
     * No listener is notified.
     */
    method DeleteAppVersion(id: string) returns (deleted: bool)
      requires Valid()
      modifies this
      ensures Valid()
      ensures deleted == (id in old(versions))
      ensures versions == old(versions) - {id}
      ensures order == Remove(old(order), id)
      ensures !(deleted && old(current) == Some(id)) ==> current == old(current)
      ensures deleted && old(current) == Some(id) ==>
                current == (if versions == map[] then None else Some(AllAppVersions()[0].id))
      ensures deleted && old(current) == Some(id) && versions != map[] ==>
                current.Some? && forall k :: k in versions ==> versions[k].timestamp <= versions[current.value].timestamp
    {
      deleted := id in versions;
      RemoveKeyed(order, versions, id);
      versions := versions - {id};
      order := Remove(order, id);
      assert Keyed();
      if deleted && current == Some(id) {
        var remaining := AllAppVersions();
        if |remaining| > 0 {
          current := Some(remaining[0].id);
          FirstIsNewest();
        } else {
          current := None;
        }
      }
    }

    /** `onAppVersionsChange(cb)`: a persistent subscription. */
    method OnAppVersionsChange(listener: ListenerId)
      requires Valid()
      modifies listeners
      ensures Valid()
      ensures listeners.members == Added(old(listeners.members), listener)
    {
      listeners.Add(listener);
    }

    /** The function `onAppVersionsChange` returns: removes exactly that callback. */
    method RemoveVersionsListener(listener: ListenerId) returns (removed: bool)
      requires Valid()
      modifies listeners
      ensures Valid()
      ensures removed == (listener in old(listeners.members))
      ensures listeners.members == Remove(old(listeners.members), listener)
    {
      removed := listeners.Delete(listener);
    }

    /**
     * `notifyVersionListeners()`: calls every registered callback once over a
     * snapshot, swallowing exceptions; it removes no callback itself.
     */
    method NotifyVersionListeners(reactions: map<ListenerId, Reaction>) returns (calls: seq<Call>)
      requires Valid()
      modifies listeners
      ensures Valid()
      ensures calls == CallsFor(old(listeners.members), reactions)
      ensures listeners.members == AfterCalls(old(listeners.members), old(listeners.members), reactions)
    {
      calls := listeners.Dispatch(reactions);
    }

    /**
     * The store side of the screenshot timer in `saveAppVersion`: a truthy
     * capture result is stored on the version, if the id is still there, and
     * the listeners are notified; otherwise nothing happens.
     */
    method ApplyScreenshot(id: string, shot: Option<string>, reactions: map<ListenerId, Reaction>)
      returns (calls: seq<Call>)
      requires Valid()
      modifies this, listeners
      ensures Valid()
      ensures order == old(order) && current == old(current)
      ensures shot.Some? && shot.value != "" && id in old(versions) ==>
                && versions == old(versions)[id := old(versions)[id].(screenshot := shot)]
                && calls == CallsFor(old(listeners.members), reactions)
                && listeners.members == AfterCalls(old(listeners.members), old(listeners.members), reactions)
      ensures !(shot.Some? && shot.value != "" && id in old(versions)) ==>
                versions == old(versions) && calls == [] && listeners.members == old(listeners.members)
    {
      calls := [];
      if shot.Some? && shot.value != "" && id in versions {
        versions := versions[id := versions[id].(screenshot := shot)];
        calls := NotifyVersionListeners(reactions);
      }
    }

    /**
     * `captureScreenshotForApp(appId)` with the capture result `shot` given:
     * false for an unknown id; otherwise switch to the version, then store a
     * truthy result and notify (true), or report false.
     */
    method CaptureScreenshotForApp(id: string, shot: Option<string>, reactions: map<ListenerId, Reaction>)
      returns (ok: bool, calls: seq<Call>)
      requires Valid()
      modifies this, listeners, sandbox
      ensures Valid()
      ensures id !in old(versions) ==>
                !ok && calls == [] && versions == old(versions) && current == old(current)
                && unchanged(sandbox)
      ensures id in old(versions) ==> current == Some(id)
      ensures ok == (id in old(versions) && shot.Some? && shot.value != "")
      ensures ok ==> versions == old(versions)[id := old(versions)[id].(screenshot := shot)]
                     && calls == CallsFor(old(listeners.members), reactions)
      ensures !ok ==> versions == old(versions) && calls == [] && listeners.members == old(listeners.members)
      ensures ok ==> listeners.members == AfterCalls(old(listeners.members), old(listeners.members), reactions)
      ensures order == old(order)
      ensures id in old(versions) ==>
                sandbox.effects == old(sandbox.effects) + old(sandbox.StartupEffects())
                                   + (if sandbox.inBrowser then [Session.WriteFile(Session.AppEntry, old(versions)[id].code)] else [])
      ensures sandbox.serverUrl == old(sandbox.serverUrl)
      ensures old(sandbox.instance) != null ==> sandbox.instance == old(sandbox.instance)
      ensures id in old(versions) && sandbox.inBrowser ==> sandbox.instance != null && sandbox.started
      ensures !sandbox.inBrowser ==> sandbox.instance == old(sandbox.instance) && sandbox.started == old(sandbox.started)
    {
      calls := [];
      if id !in versions {
        return false, [];
      }
      var _ := SwitchToAppVersion(id);
      if shot.Some? && shot.value != "" {
        versions := versions[id := versions[id].(screenshot := shot)];
        calls := NotifyVersionListeners(reactions);
        return true, calls;
      }
      ok := false;
    }
  }

  /** `order` lists the keys of `versions` once each, and every record sits under its own id. */
  ghost predicate KeyedBy(order: seq<string>, versions: map<string, AppVersion>) {
    && NoDuplicates(order)
    && (forall k :: k in versions <==> k in order)
    && (forall k :: k in versions ==> versions[k].id == k)
  }

  /** Every stored code is already stripped of fences. */
  ghost predicate AllStripped(versions: map<string, AppVersion>) {
    forall k :: k in versions ==> Fences.StripFences(versions[k].code) == versions[k].code
  }

  /** Storing stripped code keeps every stored code stripped. */
  lemma SetStripped(versions: map<string, AppVersion>, v: AppVersion)
    requires AllStripped(versions)
    requires Fences.StripFences(v.code) == v.code
    ensures AllStripped(versions[v.id := v])
  {
  }

  /** Storing a record under its own id (appended to the order when the key is new) keeps them matched. */
  lemma SetKeyed(order: seq<string>, versions: map<string, AppVersion>, v: AppVersion)
    requires KeyedBy(order, versions)
    ensures KeyedBy(if v.id in order then order else order + [v.id], versions[v.id := v])
  {
  }

  /** Deleting a key from the map and from its insertion order keeps them matched. */
  lemma RemoveKeyed(order: seq<string>, versions: map<string, AppVersion>, id: string)
    requires KeyedBy(order, versions)
    ensures KeyedBy(Remove(order, id), versions - {id})
  {
  }

  /** A duplicate-free sequence has as many elements as the set of its elements. */
  lemma {:induction false} KeysCount(order: seq<string>, keys: set<string>)
    requires NoDuplicates(order)
    requires forall k :: k in keys <==> k in order
    ensures |keys| == |order|
  {
    if order != [] {
      var last := order[|order| - 1];
      var init := order[..|order| - 1];
      assert forall k :: k in keys - {last} <==> k in init;
      KeysCount(init, keys - {last});
    }
  }
}
