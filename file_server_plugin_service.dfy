/**
 * The file-server plugin service
 * (src/main/java/self/me/matchday/api/service/FileServerPluginService.java).
 *
 * It holds the registered plugins and a second list, the enabled ones, which
 * starts as a copy of the first. Enabling appends the plugin to that list,
 * even when it is already there; disabling removes one occurrence. A URL is
 * routed to the first enabled plugin, in list order, that accepts it.
 *
 * A plugin's acceptsUrl, the repository of logged-in users, cookie
 * decryption and the plugin's own download are parameters.
 */
module FileServerPluginService {
  import opened Outcome
  import opened JavaString
  import opened JavaList

  /** A plugin's UUID. */
  type PluginId = int

  /** A registered plugin: its ID, its title and the refresh rate it recommends, in seconds. */
  datatype Plugin = Plugin(pluginId: PluginId, title: String, refreshRate: int)

  /** DEFAULT_REFRESH_RATE: four hours, in seconds. */
  const DefaultRefreshRate: int := 4 * 60 * 60

  /** A logged-in file-server user: the name and the stored (encrypted) cookies. */
  datatype User = User(userName: String, cookies: seq<String>)

  /** No two plugins of the list share an ID. */
  predicate UniqueIds(ps: seq<Plugin>)
  {
    forall i, j :: 0 <= i < j < |ps| ==> ps[i].pluginId != ps[j].pluginId
  }

  // ---------------------------------------------------------------------
  // getPluginById
  // ---------------------------------------------------------------------

  /**
   * Collectors.toMap(getPluginId, plugin -> plugin): each plugin under its
   * ID, and IllegalStateException at the first ID met twice.
   */
  function ToMap(ps: seq<Plugin>): (r: Result<map<PluginId, Plugin>>)
    ensures r.Fail? ==> r.error == IllegalState
    ensures r.Ok? ==> forall p :: p in ps ==> p.pluginId in r.value && r.value[p.pluginId] == p
    ensures r.Ok? ==> forall id :: id in r.value ==> r.value[id] in ps && r.value[id].pluginId == id
  {
    if ps == [] then Ok(map[])
    else
      var front := ps[..|ps| - 1];
      var p := ps[|ps| - 1];
      assert ps == front + [p];
      var m :- ToMap(front);
      if p.pluginId in m then Fail(IllegalState) else Ok(m[p.pluginId := p])
  }

  /** The map cannot be built exactly when two plugins share an ID. */
  lemma {:induction false} ToMapFailsOnRepeat(ps: seq<Plugin>)
    ensures ToMap(ps).Fail? <==> !UniqueIds(ps)
  {
    if ps != [] {
      var front := ps[..|ps| - 1];
      var p := ps[|ps| - 1];
      assert ps == front + [p];
      ToMapFailsOnRepeat(front);
      if ToMap(front).Fail? {
        var i, j :| 0 <= i < j < |front| && front[i].pluginId == front[j].pluginId;
        assert ps[i] == front[i] && ps[j] == front[j];
      } else if p.pluginId in ToMap(front).value {
        var k :| 0 <= k < |front| && front[k] == ToMap(front).value[p.pluginId];
        assert ps[k].pluginId == ps[|ps| - 1].pluginId;
      } else {
        UniqueSnoc(front, p);
      }
    }
  }

  /** A list with unique IDs stays so when a plugin with a new ID is added at the end. */
  lemma UniqueSnoc(front: seq<Plugin>, p: Plugin)
    requires UniqueIds(front)
    requires forall q :: q in front ==> q.pluginId != p.pluginId
    ensures UniqueIds(front + [p])
  {
    var ps := front + [p];
    forall i, j | 0 <= i < j < |ps| ensures ps[i].pluginId != ps[j].pluginId {
      assert ps[i] == front[i];
      if j == |front| {
        assert front[i] in front;
      }
    }
  }

  /** getPluginById: the registered plugin with the ID, or none; the map is built first. */
  function PluginById(plugins: seq<Plugin>, id: PluginId): (r: Result<Option<Plugin>>)
    ensures r.Fail? <==> !UniqueIds(plugins)
    ensures r.Ok? && r.value.Some? ==> r.value.value in plugins && r.value.value.pluginId == id
    ensures r.Ok? ==> (r.value.None? <==> forall p :: p in plugins ==> p.pluginId != id)
  {
    ToMapFailsOnRepeat(plugins);
    var m :- ToMap(plugins);
    if id in m then Ok(Some(m[id])) else Ok(None)
  }

  /** With unique IDs, a registered plugin is found by its own ID. */
  lemma PluginFoundById(plugins: seq<Plugin>, p: Plugin)
    requires UniqueIds(plugins) && p in plugins
    ensures PluginById(plugins, p.pluginId) == Ok(Some(p))
  {
    ToMapFailsOnRepeat(plugins);
    var m := ToMap(plugins).value;
    assert m[p.pluginId] == p;
  }

  // ---------------------------------------------------------------------
  // The enabled list
  // ---------------------------------------------------------------------

  /** An entry of the list carries the ID. */
  predicate HasId(s: seq<Plugin>, id: PluginId)
  {
    exists i :: 0 <= i < |s| && s[i].pluginId == id
  }

  /**
   * Enabling a plugin twice and disabling it once leaves it enabled: its
   * entries outnumber the removals.
   */
  lemma EnableTwiceDisableOnce(s: seq<Plugin>, p: Plugin)
    ensures p in RemoveFirst(s + [p] + [p], p)
  {
    var t := s + [p] + [p];
    assert multiset(t)[p] == multiset(s)[p] + 2;
    RemoveCounts(t, p);
    assert multiset(RemoveFirst(t, p))[p] > 0;
  }

  /**
   * When the enabled list has each ID once, disabling a plugin leaves no
   * entry with its ID: a plugin enabled once is disabled by one call.
   */
  lemma DisableUniqueRemovesId(s: seq<Plugin>, p: Plugin)
    requires UniqueIds(s) && p in s
    ensures !HasId(RemoveFirst(s, p), p.pluginId)
  {
    RemoveFirstAt(s, p);
    var i := FirstIndex(s, p);
    var r := RemoveFirst(s, p);
    forall k | 0 <= k < |r| ensures r[k].pluginId != p.pluginId {
      if k < i {
        assert r[k] == s[k];
      } else {
        assert r[k] == s[k + 1];
      }
    }
  }

  // ---------------------------------------------------------------------
  // getEnabledPluginForUrl and getDownloadUser
  // ---------------------------------------------------------------------

  /** The first plugin of the list that accepts the URL, or none. */
  function FirstAccepting(s: seq<Plugin>, url: String, accepts: (Plugin, String) -> bool): (r: Option<Plugin>)
    ensures r.None? <==> forall i :: 0 <= i < |s| ==> !accepts(s[i], url)
    ensures r.Some? ==> r.value in s && accepts(r.value, url)
  {
    if s == [] then None
    else if accepts(s[0], url) then Some(s[0])
    else
      assert forall i :: 1 <= i < |s| ==> s[i] == s[1..][i - 1];
      FirstAccepting(s[1..], url, accepts)
  }

  /** No plugin before the one found accepts the URL. */
  lemma {:induction false} FirstAcceptingIsFirst(s: seq<Plugin>, url: String, accepts: (Plugin, String) -> bool)
    requires FirstAccepting(s, url, accepts).Some?
    ensures exists i :: && 0 <= i < |s| && s[i] == FirstAccepting(s, url, accepts).value
                        && forall j :: 0 <= j < i ==> !accepts(s[j], url)
  {
    if !accepts(s[0], url) {
      var t := s[1..];
      FirstAcceptingIsFirst(t, url, accepts);
      var i :| && 0 <= i < |t| && t[i] == FirstAccepting(t, url, accepts).value
               && forall j :: 0 <= j < i ==> !accepts(t[j], url);
      assert s[i + 1] == t[i];
      assert forall j :: 0 < j < i + 1 ==> s[j] == t[j - 1];
    }
  }

  /** getDownloadUser: the first logged-in user of the plugin's server, or none. */
  function DownloadUser(users: seq<User>): (u: Option<User>)
    ensures u.Some? <==> |users| > 0
    ensures u.Some? ==> u.value == users[0]
  {
    if |users| > 0 then Some(users[0]) else None
  }

  /** The cookies handed to the plugin: each stored cookie decrypted, as a set. */
  function CookieSet(cookies: seq<String>, decrypt: String -> String): set<String>
  {
    set c | c in cookies :: decrypt(c)
  }

  // ---------------------------------------------------------------------
  // The service
  // ---------------------------------------------------------------------

  class PluginService {
    const fileServerPlugins: seq<Plugin>
    var enabledPlugins: seq<Plugin>

    /** Every enabled entry is a registered plugin. */
    ghost predicate Valid()
      reads this
    {
      forall p :: p in enabledPlugins ==> p in fileServerPlugins
    }

    /** The constructor: every registered plugin starts enabled, in registration order. */
    constructor (plugins: seq<Plugin>)
      ensures Valid()
      ensures fileServerPlugins == plugins && enabledPlugins == plugins
    {
      fileServerPlugins := plugins;
      enabledPlugins := plugins;
    }

    /** isPluginEnabled: some entry of the enabled list carries the ID. */
    method IsPluginEnabled(id: PluginId) returns (b: bool)
      ensures b <==> HasId(enabledPlugins, id)
    {
      b := false;
      var i := 0;
      while i < |enabledPlugins|
        invariant i <= |enabledPlugins|
        invariant forall k :: 0 <= k < i ==> enabledPlugins[k].pluginId != id
      {
        if enabledPlugins[i].pluginId == id {
          b := true;
          break;
        }
        i := i + 1;
      }
    }

    /**
     * enablePlugin: false for an ID no plugin has; otherwise the plugin is
     * appended to the enabled list, even when it is there already, and the
     * call answers true (List.add). Two plugins with one ID make the lookup
     * throw.
     */
    method EnablePlugin(id: PluginId) returns (r: Result<bool>)
      requires Valid()
      modifies this
      ensures Valid()
      ensures r.Fail? <==> !UniqueIds(fileServerPlugins)
      ensures r.Ok? ==> (r.value <==> exists p :: p in fileServerPlugins && p.pluginId == id)
      ensures r != Ok(true) ==> enabledPlugins == old(enabledPlugins)
      ensures r == Ok(true) ==> exists p :: p in fileServerPlugins && p.pluginId == id
                                          && enabledPlugins == old(enabledPlugins) + [p]
    {
      var found := PluginById(fileServerPlugins, id);
      if found.Fail? {
        return Fail(found.error);
      }
      if found.value.None? {
        return Ok(false);
      }
      var p := found.value.value;
      enabledPlugins := enabledPlugins + [p];
      r := Ok(true);
    }

    /**
     * disablePlugin: false for an ID no plugin has; otherwise the first
     * enabled entry of that plugin is removed, and the call answers whether
     * there was one (List.remove).
     */
    method DisablePlugin(id: PluginId) returns (r: Result<bool>)
      requires Valid()
      modifies this
      ensures Valid()
      ensures r.Fail? <==> !UniqueIds(fileServerPlugins)
      ensures r.Ok? && !(exists p :: p in fileServerPlugins && p.pluginId == id) ==>
                r.value == false && enabledPlugins == old(enabledPlugins)
      ensures r.Ok? && (exists p :: p in fileServerPlugins && p.pluginId == id) ==>
                exists p :: && p in fileServerPlugins && p.pluginId == id
                            && r.value == (p in old(enabledPlugins))
                            && enabledPlugins == RemoveFirst(old(enabledPlugins), p)
    {
      var found := PluginById(fileServerPlugins, id);
      if found.Fail? {
        return Fail(found.error);
      }
      if found.value.None? {
        return Ok(false);
      }
      var p := found.value.value;
      r := Ok(p in enabledPlugins);
      RemoveCounts(enabledPlugins, p);
      enabledPlugins := RemoveFirst(enabledPlugins, p);
      assert multiset(enabledPlugins) <= multiset(old(enabledPlugins));
      forall q | q in enabledPlugins ensures q in fileServerPlugins {
        assert q in multiset(enabledPlugins);
      }
    }

    /** getEnabledPluginForUrl: the first enabled plugin, in list order, that accepts the URL. */
    method GetEnabledPluginForUrl(url: String, accepts: (Plugin, String) -> bool) returns (r: Option<Plugin>)
      ensures r == FirstAccepting(enabledPlugins, url, accepts)
    {
      var i := 0;
      while i < |enabledPlugins|
        invariant i <= |enabledPlugins|
        invariant FirstAccepting(enabledPlugins, url, accepts) == FirstAccepting(enabledPlugins[i..], url, accepts)
      {
        if accepts(enabledPlugins[i], url) {
          return Some(enabledPlugins[i]);
        }
        assert enabledPlugins[i..][1..] == enabledPlugins[i + 1..];
        i := i + 1;
      }
      return None;
    }

    /** getFileServerRefreshRate: the accepting plugin's refresh rate, or four hours without one. */
    method GetFileServerRefreshRate(url: String, accepts: (Plugin, String) -> bool) returns (d: int)
      ensures FirstAccepting(enabledPlugins, url, accepts).Some? ==>
                d == FirstAccepting(enabledPlugins, url, accepts).value.refreshRate
      ensures (forall i :: 0 <= i < |enabledPlugins| ==> !accepts(enabledPlugins[i], url)) ==>
                d == DefaultRefreshRate
    {
      var plugin := GetEnabledPluginForUrl(url, accepts);
      d := if plugin.Some? then plugin.value.refreshRate else DefaultRefreshRate;
    }

    /**
     * getDownloadUrl: IOException when no enabled plugin accepts the URL or
     * its server has no logged-in user; otherwise the accepting plugin's
     * answer for the first logged-in user's decrypted cookies.
     */
    method GetDownloadUrl(url: String, accepts: (Plugin, String) -> bool,
                          loggedInUsers: PluginId -> seq<User>, decrypt: String -> String,
                          download: (Plugin, String, set<String>) -> Result<Option<String>>)
      returns (r: Result<Option<String>>)
      ensures (forall i :: 0 <= i < |enabledPlugins| ==> !accepts(enabledPlugins[i], url)) ==> r == Fail(IO)
      ensures FirstAccepting(enabledPlugins, url, accepts).Some? ==>
        var p := FirstAccepting(enabledPlugins, url, accepts).value;
        var users := loggedInUsers(p.pluginId);
        r == if |users| == 0 then Fail(IO) else download(p, url, CookieSet(users[0].cookies, decrypt))
    {
      var plugin := GetEnabledPluginForUrl(url, accepts);
      if plugin.None? {
        return Fail(IO);
      }
      var user := DownloadUser(loggedInUsers(plugin.value.pluginId));
      if user.None? {
        return Fail(IO);
      }
      r := download(plugin.value, url, CookieSet(user.value.cookies, decrypt));
    }
  }
}
