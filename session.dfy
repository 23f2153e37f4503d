/**
 * The sandbox session of Frontend/lib/webcontainerClient.ts: the cached
 * WebContainer instance and its start-up sequence (`ensureWebContainer`),
 * the "server-ready" handler that records the preview URL and fires the
 * one-shot listeners, and file writes into the sandbox.
 *
 * The sandbox runtime itself is external: booting, mounting, spawning and
 * writing files are recorded, in order, in the ghost log `effects`.
 */
module Session {
  import opened Wrappers
  import opened Text
  import opened Listeners
  import Fences

  /** A booted WebContainer; only its identity matters here. */
  class WebContainer {
    constructor ()
    {
    }
  }

  /** One call into the sandbox runtime. */
  datatype Effect =
    | Boot                                       // WebContainer.boot()
    | Mount                                      // wc.mount(files)
    | AttachServerReady                          // wc.on("server-ready", ...)
    | Spawn(command: string, args: seq<string>)  // wc.spawn(command, args)
    | AwaitExit                                  // await install.exit
    | WriteFile(path: string, contents: string)  // wc.fs.writeFile(path, contents)

  const Install: Effect := Spawn("npm", ["install"])
  const RunDev: Effect := Spawn("npm", ["run", "dev"])

  /** The entry file of the generated application. */
  const AppEntry: string := "/src/App.tsx"

  const Scheme: string := "://"

  /**
   * The preview URL announced by a "server-ready" event: `hostOrUrl` itself
   * when it already holds "://", else "http://" + host + ":" + port.
   * The result always holds a scheme, and it equals the input exactly when
   * the input held one.
   */
  function NormalizeUrl(port: nat, hostOrUrl: string): (url: string)
    ensures Contains(url, Scheme)
    ensures url == hostOrUrl <==> Contains(hostOrUrl, Scheme)
  {
    if Contains(hostOrUrl, Scheme) then hostOrUrl
    else
      var url := "http://" + hostOrUrl + ":" + NatToDecimal(port);
      assert OccursAt(url, Scheme, 4);
      url
  }

  /** Normalising twice changes nothing: a normalised URL is kept as it is. */
  lemma NormalizeIdempotent(port1: nat, port2: nat, hostOrUrl: string)
    ensures NormalizeUrl(port2, NormalizeUrl(port1, hostOrUrl)) == NormalizeUrl(port1, hostOrUrl)
  {
  }

  /**
   * A bare host is turned into "http://host:port", and the port can be read
   * back from the end of the URL.
   */
  lemma {:induction false} NormalizeKeepsHostAndPort(port: nat, host: string)
    requires !Contains(host, Scheme)
    ensures var url := NormalizeUrl(port, host);
            var digits := NatToDecimal(port);
            && url == "http://" + host + ":" + digits
            && ParseDecimal(url[|url| - |digits|..]) == port
  {
    var url := NormalizeUrl(port, host);
    var digits := NatToDecimal(port);
    assert url[|url| - |digits|..] == digits;
    DecimalRoundTrip(port);
  }

  /** The calls a first `ensureWebContainer` makes, given the started flag it finds. */
  function BootSequence(wasStarted: bool): seq<Effect> {
    [Boot, Mount, AttachServerReady] + (if wasStarted then [] else [Install, AwaitExit, RunDev])
  }

  /** A boot sequence boots once, and installs once unless the flag was already set. */
  lemma BootSequenceCounts(wasStarted: bool)
    ensures Occurrences(BootSequence(wasStarted), Boot) == 1
    ensures Occurrences(BootSequence(wasStarted), Install) == if wasStarted then 0 else 1
  {
    var head: seq<Effect> := [Boot, Mount, AttachServerReady];
    var tail: seq<Effect> := if wasStarted then [] else [Install, AwaitExit, RunDev];
    assert head == [Boot] + [Mount] + [AttachServerReady];
    OccurrencesAppend([Boot], [Mount], Boot);
    OccurrencesAppend([Boot], [Mount], Install);
    OccurrencesAppend([Boot] + [Mount], [AttachServerReady], Boot);
    OccurrencesAppend([Boot] + [Mount], [AttachServerReady], Install);
    if !wasStarted {
      assert tail == [Install] + [AwaitExit] + [RunDev];
      OccurrencesAppend([Install], [AwaitExit], Boot);
      OccurrencesAppend([Install], [AwaitExit], Install);
      OccurrencesAppend([Install] + [AwaitExit], [RunDev], Boot);
      OccurrencesAppend([Install] + [AwaitExit], [RunDev], Install);
    }
    OccurrencesAppend(head, tail, Boot);
    OccurrencesAppend(head, tail, Install);
  }

  /**
   * The module-level session state kept on `window`: `__wc_instance__`,
   * `__wc_started__`, `__wc_server_url__` and `__wc_listeners__`.
   */
  class Sandbox {
    /** Whether `window` exists (false when the module runs on the server). */
    const inBrowser: bool
    var instance: WebContainer?
    var started: bool
    var serverUrl: Option<string>
    /** The one-shot "server-ready" listeners. */
    const onceListeners: ListenerSet
    /** Every call made into the sandbox runtime, in order. */
    ghost var effects: seq<Effect>

    /**
     * The start-up sequence ran at most once: there is one boot once an
     * instance is cached, and one `npm install` once the started flag is set.
     */
    ghost predicate Valid()
      reads this, onceListeners
    {
      && onceListeners.Valid()
      && (started <==> instance != null)
      && (!inBrowser ==> instance == null)
      && Occurrences(effects, Boot) == (if instance != null then 1 else 0)
      && Occurrences(effects, Install) == (if started then 1 else 0)
      && (serverUrl.Some? ==> Contains(serverUrl.value, Scheme))
    }

    constructor (inBrowser: bool)
      ensures Valid() && fresh(onceListeners)
      ensures this.inBrowser == inBrowser
      ensures instance == null && !started && serverUrl == None
      ensures onceListeners.members == [] && effects == []
    {
      this.inBrowser := inBrowser;
      instance := null;
      started := false;
      serverUrl := None;
      onceListeners := new ListenerSet();
      effects := [];
    }

    /** The calls into the runtime that `EnsureWebContainer` makes from the current state. */
    ghost function StartupEffects(): seq<Effect>
      reads this
    {
      if !inBrowser || instance != null then []
      else BootSequence(started)
    }

    /** `getLastPreviewUrl()`: nothing before the first "server-ready" event, then a URL with a scheme. */
    function LastPreviewUrl(): (url: Option<string>)
      reads this, onceListeners
      requires Valid()
      ensures url.Some? ==> Contains(url.value, Scheme)
    {
      serverUrl
    }

    /**
     * `ensureWebContainer()`: nothing outside a browser; the cached instance
     * once there is one; otherwise boot, mount, attach the server-ready
     * handler and, while the started flag is false, set it and run
     * `npm install` then `npm run dev`.
     */
    method EnsureWebContainer() returns (wc: WebContainer?)
      requires Valid()
      modifies this
      ensures Valid()
      ensures !inBrowser ==> wc == null
      ensures inBrowser ==> wc != null && instance == wc && started
      ensures old(instance) != null ==> wc == old(instance)
      ensures inBrowser && old(instance) == null ==> fresh(wc)
      ensures !inBrowser ==> instance == old(instance) && started == old(started)
      ensures effects == old(effects) + old(StartupEffects())
      ensures serverUrl == old(serverUrl)
    {
      if !inBrowser {
        return null;
      }
      if instance != null {
        return instance;
      }
      var booted := new WebContainer();
      effects := effects + [Boot];
      instance := booted;
      effects := effects + [Mount, AttachServerReady];
      if !started {
        started := true;
        effects := effects + [Install, AwaitExit, RunDev];
      }
      assert effects == old(effects) + BootSequence(old(started));
      BootSequenceCounts(old(started));
      OccurrencesAppend(old(effects), BootSequence(old(started)), Boot);
      OccurrencesAppend(old(effects), BootSequence(old(started)), Install);
      return booted;
    }

    /** `writeFileInWebContainer(path, contents)`: a no-op outside a browser. */
    method WriteFile(path: string, contents: string)
      requires Valid()
      modifies this
      ensures Valid()
      ensures inBrowser ==> instance != null && started
      ensures old(instance) != null ==> instance == old(instance)
      ensures !inBrowser ==> instance == old(instance) && started == old(started)
      ensures effects == old(effects) + old(StartupEffects())
                         + (if inBrowser then [Effect.WriteFile(path, contents)] else [])
      ensures serverUrl == old(serverUrl)
    {
      var wc := EnsureWebContainer();
      if wc == null {
        return;
      }
      effects := effects + [Effect.WriteFile(path, contents)];
      OccurrencesAppend(old(effects) + old(StartupEffects()), [Effect.WriteFile(path, contents)], Boot);
      OccurrencesAppend(old(effects) + old(StartupEffects()), [Effect.WriteFile(path, contents)], Install);
    }

    /** `updateAppTsx(appCode)`: writes the fence-stripped code to the entry file. */
    method UpdateAppTsx(appCode: string)
      requires Valid()
      modifies this
      ensures Valid()
      ensures inBrowser ==> instance != null && started
      ensures old(instance) != null ==> instance == old(instance)
      ensures !inBrowser ==> instance == old(instance) && started == old(started)
      ensures effects == old(effects) + old(StartupEffects())
                         + (if inBrowser then [Effect.WriteFile(AppEntry, Fences.StripFences(appCode))] else [])
      ensures serverUrl == old(serverUrl)
    {
      var cleaned := Fences.StripFences(appCode);
      WriteFile(AppEntry, cleaned);
    }

    /** `onServerReadyOnce(cb)`: registers a one-shot listener. */
    method OnServerReadyOnce(listener: ListenerId)
      requires Valid()
      modifies onceListeners
      ensures Valid()
      ensures onceListeners.members == Added(old(onceListeners.members), listener)
    {
      onceListeners.Add(listener);
    }

    /** The clean-up returned by `onServerReadyOnce`: a `Set.delete`, harmless when repeated. */
    method RemoveServerReadyListener(listener: ListenerId) returns (removed: bool)
      requires Valid()
      modifies onceListeners
      ensures Valid()
      ensures removed == (listener in old(onceListeners.members))
      ensures onceListeners.members == Remove(old(onceListeners.members), listener)
    {
      removed := onceListeners.Delete(listener);
    }

    /**
     * The handler attached to the instance's "server-ready" event: records
     * the normalised preview URL, calls every one-shot listener registered
     * when the event arrived exactly once with it, then empties the set, so
     * that a listener added during the fan-out is dropped without a call.
     */
    method OnServerReady(port: nat, hostOrUrl: string, reactions: map<ListenerId, Reaction>)
      returns (url: string, calls: seq<Call>)
      requires Valid()
      requires instance != null
      modifies this, onceListeners
      ensures Valid()
      ensures url == NormalizeUrl(port, hostOrUrl) && serverUrl == Some(url)
      ensures calls == CallsFor(old(onceListeners.members), reactions)
      ensures onceListeners.members == []
      ensures instance == old(instance) && started == old(started) && effects == old(effects)
    {
      url := NormalizeUrl(port, hostOrUrl);
      serverUrl := Some(url);
      calls := onceListeners.Dispatch(reactions);
      onceListeners.Clear();
    }
  }
}
