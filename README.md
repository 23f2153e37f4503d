# Generative-UI core, modelled in Dafny

This project models the two pieces of sequential logic at the heart of the
Generative-UI application and proves properties of them.

**The browser session and version store** (`Frontend/lib/webcontainerClient.ts`)
is the part of the frontend that:

- boots one WebContainer sandbox per page, mounts the project and starts
  `npm install` / `npm run dev` once (`ensureWebContainer`);
- records the preview URL announced by the sandbox's "server-ready" event and
  fans it out to one-shot listeners;
- writes generated code, stripped of Markdown fences, into `/src/App.tsx`;
- keeps every generated application as a version in an insertion-ordered
  map with a "current" pointer, and notifies persistent listeners when a
  screenshot is attached.

**The component catalogue** (`Backend/server.py`) is the part of the backend
that:

- turns the parsed `components.json` into `ComponentInfo` records;
- answers name and record queries;
- renders the component summary and the user prompt sent to the model;
- detects which `component.item` pairs a generated program uses.

Modules:

| module | file | contents |
|---|---|---|
| `Wrappers` | wrappers.dfy | `Option` |
| `Text` | text.dfy | substring search, ECMAScript `trim`, Python `join`/`upper`, decimal numerals, `Set.delete` on a duplicate-free sequence |
| `Fences` | fences.dfy | the regular expression of `stripMarkdownFences`, declaratively (`IsMatch`) and as a left-to-right search, and `StripFences` |
| `Listeners` | listeners.dfy | the listener `Set`s as a class over `seq<ListenerId>`; dispatch over a snapshot with re-entrant callbacks |
| `Session` | session.dfy | the `Sandbox` class: cached instance, started flag, preview URL, one-shot listeners, ghost log of calls into the sandbox runtime |
| `Versions` | versions.dfy | `AppVersion`, the stable newest-first ordering, and the `VersionStore` class |
| `Catalogue` | catalogue.dfy | the parsed document, `ComponentParser` and `AppGenerator` classes, summary, prompt and used-component detection |

Modelling choices:

- **Callbacks.** A callback is a `ListenerId` (its identity as a function
  object). What it does when called is a `Reaction`: the `add`/`delete`
  calls it makes on the same set while it runs, and whether it throws.
  Dispatch results are the sequence of `Call`s made.
- **External inputs.** The sandbox runtime (`boot`, `mount`, `spawn`,
  `fs.writeFile`) is external. Each call is appended to the ghost sequence
  `Sandbox.effects`. The values of `crypto.randomUUID()`, `Date.now()` and a
  screenshot capture are parameters. Whether `window` exists is the constant
  `Sandbox.inBrowser`.
- **The version map.** The JavaScript `Map` is a `map` plus the sequence
  `order` of its keys in insertion order. The Python `dict` of components is
  handled the same way.

Where the code and the design description of the system differ, the model
follows the code:

- **Deleting the current version.** The new current version is the first
  of the newest-first ordering of what remains: a version with the largest
  timestamp, the earliest inserted among ties. It is not "the most recently
  created" in insertion order. The sandbox is not rewritten on delete.
- **One-shot listeners.** They are cleared after all of them have been
  called, not before. A listener registered while the dispatch runs is
  therefore dropped without ever being called.
- **Screenshots.** A screenshot is not set at most once.
  `captureScreenshotForApp` overwrites an existing one. An empty capture
  result is falsy and is ignored.

## Model

| member | source | states |
|---|---|---|
| `Text.Trim` | Frontend/lib/webcontainerClient.ts:368 | `trim()` returns a slice of its input with only whitespace outside it and no whitespace at either end |
| `Text.Remove` | Frontend/lib/webcontainerClient.ts:46 | `Set.delete`: the element is gone, every other element is kept, no duplicates appear, an absent element leaves the set unchanged, and a present one is cut out at its position with the rest in insertion order |
| `Text.NatToDecimal` | Frontend/lib/webcontainerClient.ts:83 | the `${port}` numeral is non-empty, all digits, with no leading zero |
| `Text.DecimalRoundTrip` | Frontend/lib/webcontainerClient.ts:83 | reading the numeral back yields the port |
| `Text.ToUpper` | Backend/server.py:93 | `upper()` keeps the length and maps each character to its upper case |
| `Text.JoinContains` | Backend/server.py:141 | every element joined by `", "` occurs in the joined text |
| `Fences.TagEnd` | Frontend/lib/webcontainerClient.ts:367 | `[a-zA-Z]*` consumes exactly the run of letters after the opening fence |
| `Fences.FindClose` | Frontend/lib/webcontainerClient.ts:367 | the lazy `([\s\S]*?)` stops at the first closing fence, or none exists |
| `Fences.MatchAt` | Frontend/lib/webcontainerClient.ts:367 | the matcher at one position finds the match starting there, or proves there is none |
| `Fences.FirstFence` | Frontend/lib/webcontainerClient.ts:367 | the search returns the leftmost match, or there is no match at all |
| `Fences.MatchUnique` | Frontend/lib/webcontainerClient.ts:367 | at one opening fence the tag and the captured body are determined |
| `Fences.StripFences` | Frontend/lib/webcontainerClient.ts:366-370 | no match: the input unchanged; otherwise the leftmost match's body, trimmed, plus `"\n"` |
| `Fences.NonLetterTagNoMatch` | Frontend/lib/webcontainerClient.ts:367 | a tag holding a non-letter such as `c++` gives no match at that fence |
| `Fences.NoTicksUnchanged` | Frontend/lib/webcontainerClient.ts:369 | text without three backticks in a row passes through unchanged |
| `Fences.StrippedHasNoTicks` | Frontend/lib/webcontainerClient.ts:368 | a stripped body holds no three backticks in a row |
| `Fences.StripIdempotent` | Frontend/lib/webcontainerClient.ts:366-370 | stripping twice equals stripping once |
| `Fences.FenceRoundTrip` | Frontend/lib/webcontainerClient.ts:366-370 | "```lang\n" + code + "\n```" strips back to exactly code + "\n" when the tag is letters only, the code holds no fence and it has no surrounding whitespace |
| `Listeners.Added` | Frontend/lib/webcontainerClient.ts:45 | `Set.add` keeps the set duplicate-free and the old callbacks in order at the front, adds at most the new callback at the end, and holds exactly the old callbacks plus the new one |
| `Listeners.CalledExactlyOnce` | Frontend/lib/webcontainerClient.ts:51-53 | a dispatch calls each callback registered at its start exactly once, and no other |
| `Listeners.KeptUnlessUnsubscribed` | Frontend/lib/webcontainerClient.ts:43-47 | a callback stays registered through any operations that do not delete it |
| `Listeners.DispatchKeepsSubscribers` | Frontend/lib/webcontainerClient.ts:49-54 | dispatching never removes a callback unless some callback deletes it |
| `Listeners.ListenerSet.Add` | Frontend/lib/webcontainerClient.ts:45 | the set becomes `Added(old, id)`, still duplicate-free |
| `Listeners.ListenerSet.Delete` | Frontend/lib/webcontainerClient.ts:46 | reports presence, removes exactly that callback; a repeat is harmless |
| `Listeners.ListenerSet.Clear` | Frontend/lib/webcontainerClient.ts:88 | the set is empty |
| `Listeners.ListenerSet.Perform` | Frontend/lib/webcontainerClient.ts:45-46 | a callback's `add`/`delete` calls, applied in order |
| `Listeners.ListenerSet.Dispatch` | Frontend/lib/webcontainerClient.ts:51-53 | the calls are those of the snapshot in order, whatever callbacks throw or change; the set ends as the callbacks' changes leave it |
| `Session.NormalizeUrl` | Frontend/lib/webcontainerClient.ts:82-83 | the URL always holds "://", and equals the input exactly when the input held one |
| `Session.NormalizeIdempotent` | Frontend/lib/webcontainerClient.ts:82-83 | normalising a normalised URL changes nothing |
| `Session.NormalizeKeepsHostAndPort` | Frontend/lib/webcontainerClient.ts:83 | a bare host becomes "http://host:port" and the port reads back from its end |
| `Session.BootSequenceCounts` | Frontend/lib/webcontainerClient.ts:74-98 | a start-up boots once and installs once unless the started flag was set |
| `Session.Sandbox.LastPreviewUrl` | Frontend/lib/webcontainerClient.ts:56-58 | the last preview URL is absent before the first "server-ready" event and always holds a scheme after it |
| `Session.Sandbox.EnsureWebContainer` | Frontend/lib/webcontainerClient.ts:67-101 | nothing outside a browser; the cached instance once there is one; otherwise a fresh instance, boot, mount, handler, and install/dev only while the flag is false; the invariant keeps at most one boot and one install |
| `Session.Sandbox.WriteFile` | Frontend/lib/webcontainerClient.ts:103-108 | start-up effects, then exactly one write of the given contents, in a browser only |
| `Session.Sandbox.UpdateAppTsx` | Frontend/lib/webcontainerClient.ts:110-114 | writes `StripFences(appCode)` to `/src/App.tsx` |
| `Session.Sandbox.OnServerReadyOnce` | Frontend/lib/webcontainerClient.ts:60-63 | registers the one-shot callback |
| `Session.Sandbox.RemoveServerReadyListener` | Frontend/lib/webcontainerClient.ts:64 | the returned clean-up removes exactly that callback and is harmless when repeated |
| `Session.Sandbox.OnServerReady` | Frontend/lib/webcontainerClient.ts:81-89 | stores the normalised URL, calls every registered one-shot callback once over a snapshot, then leaves the set empty; the instance, flag and effects are unchanged |
| `Versions.InsertByTimeElements` | Frontend/lib/webcontainerClient.ts:298 | one insertion step of the sort adds exactly one element |
| `Versions.InsertByTimeSorted` | Frontend/lib/webcontainerClient.ts:298 | one insertion step keeps the list newest first |
| `Versions.InsertByTimeStable` | Frontend/lib/webcontainerClient.ts:298 | one insertion step places the new version before any others with the same timestamp |
| `Versions.SortByTimeDescSpec` | Frontend/lib/webcontainerClient.ts:298 | the ordering is sorted newest first, a permutation, and stable for every timestamp |
| `Versions.NewestFirst` | Frontend/lib/webcontainerClient.ts:298 | for strictly increasing save times the list is the saving order reversed |
| `Versions.VersionStore.StoredMatchesMap` | Frontend/lib/webcontainerClient.ts:297-298 | `versions.values()` holds each stored record once, under its own id |
| `Versions.VersionStore.AllAppVersions` | Frontend/lib/webcontainerClient.ts:296-299 | every stored version once, sorted newest first, ties in insertion order |
| `Versions.VersionStore.FirstIsNewest` | Frontend/lib/webcontainerClient.ts:324-326 | the head of that list has the largest timestamp |
| `Versions.VersionStore.CurrentAppId` | Frontend/lib/webcontainerClient.ts:301-303 | the current id is absent or a stored key |
| `Versions.VersionStore.SaveAppVersion` | Frontend/lib/webcontainerClient.ts:257-274 | stores one record with stripped code, the given or default name, prompt and timestamp, makes it current, writes exactly its code; no other record, no listener and not the preview URL changes, and the sandbox instance is kept or started |
| `Versions.VersionStore.SwitchToAppVersion` | Frontend/lib/webcontainerClient.ts:305-316 | unknown id: false and neither current nor the sandbox changes; known id: current becomes it and its stored code is written verbatim; the map, the listeners and the preview URL never change |
| `Versions.VersionStore.DeleteAppVersion` | Frontend/lib/webcontainerClient.ts:318-333 | reports presence; removes the key; reassigns a deleted current to the newest remaining version or clears it; otherwise keeps current |
| `Versions.VersionStore.OnAppVersionsChange` | Frontend/lib/webcontainerClient.ts:43-45 | a persistent subscription |
| `Versions.VersionStore.RemoveVersionsListener` | Frontend/lib/webcontainerClient.ts:46 | removes exactly that callback |
| `Versions.VersionStore.NotifyVersionListeners` | Frontend/lib/webcontainerClient.ts:49-54 | calls each registered callback once over a snapshot; removes none by itself |
| `Versions.VersionStore.ApplyScreenshot` | Frontend/lib/webcontainerClient.ts:277-291 | a truthy capture of a stored version is stored and notified; anything else changes nothing |
| `Versions.VersionStore.CaptureScreenshotForApp` | Frontend/lib/webcontainerClient.ts:335-364 | unknown id: false and nothing changes; otherwise switch (current set, stored code written), then store a truthy capture and notify the listeners over a snapshot (true), or report false with no call and the listeners unchanged; the preview URL never changes |
| `Versions.SetKeyed` | Frontend/lib/webcontainerClient.ts:270 | `Map.set` keeps the keys matched with their insertion order |
| `Versions.RemoveKeyed` | Frontend/lib/webcontainerClient.ts:320 | `Map.delete` keeps the keys matched with their insertion order |
| `Catalogue.LoadComponents` | Backend/server.py:65-76 | one record per key in document order, with defaults "", [] and []; no "shadcn_components" gives an empty catalogue |
| `Catalogue.ComponentParser.constructor` | Backend/server.py:52-54 | the parser holds the loaded records, each under its own name |
| `Catalogue.ComponentParser.GetComponentList` | Backend/server.py:80-82 | every known name once, in insertion order |
| `Catalogue.ComponentParser.GetComponentInfo` | Backend/server.py:84-86 | a record exactly for known names, and it is that name's record |
| `Catalogue.Summary` | Backend/server.py:88-98 | the summary starts with the header |
| `Catalogue.SummaryHasHeading` | Backend/server.py:93 | every component's upper-cased heading occurs in the summary |
| `Catalogue.SummaryExtends` | Backend/server.py:90-96 | blocks are appended in component order: the summary of a prefix is a prefix |
| `Catalogue.ComponentParser.GetAllComponentsSummary` | Backend/server.py:88-98 | the loop builds exactly `Summary` of the records in order |
| `Catalogue.UserPrompt` | Backend/server.py:139-155 | the request sits verbatim after the fixed opening, followed by a tail that depends on the names only |
| `Catalogue.PromptRoundTrip` | Backend/server.py:141 | the request is recovered from the prompt exactly, whatever it contains |
| `Catalogue.PromptListsComponents` | Backend/server.py:141-143 | every component name occurs in the prompt |
| `Catalogue.AppGenerator.constructor` | Backend/server.py:103-105 | the generator holds the given parser |
| `Catalogue.AppGenerator.GenerateUserPrompt` | Backend/server.py:139-155 | the prompt over the parser's names: the request reads back, and every name occurs in it |
| `Catalogue.UsedItemsMembers` | Backend/server.py:178-180 | a component's labels are exactly its items that occur in the code |
| `Catalogue.UsedInMembers` | Backend/server.py:174-183 | a label is reported if and only if it names an item of some component occurring in the code |
| `Catalogue.UsedItemsBound` | Backend/server.py:178-180 | at most one label per item, and one per item when all occur |
| `Catalogue.UsedInBound` | Backend/server.py:174-183 | at most as many labels as items in total; exactly as many, duplicates included, when every item occurs |
| `Catalogue.UsedInAppend` | Backend/server.py:176-181 | the result is in component order: detection over two parts is their concatenation |
| `Catalogue.AppGenerator.ExtractUsedComponents` | Backend/server.py:174-183 | the nested loops build exactly `UsedIn` of the records in order |

## Left out

- Screenshot capture (`captureWebContainerScreenshot`, the canvas fallback, `createTestScreenshot`, `debugScreenshotCapture`, Frontend/lib/webcontainerClient.ts:116-255, 373-430): DOM queries and html2canvas; its result is a parameter of `ApplyScreenshot` and `CaptureScreenshotForApp`.
- Timers (`setTimeout` of 6000 and 3000 ms) and logging: the delayed screenshot step of `saveAppVersion` is the separate method `ApplyScreenshot`.
- `crypto.randomUUID()` and `Date.now()`: the id and timestamp are parameters; no freshness is assumed.
- Failures of `boot`, `mount`, `spawn` and `fs.writeFile`: every runtime call succeeds in the model; the calls are recorded in a ghost log, not executed.
- Overlapping asynchronous calls: each operation runs to completion before the next. Two `ensureWebContainer` calls racing on `boot` are outside the model, as is a version deleted during the 3-second wait of `captureScreenshotForApp`.
- Aliasing of version records: `getAllAppVersions` returns the stored objects themselves; a caller mutating one is not modelled.
- The `ReferenceError` that the store functions throw when `window` is undefined: only `ensureWebContainer` and `writeFileInWebContainer` consult `inBrowser`.
- `Text.ToUpper`: maps only ASCII letters; Python's full Unicode case mapping is not modelled.
- Reading `components.json` and `json.load` (Backend/server.py:57-63) and the exception wrapping: the model starts from the parsed document; a non-object value, a `null` field or a wrongly typed list, which pydantic or Python would reject, cannot be expressed.
- `generate_system_prompt`, `generate_app` and the model call (Backend/server.py:102-172), the FastAPI routes, CORS, startup and uvicorn (Backend/server.py:12-29, 186-262): framework and network code.
- Frontend/lib/config.ts and all React components: presentation, fetch and timers.
