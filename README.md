# Storycrawler story enumeration, modelled in Dafny

This project models how storycap's crawler lists the stories of a running Storybook instance.
The crawler opens a probe page and reads the page's client API global, `__STORYBOOK_CLIENT_API__`.
That global has one of three shapes:

- Storybook 4 offers only `getStorybook()`, which returns groups of stories by kind.
- Storybook 5 adds `raw()`, a flat list of `{id, kind, name}` entries.
- Storybook 6 adds `store()._configuring`, which is true while stories are still being registered.

The in-page reader checks for these capabilities and polls again while the registry is configuring.
It stops after at most `MAX_CONFIGURE_WAIT_COUNT = 100` re-polls. It then resolves once, with either a
v5 story list or a list of legacy kind groups. `getStories` flattens a legacy result, keeps a v5 result
unchanged, and throws `NoStoriesError` when no list is left.

Files:

- `wrappers.dfy`: `Option` and `Result`.
- `story_types.dfy`: the story records, `V4Story` or `V5Story`, and `StoryKind`.
- `flatten_stories.dfy`: an assumed definition of `flattenStories` (see "Left out").
- `stories_browser.dfy`: the reader, the selection step, the probe address and `GetStories`.

How the browser is modelled:

- Each poll reads the global again. So the global is a `Window`, a function from the poll counter to
  the API snapshot (`Api`) that poll sees.
- In an `Api`, `store` and `raw` are optional capabilities. Each one is given by what calling it
  returns on that poll.
- `GetStories` receives `page`, the registry that becomes visible after navigating to an address.
- JavaScript arrays are truthy even when they are empty. So `if (oldStories)` and `!stories` become
  `Some?` and `None?` on `Option<seq<...>>`.
- The source says "configuring" when `api.store && api.store()._configuring` is truthy. `Configuring`
  models this as: `store` is present and `_configuring` is `true`.

Three consequences of the code are worth stating:

- The bound allows up to 101 polls, with counts 0 through 100.
- The records' title field is `story`; the registry's `raw()` entries call it `name`.
- The reader always fills exactly one field, so `GetStories` never throws `NoStoriesError`.
  `SelectStories` still models the throw.

## Model

| member | source | states |
|---|---|---|
| `StoriesBrowser.Configuring` | packages/storycrawler/src/browser/stories-browser.ts:73 | the truth value of `api.store && api.store()._configuring`: the store exists and `_configuring` is `true`; what it means for polling is stated by `FinalPoll` and `ReadRegistry` |
| `StoriesBrowser.RePolls` | packages/storycrawler/src/browser/stories-browser.ts:74 | the re-poll condition of line 74, together with the `raw` test of line 71; `FinalPoll`, `FinalPollUnique` and `ReadRegistry` state which polls satisfy it |
| `StoriesBrowser.ToV5Stories` | packages/storycrawler/src/browser/stories-browser.ts:79 | one v5 record per `raw()` entry (its contract gives the length); order and fields are stated by `ToV5StoriesPointwise` and `V5StoriesRecoverRaw` |
| `StoriesBrowser.Names` | packages/storycrawler/src/browser/stories-browser.ts:85 | one name per story of the group (its contract gives the length); order and values are stated by `NamesPointwise` |
| `StoriesBrowser.ToStoryKinds` | packages/storycrawler/src/browser/stories-browser.ts:83-85 | one group per `getStorybook()` group (its contract gives the length); kind and names per group are stated by `ToStoryKindsAt` and `ToStoryKindsPointwise` |
| `StoriesBrowser.Read` | packages/storycrawler/src/browser/stories-browser.ts:89 | the reader started with the default count 0; what it resolves with is stated by `ReadRegistry`, `ImmediateResolve`, `ConfiguringThenReady`, `ConfiguringPastBound` and `ReadFillsOneField` |
| `Flatten.FlattenStories` | packages/storycrawler/src/browser/stories-browser.ts:94-95 | ASSUMED definition of the imported `flattenStories`, whose file is not part of this model; only its use on a present legacy list (lines 94-95) is modelled, and no property of it is claimed |
| `StoriesBrowser.ToV5StoriesPointwise` | packages/storycrawler/src/browser/stories-browser.ts:79 | the v5 list has the length and order of `raw()`; entry i has raw entry i's id and kind, `story` equal to its name, and version `v5` |
| `StoriesBrowser.V5StoriesRecoverRaw` | packages/storycrawler/src/browser/stories-browser.ts:79 | every v5 record is a `V5Story`, and reading it back gives the raw entry it came from (no information is lost) |
| `StoriesBrowser.NamesPointwise` | packages/storycrawler/src/browser/stories-browser.ts:85 | `stories.map(s => s.name)` keeps length and order |
| `StoriesBrowser.ToStoryKindsAt` | packages/storycrawler/src/browser/stories-browser.ts:83-85 | legacy group i becomes a group with the same kind and the names of its stories |
| `StoriesBrowser.ToStoryKindsPointwise` | packages/storycrawler/src/browser/stories-browser.ts:83-86 | one output group per `getStorybook()` group, in the same order; kind kept; names in order |
| `StoriesBrowser.Resolve` | packages/storycrawler/src/browser/stories-browser.ts:71-87 | exactly one of `stories`/`oldStories` is filled; `stories` exactly when `raw` exists; each field holds the mapped list of that poll |
| `StoriesBrowser.FinalPoll` | packages/storycrawler/src/browser/stories-browser.ts:69-77 | the resolving counter is at most `MAX_CONFIGURE_WAIT_COUNT` (100, line 20); every earlier poll saw `raw`, configuring and a counter below 100; the resolving poll does not re-poll |
| `StoriesBrowser.FinalPollUnique` | packages/storycrawler/src/browser/stories-browser.ts:73-76 | the first poll that does not re-poll is the one the reader resolves on |
| `StoriesBrowser.ReadRegistry` | packages/storycrawler/src/browser/stories-browser.ts:68-90 | the polling loop calls `res` exactly once; re-polls only while `raw` exists, the registry is configuring and count < 100, adding 1 each time; resolves with the mapped result of the poll it stops on |
| `StoriesBrowser.ImmediateResolve` | packages/storycrawler/src/browser/stories-browser.ts:71-80 | if poll 0 has no `raw`, or is not configuring (no store, or `_configuring` not true), the reader resolves on poll 0 from that poll's snapshot |
| `StoriesBrowser.ConfiguringThenReady` | packages/storycrawler/src/browser/stories-browser.ts:73-80 | configuring on polls 0..k-1 and ready on poll k (k < 100): the result is built from the `raw()` snapshot of poll k |
| `StoriesBrowser.ConfiguringPastBound` | packages/storycrawler/src/browser/stories-browser.ts:74-80 | configuring on every poll: the reader still resolves on counter 100, with that poll's `raw()` snapshot, instead of failing |
| `StoriesBrowser.ReadFillsOneField` | packages/storycrawler/src/browser/stories-browser.ts:80-86 | every reader result fills exactly one field, and it is the v5 one exactly when the resolving poll saw `raw` |
| `StoriesBrowser.SelectStories` | packages/storycrawler/src/browser/stories-browser.ts:92-99 | a legacy list is flattened; otherwise a v5 list is returned unchanged, the empty list included; `NoStoriesError` exactly when both fields are absent |
| `StoriesBrowser.ProbeUrl` | packages/storycrawler/src/browser/stories-browser.ts:58-59 | the probe address starts with the base address and ends with the fixed iframe path |
| `StoriesBrowser.ProbeUrlInjective` | packages/storycrawler/src/browser/stories-browser.ts:59 | different base addresses give different probe addresses |
| `StoriesBrowser.GetStories` | packages/storycrawler/src/browser/stories-browser.ts:53-102 | never throws `NoStoriesError`; returns the v5 list of the resolving poll of the probe page, or the flattened legacy groups |

## Left out

- `Api`, `ReadRegistry`, `GetStories`: the model assumes what the `API` interface (lines 8-14) declares. It assumes that `__STORYBOOK_CLIENT_API__` is defined on every poll, that `getStorybook` is always present, and that every call of `store()`, `raw()` and `getStorybook()` returns normally. So "the reader resolves exactly once" and "`GetStories` returns `Ok`" hold only under that assumption. The source behaves differently in three cases that are not modelled:
  - A registry that has neither `raw` nor `getStorybook` makes line 84 throw a `TypeError`.
  - If a capability call throws on poll 0, the exception escapes the Promise executor (line 89). `page.evaluate` then rejects with an error other than `NoStoriesError`.
  - If a capability call throws on a later poll, the throw happens inside the `setTimeout` callback (line 75) and is not caught. `res` is never called, and the evaluation never settles.
- The navigations `page.goto` (lines 55, 58-64) are left out as browser I/O, and so are the 60 s timeout and `domcontentloaded`. Only the probe address and the registry it exposes (`page`) are modelled.
- `page.waitForFunction` (line 65) is left out: it is an unbounded wait for the global to appear, with no bound the model could state.
- `page.evaluate` and the serialization round trip it implies are left out. The reader is a plain function of the modelled registry.
- The 16 ms `setTimeout` delay is left out because it is wall-clock time. Only the counter and the poll index are modelled.
- `BaseBrowser`, `StorybookConnection`, `Logger` and the debug logging are left out as plumbing.
- `flattenStories` comes from a file (`flatten-stories.ts`) that is not part of this model. `Flatten.FlattenStories` is an assumed concatenation, with one V4 story per name in group order and then name order. No property of it is claimed.
- The `Story`, `V5Story` and `StoryKind` types come from a file (`story-types.ts`) that is not part of this model. Their shape is inferred from how lines 79, 83-85 and 92-95 use them.
- `src/clients/vue/withScreenshot.ts` is left out. It is a UI wrapper that emits events on the addons channel, with no sequential logic to state.
