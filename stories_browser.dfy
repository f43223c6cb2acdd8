/**
 * Story enumeration of `StoriesBrowser.getStories`: the in-page, version-detecting reader of the
 * Storybook client API global, the selection of its result, and the probe address.
 *
 * The browser is abstracted away. The global the reader sees on each poll is a value (`Window`),
 * and the registry that becomes visible after navigating to an address is a function of that
 * address (`page` in GetStories).
 */
module StoriesBrowser {
  import opened Wrappers
  import opened StoryTypes
  import opened Flatten

  /** The bound on the re-polls made while the registry is still configuring. */
  const MAX_CONFIGURE_WAIT_COUNT: nat := 100

  /** The path appended to the server address; it names a kind/story pair that does not exist. */
  const PROBE_PATH: string := "/iframe.html?selectedKind=story-crawler-kind&selectedStory=story-crawler-story"

  /** An entry of `raw()` (Storybook 5 and later). */
  datatype RawStory = RawStory(id: string, kind: string, name: string)

  /** An entry of a legacy group as `getStorybook()` reports it (Storybook 4). */
  datatype LegacyStory = LegacyStory(name: string)

  /** A group of `getStorybook()`. */
  datatype LegacyKind = LegacyKind(kind: string, stories: seq<LegacyStory>)

  /** What `store()` returns; `_configuring` exists from Storybook 6 on. */
  datatype StoreState = StoreState(configuring: Option<bool>)

  /**
   * The client API as one poll observes it: `store` and `raw` are optional capabilities, each
   * given by what calling it returns on that poll; `storybook` is what `getStorybook()` returns.
   */
  datatype Api = Api(store: Option<StoreState>, raw: Option<seq<RawStory>>, storybook: seq<LegacyKind>)

  /** The client API global as read by the poll made with each value of the counter. */
  type Window = nat -> Api

  /** The value handed back from the page: the two fields of which the source fills one. */
  datatype ReadResult = ReadResult(stories: Option<seq<Story>>, oldStories: Option<seq<StoryKind>>)

  /** The error thrown when the page yielded no story list. */
  datatype NoStoriesError = NoStoriesError

  /** The truth value of `api.store && api.store()._configuring`. */
  predicate Configuring(api: Api) {
    api.store.Some? && api.store.value.configuring == Some(true)
  }

  /** The poll made with `count` schedules another poll instead of resolving. */
  predicate RePolls(api: Api, count: nat) {
    api.raw.Some? && Configuring(api) && count < MAX_CONFIGURE_WAIT_COUNT
  }

  // ---------------------------------------------------------------------------------------------
  // Record conversions

  /** The v5 record built from one `raw()` entry. */
  function ToV5Story(s: RawStory): (r: Story) {
    V5Story(s.id, s.kind, s.name)
  }

  /** `raw().map(...)`: one v5 record per entry. */
  function ToV5Stories(raw: seq<RawStory>): (r: seq<Story>)
    ensures |r| == |raw|
  {
    if raw == [] then [] else [ToV5Story(raw[0])] + ToV5Stories(raw[1..])
  }

  /** The v5 list has the length and order of `raw()`, entry i keeping id and kind, `story` = name. */
  lemma {:induction false} ToV5StoriesPointwise(raw: seq<RawStory>)
    ensures |ToV5Stories(raw)| == |raw|
    ensures forall i :: 0 <= i < |raw| ==>
      ToV5Stories(raw)[i] == V5Story(raw[i].id, raw[i].kind, raw[i].name) &&
      ToV5Stories(raw)[i].Version() == "v5"
  {
    if raw != [] {
      ToV5StoriesPointwise(raw[1..]);
      assert ToV5Stories(raw) == [ToV5Story(raw[0])] + ToV5Stories(raw[1..]);
      forall i | 0 <= i < |raw|
        ensures ToV5Stories(raw)[i] == V5Story(raw[i].id, raw[i].kind, raw[i].name)
      {
        if i > 0 {
          assert ToV5Stories(raw)[i] == ToV5Stories(raw[1..])[i - 1];
        }
      }
    }
  }

  /** The entry each v5 record came from; only defined on v5 records. */
  function RawOf(s: Story): (r: RawStory)
    requires s.V5Story?
  {
    RawStory(s.id, s.kind, s.story)
  }

  /** No `raw()` information is lost: the entries can be read back from the v5 records. */
  lemma V5StoriesRecoverRaw(raw: seq<RawStory>)
    ensures |ToV5Stories(raw)| == |raw|
    ensures forall i :: 0 <= i < |raw| ==>
      ToV5Stories(raw)[i].V5Story? && RawOf(ToV5Stories(raw)[i]) == raw[i]
  {
    ToV5StoriesPointwise(raw);
  }

  /** `stories.map(s => s.name)`. */
  function Names(stories: seq<LegacyStory>): (r: seq<string>)
    ensures |r| == |stories|
  {
    if stories == [] then [] else [stories[0].name] + Names(stories[1..])
  }

  /** The names keep the length and order of the group's stories. */
  lemma {:induction false} NamesPointwise(stories: seq<LegacyStory>)
    ensures |Names(stories)| == |stories|
    ensures forall j :: 0 <= j < |stories| ==> Names(stories)[j] == stories[j].name
  {
    if stories != [] {
      NamesPointwise(stories[1..]);
      forall j | 0 <= j < |stories| ensures Names(stories)[j] == stories[j].name {
        if j > 0 {
          assert Names(stories)[j] == Names(stories[1..])[j - 1];
        }
      }
    }
  }

  /** `getStorybook().map(({kind, stories}) => ...)`. */
  function ToStoryKinds(groups: seq<LegacyKind>): (r: seq<StoryKind>)
    ensures |r| == |groups|
  {
    if groups == [] then []
    else [StoryKind(groups[0].kind, Names(groups[0].stories))] + ToStoryKinds(groups[1..])
  }

  /** Legacy group i becomes the group with the same kind and the names of its stories. */
  lemma {:induction false} ToStoryKindsAt(groups: seq<LegacyKind>, i: nat)
    requires i < |groups|
    ensures |ToStoryKinds(groups)| == |groups|
    ensures ToStoryKinds(groups)[i] == StoryKind(groups[i].kind, Names(groups[i].stories))
  {
    if i > 0 {
      ToStoryKindsAt(groups[1..], i - 1);
    } else if |groups| > 1 {
      ToStoryKindsAt(groups[1..], 0);
    }
  }

  /** One group per legacy group, same order, kind kept, the group's story names in order. */
  lemma ToStoryKindsPointwise(groups: seq<LegacyKind>)
    ensures |ToStoryKinds(groups)| == |groups|
    ensures forall i :: 0 <= i < |groups| ==>
      ToStoryKinds(groups)[i].kind == groups[i].kind &&
      |ToStoryKinds(groups)[i].stories| == |groups[i].stories| &&
      forall j :: 0 <= j < |groups[i].stories| ==>
        ToStoryKinds(groups)[i].stories[j] == groups[i].stories[j].name
  {
    if groups != [] {
      ToStoryKindsAt(groups, 0);
    }
    forall i | 0 <= i < |groups|
      ensures ToStoryKinds(groups)[i].kind == groups[i].kind
      ensures |ToStoryKinds(groups)[i].stories| == |groups[i].stories|
      ensures forall j :: 0 <= j < |groups[i].stories| ==>
        ToStoryKinds(groups)[i].stories[j] == groups[i].stories[j].name
    {
      ToStoryKindsAt(groups, i);
      NamesPointwise(groups[i].stories);
    }
  }

  // ---------------------------------------------------------------------------------------------
  // The in-page reader

  /** What the resolving poll passes to `res`, given the API that poll saw. */
  function Resolve(api: Api): (r: ReadResult)
    ensures r.stories.Some? != r.oldStories.Some?
    ensures r.stories.Some? <==> api.raw.Some?
    ensures api.raw.Some? ==> r.stories.value == ToV5Stories(api.raw.value)
    ensures api.raw.None? ==> r.oldStories.value == ToStoryKinds(api.storybook)
  {
    if api.raw.Some? then ReadResult(Some(ToV5Stories(api.raw.value)), None)
    else ReadResult(None, Some(ToStoryKinds(api.storybook)))
  }

  /**
   * The counter of the poll that resolves, when polling starts at `count`: polling goes on exactly
   * while the registry has `raw`, reports configuring and the counter is below the bound.
   */
  function FinalPoll(window: Window, count: nat): (n: nat)
    requires count <= MAX_CONFIGURE_WAIT_COUNT
    ensures count <= n <= MAX_CONFIGURE_WAIT_COUNT
    ensures !RePolls(window(n), n)
    ensures forall j :: count <= j < n ==> RePolls(window(j), j)
    decreases MAX_CONFIGURE_WAIT_COUNT - count
  {
    if RePolls(window(count), count) then FinalPoll(window, count + 1) else count
  }

  /** The first poll from `count` on that does not re-poll is the one FinalPoll names. */
  lemma {:induction false} FinalPollUnique(window: Window, count: nat, n: nat)
    requires count <= n <= MAX_CONFIGURE_WAIT_COUNT
    requires !RePolls(window(n), n)
    requires forall j :: count <= j < n ==> RePolls(window(j), j)
    ensures FinalPoll(window, count) == n
    decreases n - count
  {
    if count < n {
      assert RePolls(window(count), count);
      FinalPollUnique(window, count + 1, n);
    }
  }

  /** The value the reader resolves with, starting from the default counter 0. */
  function Read(window: Window): (r: ReadResult) {
    Resolve(window(FinalPoll(window, 0)))
  }

  /**
   * The in-page `getStories(count)` callback chain, as a loop over the counter. Returns what was
   * passed to `res`, the counter of the resolving poll and the number of `res` calls.
   */
  method ReadRegistry(window: Window) returns (result: ReadResult, count: nat, resolutions: nat)
    ensures resolutions == 1
    ensures count <= MAX_CONFIGURE_WAIT_COUNT
    ensures forall j :: 0 <= j < count ==> RePolls(window(j), j)
    ensures !RePolls(window(count), count)
    ensures result == Resolve(window(count))
    ensures count == FinalPoll(window, 0) && result == Read(window)
  {
    // `resolutions` counts the calls of `res`; the empty result is a placeholder that the
    // source never passes to `res` and that the loop always replaces before it ends
    result := ReadResult(None, None);
    count := 0;
    resolutions := 0;
    while resolutions == 0
      invariant count <= MAX_CONFIGURE_WAIT_COUNT
      invariant resolutions <= 1
      invariant forall j :: 0 <= j < count ==> RePolls(window(j), j)
      invariant resolutions == 0 ==> result == ReadResult(None, None)
      invariant resolutions == 1 ==> !RePolls(window(count), count) && result == Resolve(window(count))
      decreases 1 - resolutions, MAX_CONFIGURE_WAIT_COUNT - count
    {
      var api := window(count);
      if api.raw.Some? {
        var configuring := api.store.Some? && api.store.value.configuring == Some(true);
        if configuring && count < MAX_CONFIGURE_WAIT_COUNT {
          // schedule the next poll; this one returns without resolving
          count := count + 1;
        } else {
          result := ReadResult(Some(ToV5Stories(api.raw.value)), None);
          resolutions := resolutions + 1;
        }
      } else {
        result := ReadResult(None, Some(ToStoryKinds(api.storybook)));
        resolutions := resolutions + 1;
      }
    }
    FinalPollUnique(window, 0, count);
  }

  /** A first poll that does not find the registry configuring resolves at once, from that poll. */
  lemma ImmediateResolve(window: Window)
    requires window(0).raw.None? || !Configuring(window(0))
    ensures FinalPoll(window, 0) == 0
    ensures Read(window) == Resolve(window(0))
  {
  }

  /**
   * Configuring on polls 0..k-1 and ready on poll k: the reader resolves on poll k with the
   * `raw()` snapshot of poll k, not an earlier one.
   */
  lemma {:induction false} ConfiguringThenReady(window: Window, k: nat)
    requires k < MAX_CONFIGURE_WAIT_COUNT
    requires forall j :: 0 <= j < k ==> window(j).raw.Some? && Configuring(window(j))
    requires window(k).raw.Some? && !Configuring(window(k))
    ensures FinalPoll(window, 0) == k
    ensures Read(window) == ReadResult(Some(ToV5Stories(window(k).raw.value)), None)
  {
    FinalPollUnique(window, 0, k);
  }

  /**
   * Configuring on every poll: the reader does not fail or go on forever; it resolves on the
   * poll with counter 100 (the 101st) with that poll's `raw()` snapshot.
   */
  lemma {:induction false} ConfiguringPastBound(window: Window)
    requires forall j :: 0 <= j <= MAX_CONFIGURE_WAIT_COUNT ==> window(j).raw.Some? && Configuring(window(j))
    ensures FinalPoll(window, 0) == MAX_CONFIGURE_WAIT_COUNT
    ensures Read(window) ==
      ReadResult(Some(ToV5Stories(window(MAX_CONFIGURE_WAIT_COUNT).raw.value)), None)
  {
    FinalPollUnique(window, 0, MAX_CONFIGURE_WAIT_COUNT);
  }

  /** Every read result fills exactly one field, and it is the v5 one exactly when the resolving poll saw `raw`. */
  lemma {:induction false} ReadFillsOneField(window: Window)
    ensures Read(window).stories.Some? != Read(window).oldStories.Some?
    ensures Read(window).stories.Some? <==> window(FinalPoll(window, 0)).raw.Some?
  {
    var n := FinalPoll(window, 0);
    var r := Resolve(window(n));
    assert r.stories.Some? != r.oldStories.Some?;
  }

  // ---------------------------------------------------------------------------------------------
  // Selection and the public entry point

  /**
   * Lines 92-99 of getStories: a legacy result is flattened, a v5 result is kept as it is, and
   * `NoStoriesError` is thrown when no list remains. Arrays are truthy in the source even when
   * empty, so only an absent list counts as missing.
   */
  method SelectStories(result: ReadResult) returns (r: Result<seq<Story>, NoStoriesError>)
    ensures result.oldStories.Some? ==> r == Ok(FlattenStories(result.oldStories.value))
    ensures result.oldStories.None? && result.stories.Some? ==> r == Ok(result.stories.value)
    ensures r.Err? <==> result.oldStories.None? && result.stories.None?
  {
    var stories := result.stories;
    var oldStories := result.oldStories;
    if oldStories.Some? {
      stories := Some(FlattenStories(oldStories.value));
    }
    if stories.None? {
      return Err(NoStoriesError);
    }
    return Ok(stories.value);
  }

  /** The probe address: the server address followed by the fixed iframe path. */
  function ProbeUrl(baseUrl: string): (url: string)
    ensures |url| == |baseUrl| + |PROBE_PATH|
    ensures url[..|baseUrl|] == baseUrl && url[|baseUrl|..] == PROBE_PATH
  {
    baseUrl + PROBE_PATH
  }

  /** Different server addresses give different probe addresses. */
  lemma ProbeUrlInjective(a: string, b: string)
    requires ProbeUrl(a) == ProbeUrl(b)
    ensures a == b
  {
    assert a == ProbeUrl(a)[..|a|];
    assert b == ProbeUrl(b)[..|b|];
  }

  /**
   * `StoriesBrowser.getStories`: read the registry the probe page exposes and select the list.
   * It never throws `NoStoriesError`: the v5 list of the resolving poll is returned unchanged
   * (empty included), otherwise the flattened legacy groups.
   */
  method GetStories(baseUrl: string, page: string -> Window) returns (r: Result<seq<Story>, NoStoriesError>)
    ensures r.Ok?
    ensures var window := page(ProbeUrl(baseUrl));
      var api := window(FinalPoll(window, 0));
      r.value == if api.raw.Some? then ToV5Stories(api.raw.value)
                 else FlattenStories(ToStoryKinds(api.storybook))
  {
    var window := page(ProbeUrl(baseUrl));
    var result, count, resolutions := ReadRegistry(window);
    r := SelectStories(result);
  }
}
