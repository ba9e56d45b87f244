/**
 * What the cache is for, beside what it keeps out: a write that nothing disturbs is stored as the newest
 * entry, eviction takes the oldest ones only, and a page that nothing disturbs keeps exactly its own
 * user's entries.
 */
module PrivateCacheUse {
  import opened Common
  import opened PrivateCache
  import opened PrivateCacheRuns

  // ---------------------------------------------------------------- lists less some urls

  function Keep(items: seq<Item>, gone: set<Url>): seq<Item> {
    if items == [] then []
    else if items[0].url in gone then Keep(items[1..], gone)
    else [items[0]] + Keep(items[1..], gone)
  }

  /** The newest entries, as many as the limit allows. */
  function Newest(items: seq<Item>): seq<Item> { if |items| > 150 then items[|items| - 150..] else items }

  lemma {:induction false} KeepLess(items: seq<Item>, gone: set<Url>, url: Url)
    ensures WithoutUrl(Keep(items, gone), url) == Keep(items, gone + {url})
  {
    if items != [] {
      KeepLess(items[1..], gone, url);
      var rest := Keep(items[1..], gone);
      assert ([items[0]] + rest)[1..] == rest;
    }
  }

  lemma {:induction false} KeepNothingGone(items: seq<Item>, gone: set<Url>)
    requires forall i :: 0 <= i < |items| ==> items[i].url !in gone
    ensures Keep(items, gone) == items
  {
    if items != [] {
      KeepNothingGone(items[1..], gone);
      assert items == [items[0]] + items[1..];
    }
  }

  lemma {:induction false} KeepSplit(a: seq<Item>, b: seq<Item>, gone: set<Url>)
    requires forall i :: 0 <= i < |a| ==> a[i].url in gone
    ensures Keep(a + b, gone) == Keep(b, gone)
  {
    if a == [] {
      assert a + b == b;
    } else {
      assert (a + b)[1..] == a[1..] + b;
      KeepSplit(a[1..], b, gone);
    }
  }

  /** The urls of the oldest entries beyond the limit are those of all but the newest. */
  lemma ExcessIsOldest(listed: seq<Item>)
    requires DistinctUrls(listed)
    ensures forall u :: u in Urls(Excess(listed)) <==> exists i :: 0 <= i < |listed| - 150 && listed[i].url == u
    ensures forall j :: |listed| - 150 <= j < |listed| && 0 <= j ==> listed[j].url !in Urls(Excess(listed))
  {
    forall u | u in Urls(Excess(listed)) ensures exists i :: 0 <= i < |listed| - 150 && listed[i].url == u {
      var i :| 0 <= i < |Excess(listed)| && Excess(listed)[i].url == u;
      assert listed[i].url == u;
    }
    forall i | 0 <= i < |listed| - 150 ensures listed[i].url in Urls(Excess(listed)) {
      assert Excess(listed)[i] == listed[i];
    }
  }

  lemma KeepsNewest(listed: seq<Item>)
    requires DistinctUrls(listed)
    ensures Keep(listed, Urls(Excess(listed))) == Newest(listed)
  {
    hide Urls, DistinctUrls;
    ExcessIsOldest(listed);
    hide Excess;
    if |listed| > 150 {
      var n := |listed| - 150;
      assert listed == listed[..n] + listed[n..];
      forall i | 0 <= i < n ensures listed[..n][i].url in Urls(Excess(listed)) { assert listed[i] == listed[..n][i]; }
      KeepSplit(listed[..n], listed[n..], Urls(Excess(listed)));
      KeepNothingGone(listed[n..], Urls(Excess(listed)));
    } else {
      KeepNothingGone(listed, Urls(Excess(listed)));
    }
  }

  // ---------------------------------------------------------------- evicting

  /** A step of this write, from its marker read to its last eviction. */
  predicate Own(step: Step, id: WriterId) {
    match step
    case Begin(writer) => writer == id
    case OpenIt(writer) => writer == id
    case PutIt(writer) => writer == id
    case Recheck(writer) => writer == id
    case Discard(writer) => writer == id
    case DeleteAll(writer) => writer == id
    case ListKeys(writer) => writer == id
    case EvictOne(writer, _) => writer == id
    case Finish(writer) => writer == id
    case _ => false
  }

  predicate SameWriter(w: World, w': World, id: WriterId) {
    (id in w.writers <==> id in w'.writers) && (id in w.writers ==> w'.writers[id] == w.writers[id])
  }

  /** Nothing happened to cache h or to this write. */
  predicate Aside(w: World, w': World, id: WriterId, h: CacheId) {
    SameWriter(w, w', id) && (h in w.caches ==> h in w'.caches && w'.caches[h] == w.caches[h])
  }

  /** Over a run nothing but this write touches cache h. */
  ghost predicate Undisturbed(w: World, steps: seq<Step>, id: WriterId, h: CacheId) {
    forall k :: 0 <= k < |steps| ==>
      Own(steps[k], id) || Aside(Run(w, steps[..k]), Run(w, steps[..k + 1]), id, h)
  }

  /** How far a write has got with the keys it lists. */
  ghost predicate Evicts(w: World, id: WriterId, h: CacheId, marker: Option<Marker>, listed: seq<Item>) {
    && h in w.caches && w.caches[h].marker == marker
    && var items := w.caches[h].items;
       if id !in w.writers then items == Newest(listed)
       else match w.writers[id]
            case Listing(_, handle) => handle == h && items == listed
            case Evicting(handle, urls) =>
              && handle == h && urls <= Urls(Excess(listed))
              && items == Keep(listed, Urls(Excess(listed)) - urls)
            case _ => false
  }

  lemma ListsKeys(w: World, id: WriterId, h: CacheId, marker: Option<Marker>, listed: seq<Item>)
    requires Evicts(w, id, h, marker, listed) && id in w.writers && w.writers[id].Listing?
    ensures Evicts(ListNext(w, id), id, h, marker, listed)
  {
    hide Urls, Excess;
    KeepNothingGone(listed, Urls(Excess(listed)) - Urls(Excess(listed)));
  }

  lemma EvictsOne(w: World, id: WriterId, h: CacheId, marker: Option<Marker>, listed: seq<Item>, url: Url)
    requires Evicts(w, id, h, marker, listed) && id in w.writers && w.writers[id].Evicting? && url in w.writers[id].urls
    ensures Evicts(EvictNext(w, id, url), id, h, marker, listed)
  {
    hide Urls, Excess;
    var all, urls := Urls(Excess(listed)), w.writers[id].urls;
    KeepLess(listed, all - urls, url);
    assert (all - urls) + {url} == all - (urls - {url});
  }

  lemma OwnEvicts(w: World, id: WriterId, h: CacheId, marker: Option<Marker>, listed: seq<Item>, step: Step)
    requires Evicts(w, id, h, marker, listed) && Own(step, id) && DistinctUrls(listed)
    ensures Evicts(Next(w, step), id, h, marker, listed)
  {
    hide Urls, Excess, DistinctUrls, ListNext, EvictNext;
    if step.ListKeys? && id in w.writers && w.writers[id].Listing? { ListsKeys(w, id, h, marker, listed); }
    if step.EvictOne? && id in w.writers && w.writers[id].Evicting? && step.evicted in w.writers[id].urls {
      EvictsOne(w, id, h, marker, listed, step.evicted);
    }
    if step.Finish? && id in w.writers && w.writers[id].Evicting? && w.writers[id].urls == {} {
      KeepsNewest(listed);
      assert Urls(Excess(listed)) - {} == Urls(Excess(listed));
    }
  }

  lemma AsideEvicts(w: World, w': World, id: WriterId, h: CacheId, marker: Option<Marker>, listed: seq<Item>)
    requires Evicts(w, id, h, marker, listed) && Aside(w, w', id, h)
    ensures Evicts(w', id, h, marker, listed)
  {
  }

  lemma UndisturbedBefore(w: World, steps: seq<Step>, id: WriterId, h: CacheId)
    requires steps != [] && Undisturbed(w, steps, id, h)
    ensures var n := |steps| - 1;
            && Undisturbed(w, steps[..n], id, h)
            && Run(w, steps) == Next(Run(w, steps[..n]), steps[n])
            && (Own(steps[n], id) || Aside(Run(w, steps[..n]), Run(w, steps), id, h))
  {
    hide Next, Own, Aside;
    var n := |steps| - 1;
    forall k | 0 <= k < n
      ensures Own(steps[..n][k], id) || Aside(Run(w, steps[..n][..k]), Run(w, steps[..n][..k + 1]), id, h)
    {
      assert steps[..n][..k] == steps[..k] && steps[..n][..k + 1] == steps[..k + 1];
      assert steps[..n][k] == steps[k];
    }
    assert steps[..n + 1] == steps;
  }

  lemma {:induction false} RunEvicts(w: World, steps: seq<Step>, id: WriterId, h: CacheId, marker: Option<Marker>,
                                     listed: seq<Item>)
    requires Evicts(w, id, h, marker, listed) && DistinctUrls(listed) && Undisturbed(w, steps, id, h)
    ensures Evicts(Run(w, steps), id, h, marker, listed)
  {
    hide Evicts, Undisturbed, Next, Own, Aside, DistinctUrls;
    if steps != [] {
      var n := |steps| - 1;
      UndisturbedBefore(w, steps, id, h);
      RunEvicts(w, steps[..n], id, h, marker, listed);
      if Own(steps[n], id) {
        OwnEvicts(Run(w, steps[..n]), id, h, marker, listed, steps[n]);
      } else {
        AsideEvicts(Run(w, steps[..n]), Run(w, steps), id, h, marker, listed);
      }
    }
  }

  /**
   * From its listing of the keys to its last eviction, with nothing else happening to that cache, a write
   * leaves the newest entries, as many as the limit allows, in their order, and the marker as it was.
   */
  lemma EvictionKeepsTheNewest(w: World, steps: seq<Step>, id: WriterId)
    requires id in w.writers && w.writers[id].Listing?
    requires w.writers[id].handle in w.caches && DistinctUrls(w.caches[w.writers[id].handle].items)
    requires Undisturbed(w, steps, id, w.writers[id].handle) && id !in Run(w, steps).writers
    ensures var h := w.writers[id].handle;
            && h in Run(w, steps).caches
            && Run(w, steps).caches[h].marker == w.caches[h].marker
            && var items := w.caches[h].items;
               Run(w, steps).caches[h].items == if |items| <= 150 then items else items[|items| - 150..]
  {
    hide Run, Undisturbed, DistinctUrls;
    var h := w.writers[id].handle;
    RunEvicts(w, steps, id, h, w.caches[h].marker, w.caches[h].items);
  }

  // ---------------------------------------------------------------- evicting among others

  /** This write is not asked for again. */
  predicate NotFetchedAgain(steps: seq<Step>, id: WriterId) {
    forall k :: 0 <= k < |steps| ==> !(steps[k].Fetch? && steps[k].writer == id)
  }

  /** A write that has listed its keys evicts from these urls and no others. */
  predicate EvictsFrom(w: World, id: WriterId, h: CacheId, urls: set<Url>) {
    id in w.writers ==> w.writers[id].Evicting? && w.writers[id].handle == h && w.writers[id].urls <= urls
  }

  lemma StepEvictsFrom(w: World, step: Step, id: WriterId, h: CacheId, urls: set<Url>)
    requires EvictsFrom(w, id, h, urls) && !(step.Fetch? && step.writer == id)
    ensures EvictsFrom(Next(w, step), id, h, urls)
  {
    hide PageStep, Urls, Excess;
    if step.SyncNext? && step.page in w.pages { PageKeepsWriters(w, w.pages[step.page]); }
  }

  lemma PageKeepsWriters(w: World, sync: Sync)
    ensures PageStep(w, sync).0.writers == w.writers
  {
  }

  lemma {:induction false} RunEvictsFrom(w: World, steps: seq<Step>, id: WriterId, h: CacheId, urls: set<Url>)
    requires EvictsFrom(w, id, h, urls) && NotFetchedAgain(steps, id)
    ensures EvictsFrom(Run(w, steps), id, h, urls)
  {
    hide Next, EvictsFrom;
    if steps != [] {
      var n := |steps| - 1;
      RunEvictsFrom(w, steps[..n], id, h, urls);
      StepEvictsFrom(Run(w, steps[..n]), steps[n], id, h, urls);
    }
  }

  /**
   * Among any other steps, what a write still evicts are urls that stood in its listing before the newest
   * entries, as many as the limit allows: those, and whatever came later, it never evicts.
   */
  lemma EvictsOnlyTheOldest(first: World, steps: seq<Step>, id: WriterId, more: seq<Step>)
    requires AtRest(first) && PagesAgree(first, steps) && NotFetchedAgain(more, id)
    requires id in Run(first, steps).writers && Run(first, steps).writers[id].Listing?
    ensures var w := Run(first, steps);
            var h := w.writers[id].handle;
            var w' := Run(Next(w, ListKeys(id)), more);
            && h in w.caches
            && (id in w'.writers ==>
                  var listed := w.caches[h].items;
                  && w'.writers[id].Evicting? && w'.writers[id].handle == h
                  && (forall u :: u in w'.writers[id].urls ==>
                        exists i :: 0 <= i < |listed| - 150 && listed[i].url == u)
                  && (forall j :: 0 <= j < |listed| && |listed| - 150 <= j ==> listed[j].url !in w'.writers[id].urls))
  {
    hide Run, AtRest, PagesAgree, NotFetchedAgain, Urls, Excess, DistinctUrls;
    RunKeeps(first, steps);
    var w := Run(first, steps);
    ListingHandle(w, id);
    var h := w.writers[id].handle;
    var urls := Urls(Excess(w.caches[h].items));
    ExcessIsOldest(w.caches[h].items);
    RunEvictsFrom(Next(w, ListKeys(id)), more, id, h, urls);
  }

  lemma ListingHandle(w: World, id: WriterId)
    requires Inv(w) && id in w.writers && w.writers[id].Listing?
    ensures w.writers[id].handle in w.caches && DistinctUrls(w.caches[w.writers[id].handle].items)
  {
    hide Owned, PagesOk, EpochsOk, DistinctUrls;
  }

  // ---------------------------------------------------------------- a write that nothing disturbs

  /** The entries once a write has put its own last. */
  function Stored(items: seq<Item>, item: Item): seq<Item> { Keep(items, {item.url}) + [item] }

  /** How far a write has got with an entry under marker m, starting from cache c. */
  ghost predicate Stores(w: World, id: WriterId, h: CacheId, c: Cache, url: Url, fetcher: Option<string>) {
    && h in w.caches && w.named == Some(h)
    && if c.marker.None? then
         w.caches[h] == c && (id in w.writers ==> w.writers[id] == Fetched(url, fetcher))
       else
         var m := c.marker.value;
         var stored := Stored(c.items, Item(url, m, fetcher));
         if id in w.writers && w.writers[id] in {Fetched(url, fetcher), Checked(url, fetcher, m),
                                                 Opened(url, fetcher, m, h)}
         then w.caches[h] == c
         else if id in w.writers && w.writers[id] == Written(url, fetcher, m, h) then w.caches[h] == c.(items := stored)
         else Evicts(w, id, h, c.marker, stored)
  }

  lemma {:induction false} KeepIsWithout(items: seq<Item>, url: Url)
    ensures Keep(items, {url}) == WithoutUrl(items, url)
  {
    if items != [] { KeepIsWithout(items[1..], url); }
  }

  lemma StoredDistinct(c: Cache, item: Item)
    requires DistinctUrls(c.items)
    ensures DistinctUrls(Stored(c.items, item)) && Put(c, item) == c.(items := Stored(c.items, item))
  {
    KeepIsWithout(c.items, item.url);
    PutDistinct(c, item);
  }

  lemma OwnStores(w: World, id: WriterId, h: CacheId, c: Cache, url: Url, fetcher: Option<string>, step: Step)
    requires Stores(w, id, h, c, url, fetcher) && Own(step, id) && DistinctUrls(c.items)
    requires Next(w, step).named == Some(h)
    ensures Stores(Next(w, step), id, h, c, url, fetcher)
  {
    hide Urls, Excess, DistinctUrls, Put, Keep, Newest, Stored;
    if c.marker.Some? {
      var item := Item(url, c.marker.value, fetcher);
      StoredDistinct(c, item);
      if Evicts(w, id, h, c.marker, Stored(c.items, item)) {
        OwnEvicts(w, id, h, c.marker, Stored(c.items, item), step);
      }
    }
  }

  lemma AsideStores(w: World, w': World, id: WriterId, h: CacheId, c: Cache, url: Url, fetcher: Option<string>)
    requires Stores(w, id, h, c, url, fetcher) && Aside(w, w', id, h) && w'.named == Some(h)
    ensures Stores(w', id, h, c, url, fetcher)
  {
    hide Urls, Excess, Keep, Newest, Stored;
  }

  /** The cache is the named one all along. */
  ghost predicate StaysNamed(w: World, steps: seq<Step>, h: CacheId) {
    forall k :: 0 <= k <= |steps| ==> Run(w, steps[..k]).named == Some(h)
  }

  lemma NamedBefore(w: World, steps: seq<Step>, h: CacheId)
    requires steps != [] && StaysNamed(w, steps, h)
    ensures StaysNamed(w, steps[..|steps| - 1], h) && Run(w, steps).named == Some(h)
  {
    hide Run;
    var n := |steps| - 1;
    forall k | 0 <= k <= n ensures Run(w, steps[..n][..k]).named == Some(h) {
      assert steps[..n][..k] == steps[..k];
    }
    assert steps[..|steps|] == steps;
  }

  lemma {:induction false} RunStores(w: World, steps: seq<Step>, id: WriterId, h: CacheId, c: Cache, url: Url,
                                     fetcher: Option<string>)
    requires Stores(w, id, h, c, url, fetcher) && DistinctUrls(c.items)
    requires Undisturbed(w, steps, id, h) && StaysNamed(w, steps, h)
    ensures Stores(Run(w, steps), id, h, c, url, fetcher)
  {
    hide Stores, Undisturbed, StaysNamed, Next, Own, Aside, DistinctUrls;
    if steps != [] {
      var n := |steps| - 1;
      UndisturbedBefore(w, steps, id, h);
      NamedBefore(w, steps, h);
      RunStores(w, steps[..n], id, h, c, url, fetcher);
      if Own(steps[n], id) {
        OwnStores(Run(w, steps[..n]), id, h, c, url, fetcher, steps[n]);
      } else {
        AsideStores(Run(w, steps[..n]), Run(w, steps), id, h, c, url, fetcher);
      }
    }
  }

  /**
   * A response that comes back with nothing else happening to the cache is stored, as the newest entry under
   * the marker in force, in place of an older one of its url and of the oldest beyond the limit. Without a
   * marker nothing is stored.
   */
  lemma UndisturbedWriteIsStored(w: World, steps: seq<Step>, id: WriterId, h: CacheId)
    requires id in w.writers && w.writers[id].Fetched? && h in w.caches && DistinctUrls(w.caches[h].items)
    requires Undisturbed(w, steps, id, h) && StaysNamed(w, steps, h) && id !in Run(w, steps).writers
    ensures h in Run(w, steps).caches
    ensures var c, c' := w.caches[h], Run(w, steps).caches[h];
            if c.marker.None? then c' == c
            else
              && c'.marker == c.marker
              && c'.items == Newest(Keep(c.items, {w.writers[id].url})
                                    + [Item(w.writers[id].url, c.marker.value, w.writers[id].fetcher)])
  {
    hide Run, Undisturbed, DistinctUrls, Newest, Keep;
    assert steps[..0] == [];
    NamedAtFirst(w, steps, h);
    RunStores(w, steps, id, h, w.caches[h], w.writers[id].url, w.writers[id].fetcher);
  }

  function Stage(w: World, id: WriterId): nat {
    if id !in w.writers then 0
    else match w.writers[id]
         case Fetched(_, _) => 6
         case Checked(_, _, _) => 5
         case Opened(_, _, _, _) => 4
         case Written(_, _, _, _) => 3
         case Listing(_, _) => 2
         case _ => 1
  }

  function ToEvict(w: World, id: WriterId): set<Url> {
    if id in w.writers && w.writers[id].Evicting? then w.writers[id].urls else {}
  }

  /** A write under an unchanged marker always has a next step, and fewer are left after it. */
  lemma WriteMovesOn(w: World, id: WriterId, h: CacheId, c: Cache, url: Url, fetcher: Option<string>)
    returns (step: Step)
    requires Stores(w, id, h, c, url, fetcher) && id in w.writers
    ensures Own(step, id) && Next(w, step).named == Some(h)
    ensures Stage(Next(w, step), id) < Stage(w, id)
            || (Stage(Next(w, step), id) == Stage(w, id) && |ToEvict(Next(w, step), id)| < |ToEvict(w, id)|)
  {
    hide Urls, Excess, Keep, Newest, Stored;
    match w.writers[id]
    case Fetched(_, _) => step := Begin(id);
    case Checked(_, _, _) => step := OpenIt(id);
    case Opened(_, _, _, _) => step := PutIt(id);
    case Written(_, _, _, _) => step := Recheck(id);
    case Listing(_, _) => step := ListKeys(id);
    case Evicting(_, urls) =>
      if urls == {} {
        step := Finish(id);
      } else {
        var u :| u in urls;
        step := EvictOne(id, u);
        assert |urls - {u}| < |urls|;
      }
    case Discarding(_, _) => assert false;
    case DeletingAll => assert false;
  }

  lemma NamedThen(w: World, steps: seq<Step>, step: Step, h: CacheId)
    requires StaysNamed(w, steps, h) && Next(Run(w, steps), step).named == Some(h)
    ensures StaysNamed(w, steps + [step], h)
  {
    hide Next;
    RunThen(w, steps, step);
    hide Run;
    forall k | 0 <= k <= |steps + [step]| ensures Run(w, (steps + [step])[..k]).named == Some(h) {
      if k <= |steps| {
        assert (steps + [step])[..k] == steps[..k];
      } else {
        assert (steps + [step])[..k] == steps + [step];
      }
    }
  }

  /** Left to itself a write comes to its end. */
  lemma WritesComeToAnEnd(w: World, id: WriterId, h: CacheId) returns (steps: seq<Step>)
    requires id in w.writers && w.writers[id].Fetched? && h in w.caches && DistinctUrls(w.caches[h].items)
    requires w.named == Some(h)
    ensures Undisturbed(w, steps, id, h) && StaysNamed(w, steps, h) && id !in Run(w, steps).writers
  {
    hide *;
    steps := [];
    var now, c, url, fetcher := w, w.caches[h], w.writers[id].url, w.writers[id].fetcher;
    StoresAtFirst(w, id, h);
    while id in now.writers
      invariant now == Run(w, steps)
      invariant forall k :: 0 <= k < |steps| ==> Own(steps[k], id)
      invariant StaysNamed(w, steps, h)
      invariant Stores(now, id, h, c, url, fetcher)
      decreases Stage(now, id), |ToEvict(now, id)|
    {
      var step := WriteMovesOn(now, id, h, c, url, fetcher);
      OwnStores(now, id, h, c, url, fetcher, step);
      NamedThen(w, steps, step, h);
      RunThen(w, steps, step);
      steps := steps + [step];
      now := Next(now, step);
    }
    OwnIsUndisturbed(w, steps, id, h);
  }

  lemma StoresAtFirst(w: World, id: WriterId, h: CacheId)
    requires id in w.writers && w.writers[id].Fetched? && h in w.caches && w.named == Some(h)
    ensures w == Run(w, []) && StaysNamed(w, [], h)
    ensures Stores(w, id, h, w.caches[h], w.writers[id].url, w.writers[id].fetcher)
  {
  }

  lemma OwnIsUndisturbed(w: World, steps: seq<Step>, id: WriterId, h: CacheId)
    requires forall k :: 0 <= k < |steps| ==> Own(steps[k], id)
    ensures Undisturbed(w, steps, id, h)
  {
    hide Own, Aside, Run;
  }

  lemma NamedAtFirst(w: World, steps: seq<Step>, h: CacheId)
    requires StaysNamed(w, steps, h)
    ensures w.named == Some(h)
  {
    assert Run(w, steps[..0]).named == Some(h);
  }

  // ---------------------------------------------------------------- a page that nothing disturbs

  /** Nothing happened to the named cache or to this page. */
  predicate PageAside(w: World, w': World, p: PageId) {
    && w'.named == w.named
    && (w.named.Some? && w.named.value in w.caches ==>
          w.named.value in w'.caches && w'.caches[w.named.value] == w.caches[w.named.value])
    && (p in w.pages <==> p in w'.pages) && (p in w.pages ==> w'.pages[p] == w.pages[p])
  }

  ghost predicate PageUndisturbed(w: World, steps: seq<Step>, p: PageId) {
    forall k :: 0 <= k < |steps| ==>
      steps[k] == SyncNext(p) || PageAside(Run(w, steps[..k]), Run(w, steps[..k + 1]), p)
  }

  /** The named cache as a page finds it; none counts as an empty one. */
  function Found(w: World): Cache {
    if w.named.Some? && w.named.value in w.caches then w.caches[w.named.value] else Cache(None, [])
  }

  predicate OwnMarker(c: Cache, user: string) { c.marker.Some? && c.marker.value.owner == user }

  /** Neither a marker of another user nor anything of unknown ownership. */
  predicate NothingForeign(c: Cache, user: string, drafts: bool) {
    OwnMarker(c, user) || (c.marker.None? && c.items == [] && !drafts)
  }

  /** What a page leaves: its user's marker, the old one where that can be, over his entries or none. */
  predicate Left(w: World, c: Cache, user: string) {
    && w.named.Some? && w.named.value in w.caches
    && var c' := w.caches[w.named.value];
       && OwnMarker(c', user) && c'.marker.value.Bound?
       && (OwnMarker(c, user) && c.marker.value.Bound? ==> c'.marker == c.marker)
       && c'.items == if OwnMarker(c, user) then c.items else []
  }

  /** A page purges exactly when something foreign is there, drafts of unknown ownership included. */
  lemma PurgesExactlyTheForeign(c: Cache, user: string, drafts: bool)
    ensures Decide(user, drafts, c.marker, c.marker.Some? || c.items != []).Purging? <==>
              if c.marker.Some? then c.marker.value.owner != user else c.items != [] || drafts
    ensures !NothingForeign(c, user, drafts)
            <==> Decide(user, drafts, c.marker, c.marker.Some? || c.items != []).Purging?
  {
  }

  /** How far the page has got, having found cache c, or none. */
  predicate Syncs(w: World, p: PageId, c: Cache, present: bool, user: string, drafts: bool) {
    && (w.named.Some? ==> w.named.value in w.caches)
    && if p !in w.pages then Left(w, c, user)
       else
         var untouched := w.named.Some? == present && Found(w) == c;
         match w.pages[p]
         case Listed(u, d, pr) => u == user && d == drafts && pr == present && untouched
         case Probing(u, d, h) => u == user && d == drafts && present && untouched && w.named == Some(h)
         case Matched(u, d, h, previous) =>
           u == user && d == drafts && present && untouched && w.named == Some(h) && previous == c.marker
         case Purging(u, previous, pass) =>
           && u == user && previous == c.marker && !NothingForeign(c, user, drafts)
           && (if pass == 0 then untouched else w.named.None?)
         case PurgeListed(u, previous, pass, pr) =>
           && u == user && previous == c.marker && !NothingForeign(c, user, drafts)
           && (if pass == 0 then untouched && pr == present else w.named.None? && !pr)
         case Binding(u, previous) =>
           && u == user && previous == c.marker
           && (if NothingForeign(c, user, drafts) then untouched else w.named.None?)
         case Writing(u, previous, h) =>
           && u == user && previous == c.marker && w.named == Some(h) && !(Found(w).marker.Some? && c.marker.None?)
           && Found(w).items == if OwnMarker(c, user) then c.items else []
  }

  lemma PageSyncs(w: World, p: PageId, c: Cache, present: bool, user: string, drafts: bool)
    requires Syncs(w, p, c, present, user, drafts) && (!present ==> c == Cache(None, []))
    ensures Syncs(Next(w, SyncNext(p)), p, c, present, user, drafts)
  {
    if p in w.pages {
      match w.pages[p]
      case Listed(_, _, _) =>
      case Probing(_, _, _) =>
      case Matched(_, _, _, _) =>
      case Purging(_, _, _) =>
      case PurgeListed(_, _, _, _) =>
      case Binding(_, _) =>
      case Writing(_, _, _) =>
    }
  }

  lemma AsideSyncs(w: World, w': World, p: PageId, c: Cache, present: bool, user: string, drafts: bool)
    requires Syncs(w, p, c, present, user, drafts) && PageAside(w, w', p)
    ensures Syncs(w', p, c, present, user, drafts)
  {
  }

  lemma PageUndisturbedBefore(w: World, steps: seq<Step>, p: PageId)
    requires steps != [] && PageUndisturbed(w, steps, p)
    ensures var n := |steps| - 1;
            && PageUndisturbed(w, steps[..n], p)
            && Run(w, steps) == Next(Run(w, steps[..n]), steps[n])
            && (steps[n] == SyncNext(p) || PageAside(Run(w, steps[..n]), Run(w, steps), p))
  {
    hide Next, PageAside;
    var n := |steps| - 1;
    forall k | 0 <= k < n
      ensures steps[..n][k] == SyncNext(p) || PageAside(Run(w, steps[..n][..k]), Run(w, steps[..n][..k + 1]), p)
    {
      assert steps[..n][..k] == steps[..k] && steps[..n][..k + 1] == steps[..k + 1];
      assert steps[..n][k] == steps[k];
    }
    assert steps[..n + 1] == steps;
  }

  lemma {:induction false} RunSyncs(w: World, steps: seq<Step>, p: PageId, c: Cache, present: bool, user: string,
                                    drafts: bool)
    requires Syncs(w, p, c, present, user, drafts) && (!present ==> c == Cache(None, []))
    requires PageUndisturbed(w, steps, p)
    ensures Syncs(Run(w, steps), p, c, present, user, drafts)
  {
    hide Syncs, PageUndisturbed, Next, PageAside;
    if steps != [] {
      var n := |steps| - 1;
      PageUndisturbedBefore(w, steps, p);
      RunSyncs(w, steps[..n], p, c, present, user, drafts);
      if steps[n] == SyncNext(p) {
        PageSyncs(Run(w, steps[..n]), p, c, present, user, drafts);
      } else {
        AsideSyncs(Run(w, steps[..n]), Run(w, steps), p, c, present, user, drafts);
      }
    }
  }

  /**
   * A page that confirms its user with nothing else happening to the cache leaves it bound to him. What was
   * there stays, under the same epoch, exactly when it was his; anything else is gone.
   */
  lemma UndisturbedPageKeepsItsOwn(w: World, steps: seq<Step>, p: PageId, user: string, drafts: bool)
    requires p !in w.pages && (w.named.Some? ==> w.named.value in w.caches)
    requires var started := Next(w, SyncStart(p, user, drafts));
             PageUndisturbed(started, steps, p) && p !in Run(started, steps).pages
    ensures Left(Run(Next(w, SyncStart(p, user, drafts)), steps), Found(w), user)
  {
    hide Run, PageUndisturbed, Left;
    var started := Next(w, SyncStart(p, user, drafts));
    assert Syncs(started, p, Found(w), w.named.Some?, user, drafts);
    RunSyncs(started, steps, p, Found(w), w.named.Some?, user, drafts);
  }

  /** Left to itself a page comes to its end. */
  lemma PagesComeToAnEnd(w: World, p: PageId, user: string, drafts: bool) returns (steps: seq<Step>)
    requires p !in w.pages && (w.named.Some? ==> w.named.value in w.caches)
    ensures var started := Next(w, SyncStart(p, user, drafts));
            PageUndisturbed(started, steps, p) && p !in Run(started, steps).pages
  {
    var started := Next(w, SyncStart(p, user, drafts));
    steps := [];
    var now := started;
    while p in now.pages
      invariant now == Run(started, steps)
      invariant forall k :: 0 <= k < |steps| ==> steps[k] == SyncNext(p)
      invariant Syncs(now, p, Found(w), w.named.Some?, user, drafts)
      decreases StagesLeft(now, p)
    {
      hide *;
      PageSyncs(now, p, Found(w), w.named.Some?, user, drafts);
      PageMovesOn(now, p, Found(w), w.named.Some?, user, drafts);
      RunThen(started, steps, SyncNext(p));
      steps := steps + [SyncNext(p)];
      now := Next(now, SyncNext(p));
    }
  }

  function StagesLeft(w: World, p: PageId): nat {
    if p !in w.pages then 0
    else match w.pages[p]
         case Listed(_, _, _) => 12
         case Probing(_, _, _) => 11
         case Matched(_, _, _, _) => 10
         case Purging(_, _, pass) => if pass < 3 then 9 - 2 * pass else 3
         case PurgeListed(_, _, pass, _) => if pass < 3 then 8 - 2 * pass else 3
         case Binding(_, _) => 2
         case Writing(_, _, _) => 1
  }

  lemma PageMovesOn(w: World, p: PageId, c: Cache, present: bool, user: string, drafts: bool)
    requires p in w.pages && Syncs(w, p, c, present, user, drafts)
    ensures StagesLeft(Next(w, SyncNext(p)), p) < StagesLeft(w, p)
  {
  }

  lemma RunThen(w: World, steps: seq<Step>, step: Step)
    ensures Run(w, steps + [step]) == Next(Run(w, steps), step)
  {
    hide Next;
    assert (steps + [step])[..|steps|] == steps;
  }
}
