/**
 * What the cache protocol guarantees over every run of writes, pages, purges and sign-ins, exactly when
 * an entry is the one's who fetched it, and the two runs that show where the guarantees end.
 */
module PrivateCacheRuns {
  import opened Common
  import opened PrivateCache

  function Run(first: World, steps: seq<Step>): World {
    if steps == [] then first else Next(Run(first, steps[..|steps| - 1]), steps[|steps| - 1])
  }

  /** Pages at work side by side are always of the same user. */
  predicate PagesAgree(first: World, steps: seq<Step>) {
    forall k :: 0 <= k < |steps| ==> Agrees(Run(first, steps[..k]), steps[k])
  }

  /** Nothing in flight; the cache, if there is one, as a finished earlier life left it. */
  predicate AtRest(w: World) {
    && w.writers == map[] && w.pages == map[] && HandlesOk(w) && EpochsOk(w)
    && (forall h :: h in w.caches ==> DistinctUrls(w.caches[h].items))
    && (w.named.Some? ==> Settled(w.caches[w.named.value]))
  }

  /** Every private entry belongs to the bound owner, there is none without a binding, and they are within the limit. */
  predicate Settled(c: Cache) {
    && (forall i :: 0 <= i < |c.items| ==> c.marker.Some? && Matches(c.items[i].tag, c.marker.value))
    && |c.items| <= PRIVATE_CACHE_MAX_ENTRIES
  }

  lemma AtRestInv(w: World)
    requires AtRest(w)
    ensures Inv(w)
  {
    hide EpochsOk;
    if w.named.Some? {
      var h := w.named.value;
      UrlsSize(w.caches[h].items);
      SubsetSize(Uncovered(w.caches[h], w.writers, h), Urls(w.caches[h].items));
    }
  }

  lemma AgreeBefore(first: World, steps: seq<Step>, n: nat)
    requires PagesAgree(first, steps) && n <= |steps|
    ensures PagesAgree(first, steps[..n])
  {
    hide Agrees, Run;
    forall k | 0 <= k < n ensures Agrees(Run(first, steps[..n][..k]), steps[..n][k]) {
      assert steps[..n][..k] == steps[..k];
    }
  }

  lemma {:induction false} RunKeeps(first: World, steps: seq<Step>)
    requires AtRest(first) && PagesAgree(first, steps)
    ensures Inv(Run(first, steps))
  {
    hide Inv, AtRest, Agrees, Next;
    if steps == [] {
      AtRestInv(first);
    } else {
      AgreeBefore(first, steps, |steps| - 1);
      RunKeeps(first, steps[..|steps| - 1]);
      StepKeeps(Run(first, steps[..|steps| - 1]), steps[|steps| - 1]);
    }
  }

  // ---------------------------------------------------------------- what every such run guarantees

  /** At every moment an entry that is not the bound owner's has a write pending that removes it. */
  lemma ForeignEntriesAreDoomed(first: World, steps: seq<Step>, i: nat)
    requires AtRest(first) && PagesAgree(first, steps) && Run(first, steps).named.Some?
    requires var w := Run(first, steps); w.named.value in w.caches && i < |w.caches[w.named.value].items|
    ensures var w := Run(first, steps);
            var c := w.caches[w.named.value];
            (c.marker.Some? && Matches(c.items[i].tag, c.marker.value)) || Pending(w.writers, w.named.value, c.items[i])
  {
    hide Run, AtRest, PagesAgree, Pending, Matches, HandlesOk, PagesOk, EpochsOk, Bounded;
    RunKeeps(first, steps);
  }

  /** No write is in flight: responses may be on their way, but none has read the marker. */
  predicate Quiet(w: World) { forall id :: id in w.writers ==> w.writers[id].Fetched? }

  lemma {:induction false} DistinctSize(items: seq<Item>)
    requires DistinctUrls(items)
    ensures |Urls(items)| == |items|
  {
    if items == [] {
      assert Urls(items) == {};
    } else {
      var n := |items| - 1;
      DistinctSize(items[..n]);
      assert Urls(items) == Urls(items[..n]) + {items[n].url};
    }
  }

  lemma QuietIsSettled(w: World)
    requires Inv(w) && Quiet(w) && w.named.Some?
    ensures w.named.value in w.caches && Settled(w.caches[w.named.value])
  {
    hide PagesOk, EpochsOk, Matches;
    var h := w.named.value;
    DistinctSize(w.caches[h].items);
    assert Uncovered(w.caches[h], w.writers, h) == Urls(w.caches[h].items);
  }

  /**
   * Once no write is in flight, every private entry belongs to the bound owner, there is none
   * without a marker, and there are at most 150, the marker being no entry and never evicted.
   */
  lemma QuiescenceIsClean(first: World, steps: seq<Step>)
    requires AtRest(first) && PagesAgree(first, steps) && Quiet(Run(first, steps))
    ensures var w := Run(first, steps);
            w.named.Some? ==> w.named.value in w.caches && Settled(w.caches[w.named.value])
  {
    hide Run, AtRest, PagesAgree, Inv, Settled, Quiet;
    RunKeeps(first, steps);
    if Run(first, steps).named.Some? { QuietIsSettled(Run(first, steps)); }
  }

  /** A write that has read its marker and not yet rechecked it. */
  predicate InFlight(w: World, id: WriterId) { id in w.writers && TagOf(w.writers[id]).Some? }

  /**
   * Binding with a minted epoch disowns every write in flight: none of them carries the new marker,
   * so none of their rechecks can succeed while it is in force.
   */
  lemma FreshBindingDisownsWrites(first: World, steps: seq<Step>, p: PageId, id: WriterId)
    requires AtRest(first) && PagesAgree(first, steps)
    requires var w := Run(first, steps);
             && InFlight(w, id) && p in w.pages && w.pages[p].Writing?
             && NewMarker(w.pages[p].user, w.pages[p].previous, w.nextEpoch) == Bound(w.pages[p].user, w.nextEpoch)
    ensures var w := Run(first, steps);
            var w', h := Next(w, SyncNext(p)), w.pages[p].handle;
            && InFlight(w', id) && h in w'.caches
            && w'.caches[h].marker.Some? && TagOf(w'.writers[id]) != w'.caches[h].marker
  {
    hide Run, AtRest, PagesAgree, Owned, Bounded, PagesOk;
    RunKeeps(first, steps);
    assert Inv(Run(first, steps));
  }

  /**
   * A write that has been put goes on to be kept exactly when the marker in force is the very one it read
   * before; with another one its entry is taken out again, and without one the whole cache goes.
   */
  lemma KeptUnderItsOwnMarkerOnly(first: World, steps: seq<Step>, id: WriterId)
    requires id in Run(first, steps).writers && Run(first, steps).writers[id].Written?
    ensures var w := Run(first, steps);
            var writer, marker := w.writers[id], NamedMarker(w);
            Next(w, Recheck(id)).writers[id] ==
            if marker == Some(writer.tag) then Listing(writer.url, writer.handle)
            else if marker.Some? then Discarding(writer.url, writer.handle)
            else DeletingAll
  {
    hide Run;
  }

  /** No step but a page's binding touches the marker in a cache: eviction and discarding leave it alone. */
  lemma WritersKeepTheMarker(first: World, steps: seq<Step>, step: Step, h: CacheId)
    requires AtRest(first) && PagesAgree(first, steps) && h in Run(first, steps).caches && !step.SyncNext?
    ensures h in Next(Run(first, steps), step).caches
    ensures Next(Run(first, steps), step).caches[h].marker == Run(first, steps).caches[h].marker
  {
    hide Run, AtRest, PagesAgree, Owned, Bounded, PagesOk, EpochsOk;
    RunKeeps(first, steps);
    if IsWriterStep(step) { WriterStepMarkers(Run(first, steps), step); }
  }

  /** What is left for a writer that has written: the recheck, and what follows from its result. */
  function FinishWrite(w: World, id: WriterId): World { Next(Next(Next(w, Recheck(id)), Discard(id)), DeleteAll(id)) }

  /** The pending write of an entry that does not belong does remove it, when its remaining steps run. */
  lemma PendingWriteRemoves(w: World, id: WriterId, item: Item)
    requires HandlesOk(w) && w.named.Some? && id in w.writers && WillRemove(w.writers[id], w.named.value, item)
    requires NamedMarker(w).None? || item.tag != NamedMarker(w).value
    ensures var w' := FinishWrite(w, id);
            w'.named.None? || (w'.named.value in w'.caches && item.url !in Urls(w'.caches[w'.named.value].items))
  {
    hide HandleOf, PageHandle, Urls;
    var w1 := Next(w, Recheck(id));
    assert w1.writers[id].DeletingAll? || w1.writers[id] == Discarding(item.url, w.named.value);
    if w1.writers[id].Discarding? {
      DiscardRemoves(w1, id, item.url);
    } else {
      assert Next(w1, Discard(id)) == w1;
    }
  }

  lemma DiscardRemoves(w: World, id: WriterId, url: Url)
    requires w.named.Some? && w.named.value in w.caches && id in w.writers
    requires w.writers[id] == Discarding(url, w.named.value)
    ensures var w' := Next(w, Discard(id));
            w'.named == w.named && w'.named.value in w'.caches && url !in Urls(w'.caches[w'.named.value].items)
                && id !in w'.writers
  {
    WithoutUrlUrls(w.caches[w.named.value].items, url);
  }

  // ---------------------------------------------------------------- where pages of different users overlap

  /**
   * A binding, whoever else is at work, keeps the entries owned exactly when the marker in force is
   * absent or the binding user's, or no entry has been finished under it.
   */
  lemma BindingKeepsOwnershipExactly(w: World, p: PageId)
    requires HandlesOk(w) && Owned(w.caches, w.named, w.writers) && p in w.pages && w.pages[p].Writing?
    requires w.named == Some(w.pages[p].handle)
    ensures var w' := SyncStep(w, p);
            Owned(w'.caches, w'.named, w'.writers)
            <==> OwnOrNone(NamedMarker(w), w.pages[p].user) || AllPending(w, w.named.value)
  {
    hide Pending, HandleOf, PageHandle;
    var w', h := SyncStep(w, p), w.named.value;
    assert w'.caches[h].items == w.caches[h].items && w'.caches[h].marker.Some?;
    assert w'.caches[h].marker.value.owner == w.pages[p].user;
    if Owned(w'.caches, w'.named, w'.writers) && !OwnOrNone(NamedMarker(w), w.pages[p].user) {
      forall i | 0 <= i < |w.caches[h].items| ensures Pending(w.writers, h, w.caches[h].items[i]) {
        assert w'.caches[h].items[i] == w.caches[h].items[i];
      }
    }
  }

  predicate AllPending(w: World, h: CacheId)
    requires h in w.caches
  {
    forall i :: 0 <= i < |w.caches[h].items| ==> Pending(w.writers, h, w.caches[h].items[i])
  }

  // ---------------------------------------------------------------- whose response an entry is

  predicate IsBinding(w: World, step: Step) { step.SyncNext? && step.page in w.pages && w.pages[step.page].Writing? }

  /** The run binds no owner from step n on. */
  predicate NoBindingFrom(first: World, steps: seq<Step>, n: nat) {
    forall k :: n <= k < |steps| ==> !IsBinding(Run(first, steps[..k]), steps[k])
  }

  predicate Leaves(step: Step, id: WriterId) {
    !IsWriterStep(step) || step.writer != id
  }

  /** No step from n on is one of this writer's. */
  predicate LeavesFrom(steps: seq<Step>, n: nat, id: WriterId) { forall k :: n <= k < |steps| ==> Leaves(steps[k], id) }

  lemma StepLeaves(w: World, step: Step, id: WriterId)
    requires Leaves(step, id) && id in w.writers
    ensures id in Next(w, step).writers && Next(w, step).writers[id] == w.writers[id]
  {
    hide WithoutUrl, Urls, Excess, NamedMarker;
  }

  lemma {:induction false} FetchedStays(first: World, steps: seq<Step>, n: nat, id: WriterId)
    requires n <= |steps| && LeavesFrom(steps, n, id) && id in Run(first, steps[..n]).writers
    ensures id in Run(first, steps).writers && Run(first, steps).writers[id] == Run(first, steps[..n]).writers[id]
    decreases |steps|
  {
    hide Next;
    if n == |steps| {
      assert steps[..n] == steps;
    } else {
      var m := |steps| - 1;
      assert steps[..m][..n] == steps[..n];
      FetchedStays(first, steps[..m], n, id);
      StepLeaves(Run(first, steps[..m]), steps[m], id);
    }
  }

  /** A step that is no binding leaves the marker in force or takes it away. */
  lemma StepMarker(w: World, step: Step)
    requires Inv(w) && !IsBinding(w, step)
    ensures NoneOr(NamedMarker(Next(w, step)), NamedMarker(w))
  {
    hide Inv;
    PartsOf(w);
    if IsWriterStep(step) {
      WriterStepMarkers(w, step);
    } else if step.SyncNext? && step.page in w.pages {
      hide PageStep, NamedMarker;
      PageMarkers(w, w.pages[step.page]);
      SamePages(PageStep(w, w.pages[step.page]).0, Next(w, step));
    }
  }

  lemma {:induction false} MarkerSince(first: World, steps: seq<Step>, n: nat)
    requires AtRest(first) && PagesAgree(first, steps) && n <= |steps| && NoBindingFrom(first, steps, n)
    ensures NoneOr(NamedMarker(Run(first, steps)), NamedMarker(Run(first, steps[..n])))
    decreases |steps|
  {
    hide Next, NamedMarker, AtRest, Agrees, IsBinding, Inv;
    if n == |steps| {
      assert steps[..n] == steps;
    } else {
      var m := |steps| - 1;
      assert steps[..m][..n] == steps[..n];
      AgreeBefore(first, steps, m);
      forall k | n <= k < m
        ensures !IsBinding(Run(first, steps[..m][..k]), steps[..m][k])
      {
        assert steps[..m][..k] == steps[..k];
      }
      MarkerSince(first, steps[..m], n);
      RunKeeps(first, steps[..m]);
      StepMarker(Run(first, steps[..m]), steps[m]);
    }
  }

  /** Step n fetches for a writer that is not at work yet, and nothing more of it happens up to the end. */
  predicate FetchedAt(first: World, steps: seq<Step>, n: nat, id: WriterId, url: Url) {
    n < |steps| && steps[n] == Fetch(id, url) && id !in Run(first, steps[..n]).writers && LeavesFrom(steps, n + 1, id)
  }

  lemma FetchRecords(first: World, steps: seq<Step>, n: nat, id: WriterId, url: Url)
    requires FetchedAt(first, steps, n, id, url)
    ensures id in Run(first, steps).writers
    ensures Run(first, steps).writers[id] == Fetched(url, Run(first, steps[..n]).signedIn)
  {
    assert steps[..n + 1][..n] == steps[..n];
    FetchedStays(first, steps, n + 1, id);
  }

  /**
   * A write that begins now keeps its entry under the user it was fetched for exactly when the marker
   * in force names whoever was signed in at the fetch.
   */
  lemma FiledUnderFetcherExactly(first: World, steps: seq<Step>, n: nat, id: WriterId, url: Url)
    requires FetchedAt(first, steps, n, id, url)
    ensures var w, w' := Run(first, steps), Next(Run(first, steps), Begin(id));
            && (id in w'.writers <==> NamedMarker(w).Some?)
            && (id in w'.writers ==>
                  && w'.writers[id] == Checked(url, Run(first, steps[..n]).signedIn, NamedMarker(w).value)
                  && (w'.writers[id].fetcher == Some(w'.writers[id].tag.owner)
                      <==> Run(first, steps[..n]).signedIn == Some(NamedMarker(w).value.owner)))
  {
    FetchRecords(first, steps, n, id, url);
    hide Run, NamedMarker;
  }

  /** With no binding since the fetch, exactly when the marker in force at the fetch named that user. */
  lemma FiledUnderFetcherWithoutBinding(first: World, steps: seq<Step>, n: nat, id: WriterId, url: Url)
    requires AtRest(first) && PagesAgree(first, steps) && FetchedAt(first, steps, n, id, url)
    requires NoBindingFrom(first, steps, n)
    requires NamedMarker(Run(first, steps)).Some?
    ensures var fetched, w' := Run(first, steps[..n]), Next(Run(first, steps), Begin(id));
            && NamedMarker(fetched).Some? && id in w'.writers && w'.writers[id].Checked?
            && (w'.writers[id].fetcher == Some(w'.writers[id].tag.owner)
                <==> fetched.signedIn == Some(NamedMarker(fetched).value.owner))
  {
    hide Run, NamedMarker, AtRest, PagesAgree, NoBindingFrom, LeavesFrom, Next;
    FiledUnderFetcherExactly(first, steps, n, id, url);
    MarkerSince(first, steps, n);
  }

  /** At rest an entry is served to the one it was fetched for exactly when its writer filed it under him. */
  lemma ServedToFetcherExactly(first: World, steps: seq<Step>, i: nat)
    requires AtRest(first) && PagesAgree(first, steps) && Quiet(Run(first, steps)) && Run(first, steps).named.Some?
    requires var w := Run(first, steps); w.named.value in w.caches && i < |w.caches[w.named.value].items|
    ensures var w := Run(first, steps);
            var item := w.caches[w.named.value].items[i];
            && NamedMarker(w).Some?
            && (item.fetcher == Some(NamedMarker(w).value.owner) <==> item.fetcher == Some(item.tag.owner))
  {
    hide Run, AtRest, PagesAgree, Quiet;
    QuiescenceIsClean(first, steps);
    var c := Run(first, steps).caches[Run(first, steps).named.value];
    assert c.marker.Some? && Matches(c.items[i].tag, c.marker.value);
    assert NamedMarker(Run(first, steps)) == c.marker;
  }

  // ---------------------------------------------------------------- two runs

  const EMPTY: World := World(map[], 0, None, map[], map[], 0, None)

  /** One more step of a run whose state is known. */
  lemma OneMore(steps: seq<Step>, w: World, step: Step, w': World) returns (more: seq<Step>)
    requires Run(EMPTY, steps) == w && Next(w, step) == w'
    ensures Run(EMPTY, more) == w' && more == steps + [step]
  {
    more := steps + [step];
    assert more[..|steps|] == steps;
  }

  /** A fetched response is written through under the marker in force, in an otherwise empty cache. */
  lemma WriteThrough(steps: seq<Step>, w: World, id: WriterId, m: Marker) returns (more: seq<Step>)
    requires Run(EMPTY, steps) == w && w.named.Some? && w.named.value in w.caches
    requires w.caches[w.named.value] == Cache(Some(m), [])
    requires id in w.writers && w.writers[id].Fetched?
    ensures var h, stored := w.named.value, [Item(w.writers[id].url, m, w.writers[id].fetcher)];
            Run(EMPTY, more) == w.(writers := w.writers - {id}, caches := w.caches[h := Cache(Some(m), stored)])
  {
    hide Run;
    var h, url, fetcher := w.named.value, w.writers[id].url, w.writers[id].fetcher;
    var caches := w.caches[h := Cache(Some(m), [Item(url, m, fetcher)])];
    var w1 := w.(writers := w.writers[id := Checked(url, fetcher, m)]);
    var w2 := w.(writers := w.writers[id := Opened(url, fetcher, m, h)]);
    var w3 := w.(caches := caches, writers := w.writers[id := Written(url, fetcher, m, h)]);
    var w4 := w.(caches := caches, writers := w.writers[id := Listing(url, h)]);
    var w5 := w.(caches := caches, writers := w.writers[id := Evicting(h, {})]);
    NothingToEvict(caches[h].items);
    FirstEntry(m, Item(url, m, fetcher));
    more := OneMore(steps, w, Begin(id), w1);
    more := OneMore(more, w1, OpenIt(id), w2);
    more := OneMore(more, w2, PutIt(id), w3);
    more := OneMore(more, w3, Recheck(id), w4);
    more := OneMore(more, w4, ListKeys(id), w5);
    more := OneMore(more, w5, Finish(id), w.(caches := caches, writers := w.writers - {id}));
  }

  lemma FirstEntry(m: Marker, item: Item)
    ensures Put(Cache(Some(m), []), item) == Cache(Some(m), [item])
  {
    assert [] + [item] == [item];
  }

  lemma NothingToEvict(items: seq<Item>)
    requires |items| <= PRIVATE_CACHE_MAX_ENTRIES
    ensures Urls(Excess(items)) == {}
  {
  }

  lemma PagesApart(w: World, sync: Sync, pages: map<PageId, Sync>)
    ensures PageStep(w.(pages := pages), sync) == (PageStep(w, sync).0.(pages := pages), PageStep(w, sync).1)
  {
  }

  /** One await of a page, seen beside the rest of the world. */
  lemma Await(steps: seq<Step>, w: World, p: PageId, sync: Sync, w': World, next: Sync) returns (more: seq<Step>)
    requires Run(EMPTY, steps) == w.(pages := w.pages[p := sync])
    requires PageStep(w, sync) == (w', Some(next)) && w'.pages == w.pages
    ensures Run(EMPTY, more) == w'.(pages := w'.pages[p := next])
  {
    hide Run, PageStep;
    PagesApart(w, sync, w.pages[p := sync]);
    assert w.pages[p := sync][p := next] == w.pages[p := next];
    more := OneMore(steps, w.(pages := w.pages[p := sync]), SyncNext(p), w'.(pages := w'.pages[p := next]));
  }

  lemma LastAwait(steps: seq<Step>, w: World, p: PageId, sync: Sync, w': World) returns (more: seq<Step>)
    requires Run(EMPTY, steps) == w.(pages := w.pages[p := sync]) && p !in w.pages
    requires PageStep(w, sync) == (w', None) && w'.pages == w.pages
    ensures Run(EMPTY, more) == w'
  {
    hide Run, PageStep;
    PagesApart(w, sync, w.pages[p := sync]);
    assert w.pages[p := sync] - {p} == w.pages;
    more := OneMore(steps, w.(pages := w.pages[p := sync]), SyncNext(p), w');
  }

  function WithNewCache(w: World): World {
    w.(caches := w.caches[w.born := Cache(None, [])], born := w.born + 1, named := Some(w.born))
  }

  /** A new cache, bound to a user at a minted epoch. */
  function WithBoundCache(w: World, user: string): World {
    w.(caches := w.caches[w.born := Cache(Some(Bound(user, w.nextEpoch)), [])], born := w.born + 1,
       named := Some(w.born), nextEpoch := w.nextEpoch + 1)
  }

  /** A page that is about to bind, where no cache is named, binds a new one. */
  lemma BindNow(steps: seq<Step>, w: World, p: PageId, user: string, previous: Option<Marker>) returns (more: seq<Step>)
    requires Run(EMPTY, steps) == w.(pages := w.pages[p := Binding(user, previous)])
    requires w.named.None? && p !in w.pages && (previous.Some? ==> previous.value.owner != user)
    ensures Run(EMPTY, more) == WithBoundCache(w, user)
  {
    hide Run;
    more := Await(steps, w, p, Binding(user, previous), WithNewCache(w), Writing(user, previous, w.born));
    MarkNew(w, user, previous);
    more := LastAwait(more, WithNewCache(w), p, Writing(user, previous, w.born), WithBoundCache(w, user));
  }

  lemma MarkNew(w: World, user: string, previous: Option<Marker>)
    requires previous.Some? ==> previous.value.owner != user
    ensures PageStep(WithNewCache(w), Writing(user, previous, w.born)) == (WithBoundCache(w, user), None)
  {
    var c := Cache(Some(Bound(user, w.nextEpoch)), []);
    assert WithNewCache(w).caches[w.born := c] == w.caches[w.born := c];
  }

  /** A page of a user binds a new cache where there is none. */
  lemma BindNew(steps: seq<Step>, w: World, p: PageId, user: string) returns (more: seq<Step>)
    requires Run(EMPTY, steps) == w && w.named.None? && p !in w.pages
    ensures Run(EMPTY, more) == WithBoundCache(w, user)
  {
    hide Run, WithBoundCache;
    more := OneMore(steps, w, SyncStart(p, user, false), w.(pages := w.pages[p := Listed(user, false, false)]));
    more := Await(more, w, p, Listed(user, false, false), w, Binding(user, None));
    more := BindNow(more, w, p, user, None);
  }

  /** A page of another user finds an owner's cache, deletes it and binds a new one. */
  lemma Rebind(steps: seq<Step>, w: World, p: PageId, user: string, m: Marker) returns (more: seq<Step>)
    requires Run(EMPTY, steps) == w && w.named.Some? && w.named.value in w.caches
    requires w.caches[w.named.value].marker == Some(m)
    requires p !in w.pages && m.owner != user
    ensures Run(EMPTY, more) == WithBoundCache(w.(named := None), user)
  {
    hide Run, WithBoundCache;
    var h, gone := w.named.value, w.(named := None);
    more := OneMore(steps, w, SyncStart(p, user, false), w.(pages := w.pages[p := Listed(user, false, true)]));
    more := Await(more, w, p, Listed(user, false, true), w, Probing(user, false, h));
    more := Await(more, w, p, Probing(user, false, h), w, Matched(user, false, h, Some(m)));
    more := Await(more, w, p, Matched(user, false, h, Some(m)), w, Purging(user, Some(m), 0));
    more := Await(more, w, p, Purging(user, Some(m), 0), w, PurgeListed(user, Some(m), 0, true));
    more := Await(more, w, p, PurgeListed(user, Some(m), 0, true), gone, Purging(user, Some(m), 1));
    more := Await(more, gone, p, Purging(user, Some(m), 1), gone, Binding(user, Some(m)));
    more := BindNow(more, gone, p, user, Some(m));
  }

  /**
   * A response fetched while one user is signed in, and stored after another has signed in and bound the
   * cache, stays there as the other's.
   */
  lemma LateResponseIsFiledWrong(a: string, b: string, url: Url) returns (steps: seq<Step>)
    requires a != b
    ensures var w := Run(EMPTY, steps);
            && w.writers == map[] && w.pages == map[] && w.named.Some? && w.named.value in w.caches
            && w.caches[w.named.value] == Cache(Some(Bound(b, 1)), [Item(url, Bound(b, 1), Some(a))])
  {
    hide Run;
    EmptyRun();
    var w1 := EMPTY.(signedIn := Some(a));
    steps := OneMore([], EMPTY, SignIn(Some(a)), w1);
    steps := BindNew(steps, w1, 0, a);
    var w2 := w1.(caches := map[0 := Cache(Some(Bound(a, 0)), [])], born := 1, named := Some(0), nextEpoch := 1);
    var w3 := w2.(writers := map[0 := Fetched(url, Some(a))]);
    steps := OneMore(steps, w2, Fetch(0, url), w3);
    var w4 := w3.(signedIn := Some(b));
    steps := OneMore(steps, w3, SignIn(Some(b)), w4);
    steps := Rebind(steps, w4, 1, b, Bound(a, 0));
    var w5 := w4.(caches := w4.caches[1 := Cache(Some(Bound(b, 1)), [])], born := 2, named := Some(1), nextEpoch := 2);
    steps := WriteThrough(steps, w5, 0, Bound(b, 1));
    assert w5.writers - {0} == map[];
  }

  lemma EmptyRun()
    ensures Run(EMPTY, []) == EMPTY
  {
  }

  /**
   * Two pages of different users at work together, both finding no cache: the first binds it, an entry is
   * kept under it, and the second puts its own marker over that.
   */
  lemma OverlappingUsersMix(a: string, b: string, url: Url) returns (steps: seq<Step>)
    requires a != b
    ensures var w := Run(EMPTY, steps);
            && w.writers == map[] && w.pages == map[] && w.named.Some? && w.named.value in w.caches
            && w.caches[w.named.value] == Cache(Some(Bound(b, 1)), [Item(url, Bound(a, 0), Some(a))])
  {
    hide Run;
    EmptyRun();
    var w1 := EMPTY.(signedIn := Some(a));
    steps := OneMore([], EMPTY, SignIn(Some(a)), w1);
    var w2 := w1.(pages := map[1 := Listed(b, false, false)]);
    steps := OneMore(steps, w1, SyncStart(1, b, false), w2);
    var w3 := w1.(pages := map[1 := Binding(b, None)]);
    steps := OneMore(steps, w2, SyncNext(1), w3);
    steps := BindNew(steps, w3, 0, a);
    var w4 := w3.(caches := map[0 := Cache(Some(Bound(a, 0)), [])], born := 1, named := Some(0), nextEpoch := 1);
    var w5 := w4.(writers := map[0 := Fetched(url, Some(a))]);
    steps := OneMore(steps, w4, Fetch(0, url), w5);
    steps := WriteThrough(steps, w5, 0, Bound(a, 0));
    var w6 := w4.(caches := map[0 := Cache(Some(Bound(a, 0)), [Item(url, Bound(a, 0), Some(a))])]);
    assert w5.writers - {0} == map[];
    var w7 := w6.(pages := map[1 := Writing(b, None, 0)]);
    steps := OneMore(steps, w6, SyncNext(1), w7);
    assert w7.pages - {1} == map[];
    steps := OneMore(steps, w7, SyncNext(1), Next(w7, SyncNext(1)));
  }
}
