/**
 * The owner-bound private cache (apps/web/public/sw.js, apps/web/src/features/pwa/private-cache.ts):
 * service-worker writes, evictions, purges and owner binding as steps between awaits, in any
 * order. Deleting a cache by name leaves handles opened before on the old incarnation.
 */
module PrivateCache {
  import opened Common

  type Url = nat
  type CacheId = nat
  type WriterId = nat
  type PageId = nat

  const PRIVATE_CACHE_MAX_ENTRIES: nat := 150

  /** The owner marker's text: bound at an epoch, or as written before there were epochs. */
  datatype Marker = Bound(owner: string, epoch: nat) | Legacy(owner: string)

  /** A private entry: the marker its writer read before writing, and who was signed in when it was fetched. */
  datatype Item = Item(url: Url, tag: Marker, fetcher: Option<string>)

  /** One incarnation of the named cache; entries in the order of their insertion. */
  datatype Cache = Cache(marker: Option<Marker>, items: seq<Item>)

  /** How far a request and its `putPrivate` have got. */
  datatype Writer =
    | Fetched(url: Url, fetcher: Option<string>)
    | Checked(url: Url, fetcher: Option<string>, tag: Marker)
    | Opened(url: Url, fetcher: Option<string>, tag: Marker, handle: CacheId)
    | Written(url: Url, fetcher: Option<string>, tag: Marker, handle: CacheId)
    | Discarding(url: Url, handle: CacheId)
    | DeletingAll
    | Listing(url: Url, handle: CacheId)
    | Evicting(handle: CacheId, urls: set<Url>)

  /** How far a page's `syncPrivateCacheOwner` has got. */
  datatype Sync =
    | Listed(user: string, drafts: bool, present: bool)
    | Probing(user: string, drafts: bool, handle: CacheId)
    | Matched(user: string, drafts: bool, handle: CacheId, previous: Option<Marker>)
    | Purging(user: string, previous: Option<Marker>, pass: nat)
    | PurgeListed(user: string, previous: Option<Marker>, pass: nat, present: bool)
    | Binding(user: string, previous: Option<Marker>)
    | Writing(user: string, previous: Option<Marker>, handle: CacheId)

  datatype World = World(caches: map<CacheId, Cache>, born: CacheId, named: Option<CacheId>, writers: map<WriterId,
                         Writer>,
                         pages: map<PageId, Sync>, nextEpoch: nat, signedIn: Option<string>)

  datatype Step =
    | SignIn(session: Option<string>)
    | Fetch(writer: WriterId, url: Url)
    | Begin(writer: WriterId)
    | OpenIt(writer: WriterId)
    | PutIt(writer: WriterId)
    | Recheck(writer: WriterId)
    | Discard(writer: WriterId)
    | DeleteAll(writer: WriterId)
    | ListKeys(writer: WriterId)
    | EvictOne(writer: WriterId, evicted: Url)
    | Finish(writer: WriterId)
    | Wipe
    | SyncStart(page: PageId, user: string, drafts: bool)
    | SyncNext(page: PageId)
    | SyncAbort(page: PageId)

  // ---------------------------------------------------------------- the cache API

  /** `caches.match(marker, { cacheName })`: what the named cache's marker says, if there is one. */
  function NamedMarker(w: World): Option<Marker> {
    if w.named.Some? && w.named.value in w.caches then w.caches[w.named.value].marker else None
  }

  /** `caches.open`: the named cache, made if it is missing. */
  function Open(w: World): (World, CacheId) {
    if w.named.Some? then (w, w.named.value)
    else (w.(caches := w.caches[w.born := Cache(None, [])], born := w.born + 1, named := Some(w.born)), w.born)
  }

  function WithoutUrl(items: seq<Item>, url: Url): seq<Item> {
    if items == [] then []
    else if items[0].url == url then WithoutUrl(items[1..], url)
    else [items[0]] + WithoutUrl(items[1..], url)
  }

  /** `cache.put`: replaces an entry of the same url and takes the last place. */
  function Put(c: Cache, item: Item): Cache { c.(items := WithoutUrl(c.items, item.url) + [item]) }

  function Remove(c: Cache, url: Url): Cache { c.(items := WithoutUrl(c.items, url)) }

  function Update(w: World, h: CacheId, c: Cache): World { w.(caches := w.caches[h := c]) }

  function Urls(items: seq<Item>): set<Url> { set i | 0 <= i < |items| :: items[i].url }

  /** The oldest entries beyond the limit; the marker is not among the items. */
  function Excess(items: seq<Item>): seq<Item> {
    if |items| > PRIVATE_CACHE_MAX_ENTRIES then items[..|items| - PRIVATE_CACHE_MAX_ENTRIES] else []
  }

  // ---------------------------------------------------------------- the steps

  function Next(w: World, step: Step): World {
    match step
    case SignIn(session) => w.(signedIn := session)
    case Fetch(id, url) => if id in w.writers then w else w.(writers := w.writers[id := Fetched(url, w.signedIn)])
    case Begin(id) => if id in w.writers && w.writers[id].Fetched? then BeginNext(w, id) else w
    case OpenIt(id) => if id in w.writers && w.writers[id].Checked? then OpenNext(w, id) else w
    case PutIt(id) =>
      if id in w.writers && w.writers[id].Opened? && w.writers[id].handle in w.caches then PutNext(w, id) else w
    case Recheck(id) => if id in w.writers && w.writers[id].Written? then RecheckNext(w, id) else w
    case Discard(id) =>
      if id in w.writers && w.writers[id].Discarding? && w.writers[id].handle in w.caches then DiscardNext(w, id) else w
    case DeleteAll(id) =>
      if id in w.writers && w.writers[id].DeletingAll? then w.(named := None, writers := w.writers - {id}) else w
    case ListKeys(id) =>
      if id in w.writers && w.writers[id].Listing? && w.writers[id].handle in w.caches then ListNext(w, id) else w
    case EvictOne(id, url) =>
      if id in w.writers && w.writers[id].Evicting? && url in w.writers[id].urls && w.writers[id].handle in w.caches
      then EvictNext(w, id, url)
      else w
    case Finish(id) =>
      if id in w.writers && w.writers[id].Evicting? && w.writers[id].urls == {} then w.(writers := w.writers - {id})
          else w
    case Wipe => w.(named := None)
    case SyncStart(p, user, drafts) =>
      if p in w.pages then w else w.(pages := w.pages[p := Listed(user, drafts, w.named.Some?)])
    case SyncNext(p) => if p in w.pages then SyncStep(w, p) else w
    case SyncAbort(p) => w.(pages := w.pages - {p})
  }

  /** Reads the marker once the response is there; without one nothing is written. */
  function BeginNext(w: World, id: WriterId): World
    requires id in w.writers && w.writers[id].Fetched?
  {
    if NamedMarker(w).None? then w.(writers := w.writers - {id})
    else w.(writers := w.writers[id := Checked(w.writers[id].url, w.writers[id].fetcher, NamedMarker(w).value)])
  }

  function OpenNext(w: World, id: WriterId): World
    requires id in w.writers && w.writers[id].Checked?
  {
    var named := Open(w);
    named.0.(writers := w.writers[id := Opened(w.writers[id].url, w.writers[id].fetcher, w.writers[id].tag, named.1)])
  }

  function PutNext(w: World, id: WriterId): World
    requires id in w.writers && w.writers[id].Opened? && w.writers[id].handle in w.caches
  {
    var writer := w.writers[id];
    Update(w, writer.handle, Put(w.caches[writer.handle], Item(writer.url, writer.tag, writer.fetcher)))
      .(writers := w.writers[id := Written(writer.url, writer.fetcher, writer.tag, writer.handle)])
  }

  /** The epoch recheck: gone, changed or still the same. */
  function RecheckNext(w: World, id: WriterId): World
    requires id in w.writers && w.writers[id].Written?
  {
    var writer, after := w.writers[id], NamedMarker(w);
    w.(writers := w.writers[id :=
      if after.None? then DeletingAll
      else if after.value != writer.tag then Discarding(writer.url, writer.handle)
      else Listing(writer.url, writer.handle)])
  }

  function DiscardNext(w: World, id: WriterId): World
    requires id in w.writers && w.writers[id].Discarding? && w.writers[id].handle in w.caches
  {
    var writer := w.writers[id];
    Update(w, writer.handle, Remove(w.caches[writer.handle], writer.url)).(writers := w.writers - {id})
  }

  function ListNext(w: World, id: WriterId): World
    requires id in w.writers && w.writers[id].Listing? && w.writers[id].handle in w.caches
  {
    var h := w.writers[id].handle;
    w.(writers := w.writers[id := Evicting(h, Urls(Excess(w.caches[h].items)))])
  }

  function EvictNext(w: World, id: WriterId, url: Url): World
    requires id in w.writers && w.writers[id].Evicting? && w.writers[id].handle in w.caches
  {
    var writer := w.writers[id];
    Update(w, writer.handle,
           Remove(w.caches[writer.handle],
                  url)).(writers := w.writers[id := Evicting(writer.handle, writer.urls - {url})])
  }

  /** Purge when another owner's marker, or content of unknown ownership, is there. */
  function Decide(user: string, drafts: bool, previous: Option<Marker>, hasEntries: bool): Sync {
    if (previous.Some? && previous.value.owner != user) || (previous.None? && (hasEntries || drafts))
    then Purging(user, previous, 0)
    else Binding(user, previous)
  }

  /** The marker a sync writes: the epoch survives a confirmation of the same owner, else a fresh one. */
  function NewMarker(user: string, previous: Option<Marker>, minted: nat): Marker {
    if previous.Some? && previous.value.owner == user && previous.value.Bound? then previous.value
        else Bound(user, minted)
  }

  /** What one await of a page does to the caches, and where the page is then; None when it is done. */
  function PageStep(w: World, sync: Sync): (World, Option<Sync>) {
    match sync
    case Listed(user, drafts, present) =>
      if present then var named := Open(w); (named.0, Some(Probing(user, drafts, named.1)))
      else (w, Some(Decide(user, drafts, None, false)))
    case Probing(user, drafts, h) =>
      if h in w.caches then (w, Some(Matched(user, drafts, h, w.caches[h].marker))) else (w, Some(sync))
    case Matched(user, drafts, h, previous) =>
      if h in w.caches
      then (w, Some(Decide(user, drafts, previous, w.caches[h].marker.Some? || w.caches[h].items != [])))
      else (w, Some(sync))
    case Purging(user, previous, pass) =>
      (w, if w.named.None? && pass > 0 then Some(Binding(user, previous))
          else Some(PurgeListed(user, previous, pass, w.named.Some?)))
    case PurgeListed(user, previous, pass, present) =>
      (w.(named := if present then None else w.named),
       if pass < 2 then Some(Purging(user, previous, pass + 1)) else Some(Binding(user, previous)))
    case Binding(user, previous) => var named := Open(w); (named.0, Some(Writing(user, previous, named.1)))
    case Writing(user, previous, h) =>
      if h in w.caches
      then
        var bound := w.caches[h].(marker := Some(NewMarker(user, previous, w.nextEpoch)));
        (Update(w, h, bound).(nextEpoch := w.nextEpoch + 1), None)
      else (w, Some(sync))
  }

  function SyncStep(w: World, p: PageId): World
    requires p in w.pages
  {
    var (w', next) := PageStep(w, w.pages[p]);
    w'.(pages := if next.Some? then w.pages[p := next.value] else w.pages - {p})
  }

  // ---------------------------------------------------------------- the invariant

  /** An entry belongs to the binding in force: it was written for the same owner. */
  predicate Matches(tag: Marker, marker: Marker) { tag.owner == marker.owner }

  /** A write in flight that will take this entry out of cache h, or the whole cache away. */
  predicate WillRemove(writer: Writer, h: CacheId, item: Item) {
    match writer
    case Written(url, _, tag, handle) => handle == h && url == item.url && tag == item.tag
    case Discarding(url, handle) => handle == h && url == item.url
    case DeletingAll => true
    case _ => false
  }

  predicate Pending(writers: map<WriterId, Writer>, h: CacheId, item: Item) {
    exists id | id in writers :: WillRemove(writers[id], h, item)
  }

  /** Entries of the named cache belong to the binding in force or have a write pending that removes them. */
  predicate Owned(caches: map<CacheId, Cache>, named: Option<CacheId>, writers: map<WriterId, Writer>) {
    named.Some? && named.value in caches ==>
      var c := caches[named.value];
      forall i :: 0 <= i < |c.items| ==>
        (c.marker.Some? && Matches(c.items[i].tag, c.marker.value)) || Pending(writers, named.value, c.items[i])
  }

  function HandleOf(writer: Writer): Option<CacheId> {
    if writer.Fetched? || writer.Checked? || writer.DeletingAll? then None else Some(writer.handle)
  }

  /** Handles are of caches that were made, and no cache is older than the count of them. */
  predicate HandlesOk(w: World) {
    && (w.named.Some? ==> w.named.value in w.caches)
    && (forall h :: h in w.caches ==> h < w.born)
    && (forall id :: id in w.writers && HandleOf(w.writers[id]).Some? ==> HandleOf(w.writers[id]).value in w.caches)
    && (forall p :: p in w.pages && PageHandle(w.pages[p]).Some? ==> PageHandle(w.pages[p]).value in w.caches)
  }

  function PageHandle(sync: Sync): Option<CacheId> {
    if sync.Probing? || sync.Matched? || sync.Writing? then Some(sync.handle) else None
  }

  predicate NoneOr(m: Option<Marker>, previous: Option<Marker>) { m.None? || m == previous }

  predicate OwnOrNone(m: Option<Marker>, user: string) { m.Some? ==> m.value.owner == user }

  /** What a page has found out: the marker in force is the one it read, or gone, or by now its own user's. */
  predicate Knows(m: Option<Marker>, caches: map<CacheId, Cache>, sync: Sync) {
    match sync
    case Listed(user, _, present) => !present ==> OwnOrNone(m, user)
    case Probing(user, _, h) => h in caches && (NoneOr(m, caches[h].marker) || OwnOrNone(m, user))
    case Matched(user, _, _, previous) => NoneOr(m, previous) || OwnOrNone(m, user)
    case Purging(user, _, pass) => pass > 0 ==> OwnOrNone(m, user)
    case PurgeListed(user, _, pass, present) => pass > 0 || !present ==> OwnOrNone(m, user)
    case Binding(user, _) => OwnOrNone(m, user)
    case Writing(user, _, _) => OwnOrNone(m, user)
  }

  /** Pages at work are all of one user, and what they have found out holds. */
  predicate PagesOk(w: World) {
    && (forall p, q :: p in w.pages && q in w.pages ==> w.pages[p].user == w.pages[q].user)
    && (forall p :: p in w.pages ==> Knows(NamedMarker(w), w.caches, w.pages[p]))
  }

  /** The urls a write in flight is still going to take out of cache h, or to list it for. */
  function Covers(writer: Writer, h: CacheId): set<Url> {
    match writer
    case Written(url, _, _, handle) => if handle == h then {url} else {}
    case Discarding(url, handle) => if handle == h then {url} else {}
    case Listing(url, handle) => if handle == h then {url} else {}
    case Evicting(handle, urls) => if handle == h then urls else {}
    case _ => {}
  }

  predicate Covered(writers: map<WriterId, Writer>, h: CacheId, u: Url) {
    exists id | id in writers :: u in Covers(writers[id], h)
  }

  function Uncovered(c: Cache, writers: map<WriterId, Writer>, h: CacheId): set<Url> {
    set u | u in Urls(c.items) && !Covered(writers, h, u)
  }

  predicate DeletePending(writers: map<WriterId, Writer>) { exists id | id in writers :: writers[id].DeletingAll? }

  predicate DistinctUrls(items: seq<Item>) { forall i, j :: 0 <= i < j < |items| ==> items[i].url != items[j].url }

  /** No more than the limit beyond what is still going to be listed or removed. */
  predicate Bounded(caches: map<CacheId, Cache>, named: Option<CacheId>, writers: map<WriterId, Writer>) {
    && (forall h :: h in caches ==> DistinctUrls(caches[h].items))
    && (named.Some? && named.value in caches && !DeletePending(writers) ==>
          |Uncovered(caches[named.value], writers, named.value)| <= PRIVATE_CACHE_MAX_ENTRIES)
  }

  predicate Minted(m: Marker, nextEpoch: nat) { m.Bound? ==> m.epoch < nextEpoch }

  function TagOf(writer: Writer): Option<Marker> {
    if writer.Checked? || writer.Opened? || writer.Written? then Some(writer.tag) else None
  }

  function PreviousOf(sync: Sync): Option<Marker> {
    match sync
    case Matched(_, _, _, previous) => previous
    case Purging(_, previous, _) => previous
    case PurgeListed(_, previous, _, _) => previous
    case Binding(_, previous) => previous
    case Writing(_, previous, _) => previous
    case _ => None
  }

  /** Every epoch in use was minted before. */
  predicate EpochsOk(w: World) {
    && (forall h :: h in w.caches && w.caches[h].marker.Some? ==> Minted(w.caches[h].marker.value, w.nextEpoch))
    && (forall id :: id in w.writers && TagOf(w.writers[id]).Some? ==> Minted(TagOf(w.writers[id]).value, w.nextEpoch))
    && (forall p :: p in w.pages && PreviousOf(w.pages[p]).Some? ==> Minted(PreviousOf(w.pages[p]).value, w.nextEpoch))
  }

  predicate Inv(w: World) {
    && HandlesOk(w) && PagesOk(w) && EpochsOk(w)
    && Owned(w.caches, w.named, w.writers)
    && Bounded(w.caches, w.named, w.writers)
  }

  // ---------------------------------------------------------------- lists without a url

  lemma {:induction false} WithoutUrlItems(items: seq<Item>, url: Url)
    ensures forall x :: x in WithoutUrl(items, url) <==> x in items && x.url != url
  {
    if items != [] { WithoutUrlItems(items[1..], url); }
  }

  lemma {:induction false} WithoutUrlDistinct(items: seq<Item>, url: Url)
    requires DistinctUrls(items)
    ensures DistinctUrls(WithoutUrl(items, url))
  {
    if items != [] {
      WithoutUrlDistinct(items[1..], url);
      WithoutUrlItems(items[1..], url);
      forall x | x in WithoutUrl(items[1..], url) ensures x.url != items[0].url {
        var i :| 0 <= i < |items[1..]| && items[1..][i] == x;
        assert items[i + 1] == x;
      }
    }
  }

  lemma PutDistinct(c: Cache, item: Item)
    requires DistinctUrls(c.items)
    ensures DistinctUrls(Put(c, item).items)
    ensures forall x :: x in Put(c, item).items ==> x == item || x in c.items
  {
    WithoutUrlDistinct(c.items, item.url);
    WithoutUrlItems(c.items, item.url);
    var rest := WithoutUrl(c.items, item.url);
    forall i | 0 <= i < |rest| ensures rest[i].url != item.url { assert rest[i] in rest; }
  }

  // ---------------------------------------------------------------- entries stay owned

  /** Entry by entry: nothing new but what has its own write pending, nothing loses its reason to be there. */
  lemma OwnedStays(w: World, w': World)
    requires Owned(w.caches, w.named, w.writers)
    requires w'.named.Some? && w'.named.value in w'.caches && w.named == w'.named && w.named.value in w.caches
    requires var h := w.named.value;
             var c, c' := w.caches[h], w'.caches[h];
             && (c'.marker == c.marker)
             && (forall x :: x in c'.items ==> x in c.items || Pending(w'.writers, h, x))
             && (forall x :: x in c'.items && x in c.items && Pending(w.writers, h, x) ==>
                   Pending(w'.writers, h, x) || (c.marker.Some? && Matches(x.tag, c.marker.value)))
    ensures Owned(w'.caches, w'.named, w'.writers)
  {
    var h := w.named.value;
    var c, c' := w.caches[h], w'.caches[h];
    hide Pending, Matches;
    forall i | 0 <= i < |c'.items|
      ensures (c'.marker.Some? && Matches(c'.items[i].tag, c'.marker.value)) || Pending(w'.writers, h, c'.items[i])
    {
      assert c'.items[i] in c'.items;
      if c'.items[i] in c.items {
        var j :| 0 <= j < |c.items| && c.items[j] == c'.items[i];
      }
    }
  }

  /** A writer that removes nothing can become anything without an entry losing its pending removal. */
  lemma PendingStays(writers: map<WriterId, Writer>, id: WriterId, next: Writer, h: CacheId, x: Item)
    requires Pending(writers, h, x) && (id in writers ==> !WillRemove(writers[id], h, x) || WillRemove(next, h, x))
    ensures Pending(writers[id := next], h, x)
  {
    var j :| j in writers && WillRemove(writers[j], h, x);
    assert j in writers[id := next];
    if j == id { assert WillRemove(writers[id := next][id], h, x); }
        else { assert WillRemove(writers[id := next][j], h, x); }
  }

  lemma PendingWithout(writers: map<WriterId, Writer>, id: WriterId, h: CacheId, x: Item)
    requires Pending(writers, h, x) && (id in writers ==> !WillRemove(writers[id], h, x))
    ensures Pending(writers - {id}, h, x)
  {
    var j :| j in writers && WillRemove(writers[j], h, x);
    assert j in writers - {id} && WillRemove((writers - {id})[j], h, x);
  }

  lemma PendingNow(writers: map<WriterId, Writer>, id: WriterId, h: CacheId, x: Item)
    requires id in writers && WillRemove(writers[id], h, x)
    ensures Pending(writers, h, x)
  {
  }

  /** A writer that removes nothing comes, changes or goes. */
  lemma WriterOwned(w: World, w': World, id: WriterId)
    requires Inv(w) && w'.caches == w.caches && w'.named == w.named
    requires id in w.writers ==> forall h, x :: !WillRemove(w.writers[id], h, x)
    requires w'.writers == w.writers - {id} || (id in w'.writers && w'.writers == w.writers[id := w'.writers[id]])
    ensures Owned(w'.caches, w'.named, w'.writers)
  {
    hide Pending, Matches, PagesOk, EpochsOk, Bounded, DistinctUrls, WillRemove;
    if w.named.Some? {
      forall x | Pending(w.writers, w.named.value, x) ensures Pending(w'.writers, w.named.value, x) {
        if w'.writers == w.writers - {id} {
          PendingWithout(w.writers, id, w.named.value, x);
        } else {
          PendingStays(w.writers, id, w'.writers[id], w.named.value, x);
        }
      }
      hide Owned;
      OwnedStays(w, w');
    }
  }

  lemma NothingOwned(caches: map<CacheId, Cache>, named: Option<CacheId>, writers: map<WriterId, Writer>)
    requires named.Some? && named.value in caches ==> caches[named.value].items == []
    ensures Owned(caches, named, writers)
  {
  }

  lemma OpenOwned(w: World, id: WriterId)
    requires Inv(w) && id in w.writers && w.writers[id].Checked?
    ensures var w' := OpenNext(w, id); Owned(w'.caches, w'.named, w'.writers)
  {
    hide Pending, Matches, PagesOk, EpochsOk, Bounded, DistinctUrls;
    var w' := OpenNext(w, id);
    if w.named.Some? {
      forall x | Pending(w.writers, w.named.value, x) ensures Pending(w'.writers, w.named.value, x) {
        PendingStays(w.writers, id, w'.writers[id], w.named.value, x);
      }
      OwnedStays(w, w');
    } else {
      NothingOwned(w'.caches, w'.named, w'.writers);
    }
  }

  lemma UnnamedOwned(w: World, w': World)
    requires w'.named.None?
    ensures Owned(w'.caches, w'.named, w'.writers)
  {
  }

  lemma PutOwned(w: World, id: WriterId)
    requires Inv(w) && id in w.writers && w.writers[id].Opened? && w.writers[id].handle in w.caches
    ensures var w' := PutNext(w, id); Owned(w'.caches, w'.named, w'.writers)
  {
    hide Pending, Matches, PagesOk, EpochsOk, DistinctUrls, Put;
    var w' := PutNext(w, id);
    var writer := w.writers[id];
    var item := Item(writer.url, writer.tag, writer.fetcher);
    if w.named.Some? {
      var h := w.named.value;
      PutDistinct(w.caches[writer.handle], item);
      PutMarker(w.caches[writer.handle], item);
      forall x | Pending(w.writers, h, x) ensures Pending(w'.writers, h, x) {
        PendingStays(w.writers, id, w'.writers[id], h, x);
      }
      if writer.handle == h { PendingNow(w'.writers, id, h, item); }
      hide Owned;
      OwnedStays(w, w');
    }
  }

  lemma PutMarker(c: Cache, item: Item)
    ensures Put(c, item).marker == c.marker
  {
  }

  lemma RecheckOwned(w: World, id: WriterId)
    requires Inv(w) && id in w.writers && w.writers[id].Written?
    ensures var w' := RecheckNext(w, id); Owned(w'.caches, w'.named, w'.writers)
  {
    hide Pending, PagesOk, EpochsOk, Bounded, DistinctUrls;
    var w' := RecheckNext(w, id);
    if w.named.Some? {
      var h := w.named.value;
      forall x | Pending(w.writers, h, x)
        ensures Pending(w'.writers, h, x) || (w.caches[h].marker.Some? && Matches(x.tag, w.caches[h].marker.value))
      {
        if !(WillRemove(w.writers[id], h, x) && !WillRemove(w'.writers[id], h, x)) {
          PendingStays(w.writers, id, w'.writers[id], h, x);
        }
      }
      hide Owned;
      OwnedStays(w, w');
    }
  }

  lemma DiscardOwned(w: World, id: WriterId)
    requires Inv(w) && id in w.writers && w.writers[id].Discarding? && w.writers[id].handle in w.caches
    ensures var w' := DiscardNext(w, id); Owned(w'.caches, w'.named, w'.writers)
  {
    hide Pending, Matches, PagesOk, EpochsOk, Bounded, DistinctUrls;
    var w' := DiscardNext(w, id);
    var writer := w.writers[id];
    if w.named.Some? {
      var h := w.named.value;
      WithoutUrlItems(w.caches[writer.handle].items, writer.url);
      forall x | x in w'.caches[h].items && Pending(w.writers, h, x) ensures Pending(w'.writers, h, x) {
        PendingWithout(w.writers, id, h, x);
      }
      hide Owned;
      OwnedStays(w, w');
    }
  }

  lemma EvictOwned(w: World, id: WriterId, url: Url)
    requires Inv(w) && id in w.writers && w.writers[id].Evicting? && w.writers[id].handle in w.caches
    ensures var w' := EvictNext(w, id, url); Owned(w'.caches, w'.named, w'.writers)
  {
    hide Pending, Matches, PagesOk, EpochsOk, Bounded, DistinctUrls;
    var w' := EvictNext(w, id, url);
    var writer := w.writers[id];
    if w.named.Some? {
      var h := w.named.value;
      WithoutUrlItems(w.caches[writer.handle].items, url);
      forall x | Pending(w.writers, h, x) ensures Pending(w'.writers, h, x) {
        PendingStays(w.writers, id, w'.writers[id], h, x);
      }
      hide Owned;
      OwnedStays(w, w');
    }
  }

  lemma ListOwned(w: World, id: WriterId)
    requires Inv(w) && id in w.writers && w.writers[id].Listing? && w.writers[id].handle in w.caches
    ensures var w' := ListNext(w, id); Owned(w'.caches, w'.named, w'.writers)
  {
    hide Pending, Matches, PagesOk, EpochsOk, Bounded, DistinctUrls, Excess, Urls;
    var w' := ListNext(w, id);
    if w.named.Some? {
      var h := w.named.value;
      forall x | Pending(w.writers, h, x) ensures Pending(w'.writers, h, x) {
        PendingStays(w.writers, id, w'.writers[id], h, x);
      }
      hide Owned;
      OwnedStays(w, w');
    }
  }

  lemma FinishOwned(w: World, id: WriterId)
    requires Inv(w) && id in w.writers && w.writers[id].Evicting?
    ensures Owned(w.caches, w.named, w.writers - {id})
  {
    hide Pending, Matches, PagesOk, EpochsOk, Bounded, DistinctUrls;
    if w.named.Some? {
      var h := w.named.value;
      var w' := w.(writers := w.writers - {id});
      forall x | Pending(w.writers, h, x) ensures Pending(w'.writers, h, x) { PendingWithout(w.writers, id, h, x); }
      hide Owned;
      OwnedStays(w, w');
    }
  }

  /** Writing the marker: entries that belonged to the one in force belong to the new one. */
  lemma BindOwned(w: World, p: PageId)
    requires Inv(w) && p in w.pages && w.pages[p].Writing?
    ensures var w' := SyncStep(w, p); Owned(w'.caches, w'.named, w'.writers)
  {
    hide Pending, EpochsOk, Bounded, DistinctUrls;
    assert Knows(NamedMarker(w), w.caches, w.pages[p]);
  }

  lemma SyncOwned(w: World, p: PageId)
    requires Inv(w) && p in w.pages
    ensures var w' := SyncStep(w, p); Owned(w'.caches, w'.named, w'.writers)
  {
    hide Pending, EpochsOk, Bounded, DistinctUrls, Decide;
    if w.pages[p].Writing? { BindOwned(w, p); }
  }

  // ---------------------------------------------------------------- entries stay bounded

  lemma UrlsOf(items: seq<Item>)
    ensures forall u :: u in Urls(items) <==> exists x :: x in items && x.url == u
  {
    forall u | u in Urls(items) ensures exists x :: x in items && x.url == u {
      var i :| 0 <= i < |items| && items[i].url == u;
      assert items[i] in items;
    }
    forall u | exists x :: x in items && x.url == u ensures u in Urls(items) {
      var x :| x in items && x.url == u;
      var i :| 0 <= i < |items| && items[i] == x;
    }
  }

  lemma WithoutUrlUrls(items: seq<Item>, url: Url)
    ensures Urls(WithoutUrl(items, url)) == Urls(items) - {url}
  {
    UrlsOf(items);
    UrlsOf(WithoutUrl(items, url));
    WithoutUrlItems(items, url);
    forall u | u in Urls(items) - {url} ensures u in Urls(WithoutUrl(items, url)) {
      var x :| x in items && x.url == u;
      assert x in WithoutUrl(items, url);
    }
  }

  lemma PutUrls(c: Cache, item: Item)
    ensures Urls(Put(c, item).items) == Urls(c.items) + {item.url}
  {
    WithoutUrlUrls(c.items, item.url);
    UrlsJoin(WithoutUrl(c.items, item.url), [item]);
    assert Urls([item]) == {item.url} by { assert [item][0] == item; }
  }

  /** A step after which no more urls are out of every writer's hands than before. */
  lemma StaysBounded(w: World, w': World)
    requires Bounded(w.caches, w.named, w.writers)
    requires forall h :: h in w'.caches ==> DistinctUrls(w'.caches[h].items)
    requires w'.named.Some? && w'.named.value in w'.caches && w'.named == w.named && w.named.value in w.caches
    requires DeletePending(w.writers) ==> DeletePending(w'.writers)
    requires var h := w.named.value;
             && (forall u :: u in Urls(w'.caches[h].items) ==>
                 u in Urls(w.caches[h].items) || Covered(w'.writers, h, u))
             && (forall u :: u in Urls(w'.caches[h].items) && Covered(w.writers, h, u) ==> Covered(w'.writers, h, u))
    ensures Bounded(w'.caches, w'.named, w'.writers)
  {
    hide DistinctUrls, Covered, DeletePending, Urls;
    var h := w.named.value;
    SubsetSize(Uncovered(w'.caches[h], w'.writers, h), Uncovered(w.caches[h], w.writers, h));
  }

  lemma CoveredStays(writers: map<WriterId, Writer>, id: WriterId, next: Writer, h: CacheId, u: Url)
    requires Covered(writers, h, u) && (id in writers ==> u !in Covers(writers[id], h) || u in Covers(next, h))
    ensures Covered(writers[id := next], h, u)
  {
    var j :| j in writers && u in Covers(writers[j], h);
    if j == id { assert u in Covers(writers[id := next][id], h); }
        else { assert u in Covers(writers[id := next][j], h); }
  }

  lemma CoveredWithout(writers: map<WriterId, Writer>, id: WriterId, h: CacheId, u: Url)
    requires Covered(writers, h, u) && (id in writers ==> u !in Covers(writers[id], h))
    ensures Covered(writers - {id}, h, u)
  {
    var j :| j in writers && u in Covers(writers[j], h);
    assert j in writers - {id} && u in Covers((writers - {id})[j], h);
  }

  lemma CoveredNow(writers: map<WriterId, Writer>, id: WriterId, h: CacheId, u: Url)
    requires id in writers && u in Covers(writers[id], h)
    ensures Covered(writers, h, u)
  {
  }

  lemma DeleteStays(writers: map<WriterId, Writer>, id: WriterId, next: Writer)
    requires DeletePending(writers) && (id in writers ==> !writers[id].DeletingAll?)
    ensures DeletePending(writers[id := next]) && DeletePending(writers - {id})
  {
    var j :| j in writers && writers[j].DeletingAll?;
    assert writers[id := next][j].DeletingAll? && j in writers - {id} && (writers - {id})[j].DeletingAll?;
  }

  lemma EmptyBounded(w: World)
    requires forall h :: h in w.caches ==> DistinctUrls(w.caches[h].items)
    requires w.named.Some? && w.named.value in w.caches ==> w.caches[w.named.value].items == []
    ensures Bounded(w.caches, w.named, w.writers)
  {
    if w.named.Some? && w.named.value in w.caches {
      assert Uncovered(w.caches[w.named.value], w.writers, w.named.value) == {};
    }
  }

  /** Beginning and opening write nothing and cover nothing. */
  lemma ReplaceBounded(w: World, w': World, id: WriterId, next: Writer)
    requires Inv(w) && w'.caches == w.caches && w'.named == w.named && w'.writers == w.writers[id := next]
    requires id in w.writers ==> !w.writers[id].DeletingAll? && forall h :: Covers(w.writers[id], h) <= Covers(next, h)
    ensures Bounded(w'.caches, w'.named, w'.writers)
  {
    hide PagesOk, EpochsOk, Owned, Covered, Urls, DeletePending, Covers;
    if w.named.Some? {
      var h := w.named.value;
      if DeletePending(w.writers) { DeleteStays(w.writers, id, next); }
      forall u | Covered(w.writers, h, u) ensures Covered(w'.writers, h, u) { CoveredStays(w.writers, id, next, h, u); }
      hide Bounded;
      BoundedDistinct(w);
      StaysBounded(w, w');
    } else {
      BoundedDistinct(w);
      EmptyBounded(w');
    }
  }

  lemma BoundedDistinct(w: World)
    requires Bounded(w.caches, w.named, w.writers)
    ensures forall h :: h in w.caches ==> DistinctUrls(w.caches[h].items)
  {
  }

  lemma OpenBounded(w: World, id: WriterId)
    requires Inv(w) && id in w.writers && w.writers[id].Checked?
    ensures var w' := OpenNext(w, id); Bounded(w'.caches, w'.named, w'.writers)
  {
    hide PagesOk, EpochsOk, Owned, Covered, Urls, DeletePending, Bounded;
    var w' := OpenNext(w, id);
    if w.named.Some? {
      ReplaceBounded(w, w', id, w'.writers[id]);
    } else {
      BoundedDistinct(w);
      EmptyBounded(w');
    }
  }

  lemma PutBounded(w: World, id: WriterId)
    requires Inv(w) && id in w.writers && w.writers[id].Opened? && w.writers[id].handle in w.caches
    ensures var w' := PutNext(w, id); Bounded(w'.caches, w'.named, w'.writers)
  {
    hide PagesOk, EpochsOk, Owned, Covered, Urls, DeletePending, Bounded, Put, DistinctUrls;
    var w' := PutNext(w, id);
    var writer := w.writers[id];
    var item := Item(writer.url, writer.tag, writer.fetcher);
    BoundedDistinct(w);
    PutDistinct(w.caches[writer.handle], item);
    PutUrls(w.caches[writer.handle], item);
    if w.named.Some? {
      var h := w.named.value;
      if DeletePending(w.writers) { DeleteStays(w.writers, id, w'.writers[id]); }
      forall u | Covered(w.writers, h, u)
        ensures Covered(w'.writers, h, u)
      {
        CoveredStays(w.writers, id, w'.writers[id], h, u);
      }
      if writer.handle == h { CoveredNow(w'.writers, id, h, writer.url); }
      StaysBounded(w, w');
    } else {
      EmptyBounded(w');
    }
  }

  lemma RecheckBounded(w: World, id: WriterId)
    requires Inv(w) && id in w.writers && w.writers[id].Written?
    ensures var w' := RecheckNext(w, id); Bounded(w'.caches, w'.named, w'.writers)
  {
    hide PagesOk, EpochsOk, Owned, Covered, Urls, Bounded, DistinctUrls;
    var w' := RecheckNext(w, id);
    if NamedMarker(w).None? {
      assert w'.writers[id].DeletingAll?;
      BoundedDistinct(w);
      DeletingBounded(w');
    } else {
      ReplaceBounded(w, w', id, w'.writers[id]);
    }
  }

  lemma DeletingBounded(w: World)
    requires (forall h :: h in w.caches ==> DistinctUrls(w.caches[h].items)) && DeletePending(w.writers)
    ensures Bounded(w.caches, w.named, w.writers)
  {
  }

  /** A writer takes a url out of its cache, and out of what it covers. */
  lemma RemoveBounded(w: World, w': World, id: WriterId, url: Url, next: Option<Writer>)
    requires Inv(w) && id in w.writers && HandleOf(w.writers[id]).Some? && !w.writers[id].DeletingAll?
    requires var h := HandleOf(w.writers[id]).value;
             && h in w.caches && w'.caches == w.caches[h := Remove(w.caches[h], url)] && w'.named == w.named
             && (forall g :: g != h ==> Covers(w.writers[id], g) == {})
             && (next.None? ==> Covers(w.writers[id], h) <= {url} && w'.writers == w.writers - {id})
             && (next.Some? ==> (forall g :: Covers(w.writers[id], g) - {url} <= Covers(next.value, g))
                                && w'.writers == w.writers[id := next.value])
    ensures Bounded(w'.caches, w'.named, w'.writers)
  {
    hide PagesOk, EpochsOk, Owned, Covered, Urls, DeletePending, Bounded, DistinctUrls, Covers;
    var h := HandleOf(w.writers[id]).value;
    BoundedDistinct(w);
    WithoutUrlDistinct(w.caches[h].items, url);
    WithoutUrlUrls(w.caches[h].items, url);
    if w.named.Some? {
      var n := w.named.value;
      if DeletePending(w.writers) { DeleteStays(w.writers, id, if next.Some? then next.value else w.writers[id]); }
      forall u | u in Urls(w'.caches[n].items) && Covered(w.writers, n, u)
        ensures Covered(w'.writers, n, u)
      {
        if next.Some? { CoveredStays(w.writers, id, next.value, n, u); } else { CoveredWithout(w.writers, id, n, u); }
      }
      StaysBounded(w, w');
    } else {
      EmptyBounded(w');
    }
  }

  lemma {:induction false} UrlsSize(items: seq<Item>)
    ensures |Urls(items)| <= |items|
  {
    if items == [] {
      assert Urls(items) == {};
    } else {
      var n := |items| - 1;
      UrlsSize(items[..n]);
      assert Urls(items) == Urls(items[..n]) + {items[n].url};
    }
  }

  lemma UrlsJoin(a: seq<Item>, b: seq<Item>)
    ensures Urls(a + b) == Urls(a) + Urls(b)
  {
    UrlsOf(a);
    UrlsOf(b);
    UrlsOf(a + b);
    forall u | u in Urls(a) + Urls(b) ensures u in Urls(a + b) {
      var x :| (x in a || x in b) && x.url == u;
      assert x in a + b;
    }
  }

  /** Listing takes charge of everything beyond the limit. */
  lemma ListBounded(w: World, id: WriterId)
    requires Inv(w) && id in w.writers && w.writers[id].Listing? && w.writers[id].handle in w.caches
    ensures var w' := ListNext(w, id); Bounded(w'.caches, w'.named, w'.writers)
  {
    hide PagesOk, EpochsOk, Owned, Covered, Urls, DeletePending, Bounded, DistinctUrls;
    var w' := ListNext(w, id);
    BoundedDistinct(w);
    var h := w.writers[id].handle;
    if w.named == Some(h) {
      var items := w.caches[h].items;
      var excess := Excess(items);
      var rest := items[|excess|..];
      assert items == excess + rest;
      UrlsJoin(excess, rest);
      UrlsSize(rest);
      forall u | u in Urls(excess) ensures Covered(w'.writers, h, u) { CoveredNow(w'.writers, id, h, u); }
      SubsetSize(Uncovered(w'.caches[h], w'.writers, h), Urls(rest));
      NamedBounded(w', h);
    } else if w.named.Some? {
      var n := w.named.value;
      if DeletePending(w.writers) { DeleteStays(w.writers, id, w'.writers[id]); }
      forall u | Covered(w.writers, n, u)
        ensures Covered(w'.writers, n, u)
      {
        CoveredStays(w.writers, id, w'.writers[id], n, u);
      }
      StaysBounded(w, w');
    } else {
      EmptyBounded(w');
    }
  }

  lemma NamedBounded(w: World, h: CacheId)
    requires forall g :: g in w.caches ==> DistinctUrls(w.caches[g].items)
    requires w.named == Some(h) && h in w.caches && |Uncovered(w.caches[h], w.writers, h)| <= PRIVATE_CACHE_MAX_ENTRIES
    ensures Bounded(w.caches, w.named, w.writers)
  {
  }

  lemma FinishBounded(w: World, id: WriterId)
    requires Inv(w) && id in w.writers && w.writers[id].Evicting? && w.writers[id].urls == {}
    ensures Bounded(w.caches, w.named, w.writers - {id})
  {
    hide PagesOk, EpochsOk, Owned, Bounded;
    LeaveBounded(w, id);
  }

  lemma NoItemsDistinct()
    ensures DistinctUrls([])
  {
  }

  lemma SyncBounded(w: World, p: PageId)
    requires Inv(w) && p in w.pages
    ensures var w' := SyncStep(w, p); Bounded(w'.caches, w'.named, w'.writers)
  {
    hide PagesOk, EpochsOk, Owned, Covered, Urls, DeletePending, Bounded, DistinctUrls;
    var w' := SyncStep(w, p);
    SyncItems(w, w.pages[p]);
    BoundedDistinct(w);
    hide PageStep, HandlesOk;
    NoItemsDistinct();
    if w.named.Some? && w'.named.Some? {
      StaysBounded(w, w');
    } else {
      EmptyBounded(w');
    }
  }

  /** A page changes no entries: it writes the marker, makes an empty cache, or takes the name away. */
  lemma SyncItems(w: World, sync: Sync)
    requires HandlesOk(w)
    ensures var w' := PageStep(w, sync).0;
            && w'.writers == w.writers
            && (forall h :: h in w.caches ==> h in w'.caches && w'.caches[h].items == w.caches[h].items)
            && (forall h :: h in w'.caches && h !in w.caches ==> w'.caches[h].items == [])
            && (w.named.Some? ==> w.named.value in w.caches && (w'.named == w.named || w'.named.None?))
            && (w.named.None? && w'.named.Some? ==> w'.named.value !in w.caches)
  {
    hide HandleOf, Decide, NewMarker;
  }

  // ---------------------------------------------------------------- handles, the page's knowledge, epochs

  /** Steps other than a binding leave every marker alone, the named one if it is not taken away. */
  predicate MarkersKept(w: World, w': World) {
    && w'.nextEpoch == w.nextEpoch
    && (forall h :: h in w.caches ==> h in w'.caches && w'.caches[h].marker == w.caches[h].marker)
    && (forall h :: h in w'.caches && h !in w.caches ==> w'.caches[h].marker.None?)
    && NoneOr(NamedMarker(w'), NamedMarker(w))
  }

  lemma KnowsStill(w: World, w': World, sync: Sync)
    requires Knows(NamedMarker(w), w.caches, sync) && MarkersKept(w, w')
    ensures Knows(NamedMarker(w'), w'.caches, sync)
  {
    hide NamedMarker;
  }

  lemma PagesOkStays(w: World, w': World)
    requires PagesOk(w) && MarkersKept(w, w') && w'.pages == w.pages
    ensures PagesOk(w')
  {
    hide MarkersKept, Knows, NamedMarker;
    forall p | p in w'.pages ensures Knows(NamedMarker(w'), w'.caches, w'.pages[p]) { KnowsStill(w, w', w.pages[p]); }
  }

  lemma EpochsStay(w: World, w': World, id: WriterId)
    requires EpochsOk(w) && MarkersKept(w, w') && w'.pages == w.pages
    requires forall j :: j in w'.writers && j != id ==> j in w.writers && w'.writers[j] == w.writers[j]
    requires id in w'.writers && TagOf(w'.writers[id]).Some? ==> Minted(TagOf(w'.writers[id]).value, w.nextEpoch)
    ensures EpochsOk(w')
  {
    hide TagOf, Minted, NamedMarker, PreviousOf;
  }

  lemma MarkerMinted(w: World)
    requires HandlesOk(w) && EpochsOk(w) && NamedMarker(w).Some?
    ensures Minted(NamedMarker(w).value, w.nextEpoch)
  {
    hide TagOf, Minted;
  }

  predicate IsPageStep(step: Step) { step.SyncStart? || step.SyncNext? || step.SyncAbort? }

  predicate IsWriterStep(step: Step) { !step.Wipe? && !step.SignIn? && !IsPageStep(step) }

  lemma WriterStepHandles(w: World, step: Step)
    requires Inv(w) && IsWriterStep(step)
    ensures HandlesOk(Next(w, step))
  {
    hide Owned, Bounded, EpochsOk, PagesOk, WithoutUrl, Urls, Excess, NamedMarker;
    if step.OpenIt? { OpenHandles(w, step.writer); }
  }

  lemma OpenHandles(w: World, id: WriterId)
    requires Inv(w)
    ensures HandlesOk(Next(w, OpenIt(id)))
  {
    hide Owned, Bounded, EpochsOk, PagesOk;
  }

  lemma WriterStepMarkers(w: World, step: Step)
    requires Inv(w) && IsWriterStep(step)
    ensures MarkersKept(w, Next(w, step)) && Next(w, step).pages == w.pages
  {
    hide Owned, Bounded, EpochsOk, PagesOk, WithoutUrl, Urls, Excess, HandleOf, PageHandle, TagOf;
    if step.OpenIt? {
      OpenMarkers(w, step.writer);
    } else {
      hide Open, OpenNext;
      CachesSame(w, Next(w, step));
    }
  }

  lemma OpenMarkers(w: World, id: WriterId)
    requires HandlesOk(w)
    ensures MarkersKept(w, Next(w, OpenIt(id))) && Next(w, OpenIt(id)).pages == w.pages
  {
    hide HandleOf, PageHandle;
  }

  lemma CachesSame(w: World, w': World)
    requires HandlesOk(w) && w'.nextEpoch == w.nextEpoch && w'.caches.Keys == w.caches.Keys
    requires w'.named == w.named || w'.named.None?
    requires forall h :: h in w.caches ==> w'.caches[h].marker == w.caches[h].marker
    ensures MarkersKept(w, w')
  {
    hide HandleOf, PageHandle;
  }

  lemma WriterStepEpochs(w: World, step: Step)
    requires Inv(w) && IsWriterStep(step) && MarkersKept(w, Next(w, step)) && Next(w, step).pages == w.pages
    ensures EpochsOk(Next(w, step))
  {
    hide Owned, Bounded, PagesOk, WithoutUrl, Urls, Excess, MarkersKept, Minted;
    if NamedMarker(w).Some? { MarkerMinted(w); }
    EpochsStay(w, Next(w, step), step.writer);
  }

  lemma WriterStepOwned(w: World, step: Step)
    requires Inv(w) && IsWriterStep(step)
    ensures var w' := Next(w, step); Owned(w'.caches, w'.named, w'.writers) && Bounded(w'.caches, w'.named, w'.writers)
  {
    hide Owned, Bounded, EpochsOk, PagesOk, HandlesOk, BeginNext, OpenNext, PutNext, RecheckNext, DiscardNext,
        ListNext, EvictNext;
    match step
    case Fetch(id, url) => if id !in w.writers { FetchKeeps(w, id, url); }
    case Begin(id) => if id in w.writers && w.writers[id].Fetched? { BeginKeeps(w, id); }
    case OpenIt(id) => if id in w.writers && w.writers[id].Checked? { OpenOwned(w, id); OpenBounded(w, id); }
    case PutIt(id) =>
      if id in w.writers && w.writers[id].Opened?
          && w.writers[id].handle in w.caches { PutOwned(w, id); PutBounded(w, id); }
    case Recheck(id) => if id in w.writers && w.writers[id].Written? { RecheckOwned(w, id); RecheckBounded(w, id); }
    case Discard(id) =>
      if id in w.writers && w.writers[id].Discarding?
          && w.writers[id].handle in w.caches { DiscardOwned(w, id); DiscardBounded(w, id); }
    case DeleteAll(id) =>
      if id in w.writers && w.writers[id].DeletingAll? {
        UnnamedOwned(w, Next(w, step));
        UnnamedBounded(w, Next(w, step));
      }
    case ListKeys(id) => if id in w.writers && w.writers[id].Listing?
                         && w.writers[id].handle in w.caches { ListOwned(w, id); ListBounded(w, id); }
    case EvictOne(id, url) =>
      if id in w.writers && w.writers[id].Evicting? && url in w.writers[id].urls && w.writers[id].handle in w.caches {
        EvictOwned(w, id, url);
        EvictBounded(w, id, url);
      }
    case Finish(id) => if id in w.writers && w.writers[id].Evicting?
                       && w.writers[id].urls == {} { FinishOwned(w, id); FinishBounded(w, id); }
  }

  lemma FetchKeeps(w: World, id: WriterId, url: Url)
    requires Inv(w) && id !in w.writers
    ensures var w' := Next(w, Fetch(id, url)); Owned(w'.caches, w'.named, w'.writers)
                                               && Bounded(w'.caches, w'.named, w'.writers)
  {
    var w' := Next(w, Fetch(id, url));
    hide PagesOk, EpochsOk, Owned, Bounded, HandlesOk;
    WriterOwned(w, w', id);
    ReplaceBounded(w, w', id, w'.writers[id]);
  }

  lemma BeginKeeps(w: World, id: WriterId)
    requires Inv(w) && id in w.writers && w.writers[id].Fetched?
    ensures var w' := BeginNext(w, id); Owned(w'.caches, w'.named, w'.writers)
                                        && Bounded(w'.caches, w'.named, w'.writers)
  {
    var w' := BeginNext(w, id);
    hide PagesOk, EpochsOk, Owned, Bounded, HandlesOk;
    WriterOwned(w, w', id);
    if NamedMarker(w).Some? {
      ReplaceBounded(w, w', id, w'.writers[id]);
    } else {
      LeaveBounded(w, id);
    }
  }

  lemma LeaveBounded(w: World, id: WriterId)
    requires Inv(w) && id in w.writers && !w.writers[id].DeletingAll? && forall h :: Covers(w.writers[id], h) == {}
    ensures Bounded(w.caches, w.named, w.writers - {id})
  {
    hide PagesOk, EpochsOk, Owned, Covered, Urls, DeletePending, Bounded, DistinctUrls;
    BoundedDistinct(w);
    var w' := w.(writers := w.writers - {id});
    if w.named.Some? {
      var n := w.named.value;
      if DeletePending(w.writers) { DeleteStays(w.writers, id, w.writers[id]); }
      forall u | Covered(w.writers, n, u) ensures Covered(w'.writers, n, u) { CoveredWithout(w.writers, id, n, u); }
      StaysBounded(w, w');
    } else {
      EmptyBounded(w');
    }
  }

  lemma DiscardBounded(w: World, id: WriterId)
    requires Inv(w) && id in w.writers && w.writers[id].Discarding? && w.writers[id].handle in w.caches
    ensures var w' := DiscardNext(w, id); Bounded(w'.caches, w'.named, w'.writers)
  {
    hide PagesOk, EpochsOk, Owned, Bounded, Remove;
    RemoveBounded(w, DiscardNext(w, id), id, w.writers[id].url, None);
  }

  lemma EvictBounded(w: World, id: WriterId, url: Url)
    requires Inv(w) && id in w.writers && w.writers[id].Evicting? && w.writers[id].handle in w.caches
    ensures var w' := EvictNext(w, id, url); Bounded(w'.caches, w'.named, w'.writers)
  {
    hide PagesOk, EpochsOk, Owned, Bounded, Remove;
    RemoveBounded(w, EvictNext(w, id, url), id, url, Some(Evicting(w.writers[id].handle, w.writers[id].urls - {url})));
  }

  lemma UnnamedBounded(w: World, w': World)
    requires Bounded(w.caches, w.named, w.writers) && w'.caches == w.caches && w'.named.None?
    ensures Bounded(w'.caches, w'.named, w'.writers)
  {
  }

  lemma PageHandles(w: World, sync: Sync)
    requires HandlesOk(w)
    ensures var (w', next) := PageStep(w, sync);
            && HandlesOk(w') && w'.writers == w.writers && w'.pages == w.pages
            && (next.Some? && PageHandle(next.value).Some?
                && (PageHandle(sync).Some? ==> PageHandle(sync).value in w.caches) ==>
                  PageHandle(next.value).value in w'.caches)
  {
    hide HandleOf, NewMarker;
  }

  lemma SyncStepHandles(w: World, p: PageId)
    requires HandlesOk(w) && p in w.pages
    ensures HandlesOk(SyncStep(w, p))
  {
    PageHandles(w, w.pages[p]);
    hide HandleOf, PageStep, PageHandle;
  }

  /** An await of a page that is not its binding changes no marker. */
  lemma PageMarkers(w: World, sync: Sync)
    requires HandlesOk(w) && !sync.Writing?
    ensures MarkersKept(w, PageStep(w, sync).0)
  {
    hide HandleOf, PageHandle, Decide, NewMarker;
  }

  /** Each await of a page leaves it knowing what it is supposed to. */
  lemma PageLearns(w: World, sync: Sync)
    requires HandlesOk(w) && Knows(NamedMarker(w), w.caches, sync)
    ensures var (w', next) := PageStep(w, sync);
            next.Some? ==> next.value.user == sync.user && Knows(NamedMarker(w'), w'.caches, next.value)
  {
    hide HandleOf, NewMarker, PageHandle;
  }

  /** After a binding the marker in force is the one that was, or the binding user's. */
  lemma BindMarkers(w: World, sync: Sync, other: Sync)
    requires sync.Writing? && Knows(NamedMarker(w), w.caches, sync)
    requires other.user == sync.user && Knows(NamedMarker(w), w.caches, other)
    ensures Knows(NamedMarker(PageStep(w, sync).0), PageStep(w, sync).0.caches, other)
  {
  }

  lemma SyncStepPages(w: World, p: PageId)
    requires HandlesOk(w) && PagesOk(w) && p in w.pages
    ensures PagesOk(SyncStep(w, p))
  {
    hide HandlesOk, Knows, NamedMarker, PageStep, MarkersKept;
    var sync := w.pages[p];
    var w', next := PageStep(w, sync).0, PageStep(w, sync).1;
    PageLearns(w, sync);
    if !sync.Writing? { PageMarkers(w, sync); }
    forall q | q in SyncStep(w, p).pages
      ensures SyncStep(w, p).pages[q].user == sync.user
      ensures Knows(NamedMarker(w'), w'.caches, SyncStep(w, p).pages[q])
    {
      if q != p {
        if sync.Writing? { BindMarkers(w, sync, w.pages[q]); } else { KnowsStill(w, w', w.pages[q]); }
      }
    }
    SamePages(w', SyncStep(w, p));
  }

  lemma SamePages(w: World, w': World)
    requires w'.caches == w.caches && w'.named == w.named
    ensures NamedMarker(w') == NamedMarker(w)
  {
  }

  lemma SyncStepEpochs(w: World, p: PageId)
    requires Inv(w) && p in w.pages
    ensures EpochsOk(SyncStep(w, p))
  {
    hide Owned, Bounded, PagesOk, HandlesOk, Minted, TagOf, PageStep;
    PageEpochs(w, w.pages[p]);
  }

  /** An await of a page keeps every epoch in use minted, its own included. */
  lemma PageEpochs(w: World, sync: Sync)
    requires HandlesOk(w) && EpochsOk(w) && (PreviousOf(sync).Some? ==> Minted(PreviousOf(sync).value, w.nextEpoch))
    ensures var (w', next) := PageStep(w, sync);
            && EpochsOk(w') && w'.pages == w.pages && w'.writers == w.writers
            && (next.Some? && PreviousOf(next.value).Some? ==> Minted(PreviousOf(next.value).value, w'.nextEpoch))
  {
    hide TagOf, HandleOf, PageHandle;
    if sync.Writing? {
      BindEpochs(w, sync);
    } else {
      hide Minted;
    }
  }

  lemma BindEpochs(w: World, sync: Sync)
    requires EpochsOk(w) && sync.Writing? && (PreviousOf(sync).Some? ==> Minted(PreviousOf(sync).value, w.nextEpoch))
    ensures EpochsOk(PageStep(w, sync).0)
  {
    hide PreviousOf, TagOf;
    PreviousOfWriting(sync);
  }

  lemma PreviousOfWriting(sync: Sync)
    requires sync.Writing?
    ensures PreviousOf(sync) == sync.previous
  {
  }

  lemma PartsOf(w: World)
    requires Inv(w)
    ensures HandlesOk(w) && PagesOk(w) && EpochsOk(w)
  {
  }

  /** A page starts only beside pages of the same user. */
  predicate Agrees(w: World, step: Step) {
    step.SyncStart? ==> forall p :: p in w.pages ==> w.pages[p].user == step.user
  }

  /** Every step of a writer, a page or a purge keeps the invariant, as long as pages at work are of one user. */
  lemma StepKeeps(w: World, step: Step)
    requires Inv(w) && Agrees(w, step)
    ensures Inv(Next(w, step))
  {
    hide Owned, Bounded, EpochsOk, PagesOk, HandlesOk, MarkersKept;
    if IsWriterStep(step) {
      hide Next;
      WriterStepHandles(w, step);
      WriterStepMarkers(w, step);
      PagesOkStays(w, Next(w, step));
      WriterStepEpochs(w, step);
      WriterStepOwned(w, step);
    } else if step.SyncNext? {
      hide SyncStep;
      if step.page in w.pages {
        PartsOf(w);
        SyncOwned(w, step.page);
        SyncBounded(w, step.page);
        SyncStepHandles(w, step.page);
        SyncStepPages(w, step.page);
        SyncStepEpochs(w, step.page);
      }
    } else {
      OtherKeeps(w, step);
    }
  }

  lemma OtherKeeps(w: World, step: Step)
    requires Inv(w) && Agrees(w, step) && (step.Wipe? || step.SignIn? || step.SyncStart? || step.SyncAbort?)
    ensures Inv(Next(w, step))
  {
    hide Inv, Agrees, Next;
    if step.Wipe? {
      WipeKeeps(w);
    } else if step.SignIn? {
      SignInKeeps(w, step.session);
    } else if step.SyncAbort? {
      AbortKeeps(w, step.page);
    } else {
      StartKeeps(w, step);
    }
  }

  lemma WipeKeeps(w: World)
    requires Inv(w)
    ensures Inv(Next(w, Wipe))
  {
    hide Owned, Bounded, PagesOk, Knows, HandleOf, PageHandle, TagOf, PreviousOf;
    var w' := Next(w, Wipe);
    UnnamedOwned(w, w');
    UnnamedBounded(w, w');
    PagesOkStays(w, w');
  }

  lemma SignInKeeps(w: World, session: Option<string>)
    requires Inv(w)
    ensures Inv(Next(w, SignIn(session)))
  {
    hide Owned, Bounded, Knows, HandleOf, PageHandle, TagOf, PreviousOf, NamedMarker;
    SamePages(w, Next(w, SignIn(session)));
  }

  lemma AbortKeeps(w: World, p: PageId)
    requires Inv(w)
    ensures Inv(Next(w, SyncAbort(p)))
  {
    hide Owned, Bounded, Knows, HandleOf, PageHandle, TagOf, PreviousOf, NamedMarker;
    SamePages(w, Next(w, SyncAbort(p)));
  }

  lemma StartKeeps(w: World, step: Step)
    requires Inv(w) && step.SyncStart? && Agrees(w, step)
    ensures Inv(Next(w, step))
  {
    StartPages(w, step);
    hide Owned, Bounded, PagesOk, Knows, HandleOf, TagOf, NamedMarker, Agrees;
  }

  lemma StartPages(w: World, step: Step)
    requires PagesOk(w) && step.SyncStart? && Agrees(w, step)
    ensures PagesOk(Next(w, step))
  {
    StartKnows(w, step.user, step.drafts);
    hide Knows, NamedMarker;
    SamePages(w, Next(w, step));
  }

  lemma StartKnows(w: World, user: string, drafts: bool)
    ensures Knows(NamedMarker(w), w.caches, Listed(user, drafts, w.named.Some?))
  {
  }
}
