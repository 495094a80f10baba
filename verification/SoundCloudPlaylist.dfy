/** Reading a SoundCloud playlist page by page, whatever the provider answers. */
module SoundCloudPlaylist {
  import opened Wrappers
  import opened Deduplication

  const PLAYLIST_ITEM_LIMIT := 5000

  /** The item limit over the page size of 200. */
  const SOUNDCLOUD_PAGES := 25

  const EMPTY: string := ""

  /** A listed track; complete tells that it has a title and a permalink. */
  datatype Track = Track(id: int, complete: bool)

  datatype TracksPage = TracksPage(collection: seq<Track>, nextHref: string)

  /** The provider: its tracks pages, and which of a page's new tracks it reports as playable and embeddable everywhere,
      if it answers properly. */
  datatype Provider = Provider(pages: nat -> Option<TracksPage>, playable: (nat, seq<int>) -> Option<set<int>>)
  {
    function PageAt(k: nat): Option<TracksPage> { pages(k) }

    function PlayableAt(k: nat, ids: seq<int>): Option<set<int>> { playable(k, ids) }
  }

  // ---------------------------------------------------------------- what should be listed

  predicate Counts(t: Track) { t.id != 0 && t.complete }

  /** The tracks of a page that were not seen before, each once, in order. */
  function New(seen: set<int>, page: seq<Track>): seq<int>
    decreases |page|
  {
    if page == [] then []
    else if Counts(page[0]) && page[0].id !in seen then [page[0].id] + New(seen + {page[0].id}, page[1..])
    else New(seen, page[1..])
  }

  function Filter(ids: seq<int>, accepted: set<int>): seq<int>
  {
    if ids == [] then [] else (if ids[0] in accepted then [ids[0]] else []) + Filter(ids[1..], accepted)
  }

  function Elements(ids: seq<int>): set<int>
  {
    set x | x in ids
  }

  /** The listed items and all track IDs seen. */
  datatype Progress = Progress(items: seq<int>, seen: set<int>)

  /** After count pages taken in full, if all of them were answered. */
  function Progressed(p: Provider, count: nat): Option<Progress>
  {
    if count == 0 then Some(Progress([], {}))
    else
      match Progressed(p, count - 1)
      case None => None
      case Some(before) => TakePage(p, count - 1, before)
  }

  function TakePage(p: Provider, k: nat, before: Progress): Option<Progress>
  {
    if p.PageAt(k).None? then None
    else
      var added := New(before.seen, p.PageAt(k).value.collection);
      match p.PlayableAt(k, added)
      case None => None
      case Some(accepted) => Some(Progress(before.items + Filter(added, accepted), before.seen + Elements(added)))
  }

  /** The part of a page's new tracks that there is room for. */
  function Cut(before: Progress, page: TracksPage): seq<int>
  {
    var added := New(before.seen, page.collection);
    if |before.items| + |added| > PLAYLIST_ITEM_LIMIT >= |before.items|
    then added[..PLAYLIST_ITEM_LIMIT - |before.items|]
    else added
  }

  /** The provider answers its count-th page request and the request for the metadata of that page's tracks. */
  ghost predicate Answers(p: Provider, count: nat)
    requires count > 0 && Progressed(p, count - 1).Some?
  {
    && p.PageAt(count - 1).Some?
    && p.PlayableAt(count - 1, Cut(Progressed(p, count - 1).value, p.PageAt(count - 1).value)).Some?
  }

  /** The last page is taken in full or up to the limit; truncated exactly when the limit cut it or a page follows. */
  ghost predicate Lists(p: Provider, count: nat, items: seq<int>, truncated: bool)
  {
    && count > 0 && Progressed(p, count - 1).Some? && Answers(p, count)
    && var before, page := Progressed(p, count - 1).value, p.PageAt(count - 1).value;
       var cut := Cut(before, page);
       && |before.items| <= PLAYLIST_ITEM_LIMIT
       && items == before.items + Filter(cut, p.PlayableAt(count - 1, cut).value)
       && (truncated <==> |cut| < |New(before.seen, page.collection)| || page.nextHref != EMPTY)
  }

  // ---------------------------------------------------------------- the order of the listed tracks

  function Ids(tracks: seq<Track>): seq<int>
  {
    if tracks == [] then [] else (if Counts(tracks[0]) then [tracks[0].id] else []) + Ids(tracks[1..])
  }

  /** The complete tracks of the first count pages. */
  function Listed(p: Provider, count: nat): seq<int>
  {
    if count == 0 then []
    else Listed(p, count - 1) + (match p.PageAt(count - 1) case Some(page) => Ids(page.collection) case None => [])
  }

  lemma Regroup(a: seq<int>, x: int, b: seq<int>)
    ensures a + ([x] + b) == a + [x] + b
  {
  }

  /** A page's new tracks continue the first occurrences of everything listed. */
  lemma {:induction false} NewIsFirstSeen(seen: set<int>, earlier: seq<int>, page: seq<Track>)
    requires Marks(seen, FirstSeen(earlier))
    ensures FirstSeen(earlier) + New(seen, page) == FirstSeen(earlier + Ids(page))
    decreases |page|
  {
    hide FirstSeen, Marks;
    if page == [] {
      assert earlier + Ids(page) == earlier;
    } else if Counts(page[0]) {
      var x, rest := page[0].id, page[1..];
      FirstSeenSnoc(earlier, x);
      MarksMore(seen, FirstSeen(earlier), x);
      Regroup(earlier, x, Ids(rest));
      Regroup(FirstSeen(earlier), x, New(seen + {x}, rest));
      if x in seen {
        NewIsFirstSeen(seen, earlier + [x], rest);
      } else {
        NewIsFirstSeen(seen + {x}, earlier + [x], rest);
      }
    } else {
      assert [] + Ids(page[1..]) == Ids(page[1..]);
      NewIsFirstSeen(seen, earlier, page[1..]);
    }
  }

  /** The tracks seen are the first occurrences in all pages, and the next page adds the ones that come next. */
  lemma {:induction false} ProgressIsFirstSeen(p: Provider, count: nat)
    requires Progressed(p, count).Some?
    ensures Marks(Progressed(p, count).value.seen, FirstSeen(Listed(p, count)))
    ensures p.PageAt(count).Some? ==>
              FirstSeen(Listed(p, count)) + New(Progressed(p, count).value.seen, p.PageAt(count).value.collection)
              == FirstSeen(Listed(p, count + 1))
  {
    if count > 0 {
      ProgressIsFirstSeen(p, count - 1);
      var before := Progressed(p, count - 1).value;
      var added := New(before.seen, p.PageAt(count - 1).value.collection);
      assert FirstSeen(Listed(p, count)) == FirstSeen(Listed(p, count - 1)) + added;
    }
    if p.PageAt(count).Some? {
      NewIsFirstSeen(Progressed(p, count).value.seen, Listed(p, count), p.PageAt(count).value.collection);
    }
  }

  /** A track of the page with an ID, a title and a permalink. */
  ghost predicate OnPage(page: seq<Track>, id: int)
  {
    id != 0 && exists i :: 0 <= i < |page| && page[i].id == id && page[i].complete
  }

  lemma {:induction false} IdsAre(page: seq<Track>, id: int)
    ensures id in Ids(page) <==> OnPage(page, id)
  {
    if page != [] {
      IdsAre(page[1..], id);
      if OnPage(page[1..], id) {
        var i :| 0 <= i < |page[1..]| && page[1..][i].id == id && page[1..][i].complete;
        assert page[i + 1].id == id && page[i + 1].complete;
      }
      if OnPage(page, id) && !(page[0].id == id && page[0].complete) {
        var i :| 0 <= i < |page| && page[i].id == id && page[i].complete;
        assert page[1..][i - 1].id == id;
      }
    }
  }

  /** The tracks seen are exactly those with an ID, a title and a permalink on one of the pages. */
  lemma {:induction false} SeenIff(p: Provider, count: nat, id: int)
    requires Progressed(p, count).Some?
    ensures id in Progressed(p, count).value.seen <==>
            exists k :: 0 <= k < count && p.PageAt(k).Some? && OnPage(p.PageAt(k).value.collection, id)
  {
    if count > 0 {
      SeenIff(p, count - 1, id);
      var before, page := Progressed(p, count - 1).value, p.PageAt(count - 1).value.collection;
      NewIff(before.seen, page, id);
      IdsAre(page, id);
      assert Progressed(p, count).value.seen == before.seen + Elements(New(before.seen, page));
      hide Progressed, New, OnPage;
    }
  }

  lemma {:induction false} NewIff(seen: set<int>, page: seq<Track>, id: int)
    ensures id in seen || id in New(seen, page) <==> id in seen || id in Ids(page)
    decreases |page|
  {
    if page != [] {
      NewIff(if Counts(page[0]) then seen + {page[0].id} else seen, page[1..], id);
      assert Counts(page[0]) && page[0].id in seen ==> seen + {page[0].id} == seen;
    }
  }

  // ---------------------------------------------------------------- each track once

  lemma {:induction false} NewIsDistinct(seen: set<int>, page: seq<Track>)
    ensures Distinct(New(seen, page)) && forall x :: x in New(seen, page) ==> x !in seen
    decreases |page|
  {
    if page != [] {
      if Counts(page[0]) && page[0].id !in seen {
        NewIsDistinct(seen + {page[0].id}, page[1..]);
        DistinctConcat([page[0].id], New(seen + {page[0].id}, page[1..]));
      } else {
        NewIsDistinct(seen, page[1..]);
      }
    }
  }

  lemma {:induction false} FilterShortens(ids: seq<int>, accepted: set<int>)
    ensures |Filter(ids, accepted)| <= |ids|
  {
    if ids != [] { FilterShortens(ids[1..], accepted); }
  }

  lemma {:induction false} FilterHas(ids: seq<int>, accepted: set<int>, i: nat)
    requires i < |Filter(ids, accepted)|
    ensures Filter(ids, accepted)[i] in ids && Filter(ids, accepted)[i] in accepted
  {
    var rest := Filter(ids[1..], accepted);
    if ids[0] in accepted {
      assert Filter(ids, accepted) == [ids[0]] + rest;
      if i > 0 { FilterHas(ids[1..], accepted, i - 1); }
    } else {
      FilterHas(ids[1..], accepted, i);
    }
  }

  lemma {:induction false} FilterIsDistinct(ids: seq<int>, accepted: set<int>)
    requires Distinct(ids)
    ensures Distinct(Filter(ids, accepted))
  {
    if ids != [] {
      var rest := ids[1..];
      forall i | 0 <= i < |rest| ensures rest[i] !in rest[..i] && rest[i] != ids[0] {
        assert rest[i] == ids[i + 1] && ids[0] in ids[..i + 1];
        assert forall x :: x in rest[..i] ==> x in ids[..i + 1];
      }
      FilterIsDistinct(rest, accepted);
      var part := Filter(rest, accepted);
      forall i | 0 <= i < |part| ensures part[i] != ids[0] {
        FilterHas(rest, accepted, i);
      }
      if ids[0] in accepted { DistinctConcat([ids[0]], Filter(rest, accepted)); }
    }
  }

  ghost predicate Tidy(progress: Progress)
  {
    Distinct(progress.items) && forall x :: x in progress.items ==> x in progress.seen
  }

  lemma PartIsTidy(before: Progress, page: seq<Track>, size: nat, accepted: set<int>)
    requires Tidy(before) && size <= |New(before.seen, page)|
    ensures var cut := New(before.seen, page)[..size];
            Tidy(Progress(before.items + Filter(cut, accepted), before.seen + Elements(cut)))
  {
    var added := New(before.seen, page);
    var cut := added[..size];
    var part := Filter(cut, accepted);
    NewIsDistinct(before.seen, page);
    PrefixIsDistinct(cut, added);
    FilterIsDistinct(cut, accepted);
    forall i | 0 <= i < |part| ensures part[i] !in before.items && part[i] in Elements(cut) {
      FilterHas(cut, accepted, i);
      PartIsNew(before.seen, page, size, part[i]);
    }
    hide New, Filter;
    DistinctConcat(before.items, part);
  }

  lemma PartIsNew(seen: set<int>, page: seq<Track>, size: nat, x: int)
    requires size <= |New(seen, page)| && x in New(seen, page)[..size]
    ensures x !in seen
  {
    NewIsDistinct(seen, page);
    var i :| 0 <= i < size && New(seen, page)[i] == x;
    assert New(seen, page)[i] in New(seen, page);
  }

  lemma {:induction false} ProgressIsTidy(p: Provider, count: nat)
    ensures Progressed(p, count).Some? ==> Tidy(Progressed(p, count).value)
  {
    if count > 0 && Progressed(p, count).Some? {
      ProgressIsTidy(p, count - 1);
      var before, page := Progressed(p, count - 1).value, p.PageAt(count - 1).value.collection;
      var added := New(before.seen, page);
      assert added[..|added|] == added;
      PartIsTidy(before, page, |added|, p.PlayableAt(count - 1, added).value);
    }
  }

  /** Whatever is listed, no track is listed twice, and no more than the limit. */
  lemma ListsEachOnce(p: Provider, count: nat, items: seq<int>, truncated: bool)
    requires Lists(p, count, items, truncated)
    ensures Distinct(items) && |items| <= 5000
  {
    ProgressIsTidy(p, count - 1);
    var before, page := Progressed(p, count - 1).value, p.PageAt(count - 1).value;
    var added, cut := New(before.seen, page.collection), Cut(before, page);
    assert cut == added[..|cut|];
    var accepted := p.PlayableAt(count - 1, cut).value;
    PartIsTidy(before, page.collection, |cut|, accepted);
    FilterShortens(cut, accepted);
  }

  // ---------------------------------------------------------------- what is listed, and in which order

  /** The track is new on page k and reported as playable with that page's new tracks. */
  ghost predicate AcceptedOn(p: Provider, k: nat, id: int)
  {
    && Progressed(p, k).Some? && p.PageAt(k).Some?
    && var added := New(Progressed(p, k).value.seen, p.PageAt(k).value.collection);
       id in added && p.PlayableAt(k, added).Some? && id in p.PlayableAt(k, added).value
  }

  lemma {:induction false} FilterIff(ids: seq<int>, accepted: set<int>, id: int)
    ensures id in Filter(ids, accepted) <==> id in ids && id in accepted
  {
    if ids != [] { FilterIff(ids[1..], accepted, id); }
  }

  /** From pages taken in full exactly the accepted tracks are listed. */
  lemma {:induction false} ListedIff(p: Provider, count: nat, id: int)
    requires Progressed(p, count).Some?
    ensures id in Progressed(p, count).value.items <==> exists k :: 0 <= k < count && AcceptedOn(p, k, id)
  {
    if count > 0 {
      ListedIff(p, count - 1, id);
      var before := Progressed(p, count - 1).value;
      var added := New(before.seen, p.PageAt(count - 1).value.collection);
      var accepted := p.PlayableAt(count - 1, added).value;
      FilterIff(added, accepted, id);
      assert AcceptedOn(p, count - 1, id) <==> id in added && id in accepted;
      assert Progressed(p, count).value.items == before.items + Filter(added, accepted);
      hide Progressed, New, Filter, AcceptedOn;
    }
  }

  /** a comes before b in ids. */
  ghost predicate Precedes(ids: seq<int>, a: int, b: int)
  {
    exists i, j :: 0 <= i < j < |ids| && ids[i] == a && ids[j] == b
  }

  lemma {:induction false} FilterInOrder(ids: seq<int>, accepted: set<int>, i: nat, j: nat)
    requires i < j < |Filter(ids, accepted)|
    ensures Precedes(ids, Filter(ids, accepted)[i], Filter(ids, accepted)[j])
  {
    var rest := Filter(ids[1..], accepted);
    var part := Filter(ids, accepted);
    if ids[0] in accepted && i == 0 {
      FilterHas(ids[1..], accepted, j - 1);
      assert part == [ids[0]] + rest;
      var k :| 0 <= k < |ids[1..]| && ids[1..][k] == rest[j - 1];
      assert ids[k + 1] == part[j];
    } else {
      var shift := if ids[0] in accepted then 1 else 0;
      FilterInOrder(ids[1..], accepted, i - shift, j - shift);
      assert part[i] == rest[i - shift] && part[j] == rest[j - shift];
      var k, m :| 0 <= k < m < |ids[1..]| && ids[1..][k] == part[i] && ids[1..][m] == part[j];
      assert ids[k + 1] == part[i] && ids[m + 1] == part[j];
    }
  }

  lemma PrecedesInConcat(a: seq<int>, b: seq<int>, x: int, y: int)
    ensures Precedes(a, x, y) || Precedes(b, x, y) || (x in a && y in b) ==> Precedes(a + b, x, y)
  {
    var s := a + b;
    if Precedes(a, x, y) {
      var i, j :| 0 <= i < j < |a| && a[i] == x && a[j] == y;
      assert s[i] == x && s[j] == y;
    } else if Precedes(b, x, y) {
      var i, j :| 0 <= i < j < |b| && b[i] == x && b[j] == y;
      assert s[|a| + i] == x && s[|a| + j] == y;
    } else if x in a && y in b {
      var i, j :| 0 <= i < |a| && 0 <= j < |b| && a[i] == x && b[j] == y;
      assert s[i] == x && s[|a| + j] == y;
    }
  }

  lemma PageInOrder(first: seq<int>, items: seq<int>, added: seq<int>, accepted: set<int>, i: nat, j: nat)
    requires i < j < |items + Filter(added, accepted)| && forall x :: x in items ==> x in first
    requires j < |items| ==> Precedes(first, items[i], items[j])
    ensures Precedes(first + added, (items + Filter(added, accepted))[i], (items + Filter(added, accepted))[j])
  {
    var all := items + Filter(added, accepted);
    if j >= |items| {
      FilterHas(added, accepted, j - |items|);
      if i < |items| {
        assert items[i] in items;
      } else {
        FilterInOrder(added, accepted, i - |items|, j - |items|);
      }
    }
    hide Filter, Precedes;
    PrecedesInConcat(first, added, all[i], all[j]);
  }

  /** The items of count pages are those of the pages before and of the last one. */
  lemma ItemsAre(p: Provider, count: nat)
    requires Progressed(p, count).Some? && Progressed(p, count).value.items != []
    ensures count > 0 && Progressed(p, count - 1).Some? && p.PageAt(count - 1).Some?
    ensures var before, page := Progressed(p, count - 1).value, p.PageAt(count - 1).value.collection;
            var added := New(before.seen, page);
            && p.PlayableAt(count - 1, added).Some?
            && Progressed(p, count).value.items == before.items + Filter(added, p.PlayableAt(count - 1, added).value)
  {
  }

  /** The listed tracks are in the order in which the pages first name them. */
  lemma {:induction false} ListedInOrder(p: Provider, count: nat, i: nat, j: nat)
    requires Progressed(p, count).Some? && i < j < |Progressed(p, count).value.items|
    ensures var items := Progressed(p, count).value.items;
            Precedes(FirstSeen(Listed(p, count)), items[i], items[j])
  {
    hide *;
    ItemsAre(p, count);
    var before, page := Progressed(p, count - 1).value, p.PageAt(count - 1).value.collection;
    var added := New(before.seen, page);
    var accepted := p.PlayableAt(count - 1, added).value;
    var first := FirstSeen(Listed(p, count - 1));
    ProgressIsFirstSeen(p, count - 1);
    ProgressIsTidy(p, count - 1);
    SeenFirst(before, first);
    if j < |before.items| { ListedInOrder(p, count - 1, i, j); }
    PageInOrder(first, before.items, added, accepted, i, j);
  }

  lemma SeenFirst(progress: Progress, first: seq<int>)
    requires Tidy(progress) && Marks(progress.seen, first)
    ensures forall x :: x in progress.items ==> x in first
  {
  }

  // ---------------------------------------------------------------- the loops

  /** The new tracks of one page, as long as there is room. */
  method CollectTracks(seen: set<int>, page: seq<Track>, room: nat)
    returns (trackIds: seq<int>, seenTrackIds: set<int>, truncated: bool)
    ensures var added := New(seen, page);
            && (truncated <==> |added| > room) && trackIds == (if truncated then added[..room] else added)
            && seenTrackIds == seen + Elements(trackIds)
  {
    trackIds, seenTrackIds, truncated := [], seen, false;
    var index := 0;
    while index < |page|
      invariant 0 <= index <= |page| && !truncated && |trackIds| <= room
      invariant trackIds + New(seenTrackIds, page[index..]) == New(seen, page)
      invariant seenTrackIds == seen + Elements(trackIds)
    {
      if Counts(page[index]) && page[index].id !in seenTrackIds {
        if |trackIds| == room {
          truncated := true;
          return;
        }
        trackIds := trackIds + [page[index].id];
        seenTrackIds := seenTrackIds + {page[index].id};
      }
      index := index + 1;
    }
  }

  /** The URL of request k, empty when there is none. */
  function Url(p: Provider, firstUrl: string, k: nat): string
  {
    if k == 0 then firstUrl else match p.PageAt(k - 1) case Some(page) => page.nextHref case None => EMPTY
  }

  /** The URLs of the first count requests. */
  function Urls(p: Provider, firstUrl: string, count: nat): set<string>
  {
    set k | 0 <= k < count :: Url(p, firstUrl, k)
  }

  /** The last of count pages has more new tracks than there is room for. */
  ghost predicate LimitCuts(p: Provider, count: nat)
  {
    && count > 0 && Progressed(p, count - 1).Some? && p.PageAt(count - 1).Some?
    && var before, page := Progressed(p, count - 1).value, p.PageAt(count - 1).value;
       |before.items| + |New(before.seen, page.collection)| > PLAYLIST_ITEM_LIMIT
  }

  /** After count pages nothing more is requested: the tracks exceed the limit, the pages do, there is no next page or
      it was requested before. */
  ghost predicate MustStop(p: Provider, firstUrl: string, count: nat)
  {
    || LimitCuts(p, count) || count >= SOUNDCLOUD_PAGES
    || Url(p, firstUrl, count) == EMPTY || Url(p, firstUrl, count) in Urls(p, firstUrl, count)
  }

  /** The requests that are made: all up to the first that is not answered or after which reading must stop. */
  ghost predicate Requests(p: Provider, firstUrl: string, ok: bool, requests: nat)
  {
    && 1 <= requests <= 25 && Progressed(p, requests - 1).Some? && (ok <==> Answers(p, requests))
    && (forall k :: 0 < k < requests ==> !MustStop(p, firstUrl, k))
    && (ok ==> MustStop(p, firstUrl, requests))
  }

  lemma {:induction false} ProgressedBefore(p: Provider, m: nat, n: nat)
    requires m <= n && Progressed(p, n).Some?
    ensures Progressed(p, m).Some?
  {
    if m < n { ProgressedBefore(p, m, n - 1); }
  }

  /** Pages linked without a cycle, no more than are read at most, all answered and with no more tracks than fit, are
      all read, and all their playable tracks are listed. */
  lemma ChainIsListed(p: Provider, firstUrl: string, count: nat, ok: bool, items: seq<int>, truncated: bool,
                      requests: nat)
    requires 0 < count <= 25 && Progressed(p, count).Some? && Url(p, firstUrl, count) == EMPTY
    requires forall k :: 0 < k < count ==>
               Url(p, firstUrl, k) != EMPTY && Url(p, firstUrl, k) !in Urls(p, firstUrl, k)
    requires forall k :: 0 < k <= count ==> !LimitCuts(p, k)
    requires Requests(p, firstUrl, ok, requests) && (ok ==> Lists(p, requests, items, truncated))
    ensures ok && requests == count && !truncated && items == Progressed(p, count).value.items
  {
    assert 0 < count < requests ==> !MustStop(p, firstUrl, count);
    ProgressedBefore(p, requests, count);
    assert 0 < requests < count ==>
           Url(p, firstUrl, requests) != EMPTY && Url(p, firstUrl, requests) !in Urls(p, firstUrl, requests);
    assert !LimitCuts(p, requests);
  }

  /** Where the loop stands before its next request: every page so far was answered and taken in full, and reading could
      go on behind each before the last. */
  ghost predicate Reading(p: Provider, firstUrl: string, requests: nat, pages: set<string>, next: string,
                          items: seq<int>, seen: set<int>)
  {
    && Progressed(p, requests) == Some(Progress(items, seen)) && |items| <= PLAYLIST_ITEM_LIMIT && requests == |pages|
    && (if requests == 0 then next != EMPTY
        else p.PageAt(requests - 1).Some? && p.PageAt(requests - 1).value.nextHref == next
             && Lists(p, requests, items, next != EMPTY))
    && pages == Urls(p, firstUrl, requests) && next == Url(p, firstUrl, requests) && !LimitCuts(p, requests)
    && forall k :: 0 < k < requests ==> !MustStop(p, firstUrl, k)
  }

  lemma GoesOn(p: Provider, firstUrl: string, requests: nat, pages: set<string>, next: string, items: seq<int>,
               seen: set<int>)
    requires Reading(p, firstUrl, requests, pages, next, items, seen)
    requires next != EMPTY && next !in pages && |pages| < SOUNDCLOUD_PAGES
    ensures forall k :: 0 < k < requests + 1 ==> !MustStop(p, firstUrl, k)
    ensures Urls(p, firstUrl, requests + 1) == pages + {next}
  {
    hide Progressed, Lists, LimitCuts;
  }

  /** One page and the metadata of its new tracks. */
  method ReadPage(p: Provider, ghost firstUrl: string, requests: nat, pages: set<string>, next: string,
                  before: seq<int>, seen: set<int>)
    returns (page: Option<TracksPage>, items: seq<int>, seenTrackIds: set<int>, truncated: bool)
    requires Reading(p, firstUrl, requests, pages, next, before, seen)
    requires next != EMPTY && next !in pages && |pages| < SOUNDCLOUD_PAGES
    ensures forall k :: 0 < k < requests + 1 ==> !MustStop(p, firstUrl, k)
    ensures Progressed(p, requests).Some? && (page.Some? <==> Answers(p, requests + 1))
    ensures page.Some? && truncated ==> Lists(p, requests + 1, items, true) && MustStop(p, firstUrl, requests + 1)
    ensures page.Some? && !truncated ==>
            Reading(p, firstUrl, requests + 1, pages + {next}, page.value.nextHref, items, seenTrackIds)
  {
    GoesOn(p, firstUrl, requests, pages, next, before, seen);
    hide MustStop, Url, Urls;
    page, items, seenTrackIds, truncated := p.PageAt(requests), before, seen, false;
    if page.Some? {
      var trackIds;
      trackIds, seenTrackIds, truncated := CollectTracks(seen, page.value.collection, PLAYLIST_ITEM_LIMIT - |before|);
      var tracks := p.PlayableAt(requests, trackIds);
      if tracks.None? { return None, before, seenTrackIds, truncated; }
      FilterShortens(trackIds, tracks.value);
      items := before + Filter(trackIds, tracks.value);
      assert !truncated ==> TakePage(p, requests, Progress(before, seen)) == Some(Progress(items, seenTrackIds));
      assert !truncated ==> Progressed(p, requests + 1) == TakePage(p, requests, Progress(before, seen));
    }
  }

  lemma StartsReading(p: Provider, firstUrl: string)
    requires firstUrl != EMPTY
    ensures Reading(p, firstUrl, 0, {}, firstUrl, [], {})
  {
  }

  lemma StandsAt(p: Provider, firstUrl: string, requests: nat, pages: set<string>, next: string, items: seq<int>,
                 seen: set<int>)
    requires Reading(p, firstUrl, requests, pages, next, items, seen)
    ensures requests == |pages| && (requests == 0 ==> next != EMPTY)
    ensures requests > 0 ==> Lists(p, requests, items, next != EMPTY)
    ensures requests > 0 ==> Progressed(p, requests - 1).Some? && Answers(p, requests)
    ensures forall k :: 0 < k < requests ==> !MustStop(p, firstUrl, k)
    ensures requests == 0 ==> pages == {}
    ensures next == EMPTY || next in pages || |pages| >= SOUNDCLOUD_PAGES ==> MustStop(p, firstUrl, requests)
  {
  }

  /** Whatever the provider answers, endless or cyclic: exactly the page requests that Requests allows, at most
      SOUNDCLOUD_PAGES, and a list exactly as Lists says. */
  method ResolveProviderPlaylist(p: Provider, firstUrl: string)
    returns (ok: bool, items: seq<int>, truncated: bool, requests: nat)
    requires firstUrl != EMPTY
    ensures Requests(p, firstUrl, ok, requests)
    ensures ok ==> Lists(p, requests, items, truncated)
  {
    hide Reading, Lists, Progressed, Answers, MustStop;
    StartsReading(p, firstUrl);
    ok, items, truncated, requests := true, [], false, 0;
    var seenTrackIds: set<int>, seenPages: set<string>, nextUrl := {}, {}, firstUrl;
    while nextUrl != EMPTY
      invariant requests <= SOUNDCLOUD_PAGES && ok && !truncated
      invariant Reading(p, firstUrl, requests, seenPages, nextUrl, items, seenTrackIds)
      decreases SOUNDCLOUD_PAGES - requests
    {
      StandsAt(p, firstUrl, requests, seenPages, nextUrl, items, seenTrackIds);
      if nextUrl in seenPages || |seenPages| >= SOUNDCLOUD_PAGES {
        truncated := true;
        return;
      }
      var page;
      page, items, seenTrackIds, truncated := ReadPage(p, firstUrl, requests, seenPages, nextUrl, items, seenTrackIds);
      seenPages := seenPages + {nextUrl};
      requests := requests + 1;
      if page.None? {
        ok := false;
        return;
      }
      if truncated {
        return;
      }
      nextUrl := page.value.nextHref;
    }
    StandsAt(p, firstUrl, requests, seenPages, nextUrl, items, seenTrackIds);
  }
}
