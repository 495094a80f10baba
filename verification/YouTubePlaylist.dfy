/** Reading a YouTube playlist page by page, whatever the server answers. */
module YouTubePlaylist {
  import opened Wrappers
  import opened Deduplication

  const PLAYLIST_ITEM_LIMIT := 5000

  const EMPTY: string := ""

  /** The item limit over the page size of 50. */
  const YOUTUBE_PAGES := 100

  datatype Page = Page(videoIds: seq<string>, nextPageToken: string)

  function Named(ids: seq<string>): seq<string>
  {
    if ids == [] then [] else (if ids[0] == EMPTY then [] else [ids[0]]) + Named(ids[1..])
  }

  /** What the server answers to its k-th request, if it does. */
  function Answer(server: nat -> Option<Page>, k: nat): Option<Page>
  {
    server(k)
  }

  /** The named videos of the first count pages; server is what it answers to its k-th request, if it does. */
  function Answered(server: nat -> Option<Page>, count: nat): seq<string>
  {
    if count == 0 then []
    else
      Answered(server, count - 1) +
      (match Answer(server, count - 1) case Some(page) => Named(page.videoIds) case None => [])
  }

  lemma {:induction false} NamedConcat(a: seq<string>, b: seq<string>)
    ensures Named(a + b) == Named(a) + Named(b)
  {
    if a == [] {
      assert a + b == b;
    } else {
      assert (a + b)[1..] == a[1..] + b;
      NamedConcat(a[1..], b);
    }
  }

  /** One page: the new videos behind the ones so far, up to the limit. */
  method AddPage(before: seq<string>, ghost earlier: seq<string>, seen: set<string>, page: seq<string>)
    returns (videoIds: seq<string>, seenVideoIds: set<string>, truncated: bool)
    requires before == FirstSeen(earlier) && |before| <= PLAYLIST_ITEM_LIMIT
    requires Marks(seen, before)
    ensures |videoIds| <= PLAYLIST_ITEM_LIMIT && videoIds <= FirstSeen(earlier + Named(page))
    ensures truncated <==> |FirstSeen(earlier + Named(page))| > PLAYLIST_ITEM_LIMIT
    ensures !truncated ==> videoIds == FirstSeen(earlier + Named(page))
    ensures Marks(seenVideoIds, videoIds)
  {
    videoIds, seenVideoIds, truncated := before, seen, false;
    var index := 0;
    assert Taken(earlier, page, 0, before) by { assert earlier + Named(page[..0]) == earlier; }
    hide *;
    while index < |page|
      invariant 0 <= index <= |page| && |videoIds| <= PLAYLIST_ITEM_LIMIT && !truncated
      invariant Taken(earlier, page, index, videoIds) && Marks(seenVideoIds, videoIds)
    {
      TakeOne(earlier, page, index, videoIds);
      MarksMore(seenVideoIds, videoIds, page[index]);
      if page[index] != EMPTY && page[index] !in seenVideoIds {
        if |videoIds| == PLAYLIST_ITEM_LIMIT {
          truncated := true;
          return;
        }
        videoIds := videoIds + [page[index]];
        seenVideoIds := seenVideoIds + {page[index]};
      }
      index := index + 1;
    }
    TakenAll(earlier, page, videoIds);
  }

  /** The videos after the first index entries of the page. */
  ghost predicate Taken(earlier: seq<string>, page: seq<string>, index: nat, videoIds: seq<string>)
    requires index <= |page|
  {
    videoIds == FirstSeen(earlier + Named(page[..index]))
  }

  lemma TakenAll(earlier: seq<string>, page: seq<string>, videoIds: seq<string>)
    requires Taken(earlier, page, |page|, videoIds)
    ensures videoIds == FirstSeen(earlier + Named(page))
  {
    assert page[..|page|] == page;
  }

  lemma TakeOne(earlier: seq<string>, page: seq<string>, index: nat, videoIds: seq<string>)
    requires index < |page| && Taken(earlier, page, index, videoIds)
    ensures page[index] == EMPTY || page[index] in videoIds ==> Taken(earlier, page, index + 1, videoIds)
    ensures page[index] != EMPTY && page[index] !in videoIds ==>
              Taken(earlier, page, index + 1, videoIds + [page[index]]) &&
              videoIds <= FirstSeen(earlier + Named(page)) && |FirstSeen(earlier + Named(page))| > |videoIds|
  {
    PageGrows(earlier, page, index);
    hide FirstSeen, Named;
    if page[index] != EMPTY && page[index] !in videoIds {
      assert videoIds <= videoIds + [page[index]];
    }
  }

  /** What the video at index adds, and that the rest of the page only appends. */
  lemma PageGrows(earlier: seq<string>, page: seq<string>, index: nat)
    requires index < |page|
    ensures var taken := FirstSeen(earlier + Named(page[..index]));
            FirstSeen(earlier + Named(page[..index + 1])) ==
              if page[index] == EMPTY || page[index] in taken then taken else taken + [page[index]]
    ensures FirstSeen(earlier + Named(page[..index + 1])) <= FirstSeen(earlier + Named(page))
  {
    var taken := earlier + Named(page[..index]);
    assert page[..index + 1] == page[..index] + [page[index]];
    NamedConcat(page[..index], [page[index]]);
    assert Named([page[index]]) == if page[index] == EMPTY then [] else [page[index]];
    if page[index] != EMPTY {
      assert earlier + Named(page[..index + 1]) == taken + [page[index]];
      FirstSeenSnoc(taken, page[index]);
    } else {
      assert earlier + Named(page[..index + 1]) == taken;
    }
    assert page == page[..index + 1] + page[index + 1..];
    NamedConcat(page[..index + 1], page[index + 1..]);
    assert earlier + Named(page) == (earlier + Named(page[..index + 1])) + Named(page[index + 1..]);
    FirstSeenGrows(earlier + Named(page[..index + 1]), Named(page[index + 1..]));
  }

  ghost predicate AllAnswered(server: nat -> Option<Page>, count: nat)
  {
    forall k :: 0 <= k < count ==> Answer(server, k).Some?
  }

  lemma ReadMore(server: nat -> Option<Page>, count: nat)
    requires Answer(server, count).Some? && AllAnswered(server, count)
    ensures Answered(server, count) + Named(Answer(server, count).value.videoIds) == Answered(server, count + 1)
    ensures AllAnswered(server, count + 1)
  {
  }

  /** The list is the videos of the first count pages in first-seen order, each once, up to the limit, complete unless
      marked truncated, and marked exactly when more videos or another page were there. */
  ghost predicate Lists(server: nat -> Option<Page>, count: nat, items: seq<string>, truncated: bool)
    requires count > 0 && Answer(server, count - 1).Some?
  {
    var all := FirstSeen(Answered(server, count));
    && |items| <= PLAYLIST_ITEM_LIMIT && items <= all
    && (!truncated ==> items == all)
    && (truncated <==> |all| > PLAYLIST_ITEM_LIMIT || Answer(server, count - 1).value.nextPageToken != EMPTY)
  }

  lemma ListsEachOnce(server: nat -> Option<Page>, count: nat, items: seq<string>, truncated: bool)
    requires count > 0 && Answer(server, count - 1).Some? && Lists(server, count, items, truncated)
    ensures Distinct(items) && |items| <= 5000 && forall x :: x in items ==> x in Answered(server, count)
  {
    FirstSeenIsDistinct(Answered(server, count));
    PrefixIsDistinct(items, FirstSeen(Answered(server, count)));
    assert forall i :: 0 <= i < |items| ==> items[i] == FirstSeen(Answered(server, count))[i];
  }

  /** The page token of request k, empty for the first one. */
  function Token(server: nat -> Option<Page>, k: nat): string
  {
    if k == 0 then EMPTY else match Answer(server, k - 1) case Some(page) => page.nextPageToken case None => EMPTY
  }

  /** The tokens of the first count requests. */
  function Tokens(server: nat -> Option<Page>, count: nat): set<string>
  {
    set k | 0 <= k < count :: Token(server, k)
  }

  /** After count pages nothing more is requested: the videos exceed the limit, the pages do, there is no next page or
      it was requested before. */
  ghost predicate MustStop(server: nat -> Option<Page>, count: nat)
  {
    || |FirstSeen(Answered(server, count))| > PLAYLIST_ITEM_LIMIT || count >= YOUTUBE_PAGES
    || Token(server, count) == EMPTY || Token(server, count) in Tokens(server, count)
  }

  /** The requests that are made: all up to the first that is not answered or after which reading must stop. */
  ghost predicate Requests(server: nat -> Option<Page>, ok: bool, requests: nat)
  {
    && 1 <= requests <= 100 && AllAnswered(server, requests - 1)
    && (ok <==> Answer(server, requests - 1).Some?)
    && (forall k :: 0 < k < requests ==> !MustStop(server, k))
    && (ok ==> MustStop(server, requests))
  }

  lemma PageAppends(server: nat -> Option<Page>, n: nat)
    ensures FirstSeen(Answered(server, n)) <= FirstSeen(Answered(server, n + 1))
  {
    var page := match Answer(server, n) case Some(page) => Named(page.videoIds) case None => [];
    var all := Answered(server, n);
    assert Answered(server, n + 1) == all + page;
    hide Answered, Named, FirstSeen;
    FirstSeenGrows(all, page);
  }

  lemma {:induction false} AnsweredGrows(server: nat -> Option<Page>, m: nat, n: nat)
    requires m <= n
    ensures FirstSeen(Answered(server, m)) <= FirstSeen(Answered(server, n))
  {
    hide Answered, FirstSeen;
    if m < n {
      AnsweredGrows(server, m, n - 1);
      PageAppends(server, n - 1);
    }
  }

  /** Pages linked without a cycle, no more than are read at most and with no more videos than fit, are all read and
      listed in full. */
  lemma ChainIsListed(server: nat -> Option<Page>, count: nat, ok: bool, items: seq<string>, truncated: bool,
                      requests: nat)
    requires 0 < count <= 100 && AllAnswered(server, count) && Token(server, count) == EMPTY
    requires forall k :: 0 < k < count ==> Token(server, k) != EMPTY && Token(server, k) !in Tokens(server, k)
    requires |FirstSeen(Answered(server, count))| <= 5000
    requires Requests(server, ok, requests) && (ok ==> Lists(server, requests, items, truncated))
    ensures ok && requests == count && !truncated && items == FirstSeen(Answered(server, count))
  {
    assert 0 < count < requests ==> !MustStop(server, count);
    AnsweredGrows(server, requests, count);
    hide FirstSeen, Answered;
    assert 0 < requests < count ==>
           Token(server, requests) != EMPTY && Token(server, requests) !in Tokens(server, requests);
  }

  /** Where the loop stands before its next request: every page so far was answered and taken in full, and reading could
      go on behind each before the last. */
  ghost predicate Reading(server: nat -> Option<Page>, requests: nat, tokens: set<string>, next: string,
                          videoIds: seq<string>, seen: set<string>)
  {
    && AllAnswered(server, requests) && requests == |tokens| && (requests == 0 ==> next == EMPTY)
    && (requests > 0 ==> Answer(server, requests - 1).value.nextPageToken == next != EMPTY)
    && videoIds == FirstSeen(Answered(server, requests)) && |videoIds| <= PLAYLIST_ITEM_LIMIT && Marks(seen, videoIds)
    && tokens == Tokens(server, requests) && next == Token(server, requests)
    && forall k :: 0 < k < requests ==> !MustStop(server, k)
  }

  lemma GoesOn(server: nat -> Option<Page>, requests: nat, tokens: set<string>, next: string,
               videoIds: seq<string>, seen: set<string>)
    requires Reading(server, requests, tokens, next, videoIds, seen) && next !in tokens && |tokens| < YOUTUBE_PAGES
    ensures forall k :: 0 < k < requests + 1 ==> !MustStop(server, k)
    ensures Tokens(server, requests + 1) == tokens + {next}
  {
    hide FirstSeen, Answered, Marks, Answer;
  }

  /** One request. */
  method ReadPage(server: nat -> Option<Page>, requests: nat, tokens: set<string>, next: string,
                  before: seq<string>, seen: set<string>)
    returns (page: Option<Page>, videoIds: seq<string>, seenVideoIds: set<string>, truncated: bool)
    requires Reading(server, requests, tokens, next, before, seen) && next !in tokens && |tokens| < YOUTUBE_PAGES
    ensures page == Answer(server, requests)
    ensures forall k :: 0 < k < requests + 1 ==> !MustStop(server, k)
    ensures page.Some? && (truncated || page.value.nextPageToken == EMPTY) ==>
              Lists(server, requests + 1, videoIds, truncated) && MustStop(server, requests + 1)
    ensures page.Some? && !truncated && page.value.nextPageToken != EMPTY ==>
              Reading(server, requests + 1, tokens + {next}, page.value.nextPageToken, videoIds, seenVideoIds)
  {
    GoesOn(server, requests, tokens, next, before, seen);
    page, videoIds, seenVideoIds, truncated := Answer(server, requests), before, seen, false;
    if page.Some? {
      ReadMore(server, requests);
      ghost var answered := Answered(server, requests);
      hide FirstSeen, Answered, Named, Marks, Tokens;
      videoIds, seenVideoIds, truncated := AddPage(before, answered, seen, page.value.videoIds);
    }
  }

  lemma StartsReading(server: nat -> Option<Page>)
    ensures Reading(server, 0, {}, EMPTY, [], {})
  {
  }

  /** A list that still has a page behind it is truncated. */
  lemma CutShort(server: nat -> Option<Page>, requests: nat, tokens: set<string>, next: string,
                 videoIds: seq<string>, seen: set<string>)
    requires Reading(server, requests, tokens, next, videoIds, seen)
    ensures AllAnswered(server, requests) && requests == |tokens|
    ensures requests > 0 ==> Answer(server, requests - 1).Some? && Lists(server, requests, videoIds, true)
    ensures forall k :: 0 < k < requests ==> !MustStop(server, k)
    ensures requests == 0 ==> tokens == {}
    ensures next in tokens || |tokens| >= YOUTUBE_PAGES ==> MustStop(server, requests)
  {
    hide FirstSeen, Answered, Marks;
  }

  /** Whatever the server answers, endless or cyclic: exactly the requests that Requests allows, at most YOUTUBE_PAGES,
      and a list exactly as Lists says. */
  method GetProviderPlaylist(server: nat -> Option<Page>)
    returns (ok: bool, videoIds: seq<string>, truncated: bool, requests: nat)
    ensures Requests(server, ok, requests)
    ensures ok ==> Lists(server, requests, videoIds, truncated)
  {
    hide Reading, Lists, MustStop, Answer, Answered, FirstSeen, Marks;
    StartsReading(server);
    ok, videoIds, truncated, requests := true, [], false, 0;
    var seenVideoIds: set<string>, seenPageTokens: set<string>, nextPageToken := {}, {}, EMPTY;
    while true
      invariant requests <= YOUTUBE_PAGES && ok && !truncated
      invariant Reading(server, requests, seenPageTokens, nextPageToken, videoIds, seenVideoIds)
      decreases YOUTUBE_PAGES - requests
    {
      CutShort(server, requests, seenPageTokens, nextPageToken, videoIds, seenVideoIds);
      if nextPageToken in seenPageTokens || |seenPageTokens| >= YOUTUBE_PAGES {
        truncated := true;
        break;
      }
      var page;
      page, videoIds, seenVideoIds, truncated :=
        ReadPage(server, requests, seenPageTokens, nextPageToken, videoIds, seenVideoIds);
      seenPageTokens := seenPageTokens + {nextPageToken};
      requests := requests + 1;
      if page.None? {
        ok := false;
        return;
      }
      if truncated || page.value.nextPageToken == EMPTY {
        break;
      }
      nextPageToken := page.value.nextPageToken;
    }
  }
}
