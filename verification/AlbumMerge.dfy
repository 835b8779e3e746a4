/**
 Appending a fetched page of search results to the albums already shown
 (`loadMoreAlbums`' functional state update). An album of the page is dropped
 when its truthy `_uniqueId` is among the `_uniqueId`s of the previous list, or
 its truthy `externalId` is among their `externalId`s; every other album is
 appended, in fetch order. Only the previous list is consulted.
 */
module AlbumMerge {
  import opened Options
  import opened JsText
  import opened Api

  /** `existingUniqueIds.has(key)`. */
  predicate HasUniqueId(prev: seq<Album>, key: Option<string>) {
    exists p :: p in prev && p.uniqueId == key
  }

  /** `existingExternalIds.has(key)`. */
  predicate HasExternalId(prev: seq<Album>, key: Option<string>) {
    exists p :: p in prev && p.externalId == key
  }

  /** The filter's rejection test: either truthy key already seen suffices. */
  predicate IsDuplicate(prev: seq<Album>, a: Album) {
    || (Truthy(a.uniqueId) && HasUniqueId(prev, a.uniqueId))
    || (Truthy(a.externalId) && HasExternalId(prev, a.externalId))
  }

  /** The album carries at least one truthy identity key. */
  predicate HasKey(a: Album) {
    Truthy(a.uniqueId) || Truthy(a.externalId)
  }

  /** `xs` is `ys` with some elements deleted and the rest in their order. */
  predicate IsSubsequence<T(==)>(xs: seq<T>, ys: seq<T>)
    decreases |ys|
  {
    if ys == [] then xs == []
    else
      || (xs != [] && xs[0] == ys[0] && IsSubsequence(xs[1..], ys[1..]))
      || IsSubsequence(xs, ys[1..])
  }

  /** The albums of `page` that survive the filter, in fetch order. */
  function NewAlbums(prev: seq<Album>, page: seq<Album>): seq<Album>
  {
    if page == [] then []
    else if IsDuplicate(prev, page[0]) then NewAlbums(prev, page[1..])
    else [page[0]] + NewAlbums(prev, page[1..])
  }

  /** The survivors are exactly a filter of the page: a subsequence, holding
      every copy of each album that is not a duplicate and none of the others. */
  lemma {:induction false} NewAlbumsIsFilter(prev: seq<Album>, page: seq<Album>)
    ensures |NewAlbums(prev, page)| <= |page|
    ensures IsSubsequence(NewAlbums(prev, page), page)
    ensures forall a :: multiset(NewAlbums(prev, page))[a] ==
                        if IsDuplicate(prev, a) then 0 else multiset(page)[a]
  {
    if page != [] {
      var rest := NewAlbums(prev, page[1..]);
      NewAlbumsIsFilter(prev, page[1..]);
      assert page == [page[0]] + page[1..];
      if !IsDuplicate(prev, page[0]) {
        assert ([page[0]] + rest)[1..] == rest;
      }
    }
  }

  /** `[...prevAlbums, ...uniqueNewAlbums]`. */
  function Merge(prev: seq<Album>, page: seq<Album>): seq<Album> {
    prev + NewAlbums(prev, page)
  }

  /** The merge keeps the previous list as an exact prefix and appends, in
      fetch order, exactly the albums of the page that are not duplicates. */
  lemma MergeSpec(prev: seq<Album>, page: seq<Album>)
    ensures var r := Merge(prev, page);
            && |prev| <= |r| <= |prev| + |page|
            && r[..|prev|] == prev
            && IsSubsequence(r[|prev|..], page)
            && forall a :: a in r[|prev|..] <==> a in page && !IsDuplicate(prev, a)
  {
    var appended := NewAlbums(prev, page);
    NewAlbumsIsFilter(prev, page);
    assert forall a :: a in appended <==> multiset(appended)[a] > 0;
    assert (prev + appended)[|prev|..] == appended;
  }

  /** The two `Set`s the page builds from the previous list. */
  method CollectKeys(prev: seq<Album>) returns (uniqueIds: set<Option<string>>, externalIds: set<Option<string>>)
    ensures forall k :: k in uniqueIds <==> HasUniqueId(prev, k)
    ensures forall k :: k in externalIds <==> HasExternalId(prev, k)
  {
    uniqueIds, externalIds := {}, {};
    for i := 0 to |prev|
      invariant forall k :: k in uniqueIds <==> HasUniqueId(prev[..i], k)
      invariant forall k :: k in externalIds <==> HasExternalId(prev[..i], k)
    {
      KeysOfExtendedList(prev[..i], prev[i]);
      assert prev[..i + 1] == prev[..i] + [prev[i]];
      uniqueIds := uniqueIds + {prev[i].uniqueId};
      externalIds := externalIds + {prev[i].externalId};
    }
    assert prev[..|prev|] == prev;
  }

  lemma KeysOfExtendedList(prev: seq<Album>, a: Album)
    ensures forall k :: HasUniqueId(prev + [a], k) <==> HasUniqueId(prev, k) || k == a.uniqueId
    ensures forall k :: HasExternalId(prev + [a], k) <==> HasExternalId(prev, k) || k == a.externalId
  {
    assert a in prev + [a];
    assert forall p :: p in prev + [a] <==> p in prev || p == a;
  }

  /** `moreAlbums.filter(...)` against the two key sets. */
  method FilterNewAlbums(prev: seq<Album>, page: seq<Album>,
                         existingUniqueIds: set<Option<string>>, existingExternalIds: set<Option<string>>)
    returns (uniqueNewAlbums: seq<Album>)
    requires forall k :: k in existingUniqueIds <==> HasUniqueId(prev, k)
    requires forall k :: k in existingExternalIds <==> HasExternalId(prev, k)
    ensures uniqueNewAlbums == NewAlbums(prev, page)
  {
    uniqueNewAlbums := [];
    for j := 0 to |page|
      invariant uniqueNewAlbums == NewAlbums(prev, page[..j])
    {
      var album := page[j];
      var keep := true;
      if Truthy(album.uniqueId) && album.uniqueId in existingUniqueIds {
        keep := false;
      }
      if Truthy(album.externalId) && album.externalId in existingExternalIds {
        keep := false;
      }
      assert keep <==> !IsDuplicate(prev, album);
      NewAlbumsOfOne(prev, album);
      NewAlbumsAppend(prev, page[..j], [album]);
      assert page[..j + 1] == page[..j] + [album];
      if keep {
        uniqueNewAlbums := uniqueNewAlbums + [album];
      }
    }
    assert page[..|page|] == page;
  }

  /** The merge as the page computes it: build the two key sets, filter the
      fetched page against them, append the survivors. */
  method MergeAlbums(prev: seq<Album>, page: seq<Album>) returns (merged: seq<Album>)
    ensures merged == Merge(prev, page)
  {
    var existingUniqueIds, existingExternalIds := CollectKeys(prev);
    var uniqueNewAlbums := FilterNewAlbums(prev, page, existingUniqueIds, existingExternalIds);
    merged := prev + uniqueNewAlbums;
  }

  lemma NewAlbumsOfOne(prev: seq<Album>, a: Album)
    ensures NewAlbums(prev, [a]) == if IsDuplicate(prev, a) then [] else [a]
  {
    assert [a][1..] == [];
  }

  /** The filter looks at each album against the previous list alone, so it
      distributes over concatenation of pages: albums earlier in the same page
      never cause a later one to be dropped. */
  lemma {:induction false} NewAlbumsAppend(prev: seq<Album>, p1: seq<Album>, p2: seq<Album>)
    ensures NewAlbums(prev, p1 + p2) == NewAlbums(prev, p1) + NewAlbums(prev, p2)
  {
    if p1 != [] {
      assert (p1 + p2)[0] == p1[0];
      assert (p1 + p2)[1..] == p1[1..] + p2;
      NewAlbumsAppend(prev, p1[1..], p2);
    } else {
      assert p1 + p2 == p2;
    }
  }

  /** Two equal albums in one page are both kept unless the previous list
      already holds one of their keys. */
  lemma RepeatsWithinPageAreKept(prev: seq<Album>, a: Album)
    requires !IsDuplicate(prev, a)
    ensures Merge(prev, [a, a]) == prev + [a, a]
  {
    assert [a, a] == [a] + [a];
    NewAlbumsAppend(prev, [a], [a]);
  }

  /** An album without a truthy key is never dropped: every copy in the page
      is appended. */
  lemma KeylessAlbumsAreAppended(prev: seq<Album>, page: seq<Album>, a: Album)
    requires !HasKey(a)
    ensures multiset(Merge(prev, page)[|prev|..])[a] == multiset(page)[a]
  {
    assert Merge(prev, page)[|prev|..] == NewAlbums(prev, page);
    NewAlbumsIsFilter(prev, page);
  }

  /** A key seen before stays seen once more albums are appended. */
  lemma DuplicateStaysDuplicate(prev: seq<Album>, more: seq<Album>, a: Album)
    requires IsDuplicate(prev, a)
    ensures IsDuplicate(prev + more, a)
  {
    if Truthy(a.uniqueId) && HasUniqueId(prev, a.uniqueId) {
      var p :| p in prev && p.uniqueId == a.uniqueId;
      assert p in prev + more;
    } else {
      var p :| p in prev && p.externalId == a.externalId;
      assert p in prev + more;
    }
  }

  /** A page none of whose albums repeats a key of `prev` is appended whole. */
  lemma FreshPageAppendedWhole(prev: seq<Album>, page: seq<Album>)
    requires forall a :: a in page ==> !IsDuplicate(prev, a)
    ensures Merge(prev, page) == prev + page
  {
    FreshPageKept(prev, page);
  }

  lemma {:induction false} FreshPageKept(prev: seq<Album>, page: seq<Album>)
    requires forall a :: a in page ==> !IsDuplicate(prev, a)
    ensures NewAlbums(prev, page) == page
  {
    if page != [] {
      assert page[0] in page;
      assert forall a :: a in page[1..] ==> a in page;
      FreshPageKept(prev, page[1..]);
      assert page == [page[0]] + page[1..];
    }
  }

  /** A page all of whose albums repeat a key of `prev` adds nothing. */
  lemma {:induction false} StalePageDropped(prev: seq<Album>, page: seq<Album>)
    requires forall a :: a in page ==> IsDuplicate(prev, a)
    ensures NewAlbums(prev, page) == []
  {
    if page != [] {
      assert page[0] in page;
      assert forall a :: a in page[1..] ==> a in page;
      StalePageDropped(prev, page[1..]);
    }
  }

  /** Merging the same page a second time adds nothing, provided every album of
      the page carries a truthy key. */
  lemma MergeIdempotent(prev: seq<Album>, page: seq<Album>)
    requires forall a :: a in page ==> HasKey(a)
    ensures Merge(Merge(prev, page), page) == Merge(prev, page)
  {
    var once := Merge(prev, page);
    MergeSpec(prev, page);
    assert once == prev + once[|prev|..];
    forall a | a in page
      ensures IsDuplicate(once, a)
    {
      if IsDuplicate(prev, a) {
        DuplicateStaysDuplicate(prev, once[|prev|..], a);
      } else {
        assert a in once[|prev|..];
        assert a in once;
      }
    }
    StalePageDropped(once, page);
  }

  /** Without keys, idempotence fails: an album with neither key is appended
      again by every merge of its page. */
  lemma KeylessRemergeDuplicates(a: Album)
    requires !HasKey(a)
    ensures Merge([], [a]) == [a]
    ensures Merge(Merge([], [a]), [a]) == [a, a]
  {
    assert !IsDuplicate([], a);
    assert !IsDuplicate([a], a);
    FreshPageAppendedWhole([], [a]);
    FreshPageAppendedWhole([a], [a]);
  }

  /** Page 1 holds externalIds a, b; page 2 holds b, c (the server pages
      overlap). Loading page 2 yields a, b, c: b is not repeated. */
  lemma OverlappingPagesScenario(a: Album, b: Album, b2: Album, c: Album)
    requires a.externalId == Some("a") && a.uniqueId.None?
    requires b.externalId == Some("b") && b.uniqueId.None?
    requires b2.externalId == Some("b") && b2.uniqueId.None?
    requires c.externalId == Some("c") && c.uniqueId.None?
    ensures Merge([a, b], [b2, c]) == [a, b, c]
  {
    assert b in [a, b];
    assert IsDuplicate([a, b], b2);
    assert !IsDuplicate([a, b], c);
    assert [b2, c] == [b2] + [c];
    NewAlbumsAppend([a, b], [b2], [c]);
  }
}
