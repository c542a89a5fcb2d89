/**
  What a client reads off a listing of any reachable history: which entries it holds, in
  which order, what each row says about its entry, and where the next page starts.
  */
module Listing {
  import opened Wrappers
  import opened Tables
  import opened Retention
  import opened Mutations
  import opened Search

  /** The text that content is searched by holds the needle somewhere. */
  ghost predicate Holds(text: string, needle: string) { exists a, b :: text == a + needle + b }

  lemma ContainsIffHolds(text: string, needle: string)
    ensures Contains(text, needle) <==> Holds(text, needle)
  {
    if Contains(text, needle) {
      var i :| 0 <= i <= |text| - |needle| && text[i..][..|needle|] == needle;
      assert text == text[..i] + needle + text[i + |needle|..];
    }
    if Holds(text, needle) {
      var a, b :| text == a + needle + b;
      assert text[|a|..][..|needle|] == needle;
    }
  }

  lemma PayloadIsFaithful(c: Catalog, codec: Codec, id: Id)
    requires History(c, codec) && Keyed(c) && id in c.entries
    ensures Faithful(c.entries[id], c.payloads[id], c.search[id], codec)
  {
    hide Distinct, Bounded, Retained, Faithful;
  }

  /**
    The search rows of any history: each holds the searchable text of its entry's payload,
    and all of it is indexed up to 64 KiB, and none of it beyond.
    */
  lemma SearchRowsFollowContent(c: Catalog, codec: Codec, id: Id)
    requires History(c, codec) && Keyed(c) && id in c.entries
    ensures var row, text := c.search[id], codec.text(c.entries[id].mime, c.payloads[id]);
      && row.content == text
      && (row.complete <==> codec.width(text) <= 65536)
      && row.indexed == if codec.width(text) <= 65536 then text else ""
  {
    hide History, Keyed;
    PayloadIsFaithful(c, codec, id);
  }

  /** An entry is found exactly when it is not a hidden echo and its content, as searchable text, holds the needle. */
  lemma FoundIff(c: Catalog, codec: Codec, needle: string, collapse: bool, id: Id)
    requires History(c, codec) && Keyed(c)
    ensures id in LiteralMatches(c, needle, collapse) <==>
      && id in c.entries && (collapse ==> c.entries[id].echo == None)
      && (needle == "" || Holds(codec.text(c.entries[id].mime, c.payloads[id]), needle))
  {
    hide History, Holds, Contains;
    if id in c.entries {
      SearchRowsFollowContent(c, codec, id);
      ContainsIffHolds(c.search[id].content, needle);
    }
  }

  /** So the full list names each found entry exactly once, and nothing else. */
  lemma ListedOnceIff(c: Catalog, codec: Codec, needle: string, collapse: bool, id: Id)
    requires History(c, codec) && Keyed(c)
    ensures var all := FullList(c, needle, collapse);
      && (exists i :: 0 <= i < |all| && all[i].id == id) <==>
         (id in c.entries && (collapse ==> c.entries[id].echo == None)
          && (needle == "" || Holds(codec.text(c.entries[id].mime, c.payloads[id]), needle)))
    ensures var all := FullList(c, needle, collapse); forall i, j | 0 <= i < j < |all| :: all[i].id != all[j].id
  {
    hide History, Keyed, Holds, Contains, Outranks, Ordered, LiteralMatches, CurrentEntry, IsCurrent;
    FoundIff(c, codec, needle, collapse, id);
    var ids := LiteralMatches(c, needle, collapse);
    OrderedIsSorted(c.entries, ids);
    var all, sorted := FullList(c, needle, collapse), Ordered(c.entries, ids);
    assert forall i | 0 <= i < |all| :: all[i].id == sorted[i];
    if id in sorted {
      var i :| 0 <= i < |sorted| && sorted[i] == id;
      assert all[i].id == id;
    }
  }

  // ----------------------------------------------------------------------- order

  /** Favorites first, then the newest first; equally recent ones by their identifiers. */
  lemma OrderedNewestFirst(es: map<Id, Entry>, ids: set<Id>, i: nat, j: nat)
    requires ids <= es.Keys && i < j < |ids|
    ensures var r := Ordered(es, ids);
      && r[i] in es && r[j] in es && (es[r[j]].favorite ==> es[r[i]].favorite)
      && (es[r[i]].favorite == es[r[j]].favorite ==>
            es[r[i]].recency > es[r[j]].recency || (es[r[i]].recency == es[r[j]].recency && r[i] < r[j]))
  {
    OrderedIsSorted(es, ids);
  }

  /** In any history the list is favorites first and strictly newest first within each kind. */
  lemma ListedNewestFirst(c: Catalog, codec: Codec, needle: string, collapse: bool, i: nat, j: nat)
    requires History(c, codec) && Keyed(c) && i < j < |FullList(c, needle, collapse)|
    ensures var x, y := FullList(c, needle, collapse)[i], FullList(c, needle, collapse)[j];
      && x.id in c.entries && y.id in c.entries
      && (y.favorite ==> x.favorite)
      && (x.favorite == y.favorite ==> c.entries[x.id].recency > c.entries[y.id].recency)
  {
    hide Retained, Contents, Bounded, Contains, Outranks, Ordered, LiteralMatches, CurrentEntry, IsCurrent;
    var ids := LiteralMatches(c, needle, collapse);
    OrderedIsSorted(c.entries, ids);
    OrderedNewestFirst(c.entries, ids, i, j);
  }

  // ------------------------------------------------------------------- the rows

  /** What a listed row says of its entry is true. */
  lemma ListedRowIsTrue(c: Catalog, codec: Codec, needle: string, collapse: bool, i: nat)
    requires History(c, codec) && Keyed(c) && i < |FullList(c, needle, collapse)|
    ensures var row := FullList(c, needle, collapse)[i];
      && row.id in c.entries && row.byteSize == |c.payloads[row.id]|
      && row.revision == c.entries[row.id].revision && row.favorite == c.entries[row.id].favorite
      && row.kind == c.entries[row.id].kind && row.preview == c.entries[row.id].preview
      && row.mime == c.entries[row.id].resolvedMime
  {
    hide History, Keyed, Contains, Outranks, Ordered, LiteralMatches, CurrentEntry, IsCurrent;
    var ids := LiteralMatches(c, needle, collapse);
    OrderedIsSorted(c.entries, ids);
    PayloadIsFaithful(c, codec, Ordered(c.entries, ids)[i]);
  }

  /** No entry is newer. */
  ghost predicate IsNewest(c: Catalog, id: Id) {
    id in c.entries && forall x | x in c.entries :: c.entries[x].recency <= c.entries[id].recency
  }

  /**
    The current entry of a page is the newest one, or what it echoes when echoes are
    collapsed; exactly the rows with its identifier are flagged.
    */
  lemma CurrentIsNewest(c: Catalog, codec: Codec, q: HistoryQuery)
    requires History(c, codec) && Keyed(c)
    ensures var page := LiteralPage(c, q);
      && (page.current.None? <==> c.entries.Keys == {})
      && (page.current.Some? ==>
            && page.current.value.current && page.current.value.id in c.entries
            && forall newest | IsNewest(c, newest) ::
                 page.current.value.id ==
                 if q.collapse && c.entries[newest].echo.Some? then c.entries[newest].echo.value else newest)
      && forall i | 0 <= i < |page.entries| ::
           page.entries[i].current <==> page.current.Some? && page.entries[i].id == page.current.value.id
  {
    hide Retained, Contents, Bounded, Contains, Outranks, Ordered, LiteralMatches, IsCurrent;
    OrderedIsSorted(c.entries, LiteralMatches(c, q.needle, q.collapse));
    if c.entries.Keys != {} {
      var n := Newest(c.entries, c.entries.Keys);
      forall newest | IsNewest(c, newest) ensures newest == n {
        assert c.entries[n].recency <= c.entries[newest].recency <= c.entries[n].recency;
      }
    }
  }

  /** The next offset names the first entry that the page left out, so pages join without gap or overlap. */
  lemma NextOffsetJoins(c: Catalog, q: HistoryQuery)
    requires Keyed(c)
    ensures var page, all := LiteralPage(c, q), FullList(c, q.needle, q.collapse);
      && page.generation == q.generation
      && (page.nextOffset.Some? <==> page.hasMore && 0 < q.limit)
      && (page.nextOffset.Some? ==>
            && q.offset < page.nextOffset.value < |all|
            && all[q.offset..] == page.entries + all[page.nextOffset.value..])
      && (!page.hasMore && q.offset <= |all| ==> page.entries == all[q.offset..])
  {
    hide Flagged, Ordered, Keyed, Shown, Contains, FullList;
    PageIsSlice(c, q);
    PageFields(c, q);
  }

  lemma PageFields(c: Catalog, q: HistoryQuery)
    requires Keyed(c)
    ensures var page := LiteralPage(c, q);
      && page.generation == q.generation
      && page.nextOffset == if page.hasMore && Min(q.limit, MAX_QUERY_LIMIT) > 0 then Some(q.offset + |page.entries|)
                            else None
  {
    hide Flagged, Ordered, Keyed, Shown, Contains;
  }
}
