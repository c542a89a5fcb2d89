/**
  Paged literal search. Trigrams narrow the candidate rows before the substring
  test; the narrowed query must be indistinguishable from the plain one.
  */
module Search {
  import EchoGraph
  import opened Wrappers
  import opened Tables
  import opened Retention
  import opened Mutations
  import opened Runs

  const MAX_QUERY_LIMIT: nat := 200
  const MAX_TERMS: nat := 32

  // ------------------------------------------------------------------ substrings

  predicate Contains(s: string, t: string) {
    exists i | 0 <= i <= |s| - |t| :: s[i..][..|t|] == t
  }

  lemma ContainsAt(s: string, t: string, i: nat)
    requires i + |t| <= |s| && s[i..][..|t|] == t
    ensures Contains(s, t)
  {
  }

  lemma ContainsTransitive(s: string, t: string, u: string)
    requires Contains(s, t) && Contains(t, u)
    ensures Contains(s, u)
  {
    var i :| 0 <= i <= |s| - |t| && s[i..][..|t|] == t;
    var j :| 0 <= j <= |t| - |u| && t[j..][..|u|] == u;
    forall k | 0 <= k < |u| ensures s[i + j + k] == u[k] {
      assert s[i..][..|t|][j + k] == t[j + k] && t[j..][..|u|][k] == u[k];
    }
    assert s[i + j..][..|u|] == u;
    ContainsAt(s, u, i + j);
  }

  // ------------------------------------------------------------------- trigrams

  /** split on every character that is not alphanumeric. */
  function Split(s: string, alnum: char -> bool): (r: seq<string>)
    ensures |r| > 0
  {
    if s == "" then [""]
    else
      var rest := Split(s[1..], alnum);
      if alnum(s[0]) then [[s[0]] + rest[0]] + rest[1..] else [""] + rest
  }

  /** The three-character windows of one word, left to right. */
  function Windows(w: string): seq<string> {
    if |w| < 3 then [] else [w[..3]] + Windows(w[1..])
  }

  function AllWindows(words: seq<string>): seq<string> {
    if words == [] then [] else Windows(words[0]) + AllWindows(words[1..])
  }

  function Grams(needle: string, alnum: char -> bool): seq<string> {
    AllWindows(Split(needle, alnum))
  }

  lemma {:induction false} WindowsAreSubstrings(w: string, k: nat)
    requires k < |Windows(w)|
    ensures |Windows(w)[k]| == 3 && Contains(w, Windows(w)[k])
  {
    if k == 0 {
      assert w[0..][..3] == w[..3];
    } else {
      WindowsAreSubstrings(w[1..], k - 1);
      assert w[1..][..|w| - 1] == w[1..];
      ContainsAt(w, w[1..], 1);
      ContainsTransitive(w, w[1..], Windows(w)[k]);
    }
  }

  lemma {:induction false} FirstWordIsPrefix(s: string, alnum: char -> bool)
    ensures Split(s, alnum)[0] <= s
  {
    if s != "" { FirstWordIsPrefix(s[1..], alnum); }
  }

  lemma WordIsFirstOrLater(s: string, alnum: char -> bool, w: string)
    requires s != "" && w in Split(s, alnum)
    ensures w == Split(s, alnum)[0] || w in Split(s[1..], alnum)
  {
  }

  lemma WordsAreSubstrings(s: string, alnum: char -> bool)
    ensures forall w | w in Split(s, alnum) :: Contains(s, w)
  {
    forall w | w in Split(s, alnum) ensures Contains(s, w) { WordIsSubstring(s, alnum, w); }
  }

  lemma {:induction false} WordIsSubstring(s: string, alnum: char -> bool, w: string)
    requires w in Split(s, alnum)
    ensures Contains(s, w)
  {
    hide Contains;
    FirstWordIsPrefix(s, alnum);
    if w == Split(s, alnum)[0] {
      PrefixIsSubstring(s, w);
    } else {
      WordIsFirstOrLater(s, alnum, w);
      WordIsSubstring(s[1..], alnum, w);
      TailIsSubstring(s);
      ContainsTransitive(s, s[1..], w);
    }
  }

  lemma PrefixIsSubstring(s: string, t: string)
    requires t <= s
    ensures Contains(s, t)
  {
    assert s[0..][..|t|] == t;
  }

  lemma TailIsSubstring(s: string)
    requires s != ""
    ensures Contains(s, s[1..])
  {
    assert s[1..][..|s| - 1] == s[1..];
  }

  /** No separator survives: only alphanumeric text is ever quoted into an index expression. */
  lemma {:induction false} WordsAreAlphanumeric(s: string, alnum: char -> bool)
    ensures forall w, i | w in Split(s, alnum) && 0 <= i < |w| :: alnum(w[i])
  {
    if s != "" {
      WordsAreAlphanumeric(s[1..], alnum);
      var rest := Split(s[1..], alnum);
      forall w, i | w in Split(s, alnum) && 0 <= i < |w| ensures alnum(w[i]) {
        if w !in rest && i > 0 { assert w[i] == rest[0][i - 1] && rest[0] in rest; }
      }
    }
  }

  lemma {:induction false} WindowComesFromWord(words: seq<string>, k: nat) returns (w: string)
    requires k < |AllWindows(words)|
    ensures w in words && |AllWindows(words)[k]| == 3 && Contains(w, AllWindows(words)[k])
  {
    var here := Windows(words[0]);
    if k < |here| {
      w := words[0];
      WindowsAreSubstrings(w, k);
    } else {
      w := WindowComesFromWord(words[1..], k - |here|);
    }
  }

  /** A term the index may be asked for: three alphanumeric characters in a row of the needle. */
  ghost predicate Quotable(needle: string, alnum: char -> bool, g: string) {
    |g| == 3 && Contains(needle, g) && forall i | 0 <= i < 3 :: alnum(g[i])
  }

  lemma GramsAreQuotable(needle: string, alnum: char -> bool)
    ensures forall g | g in Grams(needle, alnum) :: Quotable(needle, alnum, g)
  {
    WordsAreSubstrings(needle, alnum);
    WordsAreAlphanumeric(needle, alnum);
    var words := Split(needle, alnum);
    forall g | g in Grams(needle, alnum) ensures Quotable(needle, alnum, g) {
      var k :| 0 <= k < |AllWindows(words)| && AllWindows(words)[k] == g;
      var w := WindowComesFromWord(words, k);
      ContainsTransitive(needle, w, g);
      var i :| 0 <= i <= |w| - 3 && w[i..][..3] == g;
      assert forall j | 0 <= j < 3 :: g[j] == w[i + j];
    }
  }

  lemma {:induction false} WordStartsText(s: string, alnum: char -> bool, n: nat)
    requires n <= |s| && forall i | 0 <= i < n :: alnum(s[i])
    ensures s[..n] <= Split(s, alnum)[0]
  {
    if n > 0 {
      WordStartsText(s[1..], alnum, n - 1);
      assert s[..n] == [s[0]] + s[1..][..n - 1];
    }
  }

  /** Every window of the remaining text's words is a window of the whole text's words. */
  lemma WindowsOfTail(s: string, alnum: char -> bool, g: string)
    requires s != "" && g in Grams(s[1..], alnum)
    ensures g in Grams(s, alnum)
  {
    var rest := Split(s[1..], alnum);
    assert rest == [rest[0]] + rest[1..];
    assert AllWindows(rest) == Windows(rest[0]) + AllWindows(rest[1..]);
    if alnum(s[0]) {
      var first := [s[0]] + rest[0];
      assert first[1..] == rest[0];
      assert AllWindows(Split(s, alnum)) == Windows(first) + AllWindows(rest[1..]);
    } else {
      assert AllWindows(Split(s, alnum)) == Windows("") + AllWindows(rest);
    }
  }

  lemma {:induction false} WindowIsGram(s: string, alnum: char -> bool, i: nat)
    requires i + 3 <= |s| && alnum(s[i]) && alnum(s[i + 1]) && alnum(s[i + 2])
    ensures s[i..][..3] in Grams(s, alnum)
  {
    if i == 0 {
      WordStartsText(s, alnum, 3);
      var word := Split(s, alnum)[0];
      assert word[..3] == s[..3];
      assert Windows(word)[0] == s[..3];
    } else {
      WindowIsGram(s[1..], alnum, i - 1);
      assert s[1..][i - 1..] == s[i..];
      WindowsOfTail(s, alnum, s[i..][..3]);
    }
  }

  /** The grams are exactly the runs of three alphanumeric characters of the needle. */
  lemma GramsAreWindows(needle: string, alnum: char -> bool, g: string)
    ensures g in Grams(needle, alnum) <==> Quotable(needle, alnum, g)
  {
    GramsAreQuotable(needle, alnum);
    if Quotable(needle, alnum, g) {
      var i :| 0 <= i <= |needle| - |g| && needle[i..][..|g|] == g;
      assert g[0] == needle[i] && g[1] == needle[i + 1] && g[2] == needle[i + 2];
      WindowIsGram(needle, alnum, i);
    }
  }

  function Elements(s: seq<string>): set<string> { set g | g in s }

  /** The first distinct grams, at most 32: an ordered set filled by a loop that stops when it is full. */
  method SearchGram(needle: string, alnum: char -> bool) returns (terms: set<string>)
    ensures |terms| <= 32
    ensures exists k :: 0 <= k <= |Grams(needle, alnum)| && terms == Elements(Grams(needle, alnum)[..k])
                        && (k == |Grams(needle, alnum)| || |terms| == 32)
    ensures forall g | g in terms :: Quotable(needle, alnum, g)
  {
    terms := {};
    var grams := Grams(needle, alnum);
    var k := 0;
    while k < |grams|
      invariant 0 <= k <= |grams| && terms == Elements(grams[..k]) && |terms| < MAX_TERMS
    {
      assert grams[..k + 1] == grams[..k] + [grams[k]];
      terms := terms + {grams[k]};
      k := k + 1;
      if |terms| == MAX_TERMS { break; }
    }
    GramsAreQuotable(needle, alnum);
    assert forall g | g in terms :: g in grams;
  }

  // ------------------------------------------------------------------ candidates

  predicate Shown(e: Entry, collapse: bool) { !collapse || e.echo.None? }

  /** fts_match: every quoted gram is a window of the indexed text. */
  predicate FtsMatch(indexed: string, terms: set<string>) {
    forall g | g in terms :: Contains(indexed, g)
  }

  /** The rows a plain substring test selects; an empty needle reads no search row. */
  function LiteralMatches(c: Catalog, needle: string, collapse: bool): (r: set<Id>)
    requires Keyed(c)
    ensures r <= c.entries.Keys
  {
    set id | id in c.entries && Shown(c.entries[id], collapse)
      && (needle == "" || Contains(c.search[id].content, needle))
  }

  /** The rows the query really selects: index hits and unindexed rows, then the substring test. */
  function NarrowedMatches(c: Catalog, needle: string, collapse: bool, terms: set<string>): (r: set<Id>)
    requires Keyed(c)
    ensures r <= c.entries.Keys
  {
    set id | id in c.entries && Shown(c.entries[id], collapse) &&
             (needle == "" ||
              (Contains(c.search[id].content, needle) &&
               (terms == {} || FtsMatch(c.search[id].indexed, terms) || !c.search[id].complete)))
  }

  /** Narrowing by any grams of the needle drops no match in any reachable store. */
  lemma NarrowingIsExact(c: Catalog, codec: Codec, needle: string, collapse: bool, terms: set<string>)
    requires History(c, codec) && Keyed(c)
    requires forall g | g in terms :: Contains(needle, g)
    ensures NarrowedMatches(c, needle, collapse, terms) == LiteralMatches(c, needle, collapse)
  {
    hide Retained, Distinct, Bounded;
    forall id | id in LiteralMatches(c, needle, collapse) ensures id in NarrowedMatches(c, needle, collapse, terms) {
      assert Faithful(c.entries[id], c.payloads[id], c.search[id], codec);
      if needle != "" && c.search[id].complete {
        forall g | g in terms ensures Contains(c.search[id].indexed, g) {
          ContainsTransitive(c.search[id].content, needle, g);
        }
      }
    }
  }

  // ------------------------------------------------------------------- ordering

  /** The row ORDER BY favorite DESC, recency DESC, id puts first. */
  function Top(es: map<Id, Entry>, ids: set<Id>): (r: Id)
    requires ids <= es.Keys && ids != {}
    ensures r in ids
  {
    TopExists(es, ids);
    var r :| r in ids && forall x | x in ids && x != r :: Outranks(es, None, r, x);
    r
  }

  lemma TopExists(es: map<Id, Entry>, ids: set<Id>)
    requires ids <= es.Keys && ids != {}
    ensures exists r :: r in ids && forall x | x in ids && x != r :: Outranks(es, None, r, x)
    ensures forall r, r' | r in ids && r' in ids
                         && (forall x | x in ids && x != r :: Outranks(es, None, r, x))
                         && (forall x | x in ids && x != r' :: Outranks(es, None, r', x)) :: r == r'
  {
    var r := FindTop(es, ids);
    OutranksIsTotalOrder(es, None);
  }

  lemma FindTop(es: map<Id, Entry>, ids: set<Id>) returns (r: Id)
    requires ids <= es.Keys && ids != {}
    ensures r in ids && forall x | x in ids && x != r :: Outranks(es, None, r, x)
  {
    var a :| a in ids;
    if ids == {a} { return a; }
    var b := FindTop(es, ids - {a});
    OutranksIsTotalOrder(es, None);
    r := if Outranks(es, None, a, b) then a else b;
    forall x | x in ids && x != r ensures Outranks(es, None, r, x) {
      assert x == a || x == b || Outranks(es, None, b, x);
    }
  }

  function Ordered(es: map<Id, Entry>, ids: set<Id>): (r: seq<Id>)
    requires ids <= es.Keys
    ensures |r| == |ids|
    decreases |ids|
  {
    if ids == {} then [] else var t := Top(es, ids); [t] + Ordered(es, ids - {t})
  }

  /** The full list holds every match once, each ahead of everything it outranks. */
  lemma {:induction false} OrderedIsSorted(es: map<Id, Entry>, ids: set<Id>)
    requires ids <= es.Keys
    ensures forall id :: id in Ordered(es, ids) <==> id in ids
    ensures Sorted(es, Ordered(es, ids))
  {
    hide Precedes, Top;
    if ids != {} {
      OrderedIsSorted(es, ids - {Top(es, ids)});
      TopFirst(es, ids);
      SortedCons(es, Top(es, ids), Ordered(es, ids - {Top(es, ids)}));
    }
  }

  /** Favorites before the others, and within each kind the more recent first. */
  ghost predicate Sorted(es: map<Id, Entry>, r: seq<Id>) {
    && (forall i | 0 <= i < |r| :: r[i] in es)
    && forall i, j | 0 <= i < j < |r| :: r[i] != r[j] && Precedes(es, r[i], r[j])
  }

  predicate Precedes(es: map<Id, Entry>, x: Id, y: Id)
    requires x in es && y in es
  {
    (es[x].favorite && !es[y].favorite) || (es[x].favorite == es[y].favorite && MoreRecent(es, x, y))
  }

  lemma PrecedesIsOutranks(es: map<Id, Entry>, x: Id, y: Id)
    requires x in es && y in es
    ensures Precedes(es, x, y) <==> Outranks(es, None, x, y)
  {
  }

  lemma SortedCons(es: map<Id, Entry>, t: Id, rest: seq<Id>)
    requires t in es && Sorted(es, rest) && forall x | x in rest :: x in es && x != t && Precedes(es, t, x)
    ensures Sorted(es, [t] + rest)
  {
    hide Precedes;
    var r := [t] + rest;
    forall i, j | 0 <= i < j < |r| ensures r[i] != r[j] && r[i] in es && r[j] in es && Precedes(es, r[i], r[j]) {
      assert r[j] == rest[j - 1] && rest[j - 1] in rest;
      if i > 0 { assert r[i] == rest[i - 1]; }
    }
  }

  lemma TopFirst(es: map<Id, Entry>, ids: set<Id>)
    requires ids <= es.Keys && ids != {}
    ensures forall x | x in ids && x != Top(es, ids) :: Precedes(es, Top(es, ids), x)
  {
    TopExists(es, ids);
    forall x | x in ids ensures Precedes(es, Top(es, ids), x) <==> Outranks(es, None, Top(es, ids), x) {
      PrecedesIsOutranks(es, Top(es, ids), x);
    }
  }

  // ------------------------------------------------------------------- one page

  datatype HistoryQuery = HistoryQuery(needle: string, generation: nat, offset: nat, limit: nat, collapse: bool)

  datatype HistoryPage = HistoryPage(
    revision: nat, total: nat, generation: nat, current: Option<EntrySummary>, entries: seq<EntrySummary>,
    hasMore: bool, nextOffset: Option<nat>)

  /** The newest entry, or the entry it echoes when echoes are collapsed. */
  function CurrentEntry(c: Catalog, collapse: bool): Option<EntrySummary>
    requires Keyed(c)
  {
    if c.entries.Keys == {} then None
    else
      var newest := Newest(c.entries, c.entries.Keys);
      var e := c.entries[newest];
      var id := if collapse && e.echo.Some? then e.echo.value else newest;
      Some(SummaryRow(c.entries, id).(current := true))
  }

  function Flagged(c: Catalog, collapse: bool, id: Id): EntrySummary
    requires Keyed(c) && id in c.entries
  {
    var current := CurrentEntry(c, collapse);
    SummaryRow(c.entries, id).(current := current.Some? && current.value.id == id)
  }

  function Listing(c: Catalog, collapse: bool, ids: seq<Id>): (r: seq<EntrySummary>)
    requires Keyed(c) && forall id | id in ids :: id in c.entries
    ensures |r| == |ids|
  {
    seq(|ids|, i requires 0 <= i < |ids| => Flagged(c, collapse, ids[i]))
  }

  function Min(a: nat, b: nat): nat { if a < b then a else b }

  /** LIMIT n OFFSET offset. */
  function Slice<T>(s: seq<T>, offset: nat, n: nat): (r: seq<T>)
    ensures forall x :: x in r ==> x in s
  {
    if offset >= |s| then [] else s[offset..Min(offset + n, |s|)]
  }

  function Page(c: Catalog, q: HistoryQuery, matches: set<Id>): HistoryPage
    requires Keyed(c) && matches <= c.entries.Keys
  {
    var limit := Min(q.limit, MAX_QUERY_LIMIT);
    OrderedIsSorted(c.entries, matches);
    var rows := Slice(Ordered(c.entries, matches), q.offset, limit + 1);
    var hasMore := |rows| > limit;
    var entries := Listing(c, q.collapse, Slice(rows, 0, limit));
    HistoryPage(c.revision, |matches|, q.generation, CurrentEntry(c, q.collapse), entries, hasMore,
                if hasMore && limit > 0 then Some(q.offset + |entries|) else None)
  }

  function LiteralPage(c: Catalog, q: HistoryQuery): HistoryPage
    requires Keyed(c)
  {
    Page(c, q, LiteralMatches(c, q.needle, q.collapse))
  }

  /** The narrowed query: same rows, order, total and flags as the plain substring search. */
  method Query(c: Catalog, ghost codec: Codec, q: HistoryQuery, alnum: char -> bool) returns (page: HistoryPage)
    requires History(c, codec) && Keyed(c)
    ensures page == LiteralPage(c, q)
  {
    hide History, Keyed, Page;
    var terms := SearchGram(q.needle, alnum);
    NarrowingIsExact(c, codec, q.needle, q.collapse, terms);
    page := Page(c, q, NarrowedMatches(c, q.needle, q.collapse, terms));
  }

  /** Every match, in order, flagged: what the pages are cut from. */
  function FullList(c: Catalog, needle: string, collapse: bool): seq<EntrySummary>
    requires Keyed(c)
  {
    var ids := LiteralMatches(c, needle, collapse);
    OrderedIsSorted(c.entries, ids);
    Listing(c, collapse, Ordered(c.entries, ids))
  }

  /** A page is the slice of the full list its offset and (capped) limit name; `has_more` means rows remain. */
  lemma PageIsSlice(c: Catalog, q: HistoryQuery)
    requires Keyed(c)
    ensures var page, all := LiteralPage(c, q), FullList(c, q.needle, q.collapse);
            var limit := if q.limit < 200 then q.limit else 200;
            && page.entries == Slice(all, q.offset, limit)
            && page.total == |all|
            && (page.hasMore <==> q.offset + limit < |all|)
            && page.revision == c.revision
  {
    hide Flagged, Outranks, Ordered, Keyed, Shown, Contains;
    var ids := LiteralMatches(c, q.needle, q.collapse);
    OrderedIsSorted(c.entries, ids);
    var sorted := Ordered(c.entries, ids);
    var limit := Min(q.limit, MAX_QUERY_LIMIT);
    SliceOfSlice(sorted, q.offset, limit);
    SliceOfListing(c, q.collapse, sorted, q.offset, limit);
  }

  lemma SliceOfSlice<T>(s: seq<T>, offset: nat, n: nat)
    ensures Slice(Slice(s, offset, n + 1), 0, n) == Slice(s, offset, n)
    ensures |Slice(s, offset, n + 1)| > n <==> offset + n < |s|
  {
  }

  lemma SliceOfListing(c: Catalog, collapse: bool, ids: seq<Id>, offset: nat, n: nat)
    requires Keyed(c) && forall id | id in ids :: id in c.entries
    ensures Listing(c, collapse, Slice(ids, offset, n)) == Slice(Listing(c, collapse, ids), offset, n)
  {
    hide Flagged, Keyed;
  }

  /** Query results are a function of the rows a catalog revision identifies. */
  lemma SameTablesSameList(c: Catalog, d: Catalog, needle: string, collapse: bool)
    requires Keyed(c) && Keyed(d) && SameTables(c, d)
    ensures FullList(c, needle, collapse) == FullList(d, needle, collapse)
  {
    hide Keyed, Shown, Contains, Outranks, Ordered, SummaryRow, Newest;
    assert LiteralMatches(c, needle, collapse) == LiteralMatches(d, needle, collapse);
    var ids := LiteralMatches(c, needle, collapse);
    OrderedIsSorted(c.entries, ids);
    SameListing(c, d, collapse, Ordered(c.entries, ids));
  }

  lemma SameListing(c: Catalog, d: Catalog, collapse: bool, ids: seq<Id>)
    requires Keyed(c) && Keyed(d) && c.entries == d.entries && forall id | id in ids :: id in c.entries
    ensures Listing(c, collapse, ids) == Listing(d, collapse, ids)
  {
    hide SummaryRow, Newest;
  }

  // -------------------------------------------------------- collapsing echoes

  /** Collapsing hides every echo and yet never empties a history that has an entry. */
  lemma CollapsingKeepsSome(c: Catalog, codec: Codec)
    requires History(c, codec) && Keyed(c) && c.entries.Keys != {}
    ensures FullList(c, "", true) != []
  {
    hide Contents, Bounded, Distinct, Retained;
    var id :| id in c.entries;
    var p := EchoGraph.EveryEntryHasVisibleRoot(c, id);
    assert p[|p| - 1] in LiteralMatches(c, "", true);
  }

  /** So in every reachable state the collapsed history is empty exactly when the history is. */
  lemma CollapsedEmptyIff(states: seq<Catalog>, ops: seq<Mutation>, codec: Codec, k: nat)
    requires Run(states, ops, codec) && k < |states|
    ensures Keyed(states[k])
    ensures FullList(states[k], "", true) == [] <==> states[k].entries.Keys == {}
  {
    hide Run, History;
    RunFacts(states, ops, codec, k);
    RunKeepsHistory(states, ops, codec, k);
    if states[k].entries.Keys == {} {
      assert LiteralMatches(states[k], "", true) == {};
    } else {
      CollapsingKeepsSome(states[k], codec);
    }
  }
}
