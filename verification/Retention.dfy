/**
  The three-stage eviction run after every mutation: oversized rows, then each
  category's tail, then the tail of the running byte total. Each stage is one
  DELETE whose ORDER BY / window clause is read as a set of rows.
  */
module Retention {
  import opened Sets
  import opened Wrappers
  import opened Tables

  // ------------------------------------------------------------- sums over rows

  function Least(s: set<nat>): (m: nat)
    requires s != {}
    ensures m in s && forall x | x in s :: m <= x
  {
    LeastExists(s);
    var m :| m in s && forall x | x in s :: m <= x;
    m
  }

  lemma LeastExists(s: set<nat>)
    requires s != {}
    ensures exists m :: m in s && forall x | x in s :: m <= x
  {
    var m := FindLeast(s);
  }

  lemma {:induction false} FindLeast(s: set<nat>) returns (m: nat)
    requires s != {}
    ensures m in s && forall x | x in s :: m <= x
  {
    m :| m in s;
    var rest := s - {m};
    if rest != {} {
      var r := FindLeast(rest);
      if r < m { m := r; }
    }
    assert forall x | x in s :: x in rest || m <= x;
  }

  function Sum(es: map<Id, Entry>, ids: set<Id>): nat
    requires ids <= es.Keys
  {
    if ids == {} then 0 else var x := Least(ids); es[x].byteSize + Sum(es, ids - {x})
  }

  lemma {:induction false} SumRemove(es: map<Id, Entry>, ids: set<Id>, x: Id)
    requires ids <= es.Keys && x in ids
    ensures Sum(es, ids) == es[x].byteSize + Sum(es, ids - {x})
  {
    var y := Least(ids);
    if x != y {
      SumRemove(es, ids - {y}, x);
      SumRemove(es, ids - {x}, y);
      assert ids - {y} - {x} == ids - {x} - {y};
    }
  }

  lemma {:induction false} SumSubset(es: map<Id, Entry>, small: set<Id>, large: set<Id>)
    requires small <= large <= es.Keys
    ensures Sum(es, small) <= Sum(es, large)
  {
    if small != {} {
      var x := Least(small);
      SumSubset(es, small - {x}, large - {x});
      SumRemove(es, large, x);
    }
  }

  lemma {:induction false} SumSame(es: map<Id, Entry>, fs: map<Id, Entry>, ids: set<Id>)
    requires ids <= es.Keys && ids <= fs.Keys
    requires forall id | id in ids :: es[id].byteSize == fs[id].byteSize
    ensures Sum(es, ids) == Sum(fs, ids)
  {
    if ids != {} { SumSame(es, fs, ids - {Least(ids)}); }
  }

  // ------------------------------------------------------------- eviction order

  /** ORDER BY (id=protected) DESC, favorite DESC, recency DESC, id. */
  predicate Outranks(es: map<Id, Entry>, prot: Option<Id>, x: Id, y: Id)
    requires x in es && y in es
  {
    if (Some(x) == prot) != (Some(y) == prot) then Some(x) == prot
    else if es[x].favorite != es[y].favorite then es[x].favorite
    else if es[x].recency != es[y].recency then es[x].recency > es[y].recency
    else x < y
  }

  lemma OutranksIsTotalOrder(es: map<Id, Entry>, prot: Option<Id>)
    ensures forall x | x in es :: !Outranks(es, prot, x, x)
    ensures forall x, y | x in es && y in es && x != y :: Outranks(es, prot, x, y) != Outranks(es, prot, y, x)
    ensures forall x, y, z | x in es && y in es && z in es ::
              Outranks(es, prot, x, y) && Outranks(es, prot, y, z) ==> Outranks(es, prot, x, z)
  {
  }

  function Ahead(es: map<Id, Entry>, prot: Option<Id>, pool: set<Id>, id: Id): (r: set<Id>)
    requires pool <= es.Keys && id in es
    ensures r <= pool
  {
    set x | x in pool && Outranks(es, prot, x, id)
  }

  function Category(es: map<Id, Entry>, favorite: bool): (r: set<Id>)
    ensures r <= es.Keys
  {
    set id | id in es && es[id].favorite == favorite
  }

  /** The sum(byte_size) OVER (... ROWS UNBOUNDED PRECEDING) column. */
  function Running(es: map<Id, Entry>, prot: Option<Id>, id: Id): nat
    requires id in es
  {
    Sum(es, Ahead(es, prot, es.Keys, id) + {id})
  }

  // ------------------------------------------------------------------ the stages

  function Oversized(es: map<Id, Entry>, prot: Option<Id>, limit: nat): set<Id> {
    set id | id in es && es[id].byteSize > limit && Some(id) != prot
  }

  /** ... ORDER BY ... LIMIT -1 OFFSET limit: every row with `limit` rows ahead of it. */
  function Overflow(es: map<Id, Entry>, prot: Option<Id>, pool: set<Id>, limit: nat): set<Id>
    requires pool <= es.Keys
  {
    set id | id in pool && |Ahead(es, prot, pool, id)| >= limit
  }

  function OverBudget(es: map<Id, Entry>, prot: Option<Id>, budget: nat): set<Id> {
    set id | id in es && Running(es, prot, id) > budget
  }

  function DropOversized(c: Catalog, p: Policy, prot: Option<Id>): Catalog {
    DeleteEntries(c, Oversized(c.entries, prot, p.maxEntryBytes))
  }

  function DropOverflow(c: Catalog, prot: Option<Id>, favorite: bool, limit: nat): Catalog {
    DeleteEntries(c, Overflow(c.entries, prot, Category(c.entries, favorite), limit))
  }

  function DropOverBudget(c: Catalog, p: Policy, prot: Option<Id>): Catalog {
    DeleteEntries(c, OverBudget(c.entries, prot, p.maxTotalBytes))
  }

  function Evict(c: Catalog, p: Policy, prot: Option<Id>): Catalog {
    var c1 := DropOversized(c, p, prot);
    var c2 := DropOverflow(c1, prot, false, p.maxEntries);
    var c3 := DropOverflow(c2, prot, true, p.maxFavorites);
    DropOverBudget(c3, p, prot)
  }

  /** The whole `retain`: a protected row that was evicted fails the transaction. */
  function Retain(c: Catalog, p: Policy, prot: Option<Id>): Result<Catalog, Error> {
    var d := Evict(c, p, prot);
    if prot.Some? && prot.value !in d.entries then Err(NotFound) else Ok(d)
  }

  // ------------------------------------------------------------------- theorems

  /** What every mutation must leave behind. */
  ghost predicate Retained(es: map<Id, Entry>, p: Policy) {
    && (forall id | id in es :: es[id].byteSize <= p.maxEntryBytes)
    && |Category(es, false)| <= p.maxEntries
    && |Category(es, true)| <= p.maxFavorites
    && Sum(es, es.Keys) <= p.maxTotalBytes
  }

  /** `kept` is a prefix of the eviction order inside `pool`. */
  ghost predicate Prefix(es: map<Id, Entry>, prot: Option<Id>, pool: set<Id>, kept: set<Id>)
    requires pool <= es.Keys
  {
    kept <= pool && forall x, y | x in pool && y in kept && Outranks(es, prot, x, y) :: x in kept
  }

  /** Row x is the more recent one; equally recent rows are told apart by their identifiers. */
  predicate MoreRecent(es: map<Id, Entry>, x: Id, y: Id)
    requires x in es && y in es
  {
    es[x].recency > es[y].recency || (es[x].recency == es[y].recency && x < y)
  }

  /** With an unprotected row `kept` holds every more recent row of its kind, and with a regular one every favorite. */
  ghost predicate KeepsNewer(es: map<Id, Entry>, prot: Option<Id>, pool: set<Id>, kept: set<Id>)
    requires pool <= es.Keys && kept <= es.Keys
  {
    forall x, y | x in pool && y in kept && Some(y) != prot ::
      (es[x].favorite && !es[y].favorite) || (es[x].favorite == es[y].favorite && MoreRecent(es, x, y)) ==> x in kept
  }

  lemma PrefixKeepsNewer(es: map<Id, Entry>, prot: Option<Id>, pool: set<Id>, kept: set<Id>)
    requires pool <= es.Keys && Prefix(es, prot, pool, kept)
    ensures KeepsNewer(es, prot, pool, kept)
  {
    forall x, y | x in pool && y in kept && Some(y) != prot
      ensures (es[x].favorite && !es[y].favorite) || (es[x].favorite == es[y].favorite && MoreRecent(es, x, y))
        ==> Outranks(es, prot, x, y)
    {}
  }

  lemma {:induction false} LastOf(es: map<Id, Entry>, prot: Option<Id>, pool: set<Id>) returns (m: Id)
    requires pool <= es.Keys && pool != {}
    ensures m in pool && Ahead(es, prot, pool, m) == pool - {m}
  {
    var a :| a in pool;
    if pool == {a} { return a; }
    var r := LastOf(es, prot, pool - {a});
    m := if Outranks(es, prot, a, r) then r else a;
    OutranksIsTotalOrder(es, prot);
    forall x | x in pool && x != m ensures Outranks(es, prot, x, m) {
      assert x == a || x == r || x in Ahead(es, prot, pool - {a}, r);
    }
  }

  /** The category stage keeps exactly the top `limit` rows: a prefix of the order, of that size. */
  lemma OverflowKeepsTop(es: map<Id, Entry>, prot: Option<Id>, pool: set<Id>, limit: nat)
    requires pool <= es.Keys
    ensures var kept := pool - Overflow(es, prot, pool, limit);
            && Prefix(es, prot, pool, kept) && KeepsNewer(es, prot, pool, kept)
            && |kept| == if |pool| <= limit then |pool| else limit
  {
    hide Prefix, KeepsNewer, Overflow;
    OverflowKeepsPrefix(es, prot, pool, limit);
    PrefixKeepsNewer(es, prot, pool, pool - Overflow(es, prot, pool, limit));
    OverflowKeepsCount(es, prot, pool, limit);
  }

  lemma OverflowKeepsPrefix(es: map<Id, Entry>, prot: Option<Id>, pool: set<Id>, limit: nat)
    requires pool <= es.Keys
    ensures Prefix(es, prot, pool, pool - Overflow(es, prot, pool, limit))
  {
    var kept := pool - Overflow(es, prot, pool, limit);
    forall x, y | x in pool && y in kept && Outranks(es, prot, x, y) ensures x in kept {
      OutranksIsTotalOrder(es, prot);
      SubsetSize(Ahead(es, prot, pool, x), Ahead(es, prot, pool, y));
    }
  }

  lemma {:induction false} OverflowKeepsCount(es: map<Id, Entry>, prot: Option<Id>, pool: set<Id>, limit: nat)
    requires pool <= es.Keys
    ensures |pool - Overflow(es, prot, pool, limit)| == if |pool| <= limit then |pool| else limit
  {
    if |pool| <= limit {
      NoOverflow(es, prot, pool, limit);
      assert pool - {} == pool;
    } else {
      var m := LastOf(es, prot, pool);
      OverflowKeepsCount(es, prot, pool - {m}, limit);
      PeelLast(es, prot, pool, m, limit);
    }
  }

  lemma NoOverflow(es: map<Id, Entry>, prot: Option<Id>, pool: set<Id>, limit: nat)
    requires pool <= es.Keys && |pool| <= limit
    ensures Overflow(es, prot, pool, limit) == {}
  {
    forall id | id in pool ensures |Ahead(es, prot, pool, id)| < limit {
      OutranksIsTotalOrder(es, prot);
      assert id !in Ahead(es, prot, pool, id);
      SubsetSize(Ahead(es, prot, pool, id) + {id}, pool);
    }
  }

  lemma PeelLast(es: map<Id, Entry>, prot: Option<Id>, pool: set<Id>, m: Id, limit: nat)
    requires pool <= es.Keys && m in pool && Ahead(es, prot, pool, m) == pool - {m} && |pool| > limit
    ensures pool - Overflow(es, prot, pool, limit) == (pool - {m}) - Overflow(es, prot, pool - {m}, limit)
  {
    OutranksIsTotalOrder(es, prot);
    forall x | x in pool - {m} ensures Ahead(es, prot, pool, x) == Ahead(es, prot, pool - {m}, x) {
      assert x in Ahead(es, prot, pool, m);
    }
    assert m in Overflow(es, prot, pool, limit);
  }

  /** The byte stage keeps the longest prefix of the order that fits the budget. */
  lemma ByteStageKeepsLongestPrefix(es: map<Id, Entry>, prot: Option<Id>, budget: nat)
    ensures var kept := es.Keys - OverBudget(es, prot, budget);
            && Prefix(es, prot, es.Keys, kept) && KeepsNewer(es, prot, es.Keys, kept)
            && Sum(es, kept) <= budget
            && forall other: set<Id> ::
                 Prefix(es, prot, es.Keys, other) && Sum(es, other) <= budget ==> other <= kept
  {
    var kept := es.Keys - OverBudget(es, prot, budget);
    OutranksIsTotalOrder(es, prot);
    forall x, y | x in es && y in kept && Outranks(es, prot, x, y) ensures x in kept {
      SumSubset(es, Ahead(es, prot, es.Keys, x) + {x}, Ahead(es, prot, es.Keys, y) + {y});
    }
    PrefixKeepsNewer(es, prot, es.Keys, kept);
    if kept != {} {
      var m := LastOf(es, prot, kept);
      assert forall x | x in kept :: x == m || x in Ahead(es, prot, kept, m);
      SumSubset(es, kept, Ahead(es, prot, es.Keys, m) + {m});
    }
    forall other: set<Id> | Prefix(es, prot, es.Keys, other) && Sum(es, other) <= budget ensures other <= kept {
      forall x | x in other ensures x in kept {
        SumSubset(es, Ahead(es, prot, es.Keys, x) + {x}, other);
      }
    }
  }

  /** Favorites go last: losing one to the byte budget means no unprotected regular entry survived it. */
  lemma FavoritesAreEvictedLast(es: map<Id, Entry>, prot: Option<Id>, budget: nat, f: Id, r: Id)
    requires f in OverBudget(es, prot, budget) && es[f].favorite && Some(f) != prot
    requires r in es && !es[r].favorite && Some(r) != prot
    ensures r in OverBudget(es, prot, budget)
  {
    OutranksIsTotalOrder(es, prot);
    SumSubset(es, Ahead(es, prot, es.Keys, f) + {f}, Ahead(es, prot, es.Keys, r) + {r});
  }

  /** A row the policy itself has room for is never lost while it is protected. */
  ghost predicate HasRoom(e: Entry, p: Policy) {
    && e.byteSize <= p.maxEntryBytes && e.byteSize <= p.maxTotalBytes
    && 0 < (if e.favorite then p.maxFavorites else p.maxEntries)
  }

  lemma SubsetRetained(es: map<Id, Entry>, fs: map<Id, Entry>, p: Policy)
    requires Retained(es, p) && SameOrderKeys(es, fs)
    ensures Retained(fs, p)
  {
    SubsetSize(Category(fs, false), Category(es, false));
    SubsetSize(Category(fs, true), Category(es, true));
    SumSame(es, fs, fs.Keys);
    SumSubset(es, fs.Keys, es.Keys);
  }

  /** `fs` has some of the rows of `es`, each with the same size, category and recency. */
  ghost predicate SameOrderKeys(es: map<Id, Entry>, fs: map<Id, Entry>) {
    && fs.Keys <= es.Keys
    && forall id | id in fs ::
         fs[id].byteSize == es[id].byteSize && fs[id].favorite == es[id].favorite && fs[id].recency == es[id].recency
  }

  lemma DropKeepsOrderKeys(c: Catalog, victims: set<Id>)
    ensures var d := DeleteEntries(c, victims);
            SameOrderKeys(c.entries, d.entries) && d.entries.Keys == c.entries.Keys - victims
  {
  }

  lemma StageOversized(c: Catalog, p: Policy, prot: Option<Id>)
    requires prot.Some? ==> prot.value in c.entries && HasRoom(c.entries[prot.value], p)
    ensures var d := DropOversized(c, p, prot);
            && SameOrderKeys(c.entries, d.entries)
            && (forall id | id in d.entries :: d.entries[id].byteSize <= p.maxEntryBytes)
            && (prot.Some? ==> prot.value in d.entries)
  {
    DropKeepsOrderKeys(c, Oversized(c.entries, prot, p.maxEntryBytes));
  }

  lemma NothingAheadOfProtected(es: map<Id, Entry>, pool: set<Id>, id: Id)
    requires pool <= es.Keys && id in es
    ensures Ahead(es, Some(id), pool, id) == {}
  {
  }

  lemma DropFromCategory(c: Catalog, favorite: bool, victims: set<Id>)
    requires victims <= Category(c.entries, favorite)
    ensures var d := DeleteEntries(c, victims);
            && Category(d.entries, favorite) == Category(c.entries, favorite) - victims
            && Category(d.entries, !favorite) == Category(c.entries, !favorite)
  {
    hide DeleteEntries;
    DropKeepsOrderKeys(c, victims);
  }

  lemma StageOverflow(c: Catalog, prot: Option<Id>, favorite: bool, limit: nat)
    ensures var d := DropOverflow(c, prot, favorite, limit);
            && SameOrderKeys(c.entries, d.entries)
            && |Category(d.entries, favorite)| <= limit
            && Category(d.entries, !favorite) == Category(c.entries, !favorite)
            && ((prot.Some? && prot.value in c.entries && (c.entries[prot.value].favorite == favorite ==> 0 < limit))
                  ==> prot.value in d.entries)
  {
    hide DeleteEntries, Ahead, Prefix, SameOrderKeys;
    var pool := Category(c.entries, favorite);
    var victims := Overflow(c.entries, prot, pool, limit);
    DropKeepsOrderKeys(c, victims);
    OverflowKeepsTop(c.entries, prot, pool, limit);
    DropFromCategory(c, favorite, victims);
    if prot.Some? && prot.value in pool { NothingAheadOfProtected(c.entries, pool, prot.value); }
  }

  lemma StageBudget(c: Catalog, p: Policy, prot: Option<Id>)
    ensures var d := DropOverBudget(c, p, prot);
            && SameOrderKeys(c.entries, d.entries)
            && Sum(d.entries, d.entries.Keys) <= p.maxTotalBytes
            && ((prot.Some? && prot.value in c.entries && c.entries[prot.value].byteSize <= p.maxTotalBytes)
                  ==> prot.value in d.entries)
  {
    hide DeleteEntries, Ahead;
    var d := DropOverBudget(c, p, prot);
    DropKeepsOrderKeys(c, OverBudget(c.entries, prot, p.maxTotalBytes));
    ByteStageKeepsLongestPrefix(c.entries, prot, p.maxTotalBytes);
    SumSame(c.entries, d.entries, d.entries.Keys);
    if prot.Some? && prot.value in c.entries {
      var x := prot.value;
      NothingAheadOfProtected(c.entries, c.entries.Keys, x);
      assert Ahead(c.entries, prot, c.entries.Keys, x) + {x} == {x};
      SumRemove(c.entries, {x}, x);
    }
  }

  lemma SmallerCategories(es: map<Id, Entry>, fs: map<Id, Entry>)
    requires SameOrderKeys(es, fs)
    ensures forall b :: |Category(fs, b)| <= |Category(es, b)|
  {
    forall b ensures |Category(fs, b)| <= |Category(es, b)| {
      SubsetSize(Category(fs, b), Category(es, b));
    }
  }

  /**
    The retention invariant holds after `retain` whatever was there before, and a
    protected row the policy has room for survives, so the final lookup succeeds.
    */
  lemma RetainEstablishesLimits(c: Catalog, p: Policy, prot: Option<Id>)
    requires prot.Some? ==> prot.value in c.entries && HasRoom(c.entries[prot.value], p)
    ensures var r := Retain(c, p, prot);
            && r.Ok? && Retained(r.value.entries, p)
            && SameOrderKeys(c.entries, r.value.entries)
            && (prot.Some? ==> prot.value in r.value.entries)
  {
    var c1 := DropOversized(c, p, prot);
    StageOversized(c, p, prot);
    var c2 := DropOverflow(c1, prot, false, p.maxEntries);
    StageOverflow(c1, prot, false, p.maxEntries);
    var c3 := DropOverflow(c2, prot, true, p.maxFavorites);
    StageOverflow(c2, prot, true, p.maxFavorites);
    var c4 := DropOverBudget(c3, p, prot);
    StageBudget(c3, p, prot);
    SmallerCategories(c3.entries, c4.entries);
    OrderKeysCompose(c.entries, c1.entries, c2.entries);
    OrderKeysCompose(c.entries, c2.entries, c3.entries);
    OrderKeysCompose(c.entries, c3.entries, c4.entries);
    assert Retain(c, p, prot) == if prot.Some? && prot.value !in c4.entries then Err(NotFound) else Ok(c4);
  }

  lemma OrderKeysCompose(es: map<Id, Entry>, fs: map<Id, Entry>, gs: map<Id, Entry>)
    requires SameOrderKeys(es, fs) && SameOrderKeys(fs, gs)
    ensures SameOrderKeys(es, gs)
  {
  }

  /** Eviction never touches a history that already respects the policy. */
  lemma RetainIdlesWithinLimits(c: Catalog, p: Policy, prot: Option<Id>)
    requires Retained(c.entries, p)
    requires prot.Some? ==> prot.value in c.entries
    ensures Retain(c, p, prot) == Ok(c)
  {
    var es := c.entries;
    assert Oversized(es, prot, p.maxEntryBytes) == {};
    NoOverflow(es, prot, Category(es, false), p.maxEntries);
    NoOverflow(es, prot, Category(es, true), p.maxFavorites);
    forall id | id in es ensures Running(es, prot, id) <= p.maxTotalBytes {
      SumSubset(es, Ahead(es, prot, es.Keys, id) + {id}, es.Keys);
    }
    assert OverBudget(es, prot, p.maxTotalBytes) == {};
    DeleteNothing(c);
  }
}
