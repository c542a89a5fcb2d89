/**
  The `echo_source_id` links between entries. Collapsing hides every entry that
  has one, so the links must always lead to an entry that has none.
  */
module EchoGraph {
  import opened Wrappers
  import opened Tables

  /** `rank` strictly decreases along every echo link. */
  ghost predicate Ranked(es: map<Id, Entry>, rank: map<Id, nat>) {
    forall id | id in es ::
      && id in rank
      && (es[id].echo.Some? ==> es[id].echo.value in rank && rank[es[id].echo.value] < rank[id])
  }

  ghost predicate Acyclic(es: map<Id, Entry>) {
    exists rank :: Ranked(es, rank)
  }

  ghost predicate NoInbound(es: map<Id, Entry>, id: Id) {
    forall x | x in es :: es[x].echo != Some(id)
  }

  /** Removing rows, clearing links or rewriting anything but a link keeps the graph acyclic. */
  lemma FewerLinksStayAcyclic(es: map<Id, Entry>, fs: map<Id, Entry>)
    requires Acyclic(es) && fs.Keys <= es.Keys
    requires forall id | id in fs :: fs[id].echo == None || fs[id].echo == es[id].echo
    ensures Acyclic(fs)
  {
    var rank :| Ranked(es, rank);
    assert Ranked(fs, rank);
  }

  /** A link out of a row nobody points at closes no cycle. */
  lemma LinkFromUnreferencedRow(es: map<Id, Entry>, fs: map<Id, Entry>, id: Id)
    requires Acyclic(es) && fs.Keys <= es.Keys + {id}
    requires id in fs && NoInbound(fs, id)
    requires fs[id].echo.Some? ==> fs[id].echo.value in es
    requires forall x | x in fs && x != id :: fs[x].echo == None || fs[x].echo == es[x].echo
    ensures Acyclic(fs)
  {
    var rank :| Ranked(es, rank);
    var height := if fs[id].echo.Some? then rank[fs[id].echo.value] + 1 else 0;
    var better := rank[id := height];
    forall x | x in fs
      ensures x in better && (fs[x].echo.Some? ==> fs[x].echo.value in better && better[fs[x].echo.value] < better[x])
    {
      assert fs[x].echo != Some(id);
    }
    assert Ranked(fs, better);
  }

  // ------------------------------------------------------------------- theorems

  /** `p` follows live echo links from its first element. */
  ghost predicate Chain(es: map<Id, Entry>, p: seq<Id>) {
    && |p| > 0
    && (forall k | 0 <= k < |p| :: p[k] in es)
    && forall k | 0 <= k < |p| - 1 :: es[p[k]].echo == Some(p[k + 1])
  }

  ghost predicate Visible(es: map<Id, Entry>, id: Id) {
    id in es && es[id].echo == None
  }

  lemma {:induction false} RankFallsAlongChain(es: map<Id, Entry>, rank: map<Id, nat>, p: seq<Id>)
    requires Ranked(es, rank) && Chain(es, p) && |p| > 1
    ensures p[|p| - 1] in rank && p[0] in rank && rank[p[|p| - 1]] < rank[p[0]]
  {
    if |p| > 2 {
      assert forall k | 0 <= k < |p[1..]| :: p[1..][k] == p[k + 1];
      assert p[1..][0] == p[1];
      RankFallsAlongChain(es, rank, p[1..]);
    }
    assert es[p[0]].echo == Some(p[1]);
  }

  /** No entry is, directly or through other echoes, an echo of itself. */
  lemma NoEchoCycle(es: map<Id, Entry>, p: seq<Id>)
    requires Acyclic(es) && Chain(es, p) && |p| > 1
    ensures p[0] != p[|p| - 1]
  {
    var rank :| Ranked(es, rank);
    RankFallsAlongChain(es, rank, p);
  }

  lemma {:induction false} ChainToRoot(es: map<Id, Entry>, rank: map<Id, nat>, id: Id) returns (p: seq<Id>)
    requires Ranked(es, rank) && id in es
    requires forall x | x in es :: es[x].echo.Some? ==> es[x].echo.value in es
    ensures Chain(es, p) && p[0] == id && Visible(es, p[|p| - 1])
    decreases rank[id]
  {
    if es[id].echo.Some? {
      var rest := ChainToRoot(es, rank, es[id].echo.value);
      p := [id] + rest;
      assert forall k | 0 <= k < |p| - 1 :: es[p[k]].echo == Some(p[k + 1]);
    } else {
      p := [id];
    }
  }

  /** Every hidden entry leads along live links to a visible one, so collapsing never empties a history. */
  lemma EveryEntryHasVisibleRoot(c: Catalog, id: Id) returns (p: seq<Id>)
    requires Keyed(c) && Acyclic(c.entries) && id in c.entries
    ensures Chain(c.entries, p) && p[0] == id && Visible(c.entries, p[|p| - 1])
  {
    var rank :| Ranked(c.entries, rank);
    p := ChainToRoot(c.entries, rank, id);
  }
}
