/** What wiping, applying a policy and registering generated files leave behind, and exactly when they succeed. */
module PolicyOutcomes {
  import opened Wrappers
  import opened Tables
  import opened Retention
  import opened Mutations
  import opened Outcomes
  import opened Duplicates
  import opened Eviction

  /** A wipe leaves nothing of the history; policy, registered files and counters of identity stay. */
  lemma WipeOutcome(c: Catalog)
    requires Keyed(c)
    ensures var r := WipeBody(c);
      && (r.Ok? <==> c.revision + 1 < 9007199254740991)
      && (r.Err? ==> r.error == OperationFailed)
      && (r.Ok? ==>
            var (d, reply) := r.value;
            && reply == Done && d.entries == map[] && d.payloads == map[] && d.search == map[] && d.links == {}
            && d.revision == c.revision + 1 && d.sequence == c.sequence && d.issued == c.issued
            && d.policy == c.policy && d.artifacts == c.artifacts)
  {
  }

  /** The limits a policy may set. */
  predicate Allowed(p: Policy) {
    && p.maxEntries <= 100000 && p.maxFavorites <= 10000
    && 1 <= p.maxEntryBytes <= 67108864 && 1 <= p.maxTotalBytes
  }

  /** Exactly when a policy is applied, and that it is then in force and respected. */
  lemma ApplyPolicyOutcome(c: Catalog, codec: Codec, p: Policy)
    requires History(c, codec) && Keyed(c)
    ensures var r := ApplyPolicyBody(c, p);
      && (r.Ok? <==> Allowed(p) && (p == c.policy || c.revision + 1 < 9007199254740991))
      && (r.Err? ==> r.error == if Allowed(p) then OperationFailed else InvalidData)
      && (r.Ok? ==>
            var (d, reply) := r.value;
            && reply == Done && d.policy == p && (p == c.policy ==> d == c)
            && d.revision == (if p == c.policy then c.revision else c.revision + 1)
            && d.sequence == c.sequence && d.artifacts == c.artifacts
            && d.entries.Keys <= c.entries.Keys
            && (forall x | x in d.entries :: d.entries[x].byteSize <= p.maxEntryBytes)
            && |OfKind(d.entries, false)| <= p.maxEntries && |OfKind(d.entries, true)| <= p.maxFavorites
            && Sum(d.entries, d.entries.Keys) <= p.maxTotalBytes)
  {
    hide Evict, Sound, Retained, OfKind, Sum;
    RetainedInNumbers(c.entries, c.policy);
    if ValidPolicy(p) && p != c.policy {
      var m := c.(policy := p);
      RetainEstablishesLimits(m, p, None);
      var d := Retain(m, p, None).value;
      RetainedInNumbers(d.entries, p);
      EvictKeepsRest(m, p, None);
      SurvivorsWereThere(m.entries, d.entries);
    }
  }

  lemma RetainedInNumbers(es: map<Id, Entry>, p: Policy)
    requires Retained(es, p)
    ensures forall x | x in es :: es[x].byteSize <= p.maxEntryBytes
    ensures |OfKind(es, false)| <= p.maxEntries && |OfKind(es, true)| <= p.maxFavorites
    ensures Sum(es, es.Keys) <= p.maxTotalBytes
  {
    assert Category(es, false) == OfKind(es, false) && Category(es, true) == OfKind(es, true);
  }

  lemma EvictKeepsRest(m: Catalog, p: Policy, prot: Option<Id>)
    ensures var d := Evict(m, p, prot);
      && d.policy == m.policy && d.revision == m.revision && d.sequence == m.sequence && d.artifacts == m.artifacts
  {
  }

  lemma SurvivorsWereThere(es: map<Id, Entry>, fs: map<Id, Entry>)
    requires SameOrderKeys(es, fs)
    ensures fs.Keys <= es.Keys
  {
  }

  /** A policy that the history is within already costs no entry. */
  lemma WiderPolicyKeepsAll(c: Catalog, p: Policy)
    requires Keyed(c) && ApplyPolicyBody(c, p).Ok?
    requires forall x | x in c.entries :: c.entries[x].byteSize <= p.maxEntryBytes
    requires |OfKind(c.entries, false)| <= p.maxEntries && |OfKind(c.entries, true)| <= p.maxFavorites
    requires Sum(c.entries, c.entries.Keys) <= p.maxTotalBytes
    ensures ApplyPolicyBody(c, p).value.0.entries == c.entries
  {
    hide Evict, OfKind, Sum;
    EvictKeepsAllWithin(c.(policy := p), p, None);
  }

  /** A tighter one gives up the oldest entries of each kind first. */
  lemma TighterPolicyEvictsOldest(c: Catalog, p: Policy, x: Id, y: Id)
    requires Keyed(c) && ApplyPolicyBody(c, p).Ok? && x in c.entries && y in c.entries
    requires c.entries[x].byteSize <= p.maxEntryBytes && c.entries[x].favorite == c.entries[y].favorite
    requires MoreRecent(c.entries, x, y) && y in ApplyPolicyBody(c, p).value.0.entries
    ensures x in ApplyPolicyBody(c, p).value.0.entries
  {
    hide Evict, MoreRecent;
    if p != c.policy { EvictKeepsNewer(c.(policy := p), p, None, x, y); }
  }

  /** Closing admission changes nothing but admission. */
  lemma CloseAdmissionOutcome(c: Catalog, codec: Codec)
    requires Keyed(c)
    ensures var d := Step(c, codec, CloseAdmission);
      && !d.policy.admission && d.policy == c.policy.(admission := false)
      && d.entries == c.entries && d.payloads == c.payloads && d.search == c.search && d.links == c.links
      && d.revision == c.revision && d.artifacts == c.artifacts
  {
  }

  /** A file is registered exactly for a short absolute path with sane metadata and, if it is new, room for one more. */
  lemma RegisterOutcome(c: Catalog, path: Path, record: Artifact)
    ensures var r := RegisterArtifactBody(c, path, record);
      && (r.Ok? <==>
            && "/" <= path && |path| <= 32768 && |record.identity| <= 256 && record.createdAt < 9223372036854775808
            && (path in c.artifacts || |c.artifacts| < 4096))
      && (r.Err? ==> r.error == InvalidData)
      && (r.Ok? ==>
            && path in r.value.0.artifacts && r.value.0.artifacts[path] == record
            && r.value.0.artifacts - {path} == c.artifacts - {path}
            && r.value.0 == c.(artifacts := r.value.0.artifacts))
  {
    assert "/" <= path <==> path != "" && path[0] == '/';
  }

  /** Forgetting a file drops exactly its record. */
  lemma ForgetOutcome(c: Catalog, codec: Codec, path: Path)
    requires Keyed(c)
    ensures var d := Step(c, codec, ForgetArtifact(path));
      && path !in d.artifacts && d == c.(artifacts := d.artifacts)
      && forall other | other != path ::
           (other in d.artifacts <==> other in c.artifacts)
           && (other in c.artifacts ==> d.artifacts[other] == c.artifacts[other])
  {
  }
}
