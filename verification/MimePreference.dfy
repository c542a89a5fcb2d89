/** The MIME policy spelled out: what rejects an offer, which rank a type has, and which type of a rank is chosen. */
module MimePreference {
  import opened Wrappers
  import opened MimeOffers

  // ------------------------------------------------------------------ rejection

  /** A type that spoils the whole offer: a marker of secrets, an empty or long one, or one with unprintable bytes. */
  predicate Spoils(m: Mime) {
    || m in {"application/x-shelllist-sensitive", "x-kde-passwordManagerHint"}
    || !(1 <= |m| <= 96)
    || exists c | c in m :: (c as int) < 32 || (c as int) > 126
  }

  lemma SpoilsIsBad(m: Mime)
    ensures Bad(m) <==> Spoils(m)
  {
    if Bad(m) && 0 < |m| <= MAX_LENGTH {
      if exists i | 0 <= i < |m| :: !(' ' <= m[i] <= '~') {
        var i :| 0 <= i < |m| && !(' ' <= m[i] <= '~');
        assert m[i] in m;
      }
    }
  }

  /** An offer is rejected exactly for a spoiling type, a 65th type or more than 8192 bytes of types. */
  lemma RejectedExactly(offers: seq<Mime>)
    ensures Offered(offers).rejected <==>
      (exists m | m in offers :: Spoils(m)) || |offers| > 64 || TotalBytes(offers) > 8192
  {
    hide Bad, Spoils;
    RejectedIff(offers);
    forall m ensures Bad(m) <==> Spoils(m) { SpoilsIsBad(m); }
  }

  /** So nothing of an offer that carries a marker of secrets is ever asked for, wherever the marker stands. */
  lemma SecretsAreNeverOffered(before: seq<Mime>, after: seq<Mime>, marker: Mime)
    requires marker == "x-kde-passwordManagerHint" || marker == "application/x-shelllist-sensitive"
    ensures Offered(before + [marker] + after).rejected
  {
    var offers := before + [marker] + after;
    RejectedExactly(offers);
    assert offers[|before|] == marker && Spoils(marker);
  }

  // ---------------------------------------------------------------------- ranks

  /** The place of a type without parameters, smaller is better; 6 stands for a type that is not wanted at all. */
  function Place(base: string): nat {
    if base in {"text/plain", "UTF8_STRING", "STRING", "TEXT"} then 0
    else if "image/" <= base then 1
    else if base == "application/x-gnome-copied-files" then 2
    else if base == "chromium/x-web-custom-data" then 3
    else if "text/" <= base then 4
    else if "x-special/" <= base then 2
    else if "chromium/x-internal" <= base then 6
    else if base != "" && base[0] in "abcdefghijklmnopqrstuvwxyz" && '/' in base then 5
    else 6
  }

  lemma {:induction false} EssenceOf(base: string, suffix: string)
    requires ';' !in base && (suffix == "" || suffix[0] == ';')
    ensures Essence(base + suffix) == base
  {
    if base == "" {
      assert base + suffix == suffix;
    } else {
      assert (base + suffix)[1..] == base[1..] + suffix;
      EssenceOf(base[1..], suffix);
    }
  }

  lemma LowerCase(c: char)
    ensures 'a' <= c <= 'z' <==> c in "abcdefghijklmnopqrstuvwxyz"
  {
    var all := "abcdefghijklmnopqrstuvwxyz";
    if 'a' <= c <= 'z' {
      var i := c as int - 'a' as int;
      assert all[i] == c by { LowerCaseAt(i); }
    }
  }

  lemma LowerCaseAt(i: nat)
    requires i < 26
    ensures "abcdefghijklmnopqrstuvwxyz"[i] == ('a' as int + i) as char
  {
  }

  /** Parameters do not matter to the rank, and this is the whole table. */
  lemma RankTable(base: string, suffix: string)
    requires ';' !in base && (suffix == "" || suffix[0] == ';')
    ensures Rank(base + suffix) == if Place(base) < 6 then Some(Place(base)) else None
  {
    hide Rank, Place;
    EssenceOf(base, suffix);
    RankOfEssence(base + suffix, base);
  }

  lemma RankOfEssence(m: Mime, base: string)
    requires Essence(m) == base
    ensures Rank(m) == if Place(base) < 6 then Some(Place(base)) else None
  {
    hide Essence;
    if base != "" {
      LowerCase(base[0]);
      PrefixesDiffer(base);
    }
  }

  lemma PrefixesDiffer(base: string)
    requires base != ""
    ensures "x-special/" <= base ==> base[0] == 'x'
    ensures "text/" <= base ==> base[0] == 't'
  {
  }

  // --------------------------------------------------------------------- choice

  /** Offer i is the one to ask for: the first of its rank without parameters, or the first if all have some. */
  ghost predicate Preferred(offers: seq<Mime>, r: nat, i: nat) {
    && i < |offers| && Rank(offers[i]) == Some(r)
    && if ';' in offers[i]
       then forall j: nat | j < |offers| && Rank(offers[j]) == Some(r) :: i <= j && ';' in offers[j]
       else forall j: nat | j < i && Rank(offers[j]) == Some(r) :: ';' in offers[j]
  }

  lemma PreferredIsUnique(offers: seq<Mime>, r: nat, i: nat, j: nat)
    requires Preferred(offers, r, i) && Preferred(offers, r, j)
    ensures i == j
  {
    hide Rank;
  }

  /** An offer that is not rejected holds for each rank exactly its preferred type, or none if it has none. */
  lemma ChosenIsPreferred(offers: seq<Mime>, r: nat)
    requires !Offered(offers).rejected && r < 6
    ensures match Offered(offers).choices[r]
      case Some(m) => exists i: nat | i < |offers| :: Preferred(offers, r, i) && offers[i] == m
      case None => forall i: nat | i < |offers| :: Rank(offers[i]) != Some(r)
  {
    hide Rank, Choice, Preferred, Rejects, Offered;
    RejectedIff(offers);
    ChoicesAreBest(offers);
    ChoiceIsPreferred(offers, r);
  }

  lemma ChoiceIsPreferred(offers: seq<Mime>, r: nat)
    ensures match Choice(offers, r)
      case Some(m) => exists i: nat | i < |offers| :: Preferred(offers, r, i) && offers[i] == m
      case None => forall i: nat | i < |offers| :: Rank(offers[i]) != Some(r)
  {
    hide Rank, First, Preferred;
    var p := FirstIsFirst(offers, r, true);
    var q := FirstIsFirst(offers, r, false);
    NoneBefore(offers, r, p, q);
    if p < |offers| {
      PlainIsPreferred(offers, r, p);
    } else if q < |offers| {
      FirstIsPreferred(offers, r, q);
    }
  }

  lemma PlainIsPreferred(offers: seq<Mime>, r: nat, p: nat)
    requires p < |offers| && First(offers, r, true) == Some(offers[p])
    requires forall j: nat | j < p && Rank(offers[j]) == Some(r) :: ';' in offers[j]
    ensures Preferred(offers, r, p)
  {
    hide Rank;
  }

  lemma FirstIsPreferred(offers: seq<Mime>, r: nat, q: nat)
    requires q < |offers| && First(offers, r, false) == Some(offers[q])
    requires forall j: nat | j < q :: Rank(offers[j]) != Some(r)
    requires forall j: nat | j < |offers| && Rank(offers[j]) == Some(r) :: ';' in offers[j]
    ensures Preferred(offers, r, q)
  {
    hide Rank;
  }

  lemma NoneBefore(offers: seq<Mime>, r: nat, p: nat, q: nat)
    requires p <= |offers| && forall j | 0 <= j < p :: !Wanted(offers[j], r, true)
    requires q <= |offers| && forall j | 0 <= j < q :: !Wanted(offers[j], r, false)
    ensures forall j: nat | j < p && Rank(offers[j]) == Some(r) :: ';' in offers[j]
    ensures forall j: nat | j < q :: Rank(offers[j]) != Some(r)
  {
    hide Rank;
    forall j: nat | j < p && Rank(offers[j]) == Some(r) ensures ';' in offers[j] {
      assert !Wanted(offers[j], r, true);
    }
    forall j: nat | j < q ensures Rank(offers[j]) != Some(r) {
      assert !Wanted(offers[j], r, false);
    }
  }
}
