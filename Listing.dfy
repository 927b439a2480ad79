/**
 * Listing what object storage holds: the competence folders at the root of
 * the bucket, and the df_final files inside one folder, newest first. The
 * storage call itself is an input: the entries it returned.
 */
module Listing {
  import opened Wrappers
  import opened Order
  import opened Artifacts

  /** One object of a storage listing; its "name" key may be absent. */
  datatype Entry = Entry(name: Option<string>)

  /** `it.get("name", "")`. */
  function EntryName(e: Entry): string {
    e.name.GetOr("")
  }

  /** The competence folder names among `entries`, in listing order. */
  function CompetenceNames(entries: seq<Entry>): (r: seq<string>)
    ensures forall x :: x in r <==> exists i :: 0 <= i < |entries| && EntryName(entries[i]) == x && IsCompetence(x)
  {
    if entries == [] then []
    else
      var init := entries[..|entries| - 1];
      var name := EntryName(entries[|entries| - 1]);
      assert forall i :: 0 <= i < |init| ==> init[i] == entries[i];
      CompetenceNames(init) + (if IsCompetence(name) then [name] else [])
  }

  /** The df_final files among `entries`, as `<competencia>/<name>`, in listing order. */
  function DfFinalPaths(competencia: string, entries: seq<Entry>): (r: seq<string>)
    ensures forall x :: x in r <==>
      exists i :: 0 <= i < |entries| && IsDfFinalName(EntryName(entries[i])) && x == competencia + "/" + EntryName(entries[i])
  {
    if entries == [] then []
    else
      var init := entries[..|entries| - 1];
      var name := EntryName(entries[|entries| - 1]);
      assert forall i :: 0 <= i < |init| ==> init[i] == entries[i];
      DfFinalPaths(competencia, init) + (if IsDfFinalName(name) then [competencia + "/" + name] else [])
  }

  /** `listar_competencias`: the competence folders, newest first. */
  method ListCompetences(entries: seq<Entry>) returns (comps: seq<string>)
    ensures SortedDesc(comps)
    ensures multiset(comps) == multiset(CompetenceNames(entries))
    ensures forall i :: 0 <= i < |comps| ==> IsCompetence(comps[i])
    ensures forall i :: 0 < i < |comps| ==> CompetenceValue(comps[i]) <= CompetenceValue(comps[i - 1])
  {
    comps := [];
    for i := 0 to |entries|
      invariant comps == CompetenceNames(entries[..i])
    {
      var nome := EntryName(entries[i]);
      if IsCompetence(nome) {
        comps := comps + [nome];
      }
      assert entries[..i + 1][..i] == entries[..i];
    }
    assert entries[..|entries|] == entries;
    ghost var found := comps;
    comps := SortDesc(comps);
    forall i | 0 <= i < |comps| ensures IsCompetence(comps[i]) {
      assert comps[i] in multiset(found);
    }
    forall i | 0 < i < |comps| ensures CompetenceValue(comps[i]) <= CompetenceValue(comps[i - 1]) {
      assert comps[i] in multiset(found) && comps[i - 1] in multiset(found);
      CompetenceOrder(comps[i], comps[i - 1]);
    }
  }

  /** `listar_df_final_por_competencia`: the df_final paths of one competence, newest first. */
  method ListDfFinal(competencia: string, entries: seq<Entry>) returns (paths: seq<string>)
    ensures SortedDesc(paths)
    ensures multiset(paths) == multiset(DfFinalPaths(competencia, entries))
  {
    paths := [];
    for i := 0 to |entries|
      invariant paths == DfFinalPaths(competencia, entries[..i])
    {
      var nome := EntryName(entries[i]);
      if IsDfFinalName(nome) {
        paths := paths + [competencia + "/" + nome];
      }
      assert entries[..i + 1][..i] == entries[..i];
    }
    assert entries[..|entries|] == entries;
    paths := SortDesc(paths);
  }

  /** `escolher_mais_recente_df_final`: the greatest df_final path, if any. */
  method MostRecentDfFinal(competencia: string, entries: seq<Entry>) returns (r: Option<string>)
    ensures r.None? <==> DfFinalPaths(competencia, entries) == []
    ensures r.Some? ==> r.value in DfFinalPaths(competencia, entries)
    ensures r.Some? ==> forall p :: p in DfFinalPaths(competencia, entries) ==> LexLe(p, r.value)
  {
    var arquivos := ListDfFinal(competencia, entries);
    var all := DfFinalPaths(competencia, entries);
    assert forall x :: x in arquivos <==> x in all by {
      forall x ensures x in arquivos <==> x in all {
        assert x in arquivos <==> x in multiset(arquivos);
        assert x in all <==> x in multiset(all);
      }
    }
    if |arquivos| > 0 {
      HeadIsGreatest(arquivos);
      r := Some(arquivos[0]);
    } else {
      r := None;
      assert |multiset(DfFinalPaths(competencia, entries))| == 0;
    }
  }

  /**
   * The greatest df_final path of a folder is the newest one: no df_final
   * file listed there carries a later timestamp.
   */
  lemma GreatestIsNewest(competencia: string, entries: seq<Entry>, latest: string)
    requires latest in DfFinalPaths(competencia, entries)
    requires forall p :: p in DfFinalPaths(competencia, entries) ==> LexLe(p, latest)
    ensures ExtractTimestamp(latest).Some? && IsTimestamp(ExtractTimestamp(latest).value)
    ensures forall i :: 0 <= i < |entries| && IsDfFinalName(EntryName(entries[i])) ==>
      Stamp(EntryName(entries[i])[9..24]) <= Stamp(ExtractTimestamp(latest).value)
  {
    var j :| 0 <= j < |entries| && IsDfFinalName(EntryName(entries[j])) && latest == competencia + "/" + EntryName(entries[j]);
    var tl := EntryName(entries[j])[9..24];
    DfFinalNameParts(EntryName(entries[j]));
    PathIsFolderAndName(competencia, DfFinal, tl);
    TimestampRoundTrip(competencia, DfFinal, tl);
    forall i | 0 <= i < |entries| && IsDfFinalName(EntryName(entries[i]))
      ensures Stamp(EntryName(entries[i])[9..24]) <= Stamp(tl)
    {
      var n := EntryName(entries[i]);
      var t := n[9..24];
      DfFinalNameParts(n);
      PathIsFolderAndName(competencia, DfFinal, t);
      assert competencia + "/" + n in DfFinalPaths(competencia, entries);
      NewestFirst(competencia, t, tl);
    }
  }
}
