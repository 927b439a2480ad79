/**
 * The request handlers' own logic, with the web framework, the storage
 * client and the spreadsheet engine taken out: which requests are refused
 * and why, which paths a run stores, and which paths a viewer reads back.
 */
module Routes {
  import opened Wrappers
  import opened Text
  import opened Order
  import opened Slots
  import opened Artifacts
  import opened Listing
  import opened Classifier

  /** Why `processar` sends the user back to the index page. */
  datatype ProcessError = InvalidCompetence | NoFiles | Unidentified(missing: seq<Slot>)

  /**
   * What an accepted run goes on with: the storage prefix, the label shown,
   * the classified inputs, and, when storage is configured, the df_final
   * path and every path the run uploads, in upload order.
   */
  datatype RunPlan = RunPlan(
    prefix: string,
    monthLabel: string,
    slots: SlotMap,
    dfFinal: Option<string>,
    uploads: seq<(Artifact, string)>)

  /** `not arquivos or arquivos[0].filename == ""`. */
  predicate NoFilesSent(files: seq<Upload>) {
    |files| == 0 || files[0].filename == Some("")
  }

  /**
   * `processar` up to the commission computation: the competence check,
   * the empty-upload check and the classification, then the paths stamped
   * with `timestamp` under which the results are stored.
   */
  method Process(competencia: string, files: seq<Upload>, storage: bool, timestamp: string)
    returns (r: Result<RunPlan, ProcessError>)
    ensures r == Failure(InvalidCompetence) <==> !IsCompetence(competencia)
    ensures r == Failure(NoFiles) <==> IsCompetence(competencia) && NoFilesSent(files)
    ensures r.Failure? && r.error.Unidentified? ==>
      IsCompetence(competencia) && !NoFilesSent(files) &&
      r.error.missing == Missing(Classification(files)) && r.error.missing != []
    ensures r.Success? <==>
      IsCompetence(competencia) && !NoFilesSent(files) && Missing(Classification(files)) == []
    ensures r.Success? ==>
      r.value.prefix == competencia && r.value.monthLabel == competencia[5..] + "/" + competencia[..4] &&
      r.value.slots == Classification(files) && forall k :: r.value.slots[k].Some?
    ensures r.Success? && storage ==>
      r.value.dfFinal == Some(ArtifactPath(competencia, DfFinal, timestamp)) &&
      r.value.uploads == UploadPlan(competencia, timestamp)
    ensures r.Success? && !storage ==> r.value.dfFinal == None && r.value.uploads == []
  {
    if !IsCompetence(competencia) {
      return Failure(InvalidCompetence);
    }
    CompetenceSplit(competencia);
    var parts := Split(competencia, '-');
    var ano, mes := parts[0], parts[1];
    var prefixo := ano + "-" + mes;
    var rotulo := mes + "/" + ano;
    assert prefixo == competencia;
    if NoFilesSent(files) {
      return Failure(NoFiles);
    }
    var slots, faltando := Classify(files);
    if faltando != [] {
      return Failure(Unidentified(faltando));
    }
    forall k ensures slots[k].Some? {
      assert k !in faltando;
    }
    var dfFinal: Option<string> := None;
    var uploads: seq<(Artifact, string)> := [];
    if storage {
      dfFinal := Some(prefixo + "/df_final_" + timestamp + ".xlsx");
      uploads := UploadPlan(prefixo, timestamp);
    }
    r := Success(RunPlan(prefixo, rotulo, slots, dfFinal, uploads));
  }

  /** Why `visualizar_antigo` sends the user back to the index page before reading any file. */
  datatype ViewError = StorageOff | NoCompetence | NoDfFinal

  /**
   * What a viewer derives from a df_final path: its timestamp, its
   * competence and label, and, when both are known, the companion files
   * it then tries to read.
   */
  datatype ViewPlan = ViewPlan(
    path: string,
    timestamp: Option<string>,
    competence: string,
    monthLabel: string,
    companions: Option<map<Artifact, string>>)

  /** The plan for `filePath`, with `competencia` as the competence when the path has no folder. */
  function PlanFor(filePath: string, competencia: string): ViewPlan {
    var ts := ExtractTimestamp(filePath);
    var comp := CompetenceOf(filePath, competencia);
    ViewPlan(filePath, ts, comp, MonthLabel(comp),
      if ts.Some? && IsCompetence(comp) then Some(StoredPaths(comp, ts.value)) else None)
  }

  /**
   * A plan's timestamp is a well-formed one ending the path's df_final name,
   * and its companions are every other artifact of that competence and
   * timestamp, named by the one scheme.
   */
  lemma PlanForShape(filePath: string, competencia: string)
    ensures var p := PlanFor(filePath, competencia);
      p.timestamp.Some? ==> (IsTimestamp(p.timestamp.value) &&
        filePath == filePath[..|filePath| - 29] + ArtifactName(DfFinal, p.timestamp.value))
    ensures var p := PlanFor(filePath, competencia);
      p.companions.Some? <==> p.timestamp.Some? && IsCompetence(p.competence)
    ensures var p := PlanFor(filePath, competencia);
      p.companions.Some? ==> forall a :: a in p.companions.value <==> a != DfFinal
    ensures var p := PlanFor(filePath, competencia);
      p.companions.Some? ==> forall a :: a in p.companions.value ==>
        p.companions.value[a] == ArtifactPath(p.competence, a, p.timestamp.value)
  {
    var p := PlanFor(filePath, competencia);
    if p.timestamp.Some? {
      ExtractTimestampSound(filePath);
    }
    if p.companions.Some? {
      StoredKinds(p.competence, p.timestamp.value);
      StoredFollowsScheme(p.competence, p.timestamp.value);
    }
  }

  /**
   * `visualizar_antigo` up to reading the files: the explicit `file`
   * parameter wins; otherwise the newest df_final of the competence given.
   */
  method View(storage: bool, fileParam: string, compParam: string, entries: seq<Entry>)
    returns (r: Result<ViewPlan, ViewError>)
    ensures r == Failure(StorageOff) <==> !storage
    ensures r == Failure(NoCompetence) <==> storage && fileParam == "" && !IsCompetence(compParam)
    ensures r == Failure(NoDfFinal) <==>
      storage && fileParam == "" && IsCompetence(compParam) && DfFinalPaths(compParam, entries) == []
    ensures r.Success? <==>
      storage && (fileParam != "" || (IsCompetence(compParam) && DfFinalPaths(compParam, entries) != []))
    ensures r.Success? && fileParam != "" ==> r.value == PlanFor(fileParam, compParam)
    ensures r.Success? && fileParam == "" ==>
      r.value == PlanFor(r.value.path, compParam) &&
      r.value.path in DfFinalPaths(compParam, entries) &&
      forall p :: p in DfFinalPaths(compParam, entries) ==> LexLe(p, r.value.path)
  {
    if !storage {
      return Failure(StorageOff);
    }
    var filePath := fileParam;
    if filePath == "" {
      if !IsCompetence(compParam) {
        return Failure(NoCompetence);
      }
      var latest := MostRecentDfFinal(compParam, entries);
      if latest.None? {
        return Failure(NoDfFinal);
      }
      filePath := latest.value;
    }
    r := Success(PlanFor(filePath, compParam));
  }

  /**
   * Round trip between `processar` and `visualizar_antigo`: opening the
   * df_final a run stored recovers its timestamp, its competence and the
   * month label, and the companions read are the very paths it uploaded.
   */
  lemma ViewFindsRun(comp: string, ts: string, fallback: string, a: Artifact)
    requires IsCompetence(comp) && IsTimestamp(ts) && a != DfFinal
    ensures var plan := PlanFor(UploadPlan(comp, ts)[0].1, fallback);
      plan.timestamp == Some(ts) && plan.competence == comp &&
      plan.monthLabel == comp[5..] + "/" + comp[..4] &&
      plan.companions.Some? && a in plan.companions.value &&
      plan.companions.value[a] == UploadPlan(comp, ts)[UploadIndex(a)].1
  {
    var path := ArtifactPath(comp, DfFinal, ts);
    UploadFollowsScheme(comp, ts);
    assert UploadPlan(comp, ts)[UploadIndex(DfFinal)] == (DfFinal, path);
    StoredFromPath(comp, ts, fallback);
    PathFamiliesAgree(comp, ts, a);
  }

  /** The plan for a stored df_final path, whatever the fallback competence. */
  lemma StoredFromPath(comp: string, ts: string, fallback: string)
    requires IsCompetence(comp) && IsTimestamp(ts)
    ensures PlanFor(ArtifactPath(comp, DfFinal, ts), fallback) ==
      ViewPlan(ArtifactPath(comp, DfFinal, ts), Some(ts), comp, comp[5..] + "/" + comp[..4], Some(StoredPaths(comp, ts)))
  {
    var path := ArtifactPath(comp, DfFinal, ts);
    TimestampRoundTrip(comp, DfFinal, ts);
    CompetenceHasNoSlash(comp);
    PathIsFolderAndName(comp, DfFinal, ts);
    assert path[|comp|] == '/';
    CompetenceOfPath(comp, ArtifactName(DfFinal, ts), fallback);
    MonthLabelRoundTrip(comp);
  }

  /**
   * The newest df_final of a valid competence's listing is opened with its
   * own timestamp and its companion files in the same folder.
   */
  lemma ListedPlan(comp: string, entries: seq<Entry>, path: string, fallback: string)
    requires IsCompetence(comp) && path in DfFinalPaths(comp, entries)
    ensures exists ts :: (IsTimestamp(ts) && path == ArtifactPath(comp, DfFinal, ts) &&
      PlanFor(path, fallback) == ViewPlan(path, Some(ts), comp, comp[5..] + "/" + comp[..4], Some(StoredPaths(comp, ts))))
  {
    var i :| 0 <= i < |entries| && IsDfFinalName(EntryName(entries[i])) && path == comp + "/" + EntryName(entries[i]);
    var name := EntryName(entries[i]);
    DfFinalNameParts(name);
    var ts := name[9..24];
    DfFinalNameShape(ts);
    PathIsFolderAndName(comp, DfFinal, ts);
    StoredFromPath(comp, ts, fallback);
  }

  /** `api_arquivos`: the df_final paths of a valid competence, newest first; nothing otherwise. */
  method ApiFiles(compParam: string, entries: seq<Entry>) returns (ok: bool, files: seq<string>)
    ensures ok <==> IsCompetence(compParam)
    ensures !ok ==> files == []
    ensures ok ==> SortedDesc(files) && multiset(files) == multiset(DfFinalPaths(compParam, entries))
  {
    if !IsCompetence(compParam) {
      return false, [];
    }
    ok := true;
    files := ListDfFinal(compParam, entries);
  }

  /** `competencia_atual`: the folder of the dashboard's df_final path, when it has one. */
  function CurrentCompetence(path: Option<string>): (r: Option<string>)
    ensures r.Some? <==> path.Some? && '/' in path.value
    ensures r.Some? ==> '/' !in r.value && r.value + "/" <= path.value
  {
    if path.Some? && path.value != [] && '/' in path.value then
      SplitHead(path.value, '/');
      Some(Split(path.value, '/')[0])
    else None
  }

  /** The dashboard of a stored run names that run's competence. */
  lemma CurrentCompetenceOfRun(comp: string, ts: string)
    requires IsCompetence(comp)
    ensures CurrentCompetence(Some(ArtifactPath(comp, DfFinal, ts))) == Some(comp)
  {
    var path := ArtifactPath(comp, DfFinal, ts);
    CompetenceHasNoSlash(comp);
    PathIsFolderAndName(comp, DfFinal, ts);
    assert path[|comp|] == '/';
    CompetenceOfPath(comp, ArtifactName(DfFinal, ts), "");
  }

  /** `arquivos_df_final` of the dashboard: the df_final files beside the one shown. */
  method DashboardFiles(path: Option<string>, entries: seq<Entry>) returns (current: Option<string>, files: seq<string>)
    ensures current == CurrentCompetence(path)
    ensures current.None? || current.value == "" ==> files == []
    ensures current.Some? && current.value != "" ==>
      SortedDesc(files) && multiset(files) == multiset(DfFinalPaths(current.value, entries))
  {
    current := CurrentCompetence(path);
    files := [];
    if current.Some? && current.value != "" {
      files := ListDfFinal(current.value, entries);
    }
  }
}
