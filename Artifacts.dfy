/**
 * Names of the files a commission run leaves in object storage, one folder
 * per competence (`YYYY-MM/`), every file stamped with the run's timestamp
 * (`YYYYMMDD_HHMMSS`); and the competence label shown to users (`MM/YYYY`).
 */
module Artifacts {
  import opened Wrappers
  import opened Text
  import opened Order
  import opened Slots

  /** `re.match(r"^\d{4}-\d{2}$", s)`. */
  predicate IsCompetence(s: string) {
    |s| == 7 && AllDigits(s[..4]) && s[4] == '-' && AllDigits(s[5..])
  }

  /** `\d{8}_\d{6}`, the shape of `strftime("%Y%m%d_%H%M%S")`. */
  predicate IsTimestamp(t: string) {
    |t| == 15 && AllDigits(t[..8]) && t[8] == '_' && AllDigits(t[9..])
  }

  /** `re.match(r"^df_final_\d{8}_\d{6}\.xlsx$", n)`. */
  predicate IsDfFinalName(n: string) {
    |n| == 29 && n[..9] == "df_final_" && IsTimestamp(n[9..24]) && n[24..] == ".xlsx"
  }

  /** The kinds of file one run stores: the two engine outputs and the ten inputs. */
  datatype Artifact = DfFinal | DfJuntar | Source(slot: Slot)

  /**
   * What stands between the competence folder and the timestamp in the
   * path of each artifact: `/<stem>_`.
   */
  function Infix(a: Artifact): string {
    match a
    case DfFinal => "/df_final_"
    case DfJuntar => "/df_juntar_"
    case Source(Pj1) => "/pj1_"
    case Source(Seg) => "/seguro_pj_"
    case Source(Cam) => "/cambio_"
    case Source(CoTer) => "/co_corretagem_terceiras_"
    case Source(CoXpvp) => "/co_corretagem_xpvp_"
    case Source(Cre) => "/credito_"
    case Source(Xpcs) => "/xpcs_"
    case Source(LanMan) => "/lancamentos_manuais_"
    case Source(TimRep) => "/times_repasses_"
    case Source(LanPro) => "/lancamento_produtos_"
  }

  /** The one naming scheme of stored files: `<competence>/<stem>_<timestamp>.xlsx`. */
  function ArtifactPath(comp: string, a: Artifact, ts: string): string {
    comp + Infix(a) + ts + ".xlsx"
  }

  /** The name of a stored file inside its competence folder. */
  function ArtifactName(a: Artifact, ts: string): string {
    Infix(a)[1..] + ts + ".xlsx"
  }

  /** Facts about the stems that tell df_final apart from the other artifacts. */
  lemma InfixShape(a: Artifact)
    ensures |Infix(a)| >= 5 && Infix(a)[0] == '/' && Infix(a)[|Infix(a)| - 1] == '_'
    ensures Infix(a)[|Infix(a)| - 2] == 'l' <==> a == DfFinal
    ensures |Infix(a)| == 10 <==> a == DfFinal
  {
  }

  /** A stored path is the competence folder, a slash and the file's name. */
  lemma PathIsFolderAndName(comp: string, a: Artifact, ts: string)
    ensures ArtifactPath(comp, a, ts) == comp + "/" + ArtifactName(a, ts)
  {
    InfixShape(a);
    var x := Infix(a);
    assert x == [x[0]] + x[1..];
    assert comp + x + ts + ".xlsx" == comp + [x[0]] + (x[1..] + ts + ".xlsx");
  }

  lemma DfFinalNameShape(ts: string)
    ensures ArtifactName(DfFinal, ts) == "df_final_" + ts + ".xlsx"
    ensures IsDfFinalName(ArtifactName(DfFinal, ts)) <==> IsTimestamp(ts)
  {
    var n := ArtifactName(DfFinal, ts);
    assert Infix(DfFinal)[1..] == "df_final_";
    if |n| == 29 {
      assert n[..9] == "df_final_" && n[9..24] == ts && n[24..] == ".xlsx";
    }
  }

  /** A name that passes the df_final filter is a df_final artifact name. */
  lemma {:induction false} DfFinalNameParts(n: string)
    requires IsDfFinalName(n)
    ensures n == ArtifactName(DfFinal, n[9..24])
  {
    DfFinalNameShape(n[9..24]);
    assert n == n[..9] + n[9..24] + n[24..];
  }

  /** Of the files one run stores, only df_final passes the df_final filter. */
  lemma OnlyDfFinalListed(a: Artifact, ts: string)
    requires IsTimestamp(ts)
    ensures IsDfFinalName(ArtifactName(a, ts)) <==> a == DfFinal
  {
    DfFinalNameShape(ts);
    InfixShape(a);
    assert |ArtifactName(a, ts)| == |Infix(a)| + 19;
  }

  /** `re.search(r"df_final_(\d{8}_\d{6})\.xlsx$", path).group(1)`, if it matches. */
  function ExtractTimestamp(path: string): (r: Option<string>)
  {
    if |path| >= 29 && IsDfFinalName(path[|path| - 29..]) then Some(path[|path| - 20..|path| - 5]) else None
  }

  /** A timestamp found in a path is a well-formed one that ends a df_final name. */
  lemma ExtractTimestampSound(path: string)
    requires ExtractTimestamp(path).Some?
    ensures var ts := ExtractTimestamp(path).value;
      IsTimestamp(ts) && path == path[..|path| - 29] + ArtifactName(DfFinal, ts)
  {
    var tail := path[|path| - 29..];
    assert tail[9..24] == path[|path| - 20..|path| - 5];
    DfFinalNameParts(tail);
    assert path == path[..|path| - 29] + tail;
  }

  /**
   * Round trip: the timestamp read back from a stored file's path is the one
   * it was stored with, and only df_final files yield one.
   */
  lemma TimestampRoundTrip(comp: string, a: Artifact, ts: string)
    requires IsTimestamp(ts)
    ensures ExtractTimestamp(ArtifactPath(comp, a, ts)) == if a == DfFinal then Some(ts) else None
  {
    var p := ArtifactPath(comp, a, ts);
    var n := |p|;
    InfixShape(a);
    if a == DfFinal {
      PathIsFolderAndName(comp, a, ts);
      DfFinalNameShape(ts);
      assert p[n - 29..] == ArtifactName(DfFinal, ts);
      assert p[n - 20..n - 5] == ts;
    } else if n >= 29 {
      // The character in front of the timestamp's `_` is the stem's last
      // one, never the `l` of "df_final".
      var m := |Infix(a)|;
      assert p == comp + Infix(a) + (ts + ".xlsx");
      assert p[n - 29..][7] == p[n - 22];
      assert p[n - 22] == Infix(a)[m - 2];
    }
  }

  /** `path.split("/")[0] if "/" in path else fallback`. */
  function CompetenceOf(path: string, fallback: string): string {
    if '/' in path then Split(path, '/')[0] else fallback
  }

  /** Round trip: the folder part of a stored path is the competence it was stored under. */
  lemma CompetenceOfPath(comp: string, rest: string, fallback: string)
    requires '/' !in comp
    ensures CompetenceOf(comp + "/" + rest, fallback) == comp
  {
    assert (comp + "/" + rest)[|comp|] == '/';
    SplitFirst(comp, '/', rest);
  }

  lemma CompetenceHasNoSlash(c: string)
    requires IsCompetence(c)
    ensures '/' !in c && '-' !in c[..4] && '-' !in c[5..]
  {
    assert forall i :: 0 <= i < |c| ==> (i < 4 ==> c[..4][i] == c[i]) && (i > 4 ==> c[5..][i - 5] == c[i]);
  }

  /** A valid competence splits on `-` into its year and its month. */
  lemma CompetenceSplit(c: string)
    requires IsCompetence(c)
    ensures Split(c, '-') == [c[..4], c[5..]]
  {
    CompetenceHasNoSlash(c);
    var parts := [c[..4], c[5..]];
    assert Join(parts, '-') == c[..4] + ['-'] + c[5..];
    assert c[..4] + ['-'] + c[5..] == c;
    SplitJoin(parts, '-');
  }

  /** The label `MM/YYYY` of a valid competence, an em dash for anything else. */
  function MonthLabel(comp: string): string {
    if IsCompetence(comp) then
      CompetenceSplit(comp);
      var parts := Split(comp, '-');
      parts[1] + "/" + parts[0]
    else
      "\U{2014}"
  }

  /** Round trip: the label holds the month and the year, from which the competence is rebuilt. */
  lemma MonthLabelRoundTrip(c: string)
    requires IsCompetence(c)
    ensures MonthLabel(c) == c[5..] + "/" + c[..4]
    ensures Split(MonthLabel(c), '/') == [c[5..], c[..4]]
    ensures var parts := Split(MonthLabel(c), '/'); parts[1] + "-" + parts[0] == c
  {
    CompetenceSplit(c);
    CompetenceHasNoSlash(c);
    assert '/' !in c[5..] && '/' !in c[..4] by {
      assert forall i :: 0 <= i < 2 ==> c[5..][i] == c[5 + i];
      assert forall i :: 0 <= i < 4 ==> c[..4][i] == c[i];
    }
    var parts := [c[5..], c[..4]];
    assert Join(parts, '/') == c[5..] + "/" + c[..4];
    SplitJoin(parts, '/');
    assert c[..4] + "-" + c[5..] == c;
  }

  /** The paths a viewer expects beside a df_final file stamped `ts`. */
  function StoredPaths(comp: string, ts: string): map<Artifact, string> {
    map[
      DfJuntar := comp + "/df_juntar_" + ts + ".xlsx",
      Source(Pj1) := comp + "/pj1_" + ts + ".xlsx",
      Source(Seg) := comp + "/seguro_pj_" + ts + ".xlsx",
      Source(Cam) := comp + "/cambio_" + ts + ".xlsx",
      Source(CoTer) := comp + "/co_corretagem_terceiras_" + ts + ".xlsx",
      Source(CoXpvp) := comp + "/co_corretagem_xpvp_" + ts + ".xlsx",
      Source(Cre) := comp + "/credito_" + ts + ".xlsx",
      Source(Xpcs) := comp + "/xpcs_" + ts + ".xlsx",
      Source(LanMan) := comp + "/lancamentos_manuais_" + ts + ".xlsx",
      Source(TimRep) := comp + "/times_repasses_" + ts + ".xlsx",
      Source(LanPro) := comp + "/lancamento_produtos_" + ts + ".xlsx"
    ]
  }

  /** The files a run uploads, in upload order, with their paths. */
  function UploadPlan(prefix: string, ts: string): seq<(Artifact, string)> {
    [
      (DfFinal, prefix + "/df_final_" + ts + ".xlsx"),
      (DfJuntar, prefix + "/df_juntar_" + ts + ".xlsx"),
      (Source(Pj1), prefix + "/pj1_" + ts + ".xlsx"),
      (Source(Seg), prefix + "/seguro_pj_" + ts + ".xlsx"),
      (Source(Cam), prefix + "/cambio_" + ts + ".xlsx"),
      (Source(CoTer), prefix + "/co_corretagem_terceiras_" + ts + ".xlsx"),
      (Source(CoXpvp), prefix + "/co_corretagem_xpvp_" + ts + ".xlsx"),
      (Source(Cre), prefix + "/credito_" + ts + ".xlsx"),
      (Source(Xpcs), prefix + "/xpcs_" + ts + ".xlsx"),
      (Source(LanMan), prefix + "/lancamentos_manuais_" + ts + ".xlsx"),
      (Source(TimRep), prefix + "/times_repasses_" + ts + ".xlsx"),
      (Source(LanPro), prefix + "/lancamento_produtos_" + ts + ".xlsx")
    ]
  }

  /** Where each artifact stands in the upload order. */
  function UploadIndex(a: Artifact): (i: nat)
    ensures i < 12
  {
    match a
    case DfFinal => 0
    case DfJuntar => 1
    case Source(k) => Rank(k) + 2
  }

  /** Every artifact is uploaded under the one naming scheme. */
  lemma UploadFollowsScheme(comp: string, ts: string)
    ensures |UploadPlan(comp, ts)| == 12
    ensures forall a: Artifact :: UploadPlan(comp, ts)[UploadIndex(a)] == (a, ArtifactPath(comp, a, ts))
  {
  }

  /** Each artifact is uploaded exactly once. */
  lemma UploadOnce(comp: string, ts: string)
    ensures |UploadPlan(comp, ts)| == 12
    ensures forall i :: 0 <= i < 12 ==> UploadIndex(UploadPlan(comp, ts)[i].0) == i
  {
  }

  /** The viewer expects every stored artifact but df_final itself. */
  lemma StoredKinds(comp: string, ts: string)
    ensures forall a: Artifact :: a in StoredPaths(comp, ts) <==> a != DfFinal
  {
    var keys := {DfJuntar, Source(Pj1), Source(Seg), Source(Cam), Source(CoTer), Source(CoXpvp), Source(Cre), Source(Xpcs), Source(LanMan), Source(TimRep), Source(LanPro)};
    assert StoredPaths(comp, ts).Keys == keys;
    forall a: Artifact ensures a in keys <==> a != DfFinal {
      match a
      case DfFinal =>
      case DfJuntar =>
      case Source(k) => SlotsEnumerated(k);
    }
  }

  /** Every path the viewer expects is under the one naming scheme. */
  lemma StoredFollowsScheme(comp: string, ts: string)
    ensures forall a :: a in StoredPaths(comp, ts) ==> StoredPaths(comp, ts)[a] == ArtifactPath(comp, a, ts)
  {
  }

  /**
   * The paths written by a run and the paths a viewer looks for agree:
   * every file the viewer expects beside df_final is one that was uploaded.
   */
  lemma PathFamiliesAgree(comp: string, ts: string, a: Artifact)
    requires a != DfFinal
    ensures a in StoredPaths(comp, ts)
    ensures StoredPaths(comp, ts)[a] == UploadPlan(comp, ts)[UploadIndex(a)].1
  {
    UploadFollowsScheme(comp, ts);
    StoredKinds(comp, ts);
    StoredFollowsScheme(comp, ts);
  }

  /** The number a timestamp denotes, `YYYYMMDDHHMMSS`. */
  function Stamp(ts: string): nat
    requires IsTimestamp(ts)
  {
    DigitsValue(ts[..8]) * 1000000 + DigitsValue(ts[9..])
  }

  /** The number a competence denotes, `YYYYMM`. */
  function CompetenceValue(c: string): nat
    requires IsCompetence(c)
  {
    DigitsValue(c[..4]) * 100 + DigitsValue(c[5..])
  }

  /** Because the widths are fixed, the string order of competences is their time order. */
  lemma CompetenceOrder(a: string, b: string)
    requires IsCompetence(a) && IsCompetence(b)
    ensures LexLe(a, b) <==> CompetenceValue(a) <= CompetenceValue(b)
  {
    assert a == a[..4] + [a[4]] + a[5..] && b == b[..4] + [b[4]] + b[5..];
    assert Pow10(2) == 100;
    DigitFieldsOrder(a[..4], a[5..], b[..4], b[5..], '-');
  }

  /**
   * Because the widths are fixed, the string order of two df_final paths of
   * one competence is the time order of their timestamps.
   */
  lemma NewestFirst(comp: string, t1: string, t2: string)
    requires IsTimestamp(t1) && IsTimestamp(t2)
    ensures LexLe(ArtifactPath(comp, DfFinal, t1), ArtifactPath(comp, DfFinal, t2)) <==> Stamp(t1) <= Stamp(t2)
  {
    var pre := comp + "/df_final_";
    assert ArtifactPath(comp, DfFinal, t1) == pre + (t1 + ".xlsx");
    assert ArtifactPath(comp, DfFinal, t2) == pre + (t2 + ".xlsx");
    LexLeCommonPrefix(pre, t1 + ".xlsx", t2 + ".xlsx");
    LexLeSameWidth(t1, ".xlsx", t2, ".xlsx");
    LexLeRefl(".xlsx");
    assert t1 == t1[..8] + [t1[8]] + t1[9..] && t2 == t2[..8] + [t2[8]] + t2[9..];
    assert Pow10(6) == 1000000;
    DigitFieldsOrder(t1[..8], t1[9..], t2[..8], t2[9..], '_');
  }
}
