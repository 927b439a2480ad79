# Commission dashboard: upload classification and stored-run bookkeeping

The web application takes a month's commission spreadsheets and classifies
them into ten input slots by their file names. A run is computed for one
competence (a month, written `YYYY-MM`). Its results are stored in object
storage under `YYYY-MM/<kind>_<YYYYMMDD_HHMMSS>.xlsx`. Earlier runs can be
reopened from there. This project models the deterministic logic around
the commission computation:

- `classificar_arquivos`. The slot dictionary and the set of used names are
  updated file by file. Each keyword slot takes the first file whose
  lower-cased name selects it through a fixed `if`/`elif` chain. `pj1` takes
  the first file whose name is not in use. The keys of the empty slots are
  reported in declaration order. Modules `Slots` and `Classifier`; `Classify`
  and `Place` are methods with a loop over the uploads.
- `listar_competencias`, `listar_df_final_por_competencia` and
  `escolher_mais_recente_df_final`. Each is a loop-and-append filter over the
  names a storage listing returned, followed by a descending sort, and then the
  head of that list. Module `Listing`, with the string order and an insertion
  sort in `Order`.
- The stored paths. Module `Artifacts` models the two fixed-width name
  patterns, the path a run stores for each artifact, and the timestamp read
  back from a df_final path by the viewer. It also models the competence taken
  from a path's folder, the `MM/YYYY` label, and the two path families written
  out in the upload code and in the viewer.
- The handlers' guards and plans. Module `Routes` covers `processar` up to the
  computation, `visualizar_antigo` up to reading files, `api_arquivos`, and the
  dashboard's current competence.
- `Text` models `str.lower`, substring `in` and `str.split`. `Wrappers` holds
  `Option` and `Result`.

Conventions:

- `\d` in the patterns means an ASCII digit.
- `$` means the end of the string.
- A file's name is an `Option`, because the upload's `filename` may be `None`.
- The storage listing, the clock's timestamp and whether storage is configured
  are parameters.
- Request parameters are taken as already stripped.

## Model

| member | source | states |
|---|---|---|
| Text.LowerChar | app.py:104 | A character comes back lower-case. Characters that are not upper-case are unchanged, and the upper-case ones of ASCII and Latin-1 move down by 32 code points. |
| Text.LowerIdempotent | app.py:104 | Lower-casing twice is lower-casing once, and the result holds no upper-case character. |
| Text.ContainsAt | app.py:111-128 | `w in s` holds exactly when `w` starts at some position of `s`. |
| Text.Split | app.py:366-367 | `split` on one character gives at least one piece. No piece holds the separator, and joining the pieces with it gives the string back. |
| Text.SplitJoin | app.py:366-367 | Splitting a join of separator-free pieces gives those pieces back. |
| Text.SplitNoSep | app.py:366 | A string without the separator splits into itself alone. |
| Text.SplitFirst | app.py:366 | The first piece of `a + sep + b` is `a` when `a` has no separator. |
| Text.SplitHead | app.py:282-283 | A string holding the separator splits into at least two pieces, and it starts with the first piece followed by the separator. |
| Order.LexLeRefl | app.py:168 | The string order used by `sorted` is reflexive. |
| Order.LexLeTotal | app.py:168 | Any two strings are comparable. |
| Order.LexLeAntisym | app.py:168 | Two strings each at most the other are equal. |
| Order.LexLeTrans | app.py:168 | The string order is transitive. |
| Order.LexLeCommonPrefix | app.py:184 | A shared prefix does not change how two strings compare. |
| Order.LexLeSameWidth | app.py:164-168 | Two equal-length strings compare by their first difference. |
| Order.HeadIsGreatest | app.py:190 | The head of a descending list is at least every element of it. |
| Order.Insert | app.py:168 | Inserting into a descending list keeps it descending, adds exactly the new element, and puts at the head either the new element or the old head. |
| Order.SortDesc | app.py:168 | `sorted(..., reverse=True)` returns a descending permutation of its input. |
| Order.SortedDescUnique | app.py:168 | Two descending arrangements of the same strings are the same list, so the sorted listing is fully determined. |
| Order.SameHead | app.py:190 | Two descending arrangements of the same strings have the same head. |
| Order.DigitsValue | app.py:165 | The number a digit string denotes is below 10 to its length. |
| Order.DigitsOrder | app.py:164-168 | For equal-width digit strings, the string order is the numeric order. |
| Order.PairOrder | app.py:164-168 | Two fields are compared first by the first field, and by the second only on a tie. |
| Order.FieldsOrder | app.py:164-168 | The same holds for two digit fields, compared by their numbers. |
| Order.DigitsLt | app.py:164-168 | A strictly smaller equal-width digit string has a strictly smaller number. |
| Order.DigitFieldsOrder | app.py:164-168 | Two `digits-separator-digits` strings of one shape compare as their number pairs do. |
| Slots.Rank | app.py:88-99 | Each slot's position in the declared order of the slot dictionary. |
| Slots.SlotsEnumerated | app.py:88-99 | Every slot is one of the ten keys and stands at exactly one position. |
| Slots.KeysDistinct | app.py:88-99 | Distinct slots have distinct keys. |
| Artifacts.InfixShape | app.py:513-527 | Each artifact's stem starts with `/` and ends with `_`. Only df_final has `l` just before that `_`, and only df_final has a stem of width 10. |
| Artifacts.PathIsFolderAndName | app.py:513-527 | A stored path is the competence folder, `/` and the file name. |
| Artifacts.DfFinalNameShape | app.py:178-180 | The df_final name for `ts` is `df_final_<ts>.xlsx`, and it matches the listing pattern exactly when `ts` is a well-formed timestamp. |
| Artifacts.DfFinalNameParts | app.py:178-180 | Every name that matches the pattern is the df_final name of its own timestamp. |
| Artifacts.OnlyDfFinalListed | app.py:178-180 | Of the files a run stores, only the df_final one matches the listing pattern. |
| Artifacts.ExtractTimestampSound | app.py:363-364 | A timestamp found in a path is well-formed, and the path ends with that timestamp's df_final name. |
| Artifacts.TimestampRoundTrip | app.py:363-364 | Reading the timestamp back from a stored df_final path gives the timestamp it was stored with. No other stored artifact's path yields a timestamp. |
| Artifacts.CompetenceOfPath | app.py:366 | The competence taken from `comp/rest` is `comp` when `comp` has no slash. |
| Artifacts.CompetenceHasNoSlash | app.py:366 | A valid competence has no `/`, and its year and month have no `-`. |
| Artifacts.CompetenceSplit | app.py:435 | A valid competence splits on `-` into exactly its year and its month. |
| Artifacts.MonthLabelRoundTrip | app.py:367 | The label of a valid competence is `MM/YYYY`. Splitting the label on `/` and rejoining the pieces as `YYYY-MM` gives the competence back. |
| Artifacts.UploadIndex | app.py:513-527 | Each artifact has a place among the twelve uploads. |
| Artifacts.UploadFollowsScheme | app.py:513-527 | The run uploads twelve files, each at its artifact's path under the one naming scheme. |
| Artifacts.UploadOnce | app.py:513-527 | Every upload position holds the artifact of that position, so no artifact is uploaded twice. |
| Artifacts.StoredKinds | app.py:374-386 | The viewer expects every artifact except df_final itself. |
| Artifacts.StoredFollowsScheme | app.py:374-386 | Every expected path follows the same naming scheme. |
| Artifacts.PathFamiliesAgree | app.py:374-386 | For every companion artifact, the path the viewer reads is the path the run uploaded. |
| Artifacts.CompetenceOrder | app.py:164-168 | For valid competences, the string order is the order of year and then month. |
| Artifacts.NewestFirst | app.py:178-184 | Within one folder, the order of df_final paths is the order of their timestamps as date and then time. |
| Classifier.Selected | app.py:111-128 | The keyword chain never selects `pj1`. |
| Classifier.FirstMatchFrom | app.py:111-128 | The first slot from a position on whose fragments occur in the name, or none when no later slot matches. |
| Classifier.SelectedIsFirstMatch | app.py:111-128 | The `if`/`elif` chain is the search for the first matching slot in declaration order. |
| Classifier.SelectedPrecedence | app.py:111-128 | A name goes to `k` exactly when it matches `k` and no slot declared before it. It goes to no slot exactly when it matches none. |
| Classifier.FirstClaim | app.py:103-109 | The position of the first upload asking for a slot. It is none exactly when no upload asks for it. |
| Classifier.FirstClaimSnoc | app.py:103-109 | One more upload keeps an earlier first claim. Otherwise it becomes the first claim only if it asks for the slot. |
| Classifier.KeywordSlots | app.py:103-128 | The slots after the loop hold every key, and each holds that slot's first claimant. |
| Classifier.Unused | app.py:130 | `nao_usados` holds exactly the uploads whose lower-cased name is not in use. |
| Classifier.UnusedHead | app.py:130-132 | The first unused upload is the first upload in order whose name is not in use. |
| Classifier.Classification | app.py:87-135 | The final slot dictionary has all ten keys. |
| Classifier.MissingFrom | app.py:134 | The empty slots from a position on, in strictly increasing declared order. |
| Classifier.Missing | app.py:134 | `faltando` holds exactly the empty slots, in the declared order, with no repetition. |
| Classifier.NamesOfPlace | app.py:106-109 | Filling an empty slot adds exactly the file's name to the names in use. |
| Classifier.KeywordSlotStep | app.py:103-128 | A slot after one more upload is that upload if it asks for the slot and the slot was empty; otherwise the slot is unchanged. |
| Classifier.EmptySlots | app.py:88-99 | The dictionary starts with all ten keys empty. |
| Classifier.Place | app.py:106-128 | `marca`: the upload fills only the slot its name selects, and only if empty. The names in use stay the names of the placed files. |
| Classifier.Classify | app.py:87-135 | The loop's result is the classification, and `faltando` is the list of its empty slots. |
| Classifier.KeywordSlotIsFirstClaim | app.py:103-109 | Each keyword slot ends with the first upload asking for it, and is empty exactly when none asks. |
| Classifier.FallbackIsFirstUnused | app.py:130-132 | `pj1` holds the first upload whose name is not the name of a keyword-placed file. It is empty exactly when there is no such upload. |
| Classifier.PlacedFromInput | app.py:103-132 | Every file in a slot is one of the uploads. |
| Classifier.NoFileTwice | app.py:103-132 | No upload is placed in two slots. |
| Classifier.LateClaimantFallsBack | app.py:106-132 | A second claimant of a taken slot is not marked as used. With a name different from the first, it becomes `pj1`. |
| Classifier.OnlyFirstPlaced | app.py:106-109 | Of two uploads asking for one slot, only the first one's name is in use. |
| Classifier.SameNameLeavesNoFallback | app.py:130-132 | An upload named like an already placed file is never the fallback. |
| Classifier.SeguroBeforeXpvp | app.py:111-117 | A name holding both "seguro" and "xpvp" matches `co_xpvp` but goes to `seg`. |
| Listing.CompetenceNames | app.py:163-166 | The names kept are exactly the listed names that match `DDDD-DD`. |
| Listing.DfFinalPaths | app.py:177-180 | The paths kept are exactly `competencia/name` for the listed names matching the df_final pattern. |
| Listing.ListCompetences | app.py:158-169 | The competences are a descending permutation of the matching names, and they are newest first by year and month. |
| Listing.ListDfFinal | app.py:172-185 | The df_final paths are a descending permutation of the matching paths. |
| Listing.MostRecentDfFinal | app.py:188-190 | The result is none exactly when no df_final is listed. Otherwise it is a listed path at least every other one. |
| Listing.GreatestIsNewest | app.py:184-190 | The greatest listed path carries the latest timestamp of any df_final in the folder. |
| Routes.Process | app.py:426-450 | The invalid competence, no files and unidentified kinds refusals are each exact; the last carries `faltando`. An accepted run has the competence as prefix, `MM/YYYY` as label, every slot filled, and, with storage, the df_final path and the twelve upload paths. |
| Routes.PlanForShape | app.py:363-386 | A viewer's timestamp is well-formed and ends the path's df_final name. Companions exist exactly when the timestamp and a valid competence do, and they are every other artifact under the one scheme. |
| Routes.View | app.py:336-354 | Storage off, no valid competence, and no df_final are each exact refusals. An explicit file wins; otherwise the greatest listed df_final is opened. |
| Routes.StoredFromPath | app.py:363-386 | Opening a stored df_final path recovers its timestamp, its folder's competence and the label, whatever competence is passed beside it. |
| Routes.ViewFindsRun | app.py:363-386 | The df_final a run uploads reopens with the run's timestamp and competence, and each companion read is the path the run uploaded for it. |
| Routes.ListedPlan | app.py:350-386 | Any listed df_final of a valid competence is a stored path, and it reopens with its own timestamp and companions. |
| Routes.ApiFiles | app.py:315-324 | `ok` holds exactly for a valid competence. With `ok`, the files are that competence's df_final paths, newest first; otherwise there are none. |
| Routes.CurrentCompetence | app.py:282-283 | A current competence exists exactly when the path has a slash. It has no slash, and the path starts with it followed by `/`. |
| Routes.CurrentCompetenceOfRun | app.py:282-283 | A stored run's dashboard names that run's competence. |
| Routes.DashboardFiles | app.py:282-285 | The dashboard lists the df_final files of the current competence newest first, and none when there is no non-empty competence. |

## Left out

- `calcular_comissoes`, the commission computation itself, and its input preparation (app.py:24, app.py:452-465) are imported from `comissoes_backend`, which is not part of this model.
- The web framework's part is left out: routing, `flash`, `redirect`, `render_template`, `send_file`, `jsonify` and the download routes. Handlers return `Result` values instead.
- Object storage is left out: client creation, listing, download and upload, and their exceptions. A listing is an input sequence of entries. Uploads are the planned paths. A failed download or upload is not modelled: the viewer's "could not read the Excel" refusal (app.py:356-359) and the upload's fallback to no stored path (app.py:529-532).
- Spreadsheet I/O is left out: `pd.read_excel`, `to_excel`, `to_html`, local output files and `os.makedirs`.
- `brl`, the dashboard metrics and table rendering are left out: they are floating-point formatting and pandas aggregation. `max_total`'s temporary mix-up with the mean is presentation only.
- `datetime.now()` is left out: the run's timestamp is a parameter of `Routes.Process`.
- `.strip()` of request parameters is left out: parameters are taken already stripped.
- `Text.LowerChar`: lower-cases ASCII and Latin-1 exactly, but not the rest of Unicode, such as letters that lower-case to two characters.
- `Artifacts.IsCompetence`, `Artifacts.IsTimestamp` and `Artifacts.IsDfFinalName` have two limits. They accept only ASCII digits, where Python's `\d` also accepts other Unicode digits. They also read `$` as the end of the string, where Python also accepts a final newline before it.
- The competences offered on the index page (app.py:309-312) are only a call of `listar_competencias`, modelled by `Listing.ListCompetences`.
