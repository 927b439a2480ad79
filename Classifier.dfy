/**
 * Assigning uploaded files to the ten input slots of a commission run by
 * their names (`classificar_arquivos`): keyword slots by a fixed precedence
 * of name fragments, the base slot `pj1` as the fallback, and the report of
 * the slots left empty.
 */
module Classifier {
  import opened Wrappers
  import opened Text
  import opened Slots

  /** An uploaded file: its identity in the request and its name, which the client may omit. */
  datatype Upload = Upload(id: nat, filename: Option<string>)

  /** `(f.filename or "").lower()`. */
  function NameOf(f: Upload): string {
    Lower(f.filename.GetOr(""))
  }

  /** The slot a lower-cased name asks for: the first branch of the keyword chain that matches. */
  function Selected(name: string): (r: Option<Slot>)
    ensures r != Some(Pj1)
  {
    if Contains(name, "seguro") then Some(Seg)
    else if Contains(name, "c\U{00E2}mbio") || Contains(name, "cambio") then Some(Cam)
    else if Contains(name, "terceiras") then Some(CoTer)
    else if Contains(name, "xpvp") then Some(CoXpvp)
    else if Contains(name, "cr\U{00E9}dito") || Contains(name, "credito") then Some(Cre)
    else if Contains(name, "xpcs") then Some(Xpcs)
    else if Contains(name, "lan\U{00E7}amentos manuais") || Contains(name, "lancamentos manuais") then Some(LanMan)
    else if Contains(name, "times e repasses") then Some(TimRep)
    else if Contains(name, "lan\U{00E7}amento de produtos") || Contains(name, "lancamento de produtos") then Some(LanPro)
    else None
  }

  /** Some name fragment that identifies slot `k` occurs in `name`; no fragment identifies `pj1`. */
  predicate Matches(name: string, k: Slot) {
    match k
    case Pj1 => false
    case Seg => Contains(name, "seguro")
    case Cam => Contains(name, "c\U{00E2}mbio") || Contains(name, "cambio")
    case CoTer => Contains(name, "terceiras")
    case CoXpvp => Contains(name, "xpvp")
    case Cre => Contains(name, "cr\U{00E9}dito") || Contains(name, "credito")
    case Xpcs => Contains(name, "xpcs")
    case LanMan => Contains(name, "lan\U{00E7}amentos manuais") || Contains(name, "lancamentos manuais")
    case TimRep => Contains(name, "times e repasses")
    case LanPro => Contains(name, "lan\U{00E7}amento de produtos") || Contains(name, "lancamento de produtos")
  }

  /** The first slot from position `n` on, in declaration order, whose fragments occur in `name`. */
  function FirstMatchFrom(name: string, n: nat): (r: Option<Slot>)
    ensures r.Some? ==> Rank(r.value) >= n && Matches(name, r.value)
    ensures r.Some? ==> forall j :: n <= j < Rank(r.value) ==> !Matches(name, SlotOrder[j])
    ensures r.None? <==> forall j :: n <= j < |SlotOrder| ==> !Matches(name, SlotOrder[j])
    decreases |SlotOrder| - n
  {
    if n >= |SlotOrder| then None
    else if Matches(name, SlotOrder[n]) then
      assert Rank(SlotOrder[n]) == n by { SlotsEnumerated(SlotOrder[n]); }
      Some(SlotOrder[n])
    else FirstMatchFrom(name, n + 1)
  }

  /** One step of the search: slot `n` if it matches, else the search from `n + 1`. */
  lemma SearchStep(name: string, n: nat)
    requires n < |SlotOrder|
    ensures FirstMatchFrom(name, n) == if Matches(name, SlotOrder[n]) then Some(SlotOrder[n]) else FirstMatchFrom(name, n + 1)
  {
  }

  /** The search from `cre` on is the later half of the chain. */
  lemma {:induction false} SearchFromCre(name: string)
    ensures FirstMatchFrom(name, 5) ==
      if Contains(name, "cr\U{00E9}dito") || Contains(name, "credito") then Some(Cre)
      else if Contains(name, "xpcs") then Some(Xpcs)
      else if Contains(name, "lan\U{00E7}amentos manuais") || Contains(name, "lancamentos manuais") then Some(LanMan)
      else if Contains(name, "times e repasses") then Some(TimRep)
      else if Contains(name, "lan\U{00E7}amento de produtos") || Contains(name, "lancamento de produtos") then Some(LanPro)
      else None
  {
    SearchStep(name, 5);
    if Matches(name, Cre) { return; }
    SearchStep(name, 6);
    if Matches(name, Xpcs) { return; }
    SearchStep(name, 7);
    if Matches(name, LanMan) { return; }
    SearchStep(name, 8);
    if Matches(name, TimRep) { return; }
    SearchStep(name, 9);
  }

  /** The `if`/`elif` chain is the search for the first matching slot in declaration order. */
  lemma {:induction false} SelectedIsFirstMatch(name: string)
    ensures Selected(name) == FirstMatchFrom(name, 0)
  {
    SearchStep(name, 0);
    SearchStep(name, 1);
    if Matches(name, Seg) { return; }
    SearchStep(name, 2);
    if Matches(name, Cam) { return; }
    SearchStep(name, 3);
    if Matches(name, CoTer) { return; }
    SearchStep(name, 4);
    if Matches(name, CoXpvp) { return; }
    SearchFromCre(name);
  }

  /**
   * The chain is a precedence order over the slots: a name goes to slot `k`
   * exactly when it matches `k` and no slot declared before `k`, and to no
   * slot exactly when it matches none.
   */
  lemma SelectedPrecedence(name: string, k: Slot)
    ensures Selected(name) == Some(k) <==> Matches(name, k) && forall j :: 0 <= j < Rank(k) ==> !Matches(name, SlotOrder[j])
    ensures Selected(name) == None <==> forall j :: 0 <= j < |SlotOrder| ==> !Matches(name, SlotOrder[j])
  {
    SelectedIsFirstMatch(name);
    var r := FirstMatchFrom(name, 0);
    if Matches(name, k) && forall j :: 0 <= j < Rank(k) ==> !Matches(name, SlotOrder[j]) {
      assert r.Some? by { assert SlotOrder[Rank(k)] == k; }
      if Rank(r.value) < Rank(k) {
        assert false;
      } else if Rank(r.value) > Rank(k) {
        assert false;
      }
    }
  }

  /** File `f` asks for slot `k`. */
  predicate Claims(f: Upload, k: Slot) {
    Selected(NameOf(f)) == Some(k)
  }

  /** The position of the first file that asks for slot `k`. */
  function FirstClaim(files: seq<Upload>, k: Slot): (r: Option<nat>)
    ensures r.Some? ==> r.value < |files| && Claims(files[r.value], k)
    ensures r.Some? ==> forall j :: 0 <= j < r.value ==> !Claims(files[j], k)
    ensures r.None? <==> forall j :: 0 <= j < |files| ==> !Claims(files[j], k)
  {
    if files == [] then None
    else if Claims(files[0], k) then Some(0)
    else
      match FirstClaim(files[1..], k)
      case None => None
      case Some(i) => Some(i + 1)
  }

  /** One more file leaves an earlier claim alone and otherwise may become the first. */
  lemma {:induction false} FirstClaimSnoc(files: seq<Upload>, f: Upload, k: Slot)
    ensures FirstClaim(files + [f], k) ==
      if FirstClaim(files, k).Some? then FirstClaim(files, k)
      else if Claims(f, k) then Some(|files|)
      else None
  {
    var r := FirstClaim(files + [f], k);
    var ext := files + [f];
    assert forall j :: 0 <= j < |files| ==> ext[j] == files[j];
    if FirstClaim(files, k).Some? {
      var i := FirstClaim(files, k).value;
      assert r.Some? && r.value <= i;
      assert r.value == i;
    } else if Claims(f, k) {
      assert ext[|files|] == f;
    } else {
      assert ext[|files|] == f;
    }
  }

  /** The contents of the ten slots, each empty or holding one uploaded file. */
  type SlotMap = map<Slot, Option<Upload>>

  predicate Total(m: SlotMap) {
    forall k: Slot :: k in m
  }

  /** What keyword slot `k` holds once every file has been seen: the first file that asks for it. */
  function KeywordSlot(files: seq<Upload>, k: Slot): Option<Upload> {
    if k == Pj1 then None
    else match FirstClaim(files, k)
      case Some(i) => Some(files[i])
      case None => None
  }

  /** The slots once every file has been seen, before the fallback: `pj1` is still empty. */
  function KeywordSlots(files: seq<Upload>): (m: SlotMap)
    ensures Total(m)
    ensures forall k :: m[k] == KeywordSlot(files, k)
  {
    forall k: Slot ensures k in AllSlots { SlotsEnumerated(k); }
    map k | k in AllSlots :: KeywordSlot(files, k)
  }

  /** The lower-cased names of the files held in `m`: the set `usados`. */
  function NamesOf(m: SlotMap): set<string> {
    set k | k in m && m[k].Some? :: NameOf(m[k].value)
  }

  /** `[f for f in files if (f.filename or "").lower() not in used]`. */
  function Unused(files: seq<Upload>, used: set<string>): (r: seq<Upload>)
    ensures forall f :: f in r <==> f in files && NameOf(f) !in used
  {
    if files == [] then []
    else
      assert forall f :: f in files <==> f == files[0] || f in files[1..];
      (if NameOf(files[0]) !in used then [files[0]] else []) + Unused(files[1..], used)
  }

  /** The first file left over is the first file in upload order whose name is not in use. */
  lemma {:induction false} UnusedHead(files: seq<Upload>, used: set<string>)
    requires Unused(files, used) != []
    ensures exists i :: (0 <= i < |files| && files[i] == Unused(files, used)[0] && NameOf(files[i]) !in used &&
      forall j :: 0 <= j < i ==> NameOf(files[j]) in used)
  {
    if NameOf(files[0]) !in used {
      assert files[0] == Unused(files, used)[0];
    } else {
      UnusedHead(files[1..], used);
      var i :| 0 <= i < |files[1..]| && files[1..][i] == Unused(files[1..], used)[0] && NameOf(files[1..][i]) !in used &&
        forall j :: 0 <= j < i ==> NameOf(files[1..][j]) in used;
      assert files[i + 1] == files[1..][i];
      assert forall j :: 0 < j < i + 1 ==> files[j] == files[1..][j - 1];
    }
  }

  /**
   * The slots after classification: the keyword slots, and in `pj1` the
   * first file whose name is not the name of a file already placed.
   */
  function Classification(files: seq<Upload>): (m: SlotMap)
    ensures Total(m)
  {
    var kw := KeywordSlots(files);
    var unused := Unused(files, NamesOf(kw));
    kw[Pj1 := if unused != [] then Some(unused[0]) else None]
  }

  /** `[k for k, v in slots.items() if v is None]` over the slots from position `n` on. */
  function MissingFrom(slots: SlotMap, n: nat): (r: seq<Slot>)
    requires Total(slots)
    ensures forall k :: k in r <==> Rank(k) >= n && slots[k].None?
    ensures forall i :: 0 <= i < |r| ==> Rank(r[i]) >= n
    ensures forall i, j :: 0 <= i < j < |r| ==> Rank(r[i]) < Rank(r[j])
    decreases |SlotOrder| - n
  {
    if n >= |SlotOrder| then []
    else
      var k := SlotOrder[n];
      assert Rank(k) == n by { SlotsEnumerated(k); }
      (if slots[k].None? then [k] else []) + MissingFrom(slots, n + 1)
  }

  /** The empty slots, in declaration order (`faltando`). */
  function Missing(slots: SlotMap): (r: seq<Slot>)
    requires Total(slots)
    ensures forall k :: k in r <==> slots[k].None?
    ensures forall i, j :: 0 <= i < j < |r| ==> Rank(r[i]) < Rank(r[j])
  {
    MissingFrom(slots, 0)
  }

  /** Placing file `f` in the empty slot `k` adds its name to the names in use. */
  lemma NamesOfPlace(m: SlotMap, k: Slot, f: Upload)
    requires k in m && m[k].None?
    ensures NamesOf(m[k := Some(f)]) == NamesOf(m) + {NameOf(f)}
  {
    var m' := m[k := Some(f)];
    forall x ensures x in NamesOf(m') <==> x in NamesOf(m) + {NameOf(f)} {
      if x in NamesOf(m') {
        var j :| j in m' && m'[j].Some? && x == NameOf(m'[j].value);
        if j != k { assert x in NamesOf(m); }
      }
      if x in NamesOf(m) {
        var j :| j in m && m[j].Some? && x == NameOf(m[j].value);
        assert j != k && m'[j] == m[j];
      }
      if x == NameOf(f) {
        assert m'[k] == Some(f);
      }
    }
  }

  /** Two maps that hold every slot and agree on each are the same. */
  lemma SameSlots(m1: SlotMap, m2: SlotMap)
    requires Total(m1) && Total(m2)
    requires forall k :: m1[k] == m2[k]
    ensures m1 == m2
  {
    assert m1.Keys == m2.Keys;
  }

  /** The classification is the keyword slots with the fallback written into `pj1`. */
  lemma ClassificationOf(files: seq<Upload>, kw: SlotMap)
    requires kw == KeywordSlots(files)
    ensures Classification(files) ==
      kw[Pj1 := if Unused(files, NamesOf(kw)) != [] then Some(Unused(files, NamesOf(kw))[0]) else None]
  {
  }

  /** Writing back a slot's own contents changes nothing. */
  lemma KeepSlot(m: SlotMap, k: Slot)
    requires k in m
    ensures m[k := m[k]] == m
  {
  }

  /** A keyword slot after one more file, as `marca` leaves it. */
  lemma KeywordSlotStep(files: seq<Upload>, i: nat, k: Slot)
    requires i < |files|
    ensures KeywordSlot(files[..i + 1], k) ==
      if Claims(files[i], k) && KeywordSlot(files[..i], k).None? then Some(files[i])
      else KeywordSlot(files[..i], k)
  {
    var f := files[i];
    assert files[..i + 1] == files[..i] + [f];
    FirstClaimSnoc(files[..i], f, k);
    var before := FirstClaim(files[..i], k);
    if before.Some? {
      assert files[..i + 1][before.value] == files[..i][before.value];
    }
  }

  /** The slot dictionary as it starts: every slot empty. */
  function EmptySlots(): (m: SlotMap)
    ensures Total(m)
    ensures forall k :: m[k] == None
  {
    forall k: Slot ensures k in AllSlots { SlotsEnumerated(k); }
    map k | k in AllSlots :: None
  }

  /**
   * `marca`, applied to the slot file `f` asks for: the file goes into that
   * slot if it is still empty, and its name joins the names in use.
   */
  method Place(slots: SlotMap, used: set<string>, f: Upload) returns (slots': SlotMap, used': set<string>)
    requires Total(slots) && used == NamesOf(slots)
    ensures Total(slots') && used' == NamesOf(slots')
    ensures forall k :: slots'[k] == if Claims(f, k) && slots[k].None? then Some(f) else slots[k]
  {
    slots', used' := slots, used;
    var nome := NameOf(f);
    var sel := Selected(nome);
    if sel.Some? {
      var chave := sel.value;
      if slots[chave].None? {
        NamesOfPlace(slots, chave, f);
        slots' := slots[chave := Some(f)];
        used' := used + {nome};
      }
    }
  }

  /** `classificar_arquivos`: the slots and the keys of the slots left empty. */
  method Classify(files: seq<Upload>) returns (slots: SlotMap, missing: seq<Slot>)
    ensures slots == Classification(files)
    ensures Total(slots)
    ensures missing == Missing(slots)
  {
    slots := EmptySlots();
    var used: set<string> := {};
    for i := 0 to |files|
      invariant Total(slots)
      invariant forall k :: slots[k] == KeywordSlot(files[..i], k)
      invariant used == NamesOf(slots)
    {
      slots, used := Place(slots, used, files[i]);
      forall k ensures slots[k] == KeywordSlot(files[..i + 1], k) {
        KeywordSlotStep(files, i, k);
      }
    }
    assert files[..|files|] == files;
    SameSlots(slots, KeywordSlots(files));
    assert slots[Pj1].None?;
    var naoUsados := Unused(files, used);
    ClassificationOf(files, slots);
    if |naoUsados| > 0 && slots[Pj1].None? {
      slots := slots[Pj1 := Some(naoUsados[0])];
    } else {
      KeepSlot(slots, Pj1);
    }
    missing := Missing(slots);
  }

  /**
   * Each keyword slot is filled at most once, so it ends up with the first
   * file in upload order whose name asks for it, and stays empty exactly
   * when no file asks for it.
   */
  lemma KeywordSlotIsFirstClaim(files: seq<Upload>, k: Slot)
    requires k != Pj1
    ensures Classification(files)[k].None? <==> forall j :: 0 <= j < |files| ==> !Claims(files[j], k)
    ensures Classification(files)[k].Some? ==>
      exists i :: (0 <= i < |files| && Classification(files)[k] == Some(files[i]) && Claims(files[i], k) &&
        forall j :: 0 <= j < i ==> !Claims(files[j], k))
  {
    ClassificationOf(files, KeywordSlots(files));
    var r := FirstClaim(files, k);
    if r.Some? {
      assert Classification(files)[k] == Some(files[r.value]);
    }
  }

  /**
   * `pj1` never comes from a keyword: it holds the first file whose name is
   * not the name of a file placed by keyword, and is empty exactly when
   * every name is in use.
   */
  lemma FallbackIsFirstUnused(files: seq<Upload>)
    ensures Classification(files)[Pj1].Some? <==>
      exists i :: 0 <= i < |files| && NameOf(files[i]) !in NamesOf(KeywordSlots(files))
    ensures Classification(files)[Pj1].Some? ==>
      exists i :: (0 <= i < |files| && Classification(files)[Pj1] == Some(files[i]) &&
        NameOf(files[i]) !in NamesOf(KeywordSlots(files)) &&
        forall j :: 0 <= j < i ==> NameOf(files[j]) in NamesOf(KeywordSlots(files)))
  {
    var kw := KeywordSlots(files);
    var used := NamesOf(kw);
    ClassificationOf(files, kw);
    var u := Unused(files, used);
    if u != [] {
      UnusedHead(files, used);
      assert u[0] in u;
    } else {
      forall i | 0 <= i < |files| ensures NameOf(files[i]) in used {
        assert files[i] in files;
      }
    }
  }

  /** Every file in a slot is one of the uploaded files. */
  lemma PlacedFromInput(files: seq<Upload>, k: Slot)
    ensures Classification(files)[k].Some? ==> Classification(files)[k].value in files
  {
    var kw := KeywordSlots(files);
    ClassificationOf(files, kw);
    if k == Pj1 {
      var u := Unused(files, NamesOf(kw));
      if u != [] { assert u[0] in u; }
    } else {
      KeywordSlotIsFirstClaim(files, k);
    }
  }

  /** No file is placed in two slots. */
  lemma NoFileTwice(files: seq<Upload>, k1: Slot, k2: Slot)
    requires k1 != k2
    requires Classification(files)[k1].Some? && Classification(files)[k2].Some?
    ensures Classification(files)[k1].value != Classification(files)[k2].value
  {
    var m := Classification(files);
    var kw := KeywordSlots(files);
    ClassificationOf(files, kw);
    if k1 != Pj1 && k2 != Pj1 {
      KeywordSlotIsFirstClaim(files, k1);
      KeywordSlotIsFirstClaim(files, k2);
    } else {
      var k := if k1 == Pj1 then k2 else k1;
      var u := Unused(files, NamesOf(kw));
      assert m[Pj1] == Some(u[0]) && u[0] in u;
      assert NameOf(kw[k].value) in NamesOf(kw);
    }
  }

  /**
   * A file whose keyword slot is already taken is not counted as used, so
   * with a differently named second claimant it becomes the fallback.
   */
  lemma LateClaimantFallsBack(a: Upload, b: Upload, k: Slot)
    requires Claims(a, k) && Claims(b, k) && NameOf(a) != NameOf(b)
    ensures Classification([a, b])[k] == Some(a)
    ensures Classification([a, b])[Pj1] == Some(b)
  {
    var files := [a, b];
    var kw := KeywordSlots(files);
    ClassificationOf(files, kw);
    var used := NamesOf(kw);
    OnlyFirstPlaced(a, b, k);
    assert files[1..] == [b] && [b][1..] == [];
    assert Unused([b], used) == [b] + Unused([], used);
    assert Unused(files, used) == [] + Unused([b], used);
  }

  /** Of two files asking for the same slot, only the first is placed. */
  lemma OnlyFirstPlaced(a: Upload, b: Upload, k: Slot)
    requires Claims(a, k) && Claims(b, k)
    ensures NamesOf(KeywordSlots([a, b])) == {NameOf(a)}
  {
    var files := [a, b];
    var kw := KeywordSlots(files);
    assert kw[k] == Some(a);
    forall k' | kw[k'].Some? ensures kw[k'] == Some(a) {
      if k' != Pj1 {
        var i := FirstClaim(files, k').value;
        assert Claims(files[i], k');
        assert i == 0;
      }
    }
  }

  /** Two files of the same name both claim the slot, and `pj1` stays empty. */
  lemma SameNameLeavesNoFallback(a: Upload, b: Upload, k: Slot)
    requires Claims(a, k) && NameOf(a) == NameOf(b)
    ensures Classification([a, b])[k] == Some(a)
    ensures Classification([a, b])[Pj1] == None
  {
    var files := [a, b];
    var kw := KeywordSlots(files);
    ClassificationOf(files, kw);
    assert kw[k] == Some(a);
    var used := NamesOf(kw);
    assert NameOf(a) in used;
    assert files[1..] == [b] && [b][1..] == [];
    assert Unused([b], used) == [] + Unused([], used);
    assert Unused(files, used) == [] + Unused([b], used);
  }

  /** A name holding both "seguro" and "xpvp" goes to `seg` only. */
  lemma SeguroBeforeXpvp()
    ensures Selected("seguro xpvp.xlsx") == Some(Seg)
    ensures Matches("seguro xpvp.xlsx", CoXpvp)
  {
    var name := "seguro xpvp.xlsx";
    assert "seguro" <= name;
    ContainsAt(name, "xpvp");
    assert "xpvp" <= name[7..];
  }
}
